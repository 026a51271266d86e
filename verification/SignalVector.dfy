/** Sample vectors with head room in front of the useful data, for filter
    history. Complex samples are pairs of floats. */
module SignalVectors {

  class SignalVector {
    const data: array<real>
    const start: nat
    const size: nat

    ghost predicate Valid() {
      data.Length == 2 * (start + size)
    }

    /** The head-room constructor; `Complex()` is zero. */
    constructor (size: nat, start: nat)
      ensures Valid() && this.size == size && this.start == start && fresh(data)
      ensures data[..] == seq(2 * (start + size), _ => 0.0)
    {
      data := new real[2 * (start + size)](_ => 0.0);
      this.start, this.size := start, size;
    }

    /** Overwrites the useful data. */
    method Fill(block: seq<real>)
      requires Valid() && |block| == 2 * size
      modifies data
      ensures data[..] == old(data[..2 * start]) + block
    {
      forall i | 0 <= i < |block| {
        data[2 * start + i] := block[i];
      }
    }

    /** Moves the end of the data into the head room. The regions overlap when
        there is more head room than data; copying forward is right even then. */
    method UpdateHistory() returns (num: nat)
      requires Valid()
      modifies data
      ensures num == start
      ensures data[..2 * start] == old(data[2 * size..]) && data[2 * start..] == old(data[2 * start..])
    {
      num := start;
      for i := 0 to num
        invariant forall k :: 0 <= k < 2 * i ==> data[k] == old(data[2 * size + k])
        invariant forall k :: 2 * i <= k < data.Length ==> data[k] == old(data[k])
      {
        data[2 * i] := data[2 * (start + size - num + i)];
        data[2 * i + 1] := data[2 * (start + size - num + i) + 1];
      }
    }
  }
}
