/** The 157-156-156-156 pattern of symbols per timeslot, section 5.7 of
    3GPP TS 45.010. */
module SlotPattern {
  const SYMBOLS_PER_SLOT: int := 156

  /** Samples in the burst of timeslot `tn`, at one or four samples per symbol. */
  function BurstLen(sps: int, tn: int): int {
    if sps == 4 then 625 else SYMBOLS_PER_SLOT + if tn % 4 == 0 then 1 else 0
  }
}
