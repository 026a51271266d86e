/** The FIFO under the interthread queues: a linked list of nodes that are never
    given back, but kept on a second list for the next item. */
module PointerFifos {
  import opened Wrappers

  class ListNode<T> {
    var next: ListNode?<T>
    var data: Option<T>

    constructor ()
      ensures next == null && data == None
    {
      next, data := null, None;
    }
  }

  /** Node `i` of a list, or the null pointer at its end. */
  function NodeAt<T>(nodes: seq<ListNode<T>>, i: nat): ListNode?<T> {
    if i < |nodes| then nodes[i] else null
  }

  /** `nodes` are the nodes from `first` on, up to the end of its list, when
      `nexts` are their links. */
  ghost predicate Linked<T>(nodes: seq<ListNode<T>>, nexts: seq<ListNode?<T>>, first: ListNode?<T>) {
    && |nexts| == |nodes| && first == NodeAt(nodes, 0)
    && forall i :: 0 <= i < |nodes| ==> nexts[i] == NodeAt(nodes, i + 1)
  }

  ghost function Nexts<T>(nodes: seq<ListNode<T>>): (nexts: seq<ListNode?<T>>)
    reads nodes
    ensures |nexts| == |nodes| && forall i :: 0 <= i < |nodes| ==> nexts[i] == nodes[i].next
  {
    seq(|nodes|, i requires 0 <= i < |nodes| reads nodes => nodes[i].next)
  }

  ghost predicate Chain<T>(nodes: seq<ListNode<T>>, first: ListNode?<T>)
    reads nodes
  {
    Linked(nodes, Nexts(nodes), first)
  }

  /** The items in a list of nodes. A null pointer is an item like any other. */
  ghost function Items<T>(nodes: seq<ListNode<T>>): (items: seq<Option<T>>)
    reads nodes
    ensures |items| == |nodes| && forall i :: 0 <= i < |nodes| ==> items[i] == nodes[i].data
  {
    seq(|nodes|, i requires 0 <= i < |nodes| reads nodes => nodes[i].data)
  }

  lemma ChainKept<T>(s: seq<ListNode<T>>, nexts: seq<ListNode?<T>>, first: ListNode?<T>)
    requires Linked(s, nexts, first) && forall i :: 0 <= i < |s| ==> s[i].next == nexts[i]
    ensures Chain(s, first)
  {
  }

  lemma ChainAtBack<T>(s: seq<ListNode<T>>, nexts: seq<ListNode?<T>>, first: ListNode?<T>, node: ListNode<T>)
    requires Linked(s, nexts, first) && forall i :: 0 <= i < |s| - 1 ==> s[i].next == nexts[i]
    requires |s| > 0 ==> s[|s| - 1].next == node
    requires node.next == null
    ensures Chain(s + [node], if |s| == 0 then node else first)
  {
    var longer := s + [node];
    forall i | 0 <= i < |longer|
      ensures longer[i].next == NodeAt(longer, i + 1)
    {
      if i < |s| - 1 {
        assert nexts[i] == NodeAt(s, i + 1);
      }
    }
  }

  lemma ChainAtFront<T>(s: seq<ListNode<T>>, node: ListNode<T>)
    ensures Chain([node] + s, node) <==> Chain(s, node.next)
  {
    LinkedAtFront(s, Nexts(s), node, node.next);
    assert Nexts([node] + s) == [node.next] + Nexts(s);
  }

  lemma LinkedAtFront<T>(s: seq<ListNode<T>>, nexts: seq<ListNode?<T>>, node: ListNode<T>, next: ListNode?<T>)
    requires |nexts| == |s|
    ensures Linked([node] + s, [next] + nexts, node) <==> Linked(s, nexts, next)
  {
    var longer, links := [node] + s, [next] + nexts;
    if Linked(longer, links, node) {
      assert links[0] == NodeAt(longer, 1);
      forall i | 0 <= i < |s|
        ensures nexts[i] == NodeAt(s, i + 1)
      {
        assert links[i + 1] == NodeAt(longer, i + 1 + 1);
      }
    }
  }

  lemma ChainEnds<T>(s: seq<ListNode<T>>, first: ListNode?<T>)
    requires Chain(s, first)
    ensures first == null <==> s == []
    ensures s != [] ==> first == s[0]
  {
  }

  lemma ItemsJoin<T>(s: seq<ListNode<T>>, node: ListNode<T>)
    ensures Items(s + [node]) == Items(s) + [node.data]
    ensures Items([node] + s) == [node.data] + Items(s)
  {
  }

  /** Every node ever allocated is on exactly one of the two lists, once. */
  ghost predicate Owned<T>(list: seq<ListNode<T>>, free: seq<ListNode<T>>, nodes: set<ListNode<T>>) {
    multiset(list + free) == multiset(nodes)
  }

  lemma NodesApart<T>(s: seq<ListNode<T>>, nodes: set<ListNode<T>>, i: int, j: int)
    requires multiset(s) == multiset(nodes) && 0 <= i < j < |s|
    ensures s[i] != s[j]
  {
    assert s == s[..i] + [s[i]] + s[i + 1..j] + [s[j]] + s[j + 1..];
    assert multiset(s) == multiset(s[..i]) + multiset{s[i]} + multiset(s[i + 1..j]) + multiset{s[j]}
           + multiset(s[j + 1..]);
    assert multiset(s)[s[i]] <= 1;
  }

  /** No node twice in the list, and none of them free. */
  lemma OwnedApart<T>(list: seq<ListNode<T>>, free: seq<ListNode<T>>, nodes: set<ListNode<T>>)
    requires Owned(list, free, nodes)
    ensures forall i, j :: 0 <= i < j < |list| ==> list[i] != list[j]
    ensures forall i, j :: 0 <= i < j < |free| ==> free[i] != free[j]
    ensures forall i, j :: 0 <= i < |list| && 0 <= j < |free| ==> list[i] != free[j]
    ensures |nodes| == |list| + |free|
    ensures (forall i :: 0 <= i < |list| ==> list[i] in nodes) && (forall i :: 0 <= i < |free| ==> free[i] in nodes)
  {
    var all := list + free;
    forall i, j | 0 <= i < j < |all|
      ensures all[i] != all[j]
    {
      NodesApart(all, nodes, i, j);
    }
    assert |multiset(all)| == |all| && |multiset(nodes)| == |nodes|;
    forall i | 0 <= i < |all|
      ensures all[i] in nodes
    {
      assert all[i] in multiset(all);
    }
    assert forall i :: 0 <= i < |list| ==> list[i] == all[i];
    assert forall i :: 0 <= i < |free| ==> free[i] == all[|list| + i];
  }

  /** A node between the lists is not on them. */
  lemma HeldApart<T>(list: seq<ListNode<T>>, free: seq<ListNode<T>>, nodes: set<ListNode<T>>, node: ListNode<T>)
    requires Owned(list, [node] + free, nodes)
    ensures forall i :: 0 <= i < |list| ==> list[i] != node
    ensures forall i :: 0 <= i < |free| ==> free[i] != node
    ensures forall i, j :: 0 <= i < j < |list| ==> list[i] != list[j]
    ensures forall i, j :: 0 <= i < |list| && 0 <= j < |free| ==> list[i] != free[j]
  {
    hide Owned;
    var more := [node] + free;
    OwnedApart(list, more, nodes);
    assert forall i :: 0 <= i < |free| ==> free[i] == more[i + 1];
    assert more[0] == node;
  }

  lemma OwnedCount<T>(list: seq<ListNode<T>>, free: seq<ListNode<T>>, nodes: set<ListNode<T>>)
    requires Owned(list, free, nodes)
    ensures |nodes| == |list| + |free|
    ensures free != [] ==> free[0] in nodes
  {
    hide Owned;
    OwnedApart(list, free, nodes);
  }

  lemma OwnedNew<T>(list: seq<ListNode<T>>, nodes: set<ListNode<T>>, node: ListNode<T>)
    requires Owned(list, [], nodes) && node !in nodes
    ensures Owned(list, [node], nodes + {node})
  {
    assert list + [] == list;
    assert multiset(nodes + {node}) == multiset(nodes) + multiset{node};
  }

  /** A node may move between the head of the free list and either end of the
      other. */
  lemma OwnedMoves<T>(list: seq<ListNode<T>>, free: seq<ListNode<T>>, nodes: set<ListNode<T>>, node: ListNode<T>)
    ensures Owned(list, [node] + free, nodes) <==> Owned(list + [node], free, nodes)
    ensures Owned(list, [node] + free, nodes) <==> Owned([node] + list, free, nodes)
  {
    assert list + ([node] + free) == list + [node] + free;
    assert ([node] + list) + free == [node] + (list + free);
    var atFree: seq<ListNode<T>>, atHead: seq<ListNode<T>> := list + ([node] + free), [node] + (list + free);
    assert multiset(atFree) == multiset(atHead);
  }

  function Max(a: nat, b: nat): nat {
    if a < b then b else a
  }

  class PointerFifo<T> {
    var head: ListNode?<T>
    var tail: ListNode?<T>
    var freeList: ListNode?<T>
    var size: nat

    /** The nodes of the two lists, all nodes ever allocated, and the most items
        the FIFO has ever held. */
    ghost var list: seq<ListNode<T>>
    ghost var free: seq<ListNode<T>>
    ghost var nodes: set<ListNode<T>>
    ghost var peak: nat

    ghost predicate Valid()
      reads this, nodes, list, free
    {
      Owned(list, free, nodes) && Chain(list, head) && Chain(free, freeList) && Ends() && |nodes| == peak
    }

    ghost predicate Ends()
      reads this`tail, this`size, this`list
    {
      tail == (if |list| == 0 then null else list[|list| - 1]) && size == |list|
    }

    /** Between two lists: `node` is on neither. */
    ghost predicate Holding(node: ListNode<T>)
      reads this, list, free
    {
      Owned(list, [node] + free, nodes) && Chain(list, head) && Chain(free, freeList) && Ends()
    }

    ghost function Contents(): (items: seq<Option<T>>)
      reads this, list
    {
      Items(list)
    }

    constructor ()
      ensures Valid() && Contents() == [] && nodes == {} && peak == 0
    {
      head, tail, freeList, size := null, null, null, 0;
      list, free, nodes, peak := [], [], {}, 0;
    }

    /** A node for the next item: from the free list if it has one. */
    method Allocate() returns (node: ListNode<T>)
      requires Valid()
      modifies this`freeList, this`nodes, this`free
      ensures Holding(node) && (node in old(nodes) || fresh(node))
      ensures nodes >= old(nodes) && fresh(nodes - old(nodes)) && |nodes| == Max(old(|nodes|), |list| + 1)
    {
      hide Owned, Chain;
      OwnedCount(list, free, nodes);
      ChainEnds(free, freeList);
      if freeList == null {
        node := new ListNode();
        assert [node] + free == [node];
        OwnedNew(list, nodes, node);
        nodes := nodes + {node};
        return;
      }
      node := freeList;
      assert free == [node] + free[1..];
      ChainAtFront(free[1..], node);
      freeList := freeList.next;
      free := free[1..];
    }

    /** Puts an item at the back. New nodes are needed only when there are more
        items than ever before. */
    method Put(val: Option<T>)
      requires Valid()
      modifies this, nodes
      ensures Valid() && Contents() == old(Contents()) + [val]
      ensures peak == Max(old(peak), |Contents()|) && nodes >= old(nodes) && fresh(nodes - old(nodes))
    {
      hide Owned, Chain, Items;
      OwnedApart(list, free, nodes);
      var node := Allocate();
      LinkAtBack(node, val);
      peak := Max(peak, |list|);
    }

    method LinkAtBack(node: ListNode<T>, val: Option<T>)
      requires Holding(node)
      modifies this`head, this`tail, this`size, this`list, node, list
      ensures Chain(list, head) && Chain(free, freeList) && Ends() && Owned(list, free, nodes)
      ensures Contents() == old(Contents()) + [val]
    {
      hide Owned, Linked;
      ghost var nexts, freeNexts := Nexts(list), Nexts(free);
      HeldApart(list, free, nodes, node);
      OwnedMoves(list, free, nodes, node);
      ChainEnds(list, head);
      node.data := val;
      node.next := null;
      if tail != null {
        tail.next := node;
      }
      ChainKept(free, freeNexts, freeList);
      ChainAtBack(list, nexts, head, node);
      assert Items(list) == old(Items(list));
      ItemsJoin(list, node);
      tail := node;
      if head == null {
        head := node;
      }
      size := size + 1;
      list := list + [node];
    }

    /** Puts an item at the front. */
    method PushFront(val: Option<T>)
      requires Valid()
      modifies this, nodes
      ensures Valid() && Contents() == [val] + old(Contents())
      ensures peak == Max(old(peak), |Contents()|) && nodes >= old(nodes) && fresh(nodes - old(nodes))
    {
      hide Owned, Chain, Items;
      var node := Allocate();
      LinkAtFront(node, val);
      peak := Max(peak, |list|);
    }

    method LinkAtFront(node: ListNode<T>, val: Option<T>)
      requires Holding(node)
      modifies this`head, this`tail, this`size, this`list, node
      ensures Chain(list, head) && Chain(free, freeList) && Ends() && Owned(list, free, nodes)
      ensures Contents() == [val] + old(Contents())
    {
      hide Owned, Linked;
      ghost var nexts, freeNexts := Nexts(list), Nexts(free);
      HeldApart(list, free, nodes, node);
      OwnedMoves(list, free, nodes, node);
      node.data := val;
      node.next := head;
      ChainKept(free, freeNexts, freeList);
      ChainKept(list, nexts, head);
      assert Items(list) == old(Items(list));
      ChainAtFront(list, node);
      ItemsJoin(list, node);
      head := node;
      if tail == null {
        tail := node;
      }
      size := size + 1;
      list := [node] + list;
    }

    /** Back to the free list; `rest` is what remains of the other one. */
    method Release(node: ListNode<T>, ghost rest: seq<ListNode<T>>, ghost next: ListNode?<T>)
      requires Owned(rest, [node] + free, nodes) && Chain(rest, next) && Chain(free, freeList)
      modifies this`freeList, this`free, node`next
      ensures Owned(rest, free, nodes) && Chain(rest, next) && Chain(free, freeList)
      ensures Items(rest) == old(Items(rest))
    {
      hide Owned, Linked;
      HeldApart(rest, free, nodes, node);
      ghost var nexts, freeNexts := Nexts(rest), Nexts(free);
      node.next := freeList;
      ChainKept(rest, nexts, next);
      ChainKept(free, freeNexts, freeList);
      ChainAtFront(free, node);
      freeList := node;
      free := [node] + free;
      assert Items(rest) == old(Items(rest));
    }

    /** Takes the item at the front; null when there is none. */
    method Get() returns (val: Option<T>)
      requires Valid()
      modifies this, nodes
      ensures Valid() && nodes == old(nodes) && peak == old(peak)
      ensures if old(Contents()) == [] then val == None && Contents() == []
              else val == old(Contents())[0] && Contents() == old(Contents())[1..]
    {
      hide Owned, Chain, Items;
      ChainEnds(list, head);
      if head == null {
        return None;
      }
      ghost var rest := list[1..];
      OwnedApart(list, free, nodes);
      assert list == [head] + rest;
      ChainAtFront(rest, head);
      ItemsJoin(rest, head);
      OwnedMoves(rest, free, nodes, head);
      var next := head.next;
      ChainEnds(rest, next);
      val := head.data;
      Release(head, rest, next);
      head := next;
      if next == null {
        tail := null;
      }
      size := size - 1;
      list := rest;
    }

    /** The item at the front, left where it is. */
    method Front() returns (val: Option<T>)
      requires Valid()
      ensures val == if Contents() == [] then None else Contents()[0]
    {
      val := if head != null then head.data else None;
    }
  }
}
