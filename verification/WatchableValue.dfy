/**
 The watchable value as it is written: a value and an intrusive list whose leaves hold the wakers.
 Every method performs one step of `WatchSpec`.
 */
module WatchableValue {
  import opened Basics
  import opened WatchSpec
  import L = IntrusiveList

  type Slot = Option<Waker>

  /** The closure of `set`: takes and fires the stored waker, and does not keep the leaf. */
  function WakeAll(): L.Closure<seq<Waker>, Slot> {
    (woken: seq<Waker>, slot: Slot) => L.Verdict(Fire(woken, slot), None, false)
  }

  lemma {:induction false} WakeAllFolds<N>(
      watches: map<N, Slot>, nodes: seq<N>, slots: seq<Slot>, woken: seq<Waker>)
    requires |nodes| == |slots|
    requires forall i :: 0 <= i < |nodes| ==> nodes[i] in watches && watches[nodes[i]] == slots[i]
    ensures var vs := L.Verdicts(WakeAll(), woken, slots);
            L.Kept(nodes, vs) == [] && forall i :: 0 <= i < |vs| ==> vs[i].value == None
    ensures L.FinalAcc(WakeAll(), woken, slots) == woken + Wakers(RungBy(watches, nodes))
    decreases |nodes|
  {
    if nodes == [] {
      assert woken + [] == woken;
    } else {
      var v, rest := L.Call(WakeAll(), woken, slots[0]), RungBy(watches, nodes[1..]);
      assert v == L.Verdict(Fire(woken, slots[0]), None, false);
      WakeAllFolds(watches, nodes[1..], slots[1..], v.acc);
      var vs := L.Verdicts(WakeAll(), v.acc, slots[1..]);
      assert ([v] + vs)[1..] == vs;
      FireFirst(slots[0], nodes[0], rest, woken);
    }
  }

  lemma FireFirst<N>(slot: Slot, node: N, rest: seq<Ring<N>>, woken: seq<Waker>)
    ensures Fire(woken, slot) + Wakers(rest)
            == woken + Wakers((if slot.Some? then [Ring(node, slot.value)] else []) + rest)
  {
    if slot.Some? {
      assert ([Ring(node, slot.value)] + rest)[1..] == rest;
      assert woken + ([slot.value] + Wakers(rest)) == woken + [slot.value] + Wakers(rest);
    } else {
      assert [] + rest == rest;
    }
  }

  /** What `filter` leaves behind is what `SetStep` says. */
  lemma {:induction false} WakeAllIsExact<N>(
      watches: map<N, Slot>, nodes: seq<N>, slots: seq<Slot>,
      left: seq<N>, woken: seq<Waker>, watches': map<N, Slot>)
    requires |nodes| == |slots|
    requires forall i :: 0 <= i < |nodes| ==> nodes[i] in watches && watches[nodes[i]] == slots[i]
    requires watches'.Keys == watches.Keys
    requires forall n :: n in watches && n !in nodes ==> watches'[n] == watches[n]
    requires var vs := L.Verdicts(WakeAll(), [], slots);
             && left == L.Kept(nodes, vs) && woken == L.FinalAcc(WakeAll(), [], slots)
             && forall i :: 0 <= i < |nodes| ==> watches'[nodes[i]] == vs[i].value
    ensures left == [] && woken == Wakers(RungBy(watches, nodes))
    ensures watches' == Silenced(watches, nodes)
  {
    WakeAllFolds(watches, nodes, slots, []);
    forall n | n in watches ensures watches'[n] == Silenced(watches, nodes)[n] {
      if n in nodes {
        var i :| 0 <= i < |nodes| && nodes[i] == n;
        assert watches'[n] == L.Verdicts(WakeAll(), [], slots)[i].value;
      }
    }
  }

  type WatchNode = L.Node<Slot>

  class WatchableValue<T> {
    var value: T
    const list: L.IntrusiveList<Slot>

    ghost function Watches(): map<WatchNode, Slot>
      reads list`leaves, list.leaves`typ
    {
      map n | n in list.leaves :: n.typ
    }

    ghost function Model(): Cell<T, WatchNode>
      reads this, list`leaves, list`elems, list.leaves`typ
    {
      Cell(value, Watches(), list.elems)
    }

    ghost predicate Valid()
      reads list, list.head, list.elems, list.leaves
    {
      list.Valid()
    }

    constructor (val: T)
      ensures Valid() && fresh(list) && fresh(list.head)
      ensures Model() == Cell(val, map[], [])
    {
      value := val;
      list := new L.IntrusiveList(None);
    }

    method Get() returns (val: T)
      ensures val == value
    {
      val := value;
    }

    /** The walk of `set`. */
    method WakeLinked() returns (woken: seq<Waker>)
      requires Valid()
      modifies list`elems, list.head`prev, list.head`next, list.leaves`prev, list.leaves`next, list.elems`typ
      ensures Valid() && list.elems == []
      ensures woken == Wakers(RungBy(old(Watches()), old(list.elems)))
      ensures Watches() == Silenced(old(Watches()), old(list.elems))
    {
      ghost var watches, elems, slots := Watches(), list.elems, list.Values();
      woken := list.Filter(WakeAll(), []);
      WakeAllIsExact(watches, elems, slots, list.elems, woken, Watches());
    }

    method Set(val: T) returns (woken: seq<Waker>)
      requires Valid()
      modifies this`value
      modifies list`elems, list.head`prev, list.head`next, list.leaves
      ensures Valid()
      ensures var e := SetStep(old(Model()), val); Model() == e.next && woken == Wakers(e.rung)
    {
      value := val;
      ghost var watches := Watches();
      assert watches == old(Watches());
      woken := WakeLinked();
    }

    method NewWatch() returns (node: WatchNode)
      requires Valid()
      modifies list`leaves
      ensures Valid() && fresh(node)
      ensures Model() == Step(old(Model()), Create(node)).next
    {
      node := list.NewLeaf(None);
      assert Watches() == old(Watches())[node := None];
    }

    /** `Drop` of the watch. */
    method DropWatch(node: WatchNode)
      requires Valid() && node in list.leaves
      modifies list`elems, list`leaves, list.head`prev, list.head`next, list.leaves`prev, list.leaves`next
      ensures Valid()
      ensures Model() == Step(old(Model()), Op.Drop(node)).next
    {
      list.DropLeaf(node);
      assert Watches() == old(Watches()) - {node};
    }

    /** Links the watch, so that the walk of `set` finds it, and stores the waker. */
    method Register(node: WatchNode, waker: Waker)
      requires Valid() && node in list.leaves
      modifies list`elems, list.head`prev, list.head`next, list.leaves`prev, list.leaves`next, node`typ
      ensures Valid()
      ensures Watches() == old(Watches())[node := Some(waker)]
      ensures list.elems == if node in old(list.elems) then old(list.elems) else old(list.elems) + [node]
    {
      list.Link(node);
      list.Store(node, Some(waker));
    }

    method WatchCheck(node: WatchNode, waker: Waker) returns (val: T)
      requires Valid() && node in list.leaves
      modifies list`elems, list.head`prev, list.head`next, list.leaves`prev, list.leaves`next, node`typ
      ensures Valid()
      ensures var e := Step(old(Model()), Op.WatchCheck(node, waker));
              Model() == e.next && e.result == Ready(val)
    {
      Register(node, waker);
      val := value;
    }

    method WatchPoll(node: WatchNode, waker: Waker) returns (r: Result<T>)
      requires Valid() && node in list.leaves
      modifies list`elems, list.head`prev, list.head`next, list.leaves`prev, list.leaves`next, node`typ
      ensures Valid()
      ensures var e := Step(old(Model()), Op.WatchPoll(node, waker));
              Model() == e.next && r == e.result
    {
      var ready := !node.IsLinked();
      Register(node, waker);
      r := if ready then Ready(value) else Pending;
    }
  }
}
