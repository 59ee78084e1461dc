/**
 The alarm clock as it is written: fields updated in place, over an intrusive list whose leaves hold the
 deadlines and the wakers.  Every method performs one step of `AlarmSpec`.
 */
module AlarmClock {
  import opened Basics
  import opened AlarmSpec
  import opened Sequences
  import L = IntrusiveList

  // ------------------------------------------------------------------------
  // What `advance` does in its walk over the list
  // ------------------------------------------------------------------------

  /** The state that the closure captures: the minimum so far, and the wakers fired so far. */
  datatype Sweep = Sweep(min: Option<int>, woken: seq<Waker>)

  function Visit(time: int, acc: Sweep, x: Alarm): L.Verdict<Sweep, Alarm> {
    match x.val
    case Some(at) =>
      if time >= at then L.Verdict(acc.(woken := Fire(acc.woken, x.waker)), x.(waker := None), false)
      else if acc.min.Some? then
        L.Verdict(if at < acc.min.value then acc.(min := Some(at)) else acc, x, true)
      else L.Verdict(acc.(min := Some(at)), x, true)
    case None => L.Verdict(acc.(woken := Fire(acc.woken, x.waker)), x.(waker := None), false)
  }

  function Visitor(time: int): L.Closure<Sweep, Alarm> {
    (acc: Sweep, x: Alarm) => Visit(time, acc, x)
  }

  lemma {:induction false} SweepKeeps<N>(
      alarms: map<N, Alarm>, nodes: seq<N>, vals: seq<Alarm>, time: int, acc: Sweep)
    requires |nodes| == |vals|
    requires forall i :: 0 <= i < |nodes| ==> nodes[i] in alarms && alarms[nodes[i]] == vals[i]
    ensures L.Kept(nodes, L.Verdicts(Visitor(time), acc, vals)) == StillArmed(alarms, nodes, time)
    decreases |nodes|
  {
    if nodes != [] {
      var v := L.Call(Visitor(time), acc, vals[0]);
      assert v == Visit(time, acc, vals[0]);
      SweepKeeps(alarms, nodes[1..], vals[1..], time, v.acc);
      assert ([v] + L.Verdicts(Visitor(time), v.acc, vals[1..]))[1..] == L.Verdicts(Visitor(time), v.acc, vals[1..]);
    }
  }

  lemma {:induction false} SweepSettles(vals: seq<Alarm>, time: int, acc: Sweep)
    ensures var vs := L.Verdicts(Visitor(time), acc, vals);
            forall i :: 0 <= i < |vs| ==> vs[i].value == if Due(vals[i], time) then vals[i].(waker := None) else vals[i]
    decreases |vals|
  {
    if vals != [] {
      var v := L.Call(Visitor(time), acc, vals[0]);
      assert v == Visit(time, acc, vals[0]);
      SweepSettles(vals[1..], time, v.acc);
    }
  }

  lemma {:induction false} SweepAdds<N>(
      alarms: map<N, Alarm>, nodes: seq<N>, vals: seq<Alarm>, time: int, acc: Sweep)
    requires |nodes| == |vals|
    requires forall i :: 0 <= i < |nodes| ==> nodes[i] in alarms && alarms[nodes[i]] == vals[i]
    ensures L.FinalAcc(Visitor(time), acc, vals)
            == Sweep(EarliestOf(alarms, StillArmed(alarms, nodes, time), acc.min),
                     acc.woken + Wakers(RungBy(alarms, nodes, time)))
    decreases |nodes|
  {
    if nodes == [] {
      assert acc.woken + [] == acc.woken;
    } else {
      var v := L.Call(Visitor(time), acc, vals[0]);
      assert v == Visit(time, acc, vals[0]);
      SweepAdds(alarms, nodes[1..], vals[1..], time, v.acc);
      var left, rung := StillArmed(alarms, nodes[1..], time), RungBy(alarms, nodes[1..], time);
      if Due(vals[0], time) {
        SweptDue(alarms, nodes, time, acc.woken);
      } else {
        assert ([nodes[0]] + left)[1..] == left;
        assert [] + rung == rung;
      }
    }
  }

  lemma {:induction false} SweptDue<N>(alarms: map<N, Alarm>, nodes: seq<N>, time: int, woken: seq<Waker>)
    requires nodes != [] && forall n :: n in nodes ==> n in alarms
    requires Due(alarms[nodes[0]], time)
    ensures StillArmed(alarms, nodes, time) == StillArmed(alarms, nodes[1..], time)
    ensures woken + Wakers(RungBy(alarms, nodes, time))
            == Fire(woken, alarms[nodes[0]].waker) + Wakers(RungBy(alarms, nodes[1..], time))
  {
    var rest := RungBy(alarms, nodes[1..], time);
    var w := alarms[nodes[0]].waker;
    assert [] + StillArmed(alarms, nodes[1..], time) == StillArmed(alarms, nodes[1..], time);
    if w.Some? {
      assert ([Ring(nodes[0], w.value)] + rest)[1..] == rest;
      assert woken + ([w.value] + Wakers(rest)) == woken + [w.value] + Wakers(rest);
    } else {
      assert [] + rest == rest;
    }
  }

  lemma {:induction false} SweepSilences<N>(
      alarms: map<N, Alarm>, nodes: seq<N>, vals: seq<Alarm>, time: int, alarms': map<N, Alarm>)
    requires |nodes| == |vals|
    requires forall i :: 0 <= i < |nodes| ==> nodes[i] in alarms && alarms[nodes[i]] == vals[i]
    requires alarms'.Keys == alarms.Keys
    requires forall n :: n in alarms && n !in nodes ==> alarms'[n] == alarms[n]
    requires forall i :: 0 <= i < |nodes| ==>
               alarms'[nodes[i]] == if Due(vals[i], time) then vals[i].(waker := None) else vals[i]
    ensures alarms' == Silenced(alarms, nodes, time)
  {
    forall n | n in alarms ensures alarms'[n] == Silenced(alarms, nodes, time)[n] {
      if n in nodes {
        var i :| 0 <= i < |nodes| && nodes[i] == n;
      }
    }
  }

  /** What `filter` leaves behind is what `AdvanceStep` says. */
  lemma {:induction false} SweepIsExact<N>(
      alarms: map<N, Alarm>, nodes: seq<N>, vals: seq<Alarm>, time: int,
      left: seq<N>, sweep: Sweep, alarms': map<N, Alarm>)
    requires |nodes| == |vals|
    requires forall i :: 0 <= i < |nodes| ==> nodes[i] in alarms && alarms[nodes[i]] == vals[i]
    requires alarms'.Keys == alarms.Keys
    requires forall n :: n in alarms && n !in nodes ==> alarms'[n] == alarms[n]
    requires var vs := L.Verdicts(Visitor(time), Sweep(None, []), vals);
             && left == L.Kept(nodes, vs) && sweep == L.FinalAcc(Visitor(time), Sweep(None, []), vals)
             && forall i :: 0 <= i < |nodes| ==> alarms'[nodes[i]] == vs[i].value
    ensures left == StillArmed(alarms, nodes, time)
    ensures sweep == Sweep(EarliestOf(alarms, left, None), Wakers(RungBy(alarms, nodes, time)))
    ensures alarms' == Silenced(alarms, nodes, time)
  {
    var start := Sweep(None, []);
    SweepKeeps(alarms, nodes, vals, time, start);
    SweepAdds(alarms, nodes, vals, time, start);
    SweepSettles(vals, time, start);
    SweepSilences(alarms, nodes, vals, time, alarms');
  }

  // ------------------------------------------------------------------------
  // The clock
  // ------------------------------------------------------------------------

  type AlarmNode = L.Node<Alarm>

  class AlarmClock {
    var time: int
    var externalThreshold: Option<int>
    var externalWaker: Option<Waker>
    const list: L.IntrusiveList<Alarm>

    ghost function Alarms(): map<AlarmNode, Alarm>
      reads list`leaves, list.leaves`typ
    {
      map n | n in list.leaves :: n.typ
    }

    ghost function Model(): Clock<AlarmNode>
      reads this, list`leaves, list`elems, list.leaves`typ
    {
      Clock(time, externalThreshold, externalWaker, Alarms(), list.elems)
    }

    ghost predicate Valid()
      reads list, list.head, list.elems, list.leaves
    {
      list.Valid()
    }

    constructor (time: int)
      ensures Valid() && fresh(list) && fresh(list.head)
      ensures Model() == Clock(time, None, None, map[], [])
    {
      this.time := time;
      externalThreshold, externalWaker := None, None;
      list := new L.IntrusiveList(Alarm(None, None));
    }

    method Get() returns (t: int)
      ensures t == time
    {
      t := time;
    }

    /** The walk of `advance`. */
    method WakeDue() returns (sweep: Sweep)
      requires Valid()
      modifies list`elems, list.head`prev, list.head`next, list.leaves`prev, list.leaves`next, list.elems`typ
      ensures Valid()
      ensures list.elems == StillArmed(old(Alarms()), old(list.elems), time)
      ensures sweep.min == EarliestOf(old(Alarms()), list.elems, None)
      ensures sweep.woken == Wakers(RungBy(old(Alarms()), old(list.elems), time))
      ensures Alarms() == Silenced(old(Alarms()), old(list.elems), time)
    {
      ghost var alarms, elems, vals := Alarms(), list.elems, list.Values();
      sweep := list.Filter(Visitor(time), Sweep(None, []));
      SweepIsExact(alarms, elems, vals, time, list.elems, sweep, Alarms());
    }

    method Advance(newTime: int) returns (min: Option<int>, woken: seq<Waker>)
      requires Valid()
      modifies this`time, this`externalThreshold
      modifies list`elems, list.head`prev, list.head`next, list.leaves
      ensures Valid()
      ensures var e := AdvanceStep(old(Model()), newTime);
              Model() == e.next && e.result == Earliest(min) && woken == Wakers(e.rung)
    {
      if newTime > time {
        time := newTime;
      }
      externalThreshold := None;
      ghost var alarms := Alarms();
      assert alarms == old(Alarms());
      var sweep := WakeDue();
      return sweep.min, sweep.woken;
    }

    method ExternalPollNewAlarm(waker: Waker, wakeThreshold: Option<int>)
      requires Valid()
      modifies this`externalThreshold, this`externalWaker
      ensures Valid()
      ensures Model() == Step(old(Model()), Op.PollNewAlarm(waker, wakeThreshold)).next
    {
      externalThreshold := wakeThreshold;
      externalWaker := Some(waker);
    }

    method NewAlarm(wakeAt: Option<int>) returns (node: AlarmNode)
      requires Valid()
      modifies list`leaves
      ensures Valid() && fresh(node)
      ensures Model() == Step(old(Model()), Op.Create(node, wakeAt)).next
    {
      node := list.NewLeaf(Alarm(wakeAt, None));
      assert Alarms() == old(Alarms())[node := Alarm(wakeAt, None)];
    }

    method UnlinkAlarm(node: AlarmNode)
      requires Valid() && node in list.leaves
      modifies list`elems, list.head`prev, list.head`next, list.leaves`prev, list.leaves`next
      ensures Valid() && Model() == old(Model()).(armed := Remove(old(list.elems), node))
      ensures node !in list.elems
    {
      list.Unlink(node);
    }

    method SetAlarm(node: AlarmNode, wakeAt: Option<int>)
      requires Valid() && node in list.leaves
      modifies list`elems, list.head`prev, list.head`next, list.leaves
      ensures Valid()
      ensures Model() == Step(old(Model()), Op.SetAlarm(node, wakeAt)).next
    {
      UnlinkAlarm(node);
      list.Store(node, node.typ.(waker := None));
      list.Store(node, node.typ.(val := wakeAt));
      assert Alarms() == old(Alarms())[node := Alarm(wakeAt, None)];
    }

    /** `Drop` of the alarm. */
    method DropAlarm(node: AlarmNode)
      requires Valid() && node in list.leaves
      modifies list`elems, list`leaves, list.head`prev, list.head`next, list.leaves`prev, list.leaves`next
      ensures Valid()
      ensures Model() == Step(old(Model()), Op.Drop(node)).next
    {
      list.DropLeaf(node);
      assert Alarms() == old(Alarms()) - {node};
    }

    /** Stores the waker and links the alarm, so that the walk of `advance` finds it. */
    method Arm(node: AlarmNode, waker: Waker)
      requires Valid() && node in list.leaves
      modifies list`elems, list.head`prev, list.head`next, list.leaves`prev, list.leaves`next, node`typ
      ensures Valid()
      ensures Alarms() == old(Alarms())[node := old(node.typ).(waker := Some(waker))]
      ensures list.elems == if node in old(list.elems) then old(list.elems) else old(list.elems) + [node]
    {
      list.Store(node, node.typ.(waker := Some(waker)));
      assert Alarms() == old(Alarms())[node := node.typ];
      list.Link(node);
    }

    method AlarmPoll(node: AlarmNode, waker: Waker) returns (ready: bool, told: Option<Waker>)
      requires Valid() && node in list.leaves
      modifies this`externalThreshold, this`externalWaker
      modifies list`elems, list.head`prev, list.head`next, list.leaves
      ensures Valid()
      ensures var e := PollStep(old(Model()), node, waker);
              Model() == e.next && told == e.told && ready == (e.result == Ready)
    {
      told := None;
      match node.typ.val {
        case None =>
          UnlinkAlarm(node);
          return false, None;
        case Some(alarm) =>
          if time >= alarm {
            UnlinkAlarm(node);
            return true, None;
          } else if externalThreshold.Some? {
            if alarm < externalThreshold.value {
              externalThreshold := None;
              told, externalWaker := externalWaker, None;
            }
          } else {
            told, externalWaker := externalWaker, None;
          }
      }
      Arm(node, waker);
      ready := false;
    }
  }
}
