/**
 The chain of futures inside a machine.  Each link holds one task; the link's depth is the task's
 bit in every mask.  A future is represented by its presence only: whether it completes when it is
 polled is decided by the caller, as an arbitrary set of tasks that are ready in this round.
 */
module FuturesChain {
  import opened MaskBits

  /** The tasks polled by one walk over the links 1..`depth`, in the order of the walk. */
  function Walk(live: set<nat>, mask: set<nat>, depth: nat): seq<nat> {
    if depth == 0 then []
    else if depth in live && depth in mask then Walk(live, mask, depth - 1) + [depth]
    else Walk(live, mask, depth - 1)
  }

  ghost predicate Ascending(s: seq<nat>) {
    forall i, j :: 0 <= i < j < |s| ==> s[i] < s[j]
  }

  /** A walk polls exactly the selected live tasks, each once, in increasing depth. */
  lemma {:induction false} WalkIsExact(live: set<nat>, mask: set<nat>, depth: nat)
    ensures forall n: nat {:trigger n in Walk(live, mask, depth)} ::
              n in Walk(live, mask, depth) <==> n in live && n in mask && 1 <= n <= depth
    ensures Ascending(Walk(live, mask, depth))
    decreases depth
  {
    if depth > 0 {
      WalkIsExact(live, mask, depth - 1);
      var shallower := Walk(live, mask, depth - 1);
      assert forall i :: 0 <= i < |shallower| ==> shallower[i] in shallower;
    }
  }

  /**
   The chain with `depth` tasks.  The links are nested structs of statically known shape; slot `d`
   of `futs` is the `fut` field of the link at depth `d` (slot 0, the base of the chain, is unused).
   */
  class Chain {
    const depth: nat
    const futs: array<bool>

    ghost predicate Valid() {
      depth < MAX_TASKS && futs.Length == depth + 1
    }

    /** The tasks at depth 1..`d` that still hold a future. */
    ghost function LiveUpTo(d: nat): set<nat>
      requires Valid() && d <= depth
      reads futs
    {
      set n: nat | 1 <= n <= d && futs[n]
    }

    ghost function Live(): set<nat>
      requires Valid()
      reads futs
    {
      LiveUpTo(depth)
    }

    lemma LiveSplits(d: nat)
      requires Valid() && 1 <= d <= depth
      ensures LiveUpTo(d) == LiveUpTo(d - 1) + if futs[d] then {d} else {}
    {
    }

    /** `new` followed by `init`: every task holds its future. */
    constructor (depth: nat)
      requires depth < MAX_TASKS
      ensures Valid() && this.depth == depth && fresh(futs)
      ensures forall n :: n in Live() <==> 1 <= n <= depth
    {
      this.depth := depth;
      futs := new bool[depth + 1](_ => true);
    }

    /**
     The link at depth `d`: polls its task if it is live and selected.  `alive` are the tasks of the
     shallower links that still hold a future, and `r` adds this one.
     */
    method VisitLink(d: nat, mask: bv32, ready: set<nat>, alive: bv32) returns (r: bv32, polls: bool)
      requires Valid() && 1 <= d <= depth
      requires Tasks(alive) == LiveUpTo(d - 1) && !Ticks(alive)
      modifies futs
      ensures polls <==> d in old(Live()) && d in Tasks(mask)
      ensures futs[d] == (old(futs[d]) && !(d in Tasks(mask) && d in ready))
      ensures forall n :: 0 <= n <= depth && n != d ==> futs[n] == old(futs[n])
      ensures LiveUpTo(d) == old(LiveUpTo(d - 1)) + if futs[d] then {d} else {}
      ensures Tasks(r) == LiveUpTo(d) && !Ticks(r)
    {
      r, polls := alive, false;
      ghost var shallower := LiveUpTo(d - 1);
      if futs[d] {
        var selected := IsSelected(mask, d);
        var withThis := WithTask(alive, d);
        if !selected {
          r := withThis;
        } else {
          polls := true;
          if d in ready {
            futs[d] := false;
          } else {
            r := withThis;
          }
        }
      }
      assert LiveUpTo(d - 1) == shallower;
      LiveSplits(d);
    }

    /**
     Polls the tasks of the links 1..`d` selected by `mask`, shallowest first.  `ready` is the set
     of tasks whose future completes if it is polled now; `polled` records which futures were polled.
     */
    method PollLink(d: nat, mask: bv32, ready: set<nat>) returns (alive: bv32, polled: seq<nat>)
      requires Valid() && d <= depth
      modifies futs
      ensures LiveUpTo(d) == old(LiveUpTo(d)) - Tasks(mask) * ready
      ensures forall n :: d < n <= depth ==> futs[n] == old(futs[n])
      ensures polled == Walk(old(Live()), Tasks(mask), d)
      ensures Tasks(alive) == LiveUpTo(d) && !Ticks(alive)
    {
      if d == 0 {
        ConstantWords();
        return 0, [];
      }
      LiveSplits(d);
      alive, polled := PollLink(d - 1, mask, ready);
      var polls;
      alive, polls := VisitLink(d, mask, ready, alive);
      if polls {
        polled := polled + [d];
      }
    }

    /** One walk over the whole chain. */
    method Poll(mask: bv32, ready: set<nat>) returns (alive: bv32, polled: seq<nat>)
      requires Valid()
      modifies futs
      ensures Live() == old(Live()) - Tasks(mask) * ready
      ensures polled == Walk(old(Live()), Tasks(mask), depth)
      ensures Tasks(alive) == Live() && !Ticks(alive)
    {
      alive, polled := PollLink(depth, mask, ready);
    }
  }
}
