/**
 The intrusive circular doubly-linked list: nodes that carry their own links, and a head node that
 serves as the sentinel.  The head's own links are created when the first leaf is linked.

 The abstract value of a list is the sequence `elems` of its linked leaves.  `leaves` are all the
 leaves that target this head, linked or not.
 */
module IntrusiveList {
  import opened Sequences

  class Node<V> {
    var prev: Node?<V>
    var next: Node?<V>
    var typ: V
    /** The head this leaf belongs to; `null` for a head. */
    const target: Node?<V>

    constructor (typ: V, target: Node?<V>)
      ensures prev == null && next == null && this.typ == typ && this.target == target
    {
      prev, next := null, null;
      this.typ, this.target := typ, target;
    }

    predicate IsLinked()
      reads this
    {
      prev != null && next != null
    }
  }

  ghost function ValuesOf<V>(nodes: seq<Node<V>>): (vs: seq<V>)
    reads nodes
    ensures |vs| == |nodes|
    ensures forall i :: 0 <= i < |vs| ==> vs[i] == nodes[i].typ
  {
    if nodes == [] then [] else [nodes[0].typ] + ValuesOf(nodes[1..])
  }

  // ------------------------------------------------------------------------
  // The closure given to `filter`
  // ------------------------------------------------------------------------

  /**
   One call of the closure: from the captured state and the leaf's value to the new captured state,
   the leaf's new value, and whether the leaf is kept.
   */
  datatype Verdict<A, V> = Verdict(acc: A, value: V, keep: bool)

  type Closure<!A, !V> = (A, V) -> Verdict<A, V>

  function Call<A, V>(f: Closure<A, V>, acc: A, value: V): Verdict<A, V> {
    f(acc, value)
  }

  /** The calls made for the values `vs`, in order. */
  function Verdicts<A, V>(f: Closure<A, V>, acc: A, vs: seq<V>): (r: seq<Verdict<A, V>>)
    ensures |r| == |vs|
  {
    if vs == [] then []
    else
      var v := Call(f, acc, vs[0]);
      [v] + Verdicts(f, v.acc, vs[1..])
  }

  function FinalAcc<A, V>(f: Closure<A, V>, acc: A, vs: seq<V>): A {
    if vs == [] then acc else FinalAcc(f, Call(f, acc, vs[0]).acc, vs[1..])
  }

  /** The elements whose verdict is to keep them, in order. */
  function Kept<A, V, N>(nodes: seq<N>, vs: seq<Verdict<A, V>>): seq<N>
    requires |nodes| == |vs|
  {
    if nodes == [] then []
    else (if vs[0].keep then [nodes[0]] else []) + Kept(nodes[1..], vs[1..])
  }

  /** The first `i` of the values have been visited, leaving the state `acc` and the elements `kept`. */
  ghost predicate Visited<A, V, N>(
      f: Closure<A, V>, acc0: A, nodes: seq<N>, vals: seq<V>, acc: A, kept: seq<N>, i: nat)
    requires |nodes| == |vals|
  {
    var vs := Verdicts(f, acc0, vals);
    && i <= |nodes|
    && vs[i..] == Verdicts(f, acc, vals[i..])
    && FinalAcc(f, acc, vals[i..]) == FinalAcc(f, acc0, vals)
    && kept + Kept(nodes[i..], vs[i..]) == Kept(nodes, vs)
  }

  lemma VisitOne<A, V, N>(f: Closure<A, V>, acc0: A, nodes: seq<N>, vals: seq<V>, acc: A, kept: seq<N>, i: nat)
    requires |nodes| == |vals| && i < |nodes|
    requires Visited(f, acc0, nodes, vals, acc, kept, i)
    ensures var v := Call(f, acc, vals[i]);
            && Verdicts(f, acc0, vals)[i] == v
            && Visited(f, acc0, nodes, vals, v.acc, if v.keep then kept + [nodes[i]] else kept, i + 1)
  {
    var vs := Verdicts(f, acc0, vals);
    assert nodes[i..][1..] == nodes[i + 1..];
    assert vals[i..][1..] == vals[i + 1..];
    assert vs[i..][1..] == vs[i + 1..];
    assert vs[i..][0] == vs[i];
    var rest := Kept(nodes[i + 1..], vs[i + 1..]);
    assert kept + ([nodes[i]] + rest) == kept + [nodes[i]] + rest;
  }

  // ------------------------------------------------------------------------
  // The list
  // ------------------------------------------------------------------------

  class IntrusiveList<V> {
    const head: Node<V>
    ghost var elems: seq<Node<V>>
    ghost var leaves: set<Node<V>>

    ghost function NextOf(i: nat): Node<V>
      requires i < |elems|
      reads this
    {
      if i + 1 < |elems| then elems[i + 1] else head
    }

    ghost function PrevOf(i: nat): Node<V>
      requires i < |elems|
      reads this
    {
      if i > 0 then elems[i - 1] else head
    }

    /** The head and the elements form a ring whose two directions are inverse to each other. */
    ghost predicate Ring()
      reads this, head, elems
    {
      && head.next == (if elems == [] then head else elems[0])
      && head.prev == (if elems == [] then head else elems[|elems| - 1])
      && (forall i: nat {:trigger elems[i].next} :: i < |elems| ==> elems[i].next == NextOf(i))
      && (forall i: nat {:trigger elems[i].prev} :: i < |elems| ==> elems[i].prev == PrevOf(i))
    }

    ghost predicate Valid()
      reads this, head, elems, leaves
    {
      && head.target == null && head !in leaves
      && (forall n :: n in leaves ==> n.target == head)
      && (forall i :: 0 <= i < |elems| ==> elems[i] in leaves)
      && Distinct(elems)
      && (if head.next == null then head.prev == null && elems == [] else Ring())
      && (forall n {:trigger n.prev} :: n in leaves && n !in elems ==> n.prev == null)
      && (forall n {:trigger n.next} :: n in leaves && n !in elems ==> n.next == null)
    }

    constructor (typ: V)
      ensures Valid() && elems == [] && leaves == {} && fresh(head) && head.typ == typ
    {
      head := new Node(typ, null);
      elems, leaves := [], {};
    }

    /** A new leaf for this list, not linked. */
    method NewLeaf(typ: V) returns (node: Node<V>)
      requires Valid()
      modifies this`leaves
      ensures Valid() && fresh(node) && node.typ == typ
      ensures leaves == old(leaves) + {node} && node !in elems
    {
      node := new Node(typ, head);
      leaves := leaves + {node};
    }

    /** A leaf is linked exactly if it is an element: otherwise both of its pointers are null. */
    lemma LinkedIffElement(node: Node<V>)
      requires Valid() && node in leaves
      ensures node.IsLinked() <==> node in elems
      ensures node.prev == null <==> node.next == null
    {
    }

    method Link(node: Node<V>)
      requires Valid() && node in leaves
      modifies this`elems, head`prev, head`next, leaves`prev, leaves`next
      ensures Valid()
      ensures elems == if node in old(elems) then old(elems) else old(elems) + [node]
    {
      if node.IsLinked() {
        return;
      }
      if !head.IsLinked() {
        head.next := head;
        head.prev := head;
      }
      DistinctAppend(elems, node);
      AllDistinct(elems);
      var pn := head.prev;
      pn.next := node;
      node.prev := pn;
      node.next := head;
      head.prev := node;
      elems := elems + [node];
    }

    twostate lemma NextStitched(k: nat)
      requires old(Valid()) && k < |old(elems)| && elems == Without(old(elems), k)
      requires old(PrevOf(k)).next == old(NextOf(k))
      requires forall n :: n in old(elems) && n != old(PrevOf(k)) ==> n.next == old(n.next)
      ensures forall j: nat {:trigger elems[j].next} :: j < |elems| ==> elems[j].next == NextOf(j)
    {
      AllDistinct(old(elems));
      forall j: nat | j < |elems| ensures elems[j].next == NextOf(j) {
        var m := if j < k then j else j + 1;
        if j + 1 == k {
          assert elems[j] == old(PrevOf(k)) && NextOf(j) == old(NextOf(k));
        } else {
          assert elems[j] == old(elems[m]) && elems[j] != old(PrevOf(k));
          assert elems[j].next == old(elems[m].next) == old(NextOf(m));
        }
      }
    }

    twostate lemma PrevStitched(k: nat)
      requires old(Valid()) && k < |old(elems)| && elems == Without(old(elems), k)
      requires old(NextOf(k)).prev == old(PrevOf(k))
      requires forall n :: n in old(elems) && n != old(NextOf(k)) ==> n.prev == old(n.prev)
      ensures forall j: nat {:trigger elems[j].prev} :: j < |elems| ==> elems[j].prev == PrevOf(j)
    {
      AllDistinct(old(elems));
      forall j: nat | j < |elems| ensures elems[j].prev == PrevOf(j) {
        var m := if j < k then j else j + 1;
        if j == k {
          assert elems[j] == old(NextOf(k)) && PrevOf(j) == old(PrevOf(k));
        } else {
          assert elems[j] == old(elems[m]) && elems[j] != old(NextOf(k));
          assert elems[j].prev == old(elems[m].prev) == old(PrevOf(m));
        }
      }
    }

    twostate lemma HeadStitched(k: nat)
      requires old(Valid()) && k < |old(elems)| && elems == Without(old(elems), k)
      requires old(PrevOf(k)).next == old(NextOf(k)) && old(NextOf(k)).prev == old(PrevOf(k))
      requires old(PrevOf(k)) != head ==> head.next == old(head.next)
      requires old(NextOf(k)) != head ==> head.prev == old(head.prev)
      ensures head.next == if elems == [] then head else elems[0]
      ensures head.prev == if elems == [] then head else elems[|elems| - 1]
    {
    }

    /** Stitches the neighbours of element `k` together, bypassing it. */
    method Bypass(ghost k: nat, node: Node<V>)
      requires Valid() && k < |elems| && elems[k] == node
      modifies this`elems, head`prev, head`next, leaves`prev, leaves`next
      ensures elems == Without(old(elems), k)
      ensures head.next != null && Ring()
      ensures forall n :: n in leaves && n !in old(elems) ==> n.prev == null && n.next == null
    {
      var pn, nn := node.prev, node.next;
      pn.next := nn;
      nn.prev := pn;
      elems := Without(elems, k);
      HeadStitched(k);
      NextStitched(k);
      PrevStitched(k);
    }

    /** The same, in terms of the elements that are left. */
    method Detach(ghost k: nat, node: Node<V>)
      requires Valid() && k < |elems| && elems[k] == node
      modifies this`elems, head`prev, head`next, leaves`prev, leaves`next
      ensures elems == Remove(old(elems), node) && Distinct(elems) && head.next != null && Ring()
      ensures forall n :: n in elems <==> n in old(elems) && n != node
      ensures forall i :: 0 <= i < |elems| ==> elems[i] in leaves
      ensures forall n :: n in leaves && n !in old(elems) ==> n.prev == null && n.next == null
    {
      WithoutIsExact(elems, k);
      RemoveIsWithout(elems, k);
      Bypass(k, node);
    }

    method Unlink(node: Node<V>)
      requires Valid() && node in leaves
      modifies this`elems, head`prev, head`next, leaves`prev, leaves`next
      ensures Valid() && node !in elems && !node.IsLinked()
      ensures elems == Remove(old(elems), node)
    {
      if !node.IsLinked() {
        RemoveOther(elems, node);
        return;
      }
      ghost var k: nat :| k < |elems| && elems[k] == node;
      Detach(k, node);
      node.prev := null;
      node.next := null;
    }

    /** `unlink` of the head: the whole list is torn down. */
    method Teardown()
      requires Valid()
      modifies this`elems, head`prev, head`next, leaves`prev, leaves`next
      ensures Valid() && elems == []
      ensures head.prev == null && head.next == null
      ensures forall n :: n in leaves ==> n.prev == null && n.next == null
    {
      while head.next != null && head.next != head
        invariant Valid()
        decreases |elems|
      {
        ghost var first := elems[0];
        Unlink(head.next);
      }
      head.prev := null;
      head.next := null;
    }

    /** `Drop` of a leaf: it is unlinked first, so that nothing points to it any more. */
    method DropLeaf(node: Node<V>)
      requires Valid() && node in leaves
      modifies this`elems, this`leaves, head`prev, head`next, leaves`prev, leaves`next
      ensures Valid() && leaves == old(leaves) - {node}
      ensures head.next != node && head.prev != node
      ensures forall n :: n in leaves ==> n.next != node && n.prev != node
      ensures elems == Remove(old(elems), node)
    {
      Unlink(node);
      leaves := leaves - {node};
    }

    ghost function Values(): seq<V>
      reads this, elems
    {
      ValuesOf(elems)
    }

    /** The value of a leaf is changed through a shared reference. */
    method Store(n: Node<V>, value: V)
      requires Valid()
      modifies n`typ
      ensures Valid() && n.typ == value
    {
      n.typ := value;
    }

    /** `next`, and unlinking if the verdict says so, of element `n` between `kept` and `rest`. */
    method Settle(keep: bool, n: Node<V>, ghost kept: seq<Node<V>>, ghost rest: seq<Node<V>>)
      returns (next: Node<V>)
      requires Valid() && elems == kept + [n] + rest
      modifies this`elems, head`prev, head`next, leaves`prev, leaves`next
      ensures Valid() && next == if rest == [] then head else rest[0]
      ensures elems == (if keep then kept + [n] else kept) + rest
    {
      assert elems[|kept|] == n;
      assert rest != [] ==> elems[|kept| + 1] == rest[0];
      next := n.next;
      if !keep {
        RemoveIsWithout(elems, |kept|);
        Unlink(n);
        assert Without(kept + [n] + rest, |kept|) == kept + rest;
      }
    }

    /** The loop of `filter` has dealt with the first `i` of the original elements `orig`. */
    ghost predicate Filtered<A>(
        f: Closure<A, V>, acc0: A, orig: seq<Node<V>>, vals: seq<V>, acc: A, kept: seq<Node<V>>, i: nat)
      requires |orig| == |vals|
      reads this, leaves
    {
      && Visited(f, acc0, orig, vals, acc, kept, i)
      && elems == kept + orig[i..]
      && (forall j :: 0 <= j < |orig| ==> orig[j] in leaves)
      && (forall j :: 0 <= j < i ==> orig[j].typ == Verdicts(f, acc0, vals)[j].value)
      && (forall j :: i <= j < |orig| ==> orig[j].typ == vals[j])
    }

    /** One visit. */
    method VisitElement<A>(
        f: Closure<A, V>, ghost acc0: A, ghost orig: seq<Node<V>>, ghost vals: seq<V>,
        acc: A, n: Node<V>, ghost kept: seq<Node<V>>, ghost i: nat)
      returns (r: A, next: Node<V>, ghost kept': seq<Node<V>>)
      requires Valid() && Distinct(orig) && |orig| == |vals| && i < |orig| && n == orig[i]
      requires Filtered(f, acc0, orig, vals, acc, kept, i)
      modifies this`elems, head`prev, head`next, leaves`prev, leaves`next, n`typ
      ensures Valid() && next == if i + 1 < |orig| then orig[i + 1] else head
      ensures Filtered(f, acc0, orig, vals, r, kept', i + 1)
    {
      VisitOne(f, acc0, orig, vals, acc, kept, i);
      DistinctFrom(orig, i);
      assert orig[i..] == [n] + orig[i + 1..];
      var v := Call(f, acc, n.typ);
      r := v.acc;
      Store(n, v.value);
      kept' := if v.keep then kept + [n] else kept;
      assert kept + ([n] + orig[i + 1..]) == kept + [n] + orig[i + 1..];
      next := Settle(v.keep, n, kept, orig[i + 1..]);
    }

    /**
     What `filter` leaves behind, if the elements were `orig` with the values `vals`: the kept
     elements in order, and the values that the closure left in all of them.
     */
    ghost predicate FilterDone<A>(f: Closure<A, V>, acc: A, orig: seq<Node<V>>, vals: seq<V>, r: A)
      requires |orig| == |vals|
      reads this, orig
    {
      var vs := Verdicts(f, acc, vals);
      && elems == Kept(orig, vs)
      && r == FinalAcc(f, acc, vals)
      && (forall i :: 0 <= i < |vs| ==> orig[i].typ == vs[i].value)
    }

    lemma FilterEnds<A>(f: Closure<A, V>, acc: A, orig: seq<Node<V>>, vals: seq<V>, r: A, kept: seq<Node<V>>)
      requires |orig| == |vals| && Filtered(f, acc, orig, vals, r, kept, |orig|)
      ensures FilterDone(f, acc, orig, vals, r)
    {
    }

    /** The loop of `filter`. */
    method Walk<A>(f: Closure<A, V>, acc: A, ghost orig: seq<Node<V>>, ghost vals: seq<V>)
      returns (r: A, ghost kept: seq<Node<V>>)
      requires Valid() && head.next != null && Distinct(orig) && elems == orig
      requires |orig| == |vals| && Filtered(f, acc, orig, vals, acc, [], 0)
      modifies this`elems, head`prev, head`next, leaves`prev, leaves`next, orig`typ
      ensures Valid() && Filtered(f, acc, orig, vals, r, kept, |orig|)
    {
      ghost var i: nat := 0;
      var pn: Node<V> := head.next;
      r, kept := acc, [];
      while pn != head
        invariant Valid() && i <= |orig|
        invariant pn == if i < |orig| then orig[i] else head
        invariant Filtered(f, acc, orig, vals, r, kept, i)
        decreases |orig| - i
      {
        r, pn, kept := VisitElement(f, acc, orig, vals, r, pn, kept, i);
        i := i + 1;
      }
    }

    /**
     Visits the linked leaves in list order, and unlinks those whose verdict is not to keep them.
     The closure starts with the captured state `acc`, and leaves it in `r`.
     */
    method Filter<A>(f: Closure<A, V>, acc: A) returns (r: A)
      requires Valid()
      modifies this`elems, head`prev, head`next, leaves`prev, leaves`next, elems`typ
      ensures Valid() && FilterDone(f, acc, old(elems), old(Values()), r)
    {
      ghost var orig, vals := elems, Values();
      ghost var kept: seq<Node<V>> := [];
      r := acc;
      if head.IsLinked() {
        r, kept := Walk(f, acc, orig, vals);
      }
      FilterEnds(f, acc, orig, vals, r, kept);
    }
  }
}
