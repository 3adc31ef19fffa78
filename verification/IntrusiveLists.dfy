/**
 * The queue's two intrusive lists, updated in place: the doubly linked inflight list, whose back
 * links are addresses of the cell that points to a node, and the ready chain that the worker
 * reverses.
 */
module IntrusiveLists {
  import opened Common

  /** The address held by `prev_inflight_link`: null, the list head, or another op's forward link. */
  datatype Cell = NoCell | HeadCell | NextCellOf(op: Op)

  class Op {
    var nextInflight: Op?
    var prevInflightLink: Cell
    var nextReady: Op?

    constructor ()
      ensures nextInflight == null && prevInflightLink == NoCell && nextReady == null
    {
      nextInflight, prevInflightLink, nextReady := null, NoCell, null;
    }
  }

  function At(ops: seq<Op>, i: nat): (r: Op?)
  {
    if i < |ops| then ops[i] else null
  }

  ghost function BackOf(ops: seq<Op>, i: nat): (c: Cell)
    requires i < |ops|
  {
    if i == 0 then HeadCell else NextCellOf(ops[i - 1])
  }

  class InflightList {
    var head: Op?
    ghost var ops: seq<Op>

    /** Forward links run through `ops` in order and every back link is the cell that points here. */
    ghost predicate Valid()
      reads this, ops
    {
      && NoDup(ops)
      && head == At(ops, 0)
      && (forall i {:trigger ops[i].nextInflight} :: 0 <= i < |ops| ==> ops[i].nextInflight == At(ops, i + 1))
      && (forall i {:trigger ops[i].prevInflightLink} :: 0 <= i < |ops| ==> ops[i].prevInflightLink == BackOf(ops, i))
    }

    constructor ()
      ensures Valid() && ops == []
    {
      head, ops := null, [];
    }

    /** Registration of an op, before any of its timepoints is armed. */
    method PushFront(op: Op)
      requires Valid() && op !in ops
      modifies this, op, ops
      ensures Valid() && ops == [op] + old(ops)
      ensures forall o :: o in ops ==> o.nextReady == old(o.nextReady)
    {
      op.nextInflight := head;
      if op.nextInflight != null {
        assert op.nextInflight == ops[0];
        op.nextInflight.prevInflightLink := NextCellOf(op);
      }
      op.prevInflightLink := HeadCell;
      head := op;
      ops := [op] + ops;
      forall i | 0 <= i < |ops|
        ensures ops[i].nextInflight == At(ops, i + 1) && ops[i].prevInflightLink == BackOf(ops, i)
      {
        if i > 0 {
          assert ops[i] == old(ops)[i - 1] && old(ops)[i - 1] in old(ops);
        }
      }
    }

    /** Relinking around the `k`-th op leaves every other op linked past it. */
    ghost predicate LinkedPast(was: seq<Op>, k: nat)
      requires k < |was|
      reads this, was
    {
      && NoDup(was)
      && head == (if k == 0 then At(was, 1) else was[0])
      && (forall i {:trigger was[i].nextInflight} :: 0 <= i < |was| && i != k ==>
            was[i].nextInflight == At(was, if i + 1 == k then k + 1 else i + 1))
      && (forall i {:trigger was[i].prevInflightLink} :: 0 <= i < |was| && i != k ==>
            was[i].prevInflightLink == BackOf(was, if i == k + 1 then k else i))
    }

    lemma Respliced(was: seq<Op>, k: nat)
      requires k < |was| && LinkedPast(was, k) && ops == RemoveAt(was, k)
      ensures Valid()
      ensures was[k] !in ops
    {
      RemoveAtContents(was, k);
      hide NoDup;
      forall i | 0 <= i < |ops|
        ensures ops[i].nextInflight == At(ops, i + 1) && ops[i].prevInflightLink == BackOf(ops, i)
      {
        assert ops[i] == was[if i < k then i else i + 1];
      }
    }

    /** Removal at any position takes out exactly that op; removing an op that is off the list does nothing. */
    method Remove(op: Op)
      requires Valid() && (op.prevInflightLink == NoCell || op in ops)
      modifies this, op, ops
      ensures Valid()
      ensures old(op.prevInflightLink) == NoCell ==> ops == old(ops) && unchanged(op)
      ensures old(op.prevInflightLink) != NoCell ==>
                && op in old(ops) && ops == RemoveAt(old(ops), IndexOf(old(ops), op))
                && op.prevInflightLink == NoCell && op.nextInflight == null
      ensures op !in ops
    {
      if op.prevInflightLink == NoCell {
        assert forall i :: 0 <= i < |ops| ==> ops[i].prevInflightLink == BackOf(ops, i);
        return;
      }
      ghost var k := IndexOf(ops, op);
      Unlink(op, k);
      ops := RemoveAt(ops, k);
      Respliced(old(ops), k);
    }

    method Unlink(op: Op, ghost k: nat)
      requires Valid() && k < |ops| && ops[k] == op
      modifies this`head, op, ops
      ensures LinkedPast(ops, k)
      ensures op.prevInflightLink == NoCell && op.nextInflight == null
    {
      assert op.prevInflightLink == BackOf(ops, k) && op.nextInflight == At(ops, k + 1);
      match op.prevInflightLink {
        case HeadCell => head := op.nextInflight;
        case NextCellOf(p) => p.nextInflight := op.nextInflight;
      }
      if op.nextInflight != null {
        op.nextInflight.prevInflightLink := op.prevInflightLink;
      }
      op.prevInflightLink := NoCell;
      op.nextInflight := null;
      forall i | 0 <= i < |ops| && i != k
        ensures ops[i].nextInflight == At(ops, if i + 1 == k then k + 1 else i + 1)
        ensures ops[i].prevInflightLink == BackOf(ops, if i == k + 1 then k else i)
      {
        assert old(ops[i].nextInflight) == At(ops, i + 1) && old(ops[i].prevInflightLink) == BackOf(ops, i);
        assert ops[i] != ops[k];
      }
    }
  }

  /** `ops` is the null-terminated ready chain that starts at `h`. */
  ghost predicate IsReadyChain(h: Op?, ops: seq<Op>)
    reads ops
  {
    && NoDup(ops)
    && h == At(ops, 0)
    && forall i {:trigger ops[i].nextReady} :: 0 <= i < |ops| ==> ops[i].nextReady == At(ops, i + 1)
  }

  /** The worker turns the stack it took into arrival order, in place. */
  method ReverseReady(h: Op?, ghost ops: seq<Op>) returns (r: Op?)
    requires IsReadyChain(h, ops)
    modifies ops
    ensures IsReadyChain(r, Reverse(ops))
    ensures forall o :: o in ops ==>
              o.nextInflight == old(o.nextInflight) && o.prevInflightLink == old(o.prevInflightLink)
  {
    var headOp := h;
    r := null;
    ghost var i := 0;
    while headOp != null
      invariant 0 <= i <= |ops|
      invariant headOp == At(ops, i)
      invariant r == if i == 0 then null else ops[i - 1]
      invariant forall j {:trigger ops[j].nextReady} :: 0 <= j < i ==>
                  ops[j].nextReady == if j == 0 then null else ops[j - 1]
      invariant forall j {:trigger ops[j].nextReady} :: i <= j < |ops| ==> ops[j].nextReady == At(ops, j + 1)
      invariant forall o :: o in ops ==>
                  o.nextInflight == old(o.nextInflight) && o.prevInflightLink == old(o.prevInflightLink)
      decreases |ops| - i
    {
      var next := headOp.nextReady;
      headOp.nextReady := r;
      r := headOp;
      headOp := next;
      i := i + 1;
    }
    ReversedChain(r, ops);
  }

  lemma ReversedChain(r: Op?, ops: seq<Op>)
    requires NoDup(ops) && r == (if |ops| == 0 then null else ops[|ops| - 1])
    requires forall j {:trigger ops[j].nextReady} :: 0 <= j < |ops| ==>
               ops[j].nextReady == if j == 0 then null else ops[j - 1]
    ensures IsReadyChain(r, Reverse(ops))
  {
    var back := Reverse(ops);
    forall j | 0 <= j < |back|
      ensures back[j].nextReady == At(back, j + 1)
    {
      assert back[j] == ops[|ops| - 1 - j];
    }
  }

  /** The shutdown walk's local chain goes in front of whatever the ready head is. */
  method LinkChain(toPush: Op, ghost chain: seq<Op>, oldHead: Op?, ghost stack: seq<Op>)
    requires IsReadyChain(toPush, chain) && IsReadyChain(oldHead, stack)
    requires forall o :: o in chain ==> o !in stack
    modifies chain
    ensures IsReadyChain(toPush, chain + stack)
  {
    var tail := toPush;
    ghost var i := 0;
    while tail.nextReady != null
      invariant 0 <= i < |chain| && tail == chain[i]
      decreases |chain| - i
    {
      i := i + 1;
      tail := tail.nextReady;
    }
    assert i == |chain| - 1;
    tail.nextReady := oldHead;
    NoDupConcat(chain, stack);
    ghost var all := chain + stack;
    forall j | 0 <= j < |all|
      ensures all[j].nextReady == At(all, j + 1)
    {
      if j >= |chain| {
        assert all[j] == stack[j - |chain|] && all[j] in stack;
      }
    }
  }
}
