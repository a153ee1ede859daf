/**
 Every operation comes to an end: the work left plus the work recorded never grows.
*/
module ScanProgress {
  import opened Trees
  import opened ScanSpec
  import opened ScanShape
  import opened ScanRuns
  import opened ScanConserve
  import opened ScanDeletes

  // --- The measure ------------------------------------------------------------------

  /** Work for a queued tree; what a listing adds is paid for by the directory. */
  ghost function Weight(t: Tree): nat
    decreases t, 1
  {
    if t.dir then 3 + KidsWeight(t.kids) else 2
  }

  ghost function KidsWeight(ts: seq<Tree>): nat
    decreases ts, 0
  {
    if ts == [] then 0 else 1 + Weight(ts[0]) + KidsWeight(ts[1..])
  }

  ghost function HeadWeight(it: Item, given: nat): nat {
    if it.node.dir then 3 + KidsWeight(if given <= |it.node.kids| then it.node.kids[given..] else [])
    else 2
  }

  ghost function ItemsWeight(its: seq<Item>): nat {
    if its == [] then 0 else Weight(its[0].node) + ItemsWeight(its[1..])
  }

  ghost function QueueWeight(todo: seq<Item>, given: nat): nat {
    if todo == [] then 0 else HeadWeight(todo[0], given) + ItemsWeight(todo[1..])
  }

  /** The answer just given settles what would be asked about the head. */
  predicate Covered(s: Scan) {
    s.todo != [] && if s.todo[0].node.dir then s.flags.dirOver else s.flags.over || s.flags.noOver
  }

  /** How far the step in hand has come. */
  ghost function Rank(s: Scan): nat {
    match Now(s)
    case Some(AwaitMkDir(_)) => 7
    case Some(AwaitButton(box, _)) => if box == Overwrite || box == ReplaceDir then 5 else 1
    case Some(_) => 3
    case None =>
      var last := if s.log == [] then Wtf else s.log[|s.log| - 1];
      if last.Stall? || last.RecvRefused? then 3
      else if last.DeleteReply? && !last.ok then 2
      else if s.cancel then 0
      else if Covered(s) then 4
      else 6
  }

  ghost function Measure(s: Scan): nat {
    if s.op == NoOp then 0 else 1 + 8 * (QueueWeight(s.todo, s.given) + |s.del|) + Rank(s)
  }

  // --- Weights of the lists ---------------------------------------------------------

  lemma FreshWeight(it: Item)
    ensures HeadWeight(it, 0) == Weight(it.node)
  {
    assert it.node.kids[0..] == it.node.kids;
  }

  lemma LoadLeaves(todo: seq<Item>, given: nat)
    requires todo != []
    ensures QueueWeight(todo, given) == HeadWeight(todo[0], given) + QueueWeight(todo[1..], 0)
    ensures HeadWeight(todo[0], given) >= 2
  {
    if |todo| > 1 { FreshWeight(todo[1]); }
  }

  lemma {:induction false} ItemsWeightAppend(a: seq<Item>, b: seq<Item>)
    ensures ItemsWeight(a + b) == ItemsWeight(a) + ItemsWeight(b)
  {
    if a == [] {
      assert a + b == b;
    } else {
      assert (a + b)[0] == a[0] && (a + b)[1..] == a[1..] + b;
      ItemsWeightAppend(a[1..], b);
    }
  }

  /** Listing an entry costs one unit more than the entry weighs. */
  lemma EntryWeight(h: Item, given: nat)
    requires h.node.dir && given < |h.node.kids|
    ensures HeadWeight(h, given) == HeadWeight(h, given + 1) + 1 + Weight(h.node.kids[given])
  {
    assert h.node.kids[given..][1..] == h.node.kids[given + 1..];
  }

  lemma AddedWeight(todo: seq<Item>, given: nat, c: Item)
    requires todo != [] && todo[0].node.dir && given < |todo[0].node.kids|
    requires c.node == todo[0].node.kids[given]
    ensures QueueWeight([todo[0], c] + todo[1..], given + 1) < QueueWeight(todo, given)
    ensures QueueWeight(todo + [c], given + 1) < QueueWeight(todo, given)
    ensures QueueWeight(todo, given + 1) < QueueWeight(todo, given)
  {
    EntryWeight(todo[0], given);
    var front, back := [todo[0], c] + todo[1..], todo + [c];
    assert front[1..] == [c] + todo[1..] && front[1..][1..] == todo[1..];
    assert back[1..] == todo[1..] + [c];
    ItemsWeightAppend(todo[1..], [c]);
    assert [c][1..] == [];
  }

  /** What happens to the weight of the two lists. */
  lemma WeightAfter(s: Scan, a: Action, t: Scan)
    requires Shifted(s, a, t)
    ensures var (v, w) := (QueueWeight(s.todo, s.given) + |s.del|, QueueWeight(t.todo, t.given) + |t.del|);
            if ShiftOf(s, a).Same? then w == v
            else ShiftOf(s, a).Emptied? || w < v
  {
    var shift := ShiftOf(s, a);
    if shift.Added? || shift.Counted? {
      AddedWeight(s.todo, s.given, a.it);
    } else if shift.Kept? || shift.Left? {
      LoadLeaves(s.todo, s.given);
    }
  }

  // --- Every update uses up work ----------------------------------------------------

  lemma RankAsked(s: Scan, a: Action, t: Scan)
    requires Shape(s) && Can(s, a) && ShiftOf(s, a).Same? && !a.Pressed?
    requires Shifted(s, a, t) && Now(t) == Next(s, a) && t.cancel == s.cancel
    ensures Rank(t) < Rank(s)
  {
  }

  lemma RankPressed(s: Scan, a: Action, t: Scan)
    requires Shape(s) && Can(s, a) && ShiftOf(s, a).Same? && a.Pressed?
    requires Shifted(s, a, t) && Now(t) == Next(s, a) && t.flags == NewFlags(s, a)
    requires a.b == CancelButton ==> t.cancel
    ensures Rank(t) < Rank(s)
  {
    assert Fits(s, AwaitButton(a.box, a.it));
  }

  lemma MeasureAfter(s: Scan, a: Action, t: Scan)
    requires Shape(s) && Can(s, a) && Shifted(s, a, t) && Now(t) == Next(s, a)
    requires t.flags == NewFlags(s, a) && t.op == (if a.Finish? then NoOp else s.op)
    requires if a.Pressed? then a.b == CancelButton ==> t.cancel else a.Finish? || t.cancel == s.cancel
    ensures Measure(t) < Measure(s)
  {
    OnlyWhileRunning(s, a);
    WeightAfter(s, a, t);
    if ShiftOf(s, a).Same? {
      if a.Pressed? { RankPressed(s, a, t); } else { RankAsked(s, a, t); }
    }
  }

  /** The number of recorded updates and the measure together are bounded. */
  ghost predicate Bounded(s: Scan, n: nat) { |s.log| + Measure(s) <= n }

  lemma BoundedClosed(n: nat)
    ensures Closed(s => Bounded(s, n))
  {
    forall s: Scan, a: Action | Shape(s) && Bounded(s, n) && Can(s, a)
      ensures Bounded(Do(s, a), n)
    {
      Shifts(s, a);
      NextWait(s, a);
      FlagsAfter(s, a);
      MeasureAfter(s, a, Do(s, a));
    }
    forall s: Scan, p: Pending | Shape(s) && Bounded(s, n) && p in s.pending
      ensures Bounded(Take(s, p), n)
    {
      TakeShape(s, p);
    }
  }
}
