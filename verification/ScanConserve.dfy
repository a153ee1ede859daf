/**
 Nothing gets lost: while an operation runs, every entry of the selected subtrees is
 still queued, waits in lsScanDel, or was settled by exactly one recorded update.
*/
module ScanConserve {
  import opened Trees
  import opened ScanSpec
  import opened ScanShape
  import opened ScanRuns

  /** How often an update settles the path p for good. */
  ghost function Gain(job: Op, a: Action, p: Path): nat {
    match a
    case DirDone(it) => if Copies(job) then Self(it, p) else 0
    case Eof(it) => if Copies(job) then Self(it, p) else 0
    case DeleteReply(it, _) => Self(it, p)
    case LocalDelete(it) => Self(it, p)
    case Missed(it) => Under(it.base, it.node, p)
    case Pass(it) => Under(it.base, it.node, p)
    case TooLong(it) => Under(it.base, it.node, p)
    case Pressed(_, it, b, late) =>
      if b != SkipButton then 0 else if late then Self(it, p) else Under(it.base, it.node, p)
    case _ => 0
  }

  function Self(it: Item, p: Path): nat { if it.At() == p then 1 else 0 }

  ghost function Settled(job: Op, log: seq<Action>, p: Path): nat {
    if log == [] then 0
    else Settled(job, log[..|log| - 1], p) + Gain(job, log[|log| - 1], p)
  }

  lemma SettledSnoc(job: Op, log: seq<Action>, a: Action, p: Path)
    ensures Settled(job, log + [a], p) == Settled(job, log, p) + Gain(job, a, p)
  {
    assert (log + [a])[..|log|] == log;
  }

  /** What is still queued; of the head only what was not queued yet. */
  ghost function RestOf(todo: seq<Item>, given: nat, p: Path): nat {
    if todo == [] then 0 else HeadRest(todo[0], given, p) + UnderItems(todo[1..], p)
  }

  ghost function HeadRest(it: Item, given: nat, p: Path): nat {
    Self(it, p) + UnderAll(it.At(), if given <= |it.node.kids| then it.node.kids[given..] else [], p)
  }

  ghost function Account(s: Scan, p: Path): nat {
    RestOf(s.todo, s.given, p) + AtItems(s.del, p) + Settled(s.job, s.log, p)
  }

  // --- Shares -----------------------------------------------------------------------

  /** A head whose entries were not listed stands for its whole subtree. */
  lemma HeadFresh(it: Item, p: Path)
    ensures HeadRest(it, 0, p) == Under(it.base, it.node, p)
  {
    assert it.node.kids[0..] == it.node.kids;
  }

  /** The head's share leaves with the head. */
  lemma HeadLeaves(todo: seq<Item>, given: nat, p: Path)
    requires todo != []
    ensures RestOf(todo, given, p) == HeadRest(todo[0], given, p) + RestOf(todo[1..], 0, p)
  {
    if |todo| > 1 { HeadFresh(todo[1], p); }
  }

  /** Queueing an entry, or passing it over, takes its subtree out of the head's share. */
  lemma EntryShare(h: Item, given: nat, c: Item, p: Path)
    requires given < |h.node.kids| && c == Item(h.At(), h.node.kids[given])
    ensures HeadRest(h, given, p) == HeadRest(h, given + 1, p) + Under(c.base, c.node, p)
  {
    assert h.node.kids[given..][1..] == h.node.kids[given + 1..];
  }

  lemma AddedShare(todo: seq<Item>, given: nat, c: Item, p: Path)
    requires todo != [] && given < |todo[0].node.kids| && c == Item(todo[0].At(), todo[0].node.kids[given])
    ensures RestOf([todo[0], c] + todo[1..], given + 1, p) == RestOf(todo, given, p)
    ensures RestOf(todo + [c], given + 1, p) == RestOf(todo, given, p)
  {
    EntryShare(todo[0], given, c, p);
    var front, back := [todo[0], c] + todo[1..], todo + [c];
    assert front[1..] == [c] + todo[1..] && front[1..][1..] == todo[1..];
    assert back[1..] == todo[1..] + [c];
    UnderItemsAppend(todo[1..], [c], p);
    assert [c][1..] == [];
  }

  // --- The account is kept ----------------------------------------------------------

  /** What the head stood for is exactly what the update that removes it settles. */
  lemma HeadShare(s: Scan, a: Action, p: Path)
    requires Shape(s) && Can(s, a) && s.todo != [] && (ShiftOf(s, a).Kept? || ShiftOf(s, a).Left?)
    ensures HeadRest(s.todo[0], s.given, p) ==
              Gain(s.job, a, p) + if ShiftOf(s, a).Kept? then Self(s.todo[0], p) else 0
  {
    var head := s.todo[0];
    assert head in s.todo;
    if a.Pressed? { assert Fits(s, AwaitButton(a.box, a.it)); }
    if a.Pressed? || a.Pass? || a.TooLong? {
      HeadFresh(head, p);
    } else {
      assert s.given == |head.node.kids|;
    }
  }

  lemma DelShare(s: Scan, a: Action, p: Path)
    requires Shape(s) && Can(s, a) && s.todo == [] && s.del != [] && ShiftOf(s, a).DelLeft?
    ensures Gain(s.job, a, p) == Self(s.del[0], p)
  {
    if a.Pressed? { assert Fits(s, AwaitButton(a.box, a.it)); }
  }

  lemma NoShare(s: Scan, a: Action, p: Path)
    requires Can(s, a)
    ensures ShiftOf(s, a).Same? ==> Gain(s.job, a, p) == 0
  {
  }

  lemma AccountListed(s: Scan, a: Action, t: Scan, p: Path)
    requires Can(s, a) && Shifted(s, a, t) && (ShiftOf(s, a).Added? || ShiftOf(s, a).Counted?)
    ensures RestOf(t.todo, t.given, p) + Gain(s.job, a, p) == RestOf(s.todo, s.given, p)
  {
    if ShiftOf(s, a).Added? {
      AddedShare(s.todo, s.given, a.it, p);
    } else {
      EntryShare(s.todo[0], s.given, a.it, p);
    }
  }

  lemma AccountRemoved(s: Scan, a: Action, t: Scan, p: Path)
    requires Shape(s) && Can(s, a) && Shifted(s, a, t) && (ShiftOf(s, a).Kept? || ShiftOf(s, a).Left?)
    ensures RestOf(t.todo, t.given, p) + AtItems(t.del, p) + Gain(s.job, a, p)
         == RestOf(s.todo, s.given, p) + AtItems(s.del, p)
  {
    HeadLeaves(s.todo, s.given, p);
    HeadShare(s, a, p);
    if ShiftOf(s, a).Kept? { assert t.del[1..] == s.del; }
  }

  lemma AccountAfter(s: Scan, a: Action, t: Scan, p: Path)
    requires Shape(s) && Can(s, a) && Shifted(s, a, t) && !a.Finish?
    ensures Account(t, p) == Account(s, p)
  {
    SettledSnoc(s.job, s.log, a, p);
    var shift := ShiftOf(s, a);
    if shift.Added? || shift.Counted? {
      AccountListed(s, a, t, p);
    } else if shift.Kept? || shift.Left? {
      AccountRemoved(s, a, t, p);
    } else if shift.DelLeft? {
      DelShare(s, a, p);
    } else {
      NoShare(s, a, p);
    }
  }

  /** While the operation runs p is accounted for n times; an end that leaves nothing queued
      has settled p n times, an early end at most so often. */
  ghost predicate Accounted(s: Scan, p: Path, n: nat) {
    if s.op != NoOp then Account(s, p) == n
    else
      && s.log != [] && s.log[|s.log| - 1].Finish? && Settled(s.job, s.log, p) <= n
      && (!s.log[|s.log| - 1].early ==> Settled(s.job, s.log, p) == n)
  }

  lemma AccountedClosed(p: Path, n: nat)
    ensures Closed(s => Accounted(s, p, n))
  {
    forall s: Scan, a: Action | Shape(s) && Accounted(s, p, n) && Can(s, a)
      ensures Accounted(Do(s, a), p, n)
    {
      Shifts(s, a);
      FlagsAfter(s, a);
      OnlyWhileRunning(s, a);
      if a.Finish? {
        SettledSnoc(s.job, s.log, a, p);
      } else {
        AccountAfter(s, a, Do(s, a), p);
      }
    }
  }

  lemma OnlyWhileRunning(s: Scan, a: Action)
    requires Shape(s) && Can(s, a)
    ensures s.op != NoOp
  {
  }

  // --- At the start -----------------------------------------------------------------

  lemma {:induction false} InsertedShare(todo: seq<Item>, at: nat, it: Item, p: Path)
    requires at <= |todo|
    ensures UnderItems(todo[..at] + [it] + todo[at..], p) == UnderItems(todo, p) + Under(it.base, it.node, p)
    decreases at
  {
    var next := todo[..at] + [it] + todo[at..];
    if at == 0 {
      assert next[0] == it && next[1..] == todo;
    } else {
      var rest := todo[1..];
      assert next[0] == todo[0] && next[1..] == rest[..at - 1] + [it] + rest[at - 1..];
      InsertedShare(rest, at - 1, it, p);
    }
  }

  lemma {:induction false} SelectionShare(s: Scan, sel: seq<Tree>, p: Path)
    requires forall t | t in sel :: WellFormed(t)
    ensures UnderItems(AddSelected(s, sel).todo, p) == UnderItems(s.todo, p) + UnderAll([], sel, p)
    decreases sel
  {
    if sel != [] {
      var it := Item([], sel[0]);
      var at := if !it.node.dir then |s.todo| else if s.todo != [] && s.todo[0].node.dir then 1 else 0;
      assert sel[0] in sel;
      assert Add(s, it).todo == s.todo[..at] + [it] + s.todo[at..];
      InsertedShare(s.todo, at, it, p);
      SelectionShare(Add(s, it), sel[1..], p);
    }
  }

  lemma {:induction false} SelectionRest(s: Scan, sel: seq<Tree>)
    ensures var t := AddSelected(s, sel);
            t == s.(todo := t.todo, total := t.total)
    decreases sel
  {
    if sel != [] { SelectionRest(Add(s, Item([], sel[0])), sel[1..]); }
  }

  /** In every state of every run each entry of the selected subtrees is accounted for
      exactly once, and nothing else is. */
  lemma NothingLost(op: Op, sel: seq<Tree>, setup: Setup, env: Env, es: seq<Event>, p: Path)
    requires op != NoOp && sel != [] && Forest(sel)
    requires Runs(Start(op, sel, setup, env), es)
    ensures Accounted(After(Start(op, sel, setup, env), es), p, UnderAll([], sel, p))
    ensures UnderAll([], sel, p) <= 1
  {
    var s := Fresh(op, setup);
    SelectionShare(s, sel, p);
    SelectionRest(s, sel);
    LoadSome(op, sel, setup);
    HeadFresh(Load(op, sel, setup).todo[0], p);
    UnderAllOnce([], sel, p);
    var n := UnderAll([], sel, p);
    AccountedClosed(p, n);
    Always(s => Accounted(s, p, n), op, sel, setup, env, es);
  }
}
