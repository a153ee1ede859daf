/**
 What a copy makes: every selected directory is made and every selected file transferred once.
*/
module ScanCopies {
  import opened Trees
  import opened ScanSpec
  import opened ScanShape
  import opened ScanRuns
  import opened ScanConserve
  import opened ScanDeletes
  import opened ScanHistory

  /** A directory was made, or its making requested, or the transfer of a file ended. */
  predicate Copied(a: Action) { a.DirDone? || a.Eof? }

  // --- At most once -------------------------------------------------------------------

  /** What was copied is no longer queued. */
  ghost predicate Once(s: Scan, p: Path) { Count(s.log, Copied, p) + RestOf(s.todo, s.given, p) <= 1 }

  lemma CopiedLeaves(s: Scan, a: Action, t: Scan, p: Path)
    requires Shape(s) && Can(s, a) && Shifted(s, a, t)
    ensures RestOf(t.todo, t.given, p) + (if Copied(a) then Self(a.it, p) else 0) <= RestOf(s.todo, s.given, p)
  {
    var shift := ShiftOf(s, a);
    if shift.Added? || shift.Counted? {
      AccountListed(s, a, t, p);
    } else if shift.Kept? || shift.Left? {
      HeadLeaves(s.todo, s.given, p);
    }
  }

  lemma OnceClosed(p: Path)
    ensures Closed(s => Once(s, p))
  {
    forall s: Scan, a: Action | Shape(s) && Once(s, p) && Can(s, a)
      ensures Once(Do(s, a), p)
    {
      Shifts(s, a);
      CopiedLeaves(s, a, Do(s, a), p);
      CountSnoc(s.log, a, Copied, p);
    }
    forall s: Scan, q: Pending | Shape(s) && Once(s, p) && q in s.pending
      ensures Once(Take(s, q), p)
    {
      TakeShape(s, q);
    }
  }

  /** In every run of every operation no path is copied twice, and what was copied is not queued
      any more. */
  lemma CopiedOnce(op: Op, sel: seq<Tree>, setup: Setup, env: Env, es: seq<Event>, p: Path)
    requires op != NoOp && sel != [] && Forest(sel)
    requires Runs(Start(op, sel, setup, env), es)
    ensures Once(After(Start(op, sel, setup, env), es), p)
  {
    var s := Fresh(op, setup);
    SelectionShare(s, sel, p);
    SelectionRest(s, sel);
    LoadSome(op, sel, setup);
    HeadFresh(Load(op, sel, setup).todo[0], p);
    UnderAllOnce([], sel, p);
    OnceClosed(p);
    Always(s => Once(s, p), op, sel, setup, env, es);
  }

  lemma {:induction false} CopiedCounts(log: seq<Action>, a: Action)
    requires a in log && Copied(a)
    ensures Count(log, Copied, a.it.At()) >= 1
  {
    var front := log[..|log| - 1];
    if log[|log| - 1] != a { CopiedCounts(front, a); }
  }

  lemma {:induction false} CountedIsThere(log: seq<Action>, p: Path)
    requires Count(log, Copied, p) >= 1
    ensures exists a | a in log :: Copied(a) && a.it.At() == p
  {
    var last := log[|log| - 1];
    if Copied(last) && last.it.At() == p {
      assert last in log;
    } else {
      CountedIsThere(log[..|log| - 1], p);
      var a :| a in log[..|log| - 1] && Copied(a) && a.it.At() == p;
      assert a in log;
    }
  }

  // --- Exactly once -------------------------------------------------------------------

  /** Where nothing is left out, what a copy settles is what it copied. */
  lemma {:induction false} SettledIsCopied(job: Op, log: seq<Action>, p: Path)
    requires Undisturbed(log) && Copies(job)
    ensures Settled(job, log, p) == Count(log, Copied, p) + Count(log, EndsDelete, p)
  {
    if log != [] {
      var last := log[|log| - 1];
      assert last in log && forall a | a in log[..|log| - 1] :: a in log;
      SettledIsCopied(job, log[..|log| - 1], p);
    }
  }

  /** A copy that ran to its end without a skip, an error or a cancellation made every selected
      directory and transferred every selected file exactly once, and nothing else. */
  lemma ExactlyOneCopy(op: Op, sel: seq<Tree>, setup: Setup, env: Env, es: seq<Event>, p: Path)
    requires Copies(op) && sel != [] && Forest(sel)
    requires Runs(Start(op, sel, setup, env), es)
    requires var s := After(Start(op, sel, setup, env), es); s.op == NoOp && Undisturbed(s.log)
    ensures var s := After(Start(op, sel, setup, env), es);
            Count(s.log, Copied, p) == if UnderAll([], sel, p) > 0 then 1 else 0
  {
    var s := After(Start(op, sel, setup, env), es);
    NothingLost(op, sel, setup, env, es, p);
    JobStays(op, sel, setup, env, es);
    SettledIsCopied(op, s.log, p);
    NeverTwice(op, sel, setup, env, es, p);
    EndsAreIssued(op, sel, setup, env, es, p);
    assert s.log[|s.log| - 1] in s.log;
  }

  /** No more deletions are carried out or answered than were issued. */
  lemma EndsAreIssued(op: Op, sel: seq<Tree>, setup: Setup, env: Env, es: seq<Event>, p: Path)
    requires op != NoOp && sel != [] && Forest(sel)
    requires Runs(Start(op, sel, setup, env), es)
    ensures var s := After(Start(op, sel, setup, env), es); Count(s.log, EndsDelete, p) <= Issued(s, p)
  {
    SelectionRest(Fresh(op, setup), sel);
    MatchedClosed(p);
    Always(s => Matched(s, p), op, sel, setup, env, es);
  }

  // --- Every entry of the selection ---------------------------------------------------

  /** What is queued and what was copied are entries of the selection. */
  ghost predicate Chosen(sel: seq<Tree>, s: Scan) {
    && (forall t | t in s.todo :: Among([], sel, t))
    && (forall a | a in s.log && Copied(a) :: Among([], sel, a.it) && (a.DirDone? <==> a.it.node.dir))
  }

  lemma ChosenAfter(sel: seq<Tree>, s: Scan, a: Action, t: Scan)
    requires Shape(s) && Chosen(sel, s) && Can(s, a) && Shifted(s, a, t)
    ensures Chosen(sel, t)
  {
    assert s.todo != [] ==> s.todo[0] in s.todo;
    forall x | x in t.todo ensures Among([], sel, x) {
      if x !in s.todo {
        assert NextEntry(s, x);
        KidAmong([], sel, s.todo[0], x.node);
      }
    }
  }

  lemma {:induction false} SelectedChosen(s: Scan, sel: seq<Tree>, all: seq<Tree>)
    requires Chosen(all, s) && forall t | t in sel :: t in all
    ensures Chosen(all, AddSelected(s, sel))
    decreases sel
  {
    if sel != [] {
      TopAmong([], all, sel[0]);
      SelectedChosen(Add(s, Item([], sel[0])), sel[1..], all);
    }
  }

  lemma AlwaysChosen(op: Op, sel: seq<Tree>, setup: Setup, env: Env, es: seq<Event>)
    requires op != NoOp && sel != [] && Forest(sel)
    requires Runs(Start(op, sel, setup, env), es)
    ensures Chosen(sel, After(Start(op, sel, setup, env), es)) && Shape(After(Start(op, sel, setup, env), es))
  {
    forall s: Scan, a: Action | Shape(s) && Chosen(sel, s) && Can(s, a)
      ensures Chosen(sel, Do(s, a))
    {
      Shifts(s, a);
      ChosenAfter(sel, s, a, Do(s, a));
    }
    SelectedChosen(Fresh(op, setup), sel, sel);
    Always(s => Chosen(sel, s), op, sel, setup, env, es);
  }

  /** So every directory of the selection was made, and every file transferred. */
  lemma CopiesEveryEntry(op: Op, sel: seq<Tree>, setup: Setup, env: Env, es: seq<Event>, it: Item)
    requires Copies(op) && sel != [] && Forest(sel) && Among([], sel, it)
    requires Runs(Start(op, sel, setup, env), es)
    requires var s := After(Start(op, sel, setup, env), es); s.op == NoOp && Undisturbed(s.log)
    ensures (if it.node.dir then DirDone(it) else Eof(it)) in After(Start(op, sel, setup, env), es).log
  {
    var s := After(Start(op, sel, setup, env), es);
    AmongUnder([], sel, it);
    ExactlyOneCopy(op, sel, setup, env, es, it.At());
    CountedIsThere(s.log, it.At());
    var a :| a in s.log && Copied(a) && a.it.At() == it.At();
    AlwaysChosen(op, sel, setup, env, es);
    AmongOne([], sel, a.it, it);
  }
}
