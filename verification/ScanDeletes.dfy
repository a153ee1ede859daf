/**
 A move or a delete that nothing interferes with deletes every entry exactly once.
*/
module ScanDeletes {
  import opened Trees
  import opened ScanSpec
  import opened ScanShape
  import opened ScanRuns
  import opened ScanOrder
  import opened ScanConserve

  /** How many actions of a kind concern the path p. */
  ghost function Count(log: seq<Action>, kind: Action -> bool, p: Path): nat {
    if log == [] then 0
    else
      var last := log[|log| - 1];
      Count(log[..|log| - 1], kind, p) + if kind(last) && Concerns(last, p) then 1 else 0
  }

  predicate Concerns(a: Action, p: Path) {
    !a.Stall? && !a.Finish? && !a.Wtf? && a.it.At() == p
  }

  /** A deletion was carried out or answered. */
  predicate EndsDelete(a: Action) { a.DeleteReply? || a.LocalDelete? }

  /** How often a deletion of p was issued. */
  ghost function Issued(s: Scan, p: Path): nat { Count(s.log, IsDelete, p) }

  ghost function Unanswered(s: Scan, p: Path): nat {
    if Now(s).Some? && Now(s).value.AwaitDelete? then Self(Now(s).value.it, p) else 0
  }

  /** Every issued deletion was answered, except one that is still awaited; copies delete nothing. */
  ghost predicate Matched(s: Scan, p: Path) {
    && Issued(s, p) == Count(s.log, EndsDelete, p) + Unanswered(s, p)
    && (Copies(s.job) ==> Issued(s, p) == 0)
  }

  lemma CountSnoc(log: seq<Action>, a: Action, kind: Action -> bool, p: Path)
    ensures Count(log + [a], kind, p) == Count(log, kind, p) + if kind(a) && Concerns(a, p) then 1 else 0
  {
    assert (log + [a])[..|log|] == log;
  }

  /** A deletion is awaited from its request to its answer. */
  lemma AwaitsDelete(s: Scan, a: Action, p: Path)
    requires Shape(s) && Can(s, a)
    ensures Unanswered(s, p) == if a.DeleteReply? then Self(a.it, p) else 0
    ensures Unanswered(Do(s, a), p) == if a.AskDelete? then Self(a.it, p) else 0
    ensures Copies(s.job) ==> !IsDelete(a)
  {
    NextWait(s, a);
    AwaitsBefore(s, a, p);
  }

  lemma AwaitsBefore(s: Scan, a: Action, p: Path)
    requires Shape(s) && Can(s, a)
    ensures Unanswered(s, p) == if a.DeleteReply? then Self(a.it, p) else 0
    ensures Copies(s.job) ==> !IsDelete(a)
  {
  }

  lemma MatchedAfter(s: Scan, a: Action, p: Path)
    requires Shape(s) && Matched(s, p) && Can(s, a)
    ensures Matched(Do(s, a), p)
  {
    Shifts(s, a);
    AwaitsDelete(s, a, p);
    CountSnoc(s.log, a, IsDelete, p);
    CountSnoc(s.log, a, EndsDelete, p);
  }

  lemma MatchedClosed(p: Path)
    ensures Closed(s => Matched(s, p))
  {
    forall s: Scan, a: Action | Shape(s) && Matched(s, p) && Can(s, a)
      ensures Matched(Do(s, a), p)
    {
      MatchedAfter(s, a, p);
    }
    forall s: Scan, q: Pending | Shape(s) && Matched(s, p) && q in s.pending
      ensures Matched(Take(s, q), p)
    {
      TakeShape(s, q);
    }
  }

  /** Copies and moves, too, keep the operation they were started with in the history. */
  lemma JobStays(op: Op, sel: seq<Tree>, setup: Setup, env: Env, es: seq<Event>)
    requires op != NoOp && sel != [] && Forest(sel)
    requires Runs(Start(op, sel, setup, env), es)
    ensures After(Start(op, sel, setup, env), es).job == op
  {
    SelectionRest(Fresh(op, setup), sel);
    forall s: Scan, a: Action | Shape(s) && s.job == op && Can(s, a)
      ensures Do(s, a).job == op
    {
      Shifts(s, a);
    }
    Always((s: Scan) => s.job == op, op, sel, setup, env, es);
  }

  // --- Undisturbed runs -------------------------------------------------------------

  /** Something was left out: skipped, passed over, not deleted, or still queued at the end. */
  predicate Loses(a: Action) {
    || a.Missed? || a.TooLong? || a.Pass?
    || (a.Pressed? && a.b == SkipButton)
    || (a.DeleteReply? && !a.ok)
    || (a.Finish? && a.early)
  }

  ghost predicate Undisturbed(log: seq<Action>) { forall a | a in log :: !Loses(a) }

  /** Where nothing is left out, what a move or delete settles is what it deleted. */
  lemma {:induction false} SettledIsDeleted(job: Op, log: seq<Action>, p: Path)
    requires Undisturbed(log) && !Copies(job)
    ensures Settled(job, log, p) == Count(log, EndsDelete, p)
  {
    if log != [] {
      var last := log[|log| - 1];
      assert last in log && forall a | a in log[..|log| - 1] :: a in log;
      SettledIsDeleted(job, log[..|log| - 1], p);
    }
  }

  /** A delete or a move that ran to its end without a skip, an error or a cancellation
      issued exactly one deletion for every entry of the selected subtrees and no other. */
  lemma ExactlyOneDelete(op: Op, sel: seq<Tree>, setup: Setup, env: Env, es: seq<Event>, p: Path)
    requires op != NoOp && !Copies(op) && sel != [] && Forest(sel)
    requires Runs(Start(op, sel, setup, env), es)
    requires var s := After(Start(op, sel, setup, env), es); s.op == NoOp && Undisturbed(s.log)
    ensures var s := After(Start(op, sel, setup, env), es);
            Issued(s, p) == if UnderAll([], sel, p) > 0 then 1 else 0
  {
    var s := After(Start(op, sel, setup, env), es);
    SelectionRest(Fresh(op, setup), sel);
    MatchedClosed(p);
    Always(s => Matched(s, p), op, sel, setup, env, es);
    NothingLost(op, sel, setup, env, es, p);
    JobStays(op, sel, setup, env, es);
    SettledIsDeleted(op, s.log, p);
    assert s.log[|s.log| - 1] in s.log;
  }

  lemma {:induction false} DeletedIsSettled(job: Op, log: seq<Action>, p: Path)
    ensures Count(log, EndsDelete, p) <= Settled(job, log, p)
  {
    if log != [] { DeletedIsSettled(job, log[..|log| - 1], p); }
  }

  /** In every run, disturbed or not, no path outside the selection is deleted, none is
      deleted twice, and a copy deletes nothing. */
  lemma NeverTwice(op: Op, sel: seq<Tree>, setup: Setup, env: Env, es: seq<Event>, p: Path)
    requires op != NoOp && sel != [] && Forest(sel)
    requires Runs(Start(op, sel, setup, env), es)
    ensures var s := After(Start(op, sel, setup, env), es);
            Issued(s, p) <= (if UnderAll([], sel, p) > 0 then 1 else 0) && (Copies(op) ==> Issued(s, p) == 0)
  {
    var s := After(Start(op, sel, setup, env), es);
    SelectionRest(Fresh(op, setup), sel);
    MatchedClosed(p);
    Always(s => Matched(s, p), op, sel, setup, env, es);
    NothingLost(op, sel, setup, env, es, p);
    JobStays(op, sel, setup, env, es);
    UnansweredQueued(s, p);
    DeletedIsSettled(op, s.log, p);
  }

  /** An item whose deletion is awaited is still on one of the two lists. */
  lemma UnansweredQueued(s: Scan, p: Path)
    requires Shape(s)
    ensures Unanswered(s, p) <= RestOf(s.todo, s.given, p) + AtItems(s.del, p)
  {
  }
}
