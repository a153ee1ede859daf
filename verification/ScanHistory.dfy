/**
 What the history of a run shows: parents before children, listings before transfers,
 and in a move no deletion of a file whose transfer did not end with end-of-file.
*/
module ScanHistory {
  import opened Trees
  import opened ScanSpec
  import opened ScanShape
  import opened ScanRuns
  import opened ScanOrder
  import opened ScanDeletes

  // --- Directories are made before what goes into them ------------------------------

  /** The target directory p was dealt with: made here, or its making was answered for. */
  predicate Makes(job: Op, a: Action, p: Path) {
    if Downloads(job) then a.DirDone? && a.it.At() == p else a.MkDirReply? && a.it.At() == p
  }

  /** Creates something at the target. */
  predicate Creates(a: Action) { a.Recv? || a.Send? || a.DirDone? }

  ghost predicate Made(job: Op, log: seq<Action>, p: Path) {
    exists a | a in log :: Makes(job, a, p)
  }

  ghost predicate ParentsFirst(job: Op, log: seq<Action>) {
    forall j | 0 <= j < |log| && Creates(log[j]) && log[j].it.base != [] ::
      Made(job, log[..j], log[j].it.base)
  }

  /** The directory an item was found in was made, is the head, or is being made. */
  ghost predicate HasParent(s: Scan, t: Item) {
    || t.base == []
    || Made(s.job, s.log, t.base)
    || (s.todo != [] && s.todo[0].node.dir && t.base == s.todo[0].At())
    || (Now(s).Some? && Now(s).value.AwaitMkDir? && t.base == Now(s).value.it.At())
  }

  ghost predicate Parents(s: Scan) {
    && Order(s)
    && (!Deletes(s.job) ==> ParentsFirst(s.job, s.log) && forall t | t in s.todo :: HasParent(s, t))
  }

  lemma MadeGrows(job: Op, log: seq<Action>, a: Action, p: Path)
    ensures Made(job, log, p) ==> Made(job, log + [a], p)
    ensures Makes(job, a, p) ==> Made(job, log + [a], p)
  {
    if Made(job, log, p) {
      var b :| b in log && Makes(job, b, p);
      assert b in log + [a];
    }
    assert a in log + [a];
  }

  lemma ParentsFirstSnoc(job: Op, log: seq<Action>, a: Action)
    requires ParentsFirst(job, log)
    requires Creates(a) && a.it.base != [] ==> Made(job, log, a.it.base)
    ensures ParentsFirst(job, log + [a])
  {
    assert forall j | 0 <= j < |log| :: (log + [a])[..j] == log[..j];
    assert (log + [a])[..|log|] == log;
  }

  /** The parent of the head was made whenever the head is about to be created. */
  lemma HeadHasParent(s: Scan, a: Action)
    requires Shape(s) && Can(s, a) && Creates(a) && !Deletes(s.job)
    requires forall t | t in s.todo :: HasParent(s, t)
    ensures a.it.base != [] ==> Made(s.job, s.log, a.it.base)
  {
    assert a.it == s.todo[0] && HasParent(s, s.todo[0]);
    assert |a.it.base| < |a.it.At()|;
  }

  /** Items that stay queued keep their parent when the head leaves. */
  lemma StaysParented(s: Scan, a: Action, t: Scan, x: Item)
    requires Shape(s) && Order(s) && Can(s, a) && Shifted(s, a, t) && Now(t) == Next(s, a)
    requires !Deletes(s.job) && HasParent(s, x) && x in s.todo && x in t.todo
    ensures HasParent(t, x)
  {
    MadeGrows(s.job, s.log, a, x.base);
    if x.base != [] && !Made(t.job, t.log, x.base) && t.todo != s.todo && t.todo != [] {
      if s.todo[0].node.dir && x.base == s.todo[0].At() && (ShiftOf(s, a).Kept? || ShiftOf(s, a).Left?) {
        assert x.At()[..|x.base|] == x.base;
        LeavesListed(s, a, t, x);
      }
    }
  }

  /** A directory with queued entries leaves only when its listing is complete. */
  lemma LeavesListed(s: Scan, a: Action, t: Scan, x: Item)
    requires Shape(s) && Order(s) && Can(s, a) && Shifted(s, a, t)
    requires (ShiftOf(s, a).Kept? || ShiftOf(s, a).Left?) && x in t.todo && Below(x.At(), s.todo[0].At())
    ensures a.DirDone? && a.it == s.todo[0]
  {
    var i :| 0 <= i < |t.todo| && t.todo[i] == x;
    assert s.todo[i + 1] == x;
    assert s.given > 0;
  }

  lemma ParentsAfter(s: Scan, a: Action, t: Scan)
    requires Shape(s) && Parents(s) && Can(s, a) && Shifted(s, a, t) && Now(t) == Next(s, a)
    requires Order(t)
    ensures Parents(t)
  {
    if !Deletes(s.job) {
      if Creates(a) { HeadHasParent(s, a); }
      ParentsFirstSnoc(s.job, s.log, a);
      forall x | x in t.todo ensures HasParent(t, x) {
        if x in s.todo {
          StaysParented(s, a, t, x);
        } else {
          assert x == a.it && t.todo[0] == s.todo[0];
        }
      }
    }
  }

  lemma ParentsClosed()
    ensures Closed(Parents)
  {
    OrderClosed();
    forall s: Scan, a: Action | Shape(s) && Parents(s) && Can(s, a)
      ensures Parents(Do(s, a))
    {
      Shifts(s, a);
      NextWait(s, a);
      ParentsAfter(s, a, Do(s, a));
    }
    forall s: Scan, p: Pending | Shape(s) && Parents(s) && p in s.pending
      ensures Parents(Take(s, p))
    {
      TakeShape(s, p);
      TakeParents(s, p);
    }
  }

  lemma TakeParents(s: Scan, p: Pending)
    requires Parents(s) && Now(Take(s, p)) == Now(s)
    ensures Parents(Take(s, p))
  {
    var t := Take(s, p);
    if !Deletes(s.job) {
      forall x | x in t.todo ensures HasParent(t, x) {
        assert HasParent(s, x);
      }
    }
  }

  /** In every copy or move each directory below the selection is made only after the
      directory it lies in was made or its making was answered for, and so is each file. */
  lemma DirectoriesTopDown(op: Op, sel: seq<Tree>, setup: Setup, env: Env, es: seq<Event>)
    requires op != NoOp && !Deletes(op) && sel != [] && Forest(sel)
    requires Runs(Start(op, sel, setup, env), es)
    ensures ParentsFirst(op, After(Start(op, sel, setup, env), es).log)
  {
    ParentsClosed();
    OrderAtStart(op, sel, setup);
    LoadedTop(op, sel, setup);
    Always(Parents, op, sel, setup, env, es);
    JobStays(op, sel, setup, env, es);
  }

  lemma LoadedTop(op: Op, sel: seq<Tree>, setup: Setup)
    requires Forest(sel)
    ensures var s := Load(op, sel, setup);
            s.log == [] && s.job == op && forall t | t in s.todo :: t.base == []
  {
    SelectedTop(Fresh(op, setup), sel);
  }

  lemma {:induction false} SelectedTop(s: Scan, sel: seq<Tree>)
    requires forall t | t in s.todo :: t.base == []
    ensures var t := AddSelected(s, sel);
            t.log == s.log && t.job == s.job && forall x | x in t.todo :: x.base == []
    decreases sel
  {
    if sel != [] { SelectedTop(Add(s, Item([], sel[0])), sel[1..]); }
  }

  // --- All directories come before all files ----------------------------------------

  predicate Starts(a: Action) { a.Recv? || a.Send? }

  /** Works on a directory: lists it, queues its entries, creates it or its copy. */
  predicate Walks(a: Action) { a.List? || a.Queue? || a.LocalListed? || a.DirDone? || a.MkDirReply? }

  ghost predicate TransfersLast(log: seq<Action>) {
    forall i, j | 0 <= i < j < |log| :: Starts(log[i]) ==> !Walks(log[j])
  }

  ghost predicate Phases(s: Scan) {
    && TransfersLast(s.log)
    && ((exists a | a in s.log :: Starts(a)) ==>
          (forall t | t in s.todo :: !t.node.dir) && !(Now(s).Some? && Now(s).value.AwaitMkDir?))
  }

  lemma PhasesAfter(s: Scan, a: Action, t: Scan)
    requires Shape(s) && Phases(s) && Can(s, a) && Shifted(s, a, t) && Now(t) == Next(s, a)
    ensures Phases(t)
  {
    if Walks(a) && !a.MkDirReply? {
      assert s.todo[0] in s.todo && s.todo[0].node.dir;
    }
    if exists b | b in t.log :: Starts(b) {
      if Starts(a) {
        forall x | x in s.todo ensures !x.node.dir {
          var i :| 0 <= i < |s.todo| && s.todo[i] == x;
        }
      } else {
        assert exists b | b in s.log :: Starts(b);
      }
    }
  }

  lemma PhasesClosed()
    ensures Closed(Phases)
  {
    forall s: Scan, a: Action | Shape(s) && Phases(s) && Can(s, a)
      ensures Phases(Do(s, a))
    {
      Shifts(s, a);
      NextWait(s, a);
      PhasesAfter(s, a, Do(s, a));
    }
    forall s: Scan, p: Pending | Shape(s) && Phases(s) && p in s.pending
      ensures Phases(Take(s, p))
    {
      TakeShape(s, p);
    }
  }

  /** No transfer starts before the last directory was listed and made. */
  lemma FilesAfterDirectories(op: Op, sel: seq<Tree>, setup: Setup, env: Env, es: seq<Event>)
    requires op != NoOp && sel != [] && Forest(sel)
    requires Runs(Start(op, sel, setup, env), es)
    ensures TransfersLast(After(Start(op, sel, setup, env), es).log)
  {
    PhasesClosed();
    LoadedTop(op, sel, setup);
    Always(Phases, op, sel, setup, env, es);
  }

  // --- A move deletes only what was transferred -------------------------------------

  /** Every deletion of a file comes after the end-of-file of its transfer. */
  ghost predicate TransferredFirst(log: seq<Action>) {
    forall j | 0 <= j < |log| && IsDelete(log[j]) && !log[j].it.node.dir :: Eof(log[j].it) in log[..j]
  }

  /** Every end-of-file answers a transfer of that file. */
  ghost predicate StartedFirst(log: seq<Action>) {
    forall j | 0 <= j < |log| && log[j].Eof? ::
      exists clash: bool :: Recv(log[j].it, clash) in log[..j] || Send(log[j].it, clash) in log[..j]
  }

  ghost predicate Started(log: seq<Action>, it: Item) {
    exists clash: bool :: Recv(it, clash) in log || Send(it, clash) in log
  }

  /** Whatever transfer is awaited was started, and lsScanDel holds only transferred files. */
  ghost predicate Evidence(s: Scan) {
    && StartedFirst(s.log)
    && (Now(s).Some? && Transfer(Now(s).value) ==> Started(s.log, Now(s).value.it))
    && (Moves(s.job) ==> TransferredFirst(s.log) && Transferred(s.del, s.log))
  }

  ghost predicate Transferred(del: seq<Item>, log: seq<Action>) {
    forall d | d in del :: d.node.dir || Eof(d) in log
  }

  lemma StartedSnoc(log: seq<Action>, a: Action)
    requires StartedFirst(log) && (a.Eof? ==> Started(log, a.it))
    ensures StartedFirst(log + [a])
    ensures forall it | Started(log, it) :: Started(log + [a], it)
    ensures Starts(a) ==> Started(log + [a], a.it)
  {
    var next := log + [a];
    assert forall j | 0 <= j < |log| :: next[..j] == log[..j];
    assert next[..|log|] == log;
    assert a in next;
  }

  lemma TransferredSnoc(del: seq<Item>, log: seq<Action>, a: Action)
    requires TransferredFirst(log) && Transferred(del, log)
    requires IsDelete(a) ==> a.it in del
    ensures TransferredFirst(log + [a]) && Transferred(del, log + [a])
  {
    var next := log + [a];
    assert forall j | 0 <= j < |log| :: next[..j] == log[..j];
    assert next[..|log|] == log;
  }

  lemma EvidenceAfter(s: Scan, a: Action, t: Scan)
    requires Shape(s) && Evidence(s) && Can(s, a) && Shifted(s, a, t) && Now(t) == Next(s, a)
    ensures Evidence(t)
  {
    StartedSnoc(s.log, a);
    if Moves(s.job) {
      TransferredSnoc(s.del, s.log, a);
      assert a in t.log;
    }
  }

  lemma EvidenceClosed()
    ensures Closed(Evidence)
  {
    forall s: Scan, a: Action | Shape(s) && Evidence(s) && Can(s, a)
      ensures Evidence(Do(s, a))
    {
      Shifts(s, a);
      NextWait(s, a);
      EvidenceAfter(s, a, Do(s, a));
    }
    forall s: Scan, p: Pending | Shape(s) && Evidence(s) && p in s.pending
      ensures Evidence(Take(s, p))
    {
      TakeShape(s, p);
    }
  }

  /** Whatever is skipped, refused, cancelled or failing, a move never deletes a source
      file unless the transfer of that file was started and ended with end-of-file. */
  lemma MoveKeepsUntransferred(op: Op, sel: seq<Tree>, setup: Setup, env: Env, es: seq<Event>)
    requires Moves(op) && sel != [] && Forest(sel)
    requires Runs(Start(op, sel, setup, env), es)
    ensures var log := After(Start(op, sel, setup, env), es).log;
            TransferredFirst(log) && StartedFirst(log)
  {
    EvidenceClosed();
    LoadedTop(op, sel, setup);
    SelectedDel(Fresh(op, setup), sel);
    Always(Evidence, op, sel, setup, env, es);
    JobStays(op, sel, setup, env, es);
  }

  lemma {:induction false} SelectedDel(s: Scan, sel: seq<Tree>)
    ensures AddSelected(s, sel).del == s.del && Now(AddSelected(s, sel)) == Now(s)
    decreases sel
  {
    if sel != [] { SelectedDel(Add(s, Item([], sel[0])), sel[1..]); }
  }
}
