/**
 Sessions are runs of the scan engine, each operation with what the user selected for it.
*/
module ComposeSessions {
  import opened Options
  import opened Trees
  import opened ScanSpec
  import opened ScanShape
  import opened Compose
  import opened ComposeRuns
  import opened ComposeEngine
  import Deleting = ScanDeletes
  import Overwriting = ScanOverwrite
  import Copying = ScanCopies
  import X = FileXferSpec
  import XRuns = FileXferRuns

  // --- The run of the latest operation ------------------------------------------------

  /** A run of the operation that b starts leads to s. */
  ghost predicate IsRunOf(b: JointEvent, s: Scan)
    requires b.Begin?
  {
    && b.op != NoOp && b.sel != [] && Forest(b.sel)
    && exists es :: Runs(Start(b.op, b.sel, b.setup, b.env), es) && s == After(Start(b.op, b.sel, b.setup, b.env), es)
  }

  /** The latest start of an operation. */
  function Latest(es: seq<JointEvent>): (b: Option<JointEvent>)
    ensures b.Some? ==> b.value.Begin?
  {
    if es == [] then None
    else if es[|es| - 1].Begin? then Some(es[|es| - 1])
    else Latest(es[..|es| - 1])
  }

  lemma {:induction false} RunGoesOn(s: Scan, es: seq<Event>, e: Event)
    requires Runs(s, es) && Enabled(After(s, es), e)
    ensures Runs(s, es + [e]) && After(s, es + [e]) == Step(After(s, es), e)
    decreases es
  {
    if es == [] {
      assert [] + [e] == [e] && [e][1..] == [];
    } else {
      RunGoesOn(Step(s, es[0]), es[1..], e);
      assert (es + [e])[0] == es[0] && (es + [e])[1..] == es[1..] + [e];
    }
  }

  lemma StepIsRun(b: JointEvent, s: Scan, e: Event)
    requires b.Begin? && IsRunOf(b, s) && Enabled(s, e)
    ensures IsRunOf(b, Step(s, e))
  {
    var es :| Runs(Start(b.op, b.sel, b.setup, b.env), es) && s == After(Start(b.op, b.sel, b.setup, b.env), es);
    RunGoesOn(Start(b.op, b.sel, b.setup, b.env), es, e);
  }

  lemma StartIsRun(b: JointEvent)
    requires b.Begin? && b.op != NoOp && b.sel != [] && Forest(b.sel)
    ensures IsRunOf(b, Start(b.op, b.sel, b.setup, b.env))
  {
    assert Runs(Start(b.op, b.sel, b.setup, b.env), []);
    assert After(Start(b.op, b.sel, b.setup, b.env), []) == Start(b.op, b.sel, b.setup, b.env);
  }

  /** Before the first operation the scan data are empty, and after that they are those of a run
      of the latest operation. */
  ghost predicate Follows(s: Scan, b: Option<JointEvent>)
    requires b.Some? ==> b.value.Begin?
  {
    if b.None? then s == Fresh(NoOp, NO_SETUP) else IsRunOf(b.value, s)
  }

  lemma StepFollows(s: Scan, b: Option<JointEvent>, e: Event)
    requires (b.Some? ==> b.value.Begin?) && Follows(s, b) && Enabled(s, e)
    ensures Follows(Step(s, e), b)
  {
    if b.Some? { StepIsRun(b.value, s, e); }
  }

  /** Each event of a session is an event of the engine, the start of an operation, or none. */
  lemma EventFollows(j: Joint, e: JointEvent, b: Option<JointEvent>)
    requires Inv(j) && Possible(SCAN, j, e) && (b.Some? ==> b.value.Begin?) && Follows(j.scan, b)
    ensures Follows(Then(SCAN, j, e).scan, if e.Begin? then Some(e) else b)
  {
    if e.Begin? {
      StartIsRun(e);
    } else if e.Other? {
      StepFollows(j.scan, b, e.e);
    } else {
      Goes(SCAN, j, e);
      var x := Moved(j.xfer, e);
      if ToldMore(j.xfer, x) {
        var h := Hears(SCAN, j, x, Noted(j.trace, x, e), e);
        StepFollows(j.scan, b, h);
      }
    }
  }

  /** In every session the scan data are those of a run of the operation that the user started
      last, with its selection. So all results about runs hold in sessions. */
  lemma {:induction false} SessionsAreRuns(files: map<string, X.Bytes>, es: seq<JointEvent>)
    requires Session(SCAN, Connected(files), es)
    ensures Follows(Later(SCAN, Connected(files), es).scan, Latest(es))
    decreases |es|
  {
    if es != [] {
      var was := es[..|es| - 1];
      Front(SCAN, Connected(files), es);
      SessionsAreRuns(files, was);
      ScanObeys();
      SessionKeeps(SCAN, files, was);
      EventFollows(Later(SCAN, Connected(files), was), es[|es| - 1], Latest(was));
    }
  }

  // --- Two more results about runs, in sessions ---------------------------------------

  /** In every session, disturbed or not, the latest operation deletes no path twice and none
      outside what the user selected for it. */
  lemma SessionsDeleteOnce(files: map<string, X.Bytes>, es: seq<JointEvent>, p: Path)
    requires Session(SCAN, Connected(files), es) && Latest(es).Some?
    ensures
      var b := Latest(es).value; var s := Later(SCAN, Connected(files), es).scan;
      Deleting.Issued(s, p) <= (if UnderAll([], b.sel, p) > 0 then 1 else 0) && (Copies(b.op) ==> Deleting.Issued(s, p) == 0)
  {
    SessionsAreRuns(files, es);
    RunDeletesOnce(Latest(es).value, Later(SCAN, Connected(files), es).scan, p);
  }

  lemma RunDeletesOnce(b: JointEvent, s: Scan, p: Path)
    requires b.Begin? && IsRunOf(b, s)
    ensures Deleting.Issued(s, p) <= (if UnderAll([], b.sel, p) > 0 then 1 else 0) && (Copies(b.op) ==> Deleting.Issued(s, p) == 0)
  {
    var es :| Runs(Start(b.op, b.sel, b.setup, b.env), es) && s == After(Start(b.op, b.sel, b.setup, b.env), es);
    Deleting.NeverTwice(b.op, b.sel, b.setup, b.env, es, p);
  }

  /** In every session, when the latest operation, a move or a delete, ended without a skip, an
      error or a cancellation, it deleted exactly what the user selected for it. */
  lemma SessionsDeleteExactly(files: map<string, X.Bytes>, es: seq<JointEvent>, p: Path)
    requires Session(SCAN, Connected(files), es) && Latest(es).Some? && !Copies(Latest(es).value.op)
    requires var s := Later(SCAN, Connected(files), es).scan; s.op == NoOp && Deleting.Undisturbed(s.log)
    ensures
      var b := Latest(es).value; var s := Later(SCAN, Connected(files), es).scan;
      Deleting.Issued(s, p) == if UnderAll([], b.sel, p) > 0 then 1 else 0
  {
    SessionsAreRuns(files, es);
    RunDeletesExactly(Latest(es).value, Later(SCAN, Connected(files), es).scan, p);
  }

  lemma RunDeletesExactly(b: JointEvent, s: Scan, p: Path)
    requires b.Begin? && IsRunOf(b, s) && !Copies(b.op) && s.op == NoOp && Deleting.Undisturbed(s.log)
    ensures Deleting.Issued(s, p) == if UnderAll([], b.sel, p) > 0 then 1 else 0
  {
    var es :| Runs(Start(b.op, b.sel, b.setup, b.env), es) && s == After(Start(b.op, b.sel, b.setup, b.env), es);
    Deleting.ExactlyOneDelete(b.op, b.sel, b.setup, b.env, es, p);
  }

  // --- Names --------------------------------------------------------------------------

  lemma RunShape(b: JointEvent, s: Scan)
    requires b.Begin? && IsRunOf(b, s)
    ensures Shape(s) && s.job == b.op && s.setup == b.setup
  {
    var es :| Runs(Start(b.op, b.sel, b.setup, b.env), es) && s == After(Start(b.op, b.sel, b.setup, b.env), es);
    Copying.AlwaysChosen(b.op, b.sel, b.setup, b.env, es);
    Deleting.JobStays(b.op, b.sel, b.setup, b.env, es);
    Overwriting.SetupStays(b.op, b.sel, b.setup, b.env, es);
  }

  lemma SessionSetup(files: map<string, X.Bytes>, es: seq<JointEvent>)
    requires Session(SCAN, Connected(files), es) && Latest(es).Some?
    ensures Later(SCAN, Connected(files), es).scan.setup == Latest(es).value.setup
  {
    SessionsAreRuns(files, es);
    RunShape(Latest(es).value, Later(SCAN, Connected(files), es).scan);
  }

  /** In every session, while a transfer is awaited: the server was asked for it last, by the path
      of its item below the remote directory of the operation, and the local file that is filled or
      read is that of the path below the local one. What was sent of a file and what is left to send
      are the contents that it had then. */
  lemma SessionsNameFiles(files: map<string, X.Bytes>, es: seq<JointEvent>)
    requires Session(SCAN, Connected(files), es) && Latest(es).Some?
    requires Transferring(Later(SCAN, Connected(files), es).scan)
    ensures
      var j := Later(SCAN, Connected(files), es);
      var b, p := Latest(es).value, j.scan.pending[0];
      var remote, local := b.setup.paths.remote + Text(p.it.At()), b.setup.paths.local + Text(p.it.At());
      && XRuns.Asked(j.xfer.wire) == Some(if p.AwaitRecv? then X.Request(remote) else X.Offer(remote))
      && (j.xfer.slot.Some? && p.AwaitRecv? ==> j.xfer.slot.value.recv && j.xfer.slot.value.fname == local)
      && (j.xfer.slot.Some? && p.AwaitSend? ==>
            local in j.trace.from.files && XRuns.Sent(j.xfer.wire) + j.trace.left == j.trace.from.files[local])
  {
    ScanObeys();
    SessionKeeps(SCAN, files, es);
    SessionSetup(files, es);
  }
}
