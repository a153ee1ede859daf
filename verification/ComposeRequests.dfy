/**
 What requests of the engine find: the transfer slot is empty, unless a cancelled transfer was
 left there; and a session in which a request is refused for that reason.
*/
module ComposeRequests {
  import opened Options
  import opened Trees
  import opened ScanSpec
  import opened ScanShape
  import opened Compose
  import opened ComposeRuns
  import opened ComposeEngine
  import X = FileXferSpec

  predicate IsRequest(a: Action) { Begins(a) || Refuses(a) }

  /** The transfer as the k-th update of the event finds it. */
  function Found(g: Engine, j: Joint, e: JointEvent, k: nat): X.Xfer
    requires k < |NewsIn(g, j, e)|
  {
    Calls(Then(g, j, e).scan.setup.paths, Moved(j.xfer, e), NewsIn(g, j, e)[..k])
  }

  /** A request is issued in a calm event, before which the slot is as the event left it. */
  lemma RequestCalm(j: Joint, x: X.Xfer, n: nat, s: Scan, done: Option<Item>, k: nat)
    requires Calm(n, s, done) && AllGranted(s.setup.paths, x, News(n, s.log)) && k < |News(n, s.log)|
    ensures Calls(s.setup.paths, x, News(n, s.log)[..k]) == x
  {
    CalmCalled(j, x, n, s, done);
  }

  lemma RequestInReaction(g: Engine, j: Joint, x: X.Xfer, e: Event, k: nat)
    requires Obeys(g) && Linked(j, x, e)
    requires AllGranted(g.step(j.scan, e).setup.paths, x, News(|j.scan.log|, g.step(j.scan, e).log))
    requires k < |News(|j.scan.log|, g.step(j.scan, e).log)|
    requires IsRequest(News(|j.scan.log|, g.step(j.scan, e).log)[k])
    ensures Calls(g.step(j.scan, e).setup.paths, x, News(|j.scan.log|, g.step(j.scan, e).log)[..k]) == x
    ensures !e.ChunkEvent? && !e.CancelEvent?
  {
    assert Reacts(j.scan, e, g.step(j.scan, e));
    if !e.ChunkEvent? && !e.CancelEvent? {
      RequestCalm(j, x, |j.scan.log|, g.step(j.scan, e), if e.EofEvent? then Some(e.p.it) else None, k);
    }
  }

  /** While a transfer is awaited only Cancel can be clicked. */
  lemma OnlyCancel(s: Scan, e: Event)
    requires Shape(s) && Transferring(s) && Enabled(s, e) && !AboutTransfer(e)
    ensures e.CancelEvent?
  {
  }

  lemma RequestInOther(g: Engine, j: Joint, e: Event, k: nat)
    requires Obeys(g) && Inv(j) && Enabled(j.scan, e) && !AboutTransfer(e)
    requires AllGranted(g.step(j.scan, e).setup.paths, j.xfer, News(|j.scan.log|, g.step(j.scan, e).log))
    requires k < |News(|j.scan.log|, g.step(j.scan, e).log)|
    requires IsRequest(News(|j.scan.log|, g.step(j.scan, e).log)[k])
    ensures Calls(g.step(j.scan, e).setup.paths, j.xfer, News(|j.scan.log|, g.step(j.scan, e).log)[..k]) == j.xfer
    ensures !Transferring(j.scan)
  {
    if Transferring(j.scan) { OnlyCancel(j.scan, e); }
    RequestInReaction(g, j, j.xfer, e, k);
  }

  lemma RequestOutside(g: Engine, j: Joint, e: JointEvent, k: nat)
    requires Obeys(g) && Inv(j) && Possible(g, j, e) && (e.Other? || e.Begin?)
    requires k < |NewsIn(g, j, e)| && IsRequest(NewsIn(g, j, e)[k])
    ensures Found(g, j, e, k) == j.xfer && !Transferring(j.scan)
  {
    if e.Other? {
      RequestInOther(g, j, e.e, k);
    } else {
      RequestCalm(j, j.xfer, 0, g.start(e.op, e.sel, e.setup, e.env), None, k);
    }
  }

  /** From inside a notice, as after end-of-file, a request always finds the slot empty. */
  lemma RequestInNotice(g: Engine, j: Joint, e: JointEvent, k: nat)
    requires Obeys(g) && Inv(j) && Possible(g, j, e) && (e.Server? || e.Turn?)
    requires k < |NewsIn(g, j, e)| && IsRequest(NewsIn(g, j, e)[k])
    ensures Found(g, j, e, k).slot.None? && Transferring(j.scan)
  {
    Goes(g, j, e);
    var x := Moved(j.xfer, e);
    var r := Noted(j.trace, x, e);
    if ToldMore(j.xfer, x) {
      var h := Hears(g, j, x, r, e);
      RequestInReaction(g, j.(trace := r), x, h, k);
    }
  }

  /** In every session: a request of the engine finds the slot filled, and is therefore refused
      as being in progress, if and only if a transfer that the server had accepted was cancelled
      and the send loop did not come by since then. */
  lemma RequestsFindTheSlotFilled(g: Engine, files: map<string, X.Bytes>, es: seq<JointEvent>, e: JointEvent, k: nat)
    requires Obeys(g) && Session(g, Connected(files), es)
    requires Possible(g, Later(g, Connected(files), es), e)
    requires k < |NewsIn(g, Later(g, Connected(files), es), e)|
    requires IsRequest(NewsIn(g, Later(g, Connected(files), es), e)[k])
    ensures Found(g, Later(g, Connected(files), es), e, k).slot.Some? <==> LeftBehind(g, Connected(files), es)
  {
    var j := Later(g, Connected(files), es);
    SessionKeeps(g, files, es);
    assert Lingers(j) <==> LeftBehind(g, Connected(files), es);
    if e.Server? || e.Turn? { RequestInNotice(g, j, e, k); } else { RequestOutside(g, j, e, k); }
  }

  /** So it is for the scan engine. */
  lemma ScanRequests(files: map<string, X.Bytes>, es: seq<JointEvent>, e: JointEvent, k: nat)
    requires Session(SCAN, Connected(files), es)
    requires Possible(SCAN, Later(SCAN, Connected(files), es), e)
    requires k < |NewsIn(SCAN, Later(SCAN, Connected(files), es), e)|
    requires IsRequest(NewsIn(SCAN, Later(SCAN, Connected(files), es), e)[k])
    ensures Found(SCAN, Later(SCAN, Connected(files), es), e, k).slot.Some? <==>
            LeftBehind(SCAN, Connected(files), es)
  {
    ScanObeys();
    RequestsFindTheSlotFilled(SCAN, files, es, e, k);
  }

  // --- A refused request --------------------------------------------------------------

  const FILE := Tree("f", false, 1, [])
  const F := Item([], FILE)
  const SETUP := Setup(250, map[], Paths("C:\\", "D:\\"))

  lemma OneFile(op: Op)
    ensures Forest([FILE]) && F.At() == ["f"] && PathLen(F.At()) == 1
    ensures LocalName(SETUP.paths, F) == "D:\\f" && RemoteName(SETUP.paths, F) == "C:\\f"
    ensures Load(op, [FILE], SETUP) == Fresh(op, SETUP).(todo := [F], total := 1)
  {
    assert WellFormed(FILE);
    assert AddSelected(Fresh(op, SETUP), [FILE]) == Add(Fresh(op, SETUP), F);
    assert Text(["f"]) == "f";
  }

  /** The upload of the one file is requested. */
  lemma Uploading() returns (s: Scan)
    ensures s == Start(LRCopy, [FILE], SETUP, Fine())
    ensures s.op == LRCopy && s.todo == [F] && s.pending == [AwaitSend(F)] && s.busy == None && !s.cancel
    ensures s.log == [Send(F, false)] && s.setup == SETUP
  {
    OneFile(LRCopy);
    var t := Load(LRCopy, [FILE], SETUP);
    s := Do(t, Send(F, false));
    assert LocalRequest(t, Fine()) == (s, false);
  }

  /** The upload cannot be requested. */
  lemma Refused(env: Env) returns (s: Scan)
    requires !env.sendOk
    ensures s == Start(LRCopy, [FILE], SETUP, env) && s.log == [SendRefused(F)]
  {
    OneFile(LRCopy);
    var t := Load(LRCopy, [FILE], SETUP);
    s := Do(t, SendRefused(F));
    assert LocalRequest(t, env) == (s, false);
  }

  const DATA: X.Bytes := [1, 2]
  const FILES: map<string, X.Bytes> := map["D:\\f" := DATA]
  const TICK := X.Tick(true, 1, true, false, true)

  const ASKED := Begin(LRCopy, [FILE], SETUP, Fine())
  const ACCEPTED := Server(X.Accept(2), Fine())
  const CLICKED := Other(CancelEvent)
  const CHUNK := JointEvent.Turn(TICK, Fine())
  const AGAIN := Begin(LRCopy, [FILE], SETUP, Fine().(sendOk := false))

  /** One more possible event. */
  lemma Onward(files: map<string, X.Bytes>, es: seq<JointEvent>, j: Joint, e: JointEvent) returns (u: Joint)
    requires Session(SCAN, Connected(files), es) && j == Later(SCAN, Connected(files), es)
    requires Possible(SCAN, j, e)
    ensures Session(SCAN, Connected(files), es + [e]) && u == Later(SCAN, Connected(files), es + [e]) == Then(SCAN, j, e)
  {
    Snoc(SCAN, Connected(files), es, e);
    u := Then(SCAN, j, e);
  }

  lemma Asks() returns (u: Joint)
    ensures Possible(SCAN, Connected(FILES), ASKED) && u == Then(SCAN, Connected(FILES), ASKED)
    ensures u.scan.op == LRCopy && u.scan.todo == [F] && u.scan.pending == [AwaitSend(F)]
    ensures u.scan.busy == None && !u.scan.cancel && u.scan.log == [Send(F, false)]
    ensures u.xfer.slot == Some(X.CdFile("C:\\f", false, Some(X.Reading(DATA)), false, false))
    ensures u.xfer.told == []
  {
    var s := Uploading();
    UploadTakes(Connected(FILES).xfer);
    OneNews(s.log, Send(F, false));
    u := Then(SCAN, Connected(FILES), ASKED);
    assert u == Called(Connected(FILES), Connected(FILES).xfer, 0, s);
  }

  lemma OneNews(log: seq<Action>, a: Action)
    requires log == [a]
    ensures News(0, log) == [a] && [a][..0] == []
  {
  }

  /** The empty slot takes the upload. */
  lemma UploadTakes(x: X.Xfer)
    requires x.slot.None? && x.files == FILES
    ensures AllGranted(SETUP.paths, x, [Send(F, false)])
    ensures
      var y := Calls(SETUP.paths, x, [Send(F, false)]);
      y.slot == Some(X.CdFile("C:\\f", false, Some(X.Reading(DATA)), false, false)) && y.told == x.told
  {
    OneFile(LRCopy);
    var news := [Send(F, false)];
    assert news[..0] == [] && Calls(SETUP.paths, x, news[..0]) == x;
    assert Calls(SETUP.paths, x, news) == Call(SETUP.paths, x, Send(F, false));
  }

  lemma Accepts(j: Joint) returns (u: Joint)
    requires j.scan.pending == [AwaitSend(F)] && j.xfer.slot.Some?
    ensures Possible(SCAN, j, ACCEPTED) && u == Then(SCAN, j, ACCEPTED)
    ensures u.scan == j.scan && u.xfer == j.xfer.(slot := Some(j.xfer.slot.value.(sendReady := true)))
  {
    u := Then(SCAN, j, ACCEPTED);
    assert NewsIn(SCAN, j, ACCEPTED) == [];
  }

  lemma Clicks(j: Joint) returns (u: Joint)
    requires j.scan.op != NoOp
    ensures Possible(SCAN, j, CLICKED) && u == Then(SCAN, j, CLICKED)
    ensures u.scan == j.scan.(cancel := true) && u.xfer == j.xfer
  {
    u := Then(SCAN, j, CLICKED);
    assert NewsIn(SCAN, j, CLICKED) == [];
  }

  lemma FirstChunk(x: X.Xfer)
    requires x.slot == Some(X.CdFile("C:\\f", false, Some(X.Reading(DATA)), true, false)) && x.told == []
    ensures
      var y := LoopTurn(x, TICK);
      y.slot.Some? && y.slot.value.sendReady && y.told == [X.SendChunk(1)]
  {
    assert LoopTurn(x, TICK) == X.SendPacket(x, TICK).0;
  }

  /** A chunk is told in a cancelled operation. */
  lemma ChunkStops(j: Joint, x: X.Xfer)
    requires Shape(j.scan) && j.scan.cancel && j.scan.pending == [AwaitSend(F)]
    requires x.slot.Some? && x.slot.value.sendReady
    ensures
      var h := ChunkEvent(AwaitSend(F), Fine()); var u := React(SCAN, j, x, h);
      && u.scan.op == NoOp && u.xfer.slot.Some? && u.xfer.slot.value.sendAbort
      && News(|j.scan.log|, u.scan.log) == [Abort(F), Finish(j.scan.todo != [] || j.scan.del != [])]
  {
    var h := ChunkEvent(AwaitSend(F), Fine());
    CancelNews(j.scan, h);
    CancelCalled(j, x, |j.scan.log|, Step(j.scan, h), F, j.scan.todo != [] || j.scan.del != []);
  }

  /** The chunk is told, and the cancelled operation ends. */
  lemma Stops(j: Joint) returns (u: Joint)
    requires Shape(j.scan) && j.scan.cancel && j.scan.pending == [AwaitSend(F)]
    requires j.xfer.slot == Some(X.CdFile("C:\\f", false, Some(X.Reading(DATA)), true, false)) && j.xfer.told == []
    ensures Possible(SCAN, j, CHUNK) && u == Then(SCAN, j, CHUNK)
    ensures u.scan.op == NoOp && u.xfer.slot.Some? && u.xfer.slot.value.sendAbort
  {
    FirstChunk(j.xfer);
    var x := LoopTurn(j.xfer, TICK);
    var k := j.(trace := Noted(j.trace, x, CHUNK));
    ChunkStops(k, x);
    u := Then(SCAN, j, CHUNK);
    assert u == React(SCAN, k, x, ChunkEvent(AwaitSend(F), Fine()));
    AbortGranted(u.scan.setup.paths, x, F, j.scan.todo != [] || j.scan.del != []);
  }

  lemma AbortGranted(n: Paths, x: X.Xfer, it: Item, early: bool)
    ensures AllGranted(n, x, [Abort(it), Finish(early)])
  {
  }

  /** The next operation begins with a request that is refused. */
  lemma Fails(j: Joint)
    requires j.scan.op == NoOp
    ensures Possible(SCAN, j, AGAIN) && NewsIn(SCAN, j, AGAIN) == [SendRefused(F)]
    ensures Found(SCAN, j, AGAIN, 0) == j.xfer
  {
    OneFile(LRCopy);
    var s := Refused(AGAIN.env);
    assert News(0, s.log) == [SendRefused(F)] && [SendRefused(F)][..0] == [];
    assert NewsIn(SCAN, j, AGAIN) == [SendRefused(F)];
  }

  lemma Blocked() returns (j: Joint)
    ensures
      var es := [ASKED, ACCEPTED, CLICKED, CHUNK];
      && Session(SCAN, Connected(FILES), es) && j == Later(SCAN, Connected(FILES), es)
      && j.scan.op == NoOp && j.xfer.slot.Some?
  {
    j := Clicked();
    ScanObeys();
    SessionKeeps(SCAN, FILES, [ASKED, ACCEPTED, CLICKED]);
    var u := Stops(j);
    assert [ASKED, ACCEPTED, CLICKED] + [CHUNK] == [ASKED, ACCEPTED, CLICKED, CHUNK];
    j := Onward(FILES, [ASKED, ACCEPTED, CLICKED], j, CHUNK);
  }

  lemma Clicked() returns (j: Joint)
    ensures
      var es := [ASKED, ACCEPTED, CLICKED];
      && Session(SCAN, Connected(FILES), es) && j == Later(SCAN, Connected(FILES), es)
      && j.scan.cancel && j.scan.pending == [AwaitSend(F)] && j.xfer.told == []
      && j.xfer.slot == Some(X.CdFile("C:\\f", false, Some(X.Reading(DATA)), true, false))
  {
    var u := Asks();
    j := Onward(FILES, [], Connected(FILES), ASKED);
    u := Accepts(j);
    assert [] + [ASKED] == [ASKED];
    j := Onward(FILES, [ASKED], j, ACCEPTED);
    u := Clicks(j);
    assert [ASKED] + [ACCEPTED] == [ASKED, ACCEPTED];
    j := Onward(FILES, [ASKED, ACCEPTED], j, CLICKED);
    assert [ASKED, ACCEPTED] + [CLICKED] == [ASKED, ACCEPTED, CLICKED];
  }

  /** It does happen: an upload is accepted and cancelled at its first chunk, data come in, and
      the next upload is refused because the slot still holds the first. */
  lemma CancelledUploadBlocksTheNext()
    ensures
      var es := [ASKED, ACCEPTED, CLICKED, CHUNK];
      var j := Later(SCAN, Connected(FILES), es);
      && Session(SCAN, Connected(FILES), es) && Possible(SCAN, j, AGAIN)
      && NewsIn(SCAN, j, AGAIN) == [SendRefused(F)]
      && Found(SCAN, j, AGAIN, 0).slot.Some? && LeftBehind(SCAN, Connected(FILES), es)
  {
    var j := Blocked();
    Fails(j);
    ScanRequests(FILES, [ASKED, ACCEPTED, CLICKED, CHUNK], AGAIN, 0);
  }
}
