/**
 Sessions in which a move deletes files of which nothing was sent or received, because the server
 says end-of-file too early.
*/
module ComposeLoss {
  import opened Options
  import opened Trees
  import opened ScanSpec
  import opened ScanShape
  import opened Compose
  import opened ComposeRuns
  import opened ComposeEngine
  import opened ComposeRequests
  import opened ComposeContents
  import X = FileXferSpec
  import XRuns = FileXferRuns

  const SECOND := Tree("g", false, 1, [])
  const G := Item([], SECOND)
  const BOTH: map<string, X.Bytes> := map["D:\\f" := DATA, "D:\\g" := DATA]

  const MOVE := Begin(LRMove, [FILE, SECOND], SETUP, Fine())
  const END := Server(X.End, Fine())

  lemma TwoFiles()
    ensures Forest([FILE, SECOND])
    ensures F.At() == ["f"] && PathLen(F.At()) == 1
    ensures LocalName(SETUP.paths, F) == "D:\\f" && RemoteName(SETUP.paths, F) == "C:\\f"
    ensures G.At() == ["g"] && PathLen(G.At()) == 1
    ensures LocalName(SETUP.paths, G) == "D:\\g" && RemoteName(SETUP.paths, G) == "C:\\g"
  {
    OneFile(LRMove);
    assert WellFormed(FILE) && WellFormed(SECOND);
    assert Text(["g"]) == "g";
  }

  /** A move of files with nothing in its way, and no question open. */
  predicate Smooth(s: Scan) {
    s.op == LRMove && s.flags == NO_FLAGS && !s.cancel && s.setup == SETUP && s.busy == None && s.given == 0
  }

  /** The file at the head is offered. */
  lemma IsOffered(s: Scan, it: Item)
    requires Smooth(s) && s.todo != [] && s.todo[0] == it && (it == F || it == G) && s.pending == []
    ensures
      var t := Do(s, Send(it, false));
      && NextStep(s, Fine()) == t
      && Smooth(t) && t.todo == s.todo && t.del == s.del && t.pending == [AwaitSend(it)]
  {
    TwoFiles();
    assert LocalRequest(s, Fine()) == (Do(s, Send(it, false)), false);
  }

  lemma LoadsBoth() returns (s: Scan)
    ensures s == Load(LRMove, [FILE, SECOND], SETUP)
    ensures Smooth(s) && s.todo == [F, G] && s.del == [] && s.pending == [] && s.log == []
  {
    s := Load(LRMove, [FILE, SECOND], SETUP);
    var s0 := Fresh(LRMove, SETUP);
    assert AddSelected(s0, [FILE, SECOND]) == AddSelected(Add(s0, F), [SECOND]) by {
      assert [FILE, SECOND][1..] == [SECOND];
    }
    assert AddSelected(Add(s0, F), [SECOND]) == Add(Add(s0, F), G) by {
      assert [SECOND][1..] == [];
    }
  }

  /** The latest file is being sent, and nothing was sent so far. */
  ghost predicate NothingSent(j: Joint, it: Item) {
    && Smooth(j.scan) && j.scan.pending == [AwaitSend(it)]
    && j.xfer.slot == Some(X.CdFile(RemoteName(SETUP.paths, it), false, Some(X.Reading(DATA)), false, false))
    && j.xfer.files == BOTH
    && (forall m | m in j.xfer.wire :: !m.Packet?)
  }

  lemma SlotTaken(x: X.Xfer, it: Item)
    requires (it == F || it == G) && x.slot.None? && x.files == BOTH && forall m | m in x.wire :: !m.Packet?
    ensures Granted(SETUP.paths, x, Send(it, false))
    ensures
      var y := Call(SETUP.paths, x, Send(it, false));
      && y.files == BOTH && (forall m | m in y.wire :: !m.Packet?)
      && y.slot == Some(X.CdFile(RemoteName(SETUP.paths, it), false, Some(X.Reading(DATA)), false, false))
  {
    TwoFiles();
  }

  /** The slot takes the offered file. */
  lemma Takes(j: Joint, x: X.Xfer, n: nat, s: Scan, it: Item)
    requires n < |s.log| && s.log[|s.log| - 1] == Send(it, false) && (it == F || it == G) && s.setup == SETUP
    requires forall k | n <= k < |s.log| - 1 :: s.log[k].Eof?
    requires x.slot.None? && x.files == BOTH && forall m | m in x.wire :: !m.Packet?
    ensures AllGranted(SETUP.paths, x, News(n, s.log))
    ensures
      var u := Called(j, x, n, s);
      && u.scan == s && u.xfer.files == BOTH && (forall m | m in u.xfer.wire :: !m.Packet?)
      && u.xfer.slot == Some(X.CdFile(RemoteName(SETUP.paths, it), false, Some(X.Reading(DATA)), false, false))
  {
    var news := News(n, s.log);
    assert forall k | 0 <= k < |news| :: news[k] == s.log[n + k];
    LastTakes(x, news, it);
  }

  lemma LastTakes(x: X.Xfer, news: seq<Action>, it: Item)
    requires news != [] && news[|news| - 1] == Send(it, false) && (it == F || it == G)
    requires forall k | 0 <= k < |news| - 1 :: news[k].Eof?
    requires x.slot.None? && x.files == BOTH && forall m | m in x.wire :: !m.Packet?
    ensures AllGranted(SETUP.paths, x, news)
    ensures
      var y := Calls(SETUP.paths, x, news);
      && y.files == BOTH && (forall m | m in y.wire :: !m.Packet?)
      && y.slot == Some(X.CdFile(RemoteName(SETUP.paths, it), false, Some(X.Reading(DATA)), false, false))
  {
    CallsCalm(SETUP.paths, x, news);
    SlotTaken(x, it);
  }

  lemma MoveStarts() returns (s: Scan)
    ensures s == Start(LRMove, [FILE, SECOND], SETUP, Fine()) && s.log == [Send(F, false)]
    ensures Smooth(s) && s.todo == [F, G] && s.del == [] && s.pending == [AwaitSend(F)]
  {
    var t := LoadsBoth();
    IsOffered(t, F);
    s := Do(t, Send(F, false));
  }

  lemma MoveAsked() returns (u: Joint)
    ensures Possible(SCAN, Connected(BOTH), MOVE) && u == Then(SCAN, Connected(BOTH), MOVE)
    ensures NothingSent(u, F) && u.scan.todo == [F, G] && u.scan.del == []
  {
    TwoFiles();
    var s := MoveStarts();
    Takes(Connected(BOTH), Connected(BOTH).xfer, 0, s, F);
    u := Then(SCAN, Connected(BOTH), MOVE);
  }

  /** The transfer after the server ended it: the window was told, and the slot is empty. */
  function EndedAt(j: Joint): X.Xfer {
    j.xfer.(slot := None, told := j.xfer.told + [X.RecvEndOfFile])
  }

  function NotedAt(j: Joint): Joint { j.(trace := Noted(j.trace, EndedAt(j), END)) }

  lemma Ended(j: Joint, it: Item)
    requires NothingSent(j, it)
    ensures X.Step(j.xfer, X.End) == EndedAt(j)
    ensures Then(SCAN, j, END) == React(SCAN, NotedAt(j), EndedAt(j), EofEvent(AwaitSend(it), Fine()))
  {
    assert ToldMore(j.xfer, EndedAt(j)) && LastTold(EndedAt(j)) == X.RecvEndOfFile;
  }

  lemma EndGoesOn(j: Joint, it: Item, s: Scan)
    requires NothingSent(j, it) && s == Step(j.scan, EofEvent(AwaitSend(it), Fine()))
    requires AllGranted(s.setup.paths, EndedAt(j), News(|j.scan.log|, s.log))
    ensures Possible(SCAN, j, END)
    ensures Then(SCAN, j, END) == Called(NotedAt(j), EndedAt(j), |j.scan.log|, s)
  {
    Ended(j, it);
  }

  /** The engine takes the first file for sent and offers the second. */
  lemma FirstDone(s: Scan) returns (t: Scan)
    requires Smooth(s) && s.pending == [AwaitSend(F)] && s.todo == [F, G] && s.del == []
    ensures t == Step(s, EofEvent(AwaitSend(F), Fine())) && t.log == s.log + [Eof(F), Send(G, false)]
    ensures Smooth(t) && t.todo == [G] && t.del == [F] && t.pending == [AwaitSend(G)]
  {
    var r := Do(Take(s, AwaitSend(F)), Eof(F));
    assert r.todo == [G] && r.del == [F] && r.pending == [] && Smooth(r);
    IsOffered(r, G);
    t := Do(r, Send(G, false));
  }

  lemma FirstEnds(j: Joint) returns (u: Joint)
    requires NothingSent(j, F) && j.scan.todo == [F, G] && j.scan.del == []
    ensures Possible(SCAN, j, END) && u == Then(SCAN, j, END)
    ensures NothingSent(u, G) && u.scan.todo == [G] && u.scan.del == [F]
  {
    var s := FirstDone(j.scan);
    Takes(NotedAt(j), EndedAt(j), |j.scan.log|, s, G);
    EndGoesOn(j, F, s);
    u := Then(SCAN, j, END);
  }

  /** With nothing left to send, the move deletes both files. */
  lemma BothDeleted(s: Scan)
    requires Smooth(s) && s.todo == [] && s.del == [G, F] && s.pending == []
    ensures NextStep(s, Fine()).log == s.log + [LocalDelete(G), LocalDelete(F), Finish(false)]
    ensures NextStep(s, Fine()).op == NoOp
  {
    var t := Do(s, LocalDelete(G));
    assert t.del == [F] && t.todo == [];
    var u := Do(t, LocalDelete(F));
    assert u.del == [] && u.todo == [];
    assert DeleteLocal(u, Fine()) == (u, true);
    assert DeleteLocal(t, Fine()) == (u, true);
    assert DeleteLocal(s, Fine()) == (u, true);
    assert LocalRequest(s, Fine()) == (u, true);
  }

  /** The engine takes the second file for sent. */
  lemma SecondDone(s: Scan) returns (t: Scan)
    requires Smooth(s) && s.pending == [AwaitSend(G)] && s.todo == [G] && s.del == [F]
    ensures t == Step(s, EofEvent(AwaitSend(G), Fine())) && t.op == NoOp
    ensures t.log == s.log + [Eof(G), LocalDelete(G), LocalDelete(F), Finish(false)]
  {
    var r := Do(Take(s, AwaitSend(G)), Eof(G));
    assert r.todo == [] && r.del == [G, F] && r.pending == [] && Smooth(r);
    BothDeleted(r);
    t := NextStep(r, Fine());
  }

  lemma SecondEnds(j: Joint) returns (u: Joint)
    requires NothingSent(j, G) && j.scan.todo == [G] && j.scan.del == [F]
    ensures Possible(SCAN, j, END) && u == Then(SCAN, j, END)
    ensures u.scan.log == j.scan.log + [Eof(G), LocalDelete(G), LocalDelete(F), Finish(false)]
    ensures forall m | m in u.xfer.wire :: !m.Packet?
  {
    var s := SecondDone(j.scan);
    var news := [Eof(G), LocalDelete(G), LocalDelete(F), Finish(false)];
    assert News(|j.scan.log|, s.log) == news;
    Uncalled(s.setup.paths, EndedAt(j), news);
    EndGoesOn(j, G, s);
    u := Then(SCAN, j, END);
  }

  /** Updates that call nothing. */
  lemma Uncalled(n: Paths, x: X.Xfer, log: seq<Action>)
    requires forall a | a in log :: !a.Abort? && !Begins(a)
    ensures Calls(n, x, log) == x && AllGranted(n, x, log)
  {
    assert forall k | 0 <= k < |log| :: log[k] in log;
    CallsCalm(n, x, log);
  }

  lemma FirstOfTwo() returns (j: Joint)
    ensures Session(SCAN, Connected(BOTH), [MOVE, END]) && j == Later(SCAN, Connected(BOTH), [MOVE, END])
    ensures NothingSent(j, G) && j.scan.todo == [G] && j.scan.del == [F]
  {
    var u := MoveAsked();
    j := Onward(BOTH, [], Connected(BOTH), MOVE);
    assert [] + [MOVE] == [MOVE];
    u := FirstEnds(j);
    j := Onward(BOTH, [MOVE], j, END);
    assert [MOVE] + [END] == [MOVE, END];
  }

  /** Two files are moved to the server, the server answers each offer with end-of-file, no
      packet is sent, and both source files are deleted. */
  lemma EndMessagesLoseFiles()
    ensures
      var es := [MOVE, END, END];
      var j := Later(SCAN, Connected(BOTH), es);
      && Session(SCAN, Connected(BOTH), es)
      && LocalDelete(F) in j.scan.log && LocalDelete(G) in j.scan.log
      && forall m | m in j.xfer.wire :: !m.Packet?
  {
    var j := FirstOfTwo();
    var u := SecondEnds(j);
    j := Onward(BOTH, [MOVE, END], j, END);
    assert [MOVE, END] + [END] == [MOVE, END, END];
  }

  // --- The same for a download ----------------------------------------------------------

  const NOTHING: map<string, X.Bytes> := map[]
  const FETCH := Begin(RLMove, [FILE], SETUP, Fine())

  /** The file is asked for, and nothing came yet. */
  ghost predicate NothingCame(j: Joint) {
    && Requested(j.scan) && j.xfer.files == NOTHING
    && j.xfer.slot == Some(X.CdFile("D:\\f", true, Some(X.Unset), false, false))
  }

  predicate Requested(s: Scan) {
    && s.op == RLMove && s.todo == [F] && s.del == [] && s.pending == [AwaitRecv(F)] && s.busy == None
    && !s.cancel && s.given == 0 && s.setup == SETUP
  }

  lemma Requests() returns (s: Scan)
    ensures s == Start(RLMove, [FILE], SETUP, Fine()) && Requested(s) && s.log == [Recv(F, false)]
  {
    OneFile(RLMove);
    var t := Load(RLMove, [FILE], SETUP);
    s := Do(t, Recv(F, false));
    assert SendRequest(t, Fine()) == (s, false);
  }

  lemma Fetched() returns (u: Joint)
    ensures Possible(SCAN, Connected(NOTHING), FETCH) && u == Then(SCAN, Connected(NOTHING), FETCH)
    ensures NothingCame(u)
  {
    OneFile(RLMove);
    var s := Requests();
    var x := Connected(NOTHING).xfer;
    var news := News(0, s.log);
    assert news == [Recv(F, false)] && news[..0] == [];
    assert Calls(SETUP.paths, x, news[..0]) == x && Calls(SETUP.paths, x, news) == Call(SETUP.paths, x, Recv(F, false));
    u := Then(SCAN, Connected(NOTHING), FETCH);
    assert u == Called(Connected(NOTHING), x, 0, s);
  }

  /** The engine takes the file for received and has it deleted. */
  lemma FetchDone(s: Scan) returns (t: Scan)
    requires Requested(s)
    ensures t == Step(s, EofEvent(AwaitRecv(F), Fine())) && t.log == s.log + [Eof(F), AskDelete(F)]
  {
    var r := Do(Take(s, AwaitRecv(F)), Eof(F));
    assert r.todo == [] && r.del == [F] && r.op == RLMove && !r.cancel;
    t := Do(r, AskDelete(F));
    assert SendRequest(r, Fine()) == (t, false);
  }

  lemma FetchEnds(j: Joint) returns (u: Joint)
    requires NothingCame(j)
    ensures Possible(SCAN, j, END) && u == Then(SCAN, j, END)
    ensures u.scan.log == j.scan.log + [Eof(F), AskDelete(F)] && u.xfer.files == NOTHING
  {
    var s := FetchDone(j.scan);
    var news := [Eof(F), AskDelete(F)];
    assert News(|j.scan.log|, s.log) == news;
    Uncalled(s.setup.paths, EndedAt(j), news);
    FetchGoesOn(j, s);
    u := Then(SCAN, j, END);
  }

  lemma FetchGoesOn(j: Joint, s: Scan)
    requires NothingCame(j) && s == Step(j.scan, EofEvent(AwaitRecv(F), Fine()))
    requires AllGranted(s.setup.paths, EndedAt(j), News(|j.scan.log|, s.log))
    ensures Possible(SCAN, j, END)
    ensures Then(SCAN, j, END) == Called(NotedAt(j), EndedAt(j), |j.scan.log|, s)
  {
    FetchEnded(j);
  }

  lemma FetchEnded(j: Joint)
    requires NothingCame(j)
    ensures X.Step(j.xfer, X.End) == EndedAt(j)
    ensures ToldMore(j.xfer, EndedAt(j)) && LastTold(EndedAt(j)) == X.RecvEndOfFile
    ensures Then(SCAN, j, END) == React(SCAN, NotedAt(j), EndedAt(j), EofEvent(AwaitRecv(F), Fine()))
  {
    assert ToldMore(j.xfer, EndedAt(j)) && LastTold(EndedAt(j)) == X.RecvEndOfFile;
  }

  /** A file is moved from the server, the server answers with end-of-file before any header, no
      local file is made, and the deletion of the remote one is requested. */
  lemma EndMessageLosesDownload()
    ensures
      var es := [FETCH, END];
      var j := Later(SCAN, Connected(NOTHING), es);
      Session(SCAN, Connected(NOTHING), es) && AskDelete(F) in j.scan.log && j.xfer.files == NOTHING
  {
    var u := Fetched();
    var j := Onward(NOTHING, [], Connected(NOTHING), FETCH);
    assert [] + [FETCH] == [FETCH];
    u := FetchEnds(j);
    j := Onward(NOTHING, [FETCH], j, END);
    assert [FETCH] + [END] == [FETCH, END];
  }
}
