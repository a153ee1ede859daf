/** What was transferred when the engine takes a transfer for finished. */
module ComposeContents {
  import opened Options
  import opened Trees
  import opened ScanSpec
  import opened ScanShape
  import opened Compose
  import opened ComposeRuns
  import X = FileXferSpec
  import XRuns = FileXferRuns

  // --- Which events finish a transfer -------------------------------------------------

  /** The engine records the end of the transfer of it. */
  ghost predicate Finishes(g: Engine, j: Joint, e: JointEvent, it: Item) { Eof(it) in NewsIn(g, j, e) }

  lemma EofDone(n: nat, s: Scan, done: Option<Item>, it: Item)
    requires Calm(n, s, done) && Eof(it) in News(n, s.log)
    ensures done == Some(it)
  {
    var news := News(n, s.log);
    var k :| 0 <= k < |news| && news[k] == Eof(it);
    assert news[k] == s.log[n + k];
  }

  lemma EofAnswers(s: Scan, e: Event, t: Scan, it: Item)
    requires Reacts(s, e, t) && Eof(it) in News(|s.log|, t.log)
    ensures e.EofEvent? && e.p.it == it
  {
    if !e.ChunkEvent? && !e.CancelEvent? {
      EofDone(|s.log|, t, if e.EofEvent? then Some(e.p.it) else None, it);
    }
  }

  /** Only an end-of-file notice finishes a transfer, and it is the one that was waited for. */
  lemma FinishedByNotice(g: Engine, j: Joint, e: JointEvent, it: Item)
    requires Obeys(g) && Inv(j) && Possible(g, j, e) && Finishes(g, j, e, it)
    ensures ByNotice(j, e, it)
  {
    if e.Other? {
      EofAnswers(j.scan, e.e, g.step(j.scan, e.e), it);
    } else if e.Begin? {
      EofDone(0, g.start(e.op, e.sel, e.setup, e.env), None, it);
    } else {
      FinishedInNotice(g, j, e, it);
    }
  }

  predicate ByNotice(j: Joint, e: JointEvent, it: Item) {
    var x := Moved(j.xfer, e);
    && (e.Server? || e.Turn?)
    && Transferring(j.scan) && j.scan.pending[0].it == it && j.xfer.slot.Some?
    && ToldMore(j.xfer, x) && x.slot.None? && (LastTold(x).RecvEndOfFile? || LastTold(x).SendEndOfFile?)
  }

  lemma HeardIs(n: X.Notice, p: Pending, env: Env)
    requires Heard(n, p, env).EofEvent?
    ensures Heard(n, p, env).p == p && (n.RecvEndOfFile? || n.SendEndOfFile?)
  {
  }

  lemma FinishedInNotice(g: Engine, j: Joint, e: JointEvent, it: Item)
    requires Obeys(g) && Inv(j) && Possible(g, j, e) && Finishes(g, j, e, it) && (e.Server? || e.Turn?)
    ensures ByNotice(j, e, it)
  {
    Goes(g, j, e);
    var x := Moved(j.xfer, e);
    var r := Noted(j.trace, x, e);
    if ToldMore(j.xfer, x) {
      var h := Hears(g, j, x, r, e);
      assert Reacts(j.scan, h, g.step(j.scan, h));
      EofAnswers(j.scan, h, g.step(j.scan, h), it);
      HeardIs(LastTold(x), j.scan.pending[0], e.env);
    }
  }

  // --- What was transferred -----------------------------------------------------------

  /** The contents of the local file when its upload was requested. */
  function Offered(j: Joint): X.Bytes {
    if j.trace.local in j.trace.from.files then j.trace.from.files[j.trace.local] else []
  }

  /** All of the file was sent when the event is over. */
  predicate SentWhole(j: Joint, e: JointEvent) {
    XRuns.Sent(Moved(j.xfer, e).wire) == Offered(j)
  }

  /** The local file is there and holds the packets that followed the header; nothing else changed. */
  predicate ReceivedWhole(j: Joint, e: JointEvent) {
    var got := XRuns.Payload(j.trace.msgs);
    got.Some? && Moved(j.xfer, e).files == j.trace.from.files[j.trace.local := got.value]
  }

  predicate Whole(j: Joint, e: JointEvent) {
    if Sends(j.scan) then SentWhole(j, e) else ReceivedWhole(j, e)
  }

  /** The server says end-of-file about an upload of which something was not sent yet, or about a
      download that it sent no header for. */
  predicate EndsEarly(j: Joint, e: JointEvent) {
    && e.Server? && e.m.End?
    && if Sends(j.scan) then j.trace.left != [] else XRuns.Payload(j.trace.msgs).None?
  }

  /** An upload that the engine takes for finished was sent whole if and only if it was ended by
      the send loop, or by an end-of-file message when nothing was left to send. The source accepts
      that message while it sends without looking at what is left. */
  lemma FinishedUploads(g: Engine, j: Joint, e: JointEvent, it: Item)
    requires Obeys(g) && Reachable(g, j) && Possible(g, j, e) && Finishes(g, j, e, it) && Sends(j.scan)
    ensures e.Turn? || (e.Server? && e.m.End?)
    ensures SentWhole(j, e) <==> !EndsEarly(j, e)
  {
    Reached(g, j);
    FinishedByNotice(g, j, e, it);
    var told := XRuns.Count(j.trace.from.told, X.SendEndOfFile);
    if e.Server? {
      SendingMessage(j.xfer, e.m, Offered(j), told, j.trace.left);
      SendMessageTells(j.xfer, e.m);
    } else {
      SendingTurn(j.xfer, e, Offered(j), told, j.trace.left);
      TurnTells(j.xfer, e);
    }
  }

  /** A download that the engine takes for finished was ended by an end-of-file message. The local
      file holds exactly the packets that followed the header, if and only if a header came;
      otherwise the files are as they were when it was requested. */
  lemma FinishedDownloads(g: Engine, j: Joint, e: JointEvent, it: Item)
    requires Obeys(g) && Reachable(g, j) && Possible(g, j, e) && Finishes(g, j, e, it) && Receives(j.scan)
    ensures e.Server? && e.m.End?
    ensures ReceivedWhole(j, e) <==> !EndsEarly(j, e)
    ensures EndsEarly(j, e) ==> Moved(j.xfer, e).files == j.trace.from.files
  {
    Reached(g, j);
    FinishedByNotice(g, j, e, it);
    var r := j.trace;
    if e.Server? {
      ReceivingMessage(j.xfer, e.m, r.from, r.local, r.msgs);
      MessageTells(j.xfer, e.m);
    } else {
      ReceivingTurn(j.xfer, e.t);
    }
  }
}
