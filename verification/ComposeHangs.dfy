/**
 How the engine can be kept waiting for a transfer that is gone: a packet that cannot be sent
 makes the send loop give the transfer up without telling the window.
*/
module ComposeHangs {
  import opened Options
  import opened Trees
  import opened ScanSpec
  import opened ScanShape
  import opened Compose
  import opened ComposeRuns
  import opened ComposeEngine
  import opened ComposeRequests
  import X = FileXferSpec

  /** A session of the scan engine waits for a transfer that is gone if and only if a packet
      could not be sent. In all others a transfer that is waited for is in the slot and alive. */
  lemma WaitsInVainExactly(files: map<string, X.Bytes>, es: seq<JointEvent>)
    requires Session(SCAN, Connected(files), es)
    ensures
      var j := Later(SCAN, Connected(files), es);
      && (Stranded(j) <==> Dropped(SCAN, Connected(files), es))
      && (!Dropped(SCAN, Connected(files), es) ==> (Transferring(j.scan) <==> Live(j.xfer)))
  {
    ScanObeys();
    SessionKeeps(SCAN, files, es);
  }

  lemma StrandedStep(g: Engine, j: Joint, e: JointEvent)
    requires Obeys(g) && Inv(j) && Stranded(j) && Possible(g, j, e)
    ensures Then(g, j, e) == j.(scan := j.scan.(cancel := true)) && e == Other(CancelEvent)
  {
    if e.Other? {
      OnlyCancel(j.scan, e.e);
      assert Reacts(j.scan, e.e, g.step(j.scan, e.e));
    }
  }

  /** Nothing frees it any more: only Cancel can be clicked, without effect. */
  lemma {:induction false} StrandedForever(g: Engine, j: Joint, es: seq<JointEvent>)
    requires Obeys(g) && Inv(j) && Stranded(j) && Session(g, j, es)
    ensures Later(g, j, es) == j.(scan := j.scan.(cancel := j.scan.cancel || es != []))
    ensures Later(g, j, es).scan.op != NoOp
    decreases |es|
  {
    if es != [] {
      Front(g, j, es);
      StrandedForever(g, j, es[..|es| - 1]);
      var k := Later(g, j, es[..|es| - 1]);
      assert Inv(k) && Stranded(k);
      StrandedStep(g, k, es[|es| - 1]);
    }
  }

  /** So once a packet could not be sent, the operation of the scan engine never ends. */
  lemma DroppedPacketHangs(files: map<string, X.Bytes>, es: seq<JointEvent>, more: seq<JointEvent>)
    requires Session(SCAN, Connected(files), es) && Dropped(SCAN, Connected(files), es)
    requires Session(SCAN, Later(SCAN, Connected(files), es), more)
    ensures
      var j := Later(SCAN, Connected(files), es);
      var k := Later(SCAN, j, more);
      && k == j.(scan := j.scan.(cancel := j.scan.cancel || more != []))
      && k.scan.op != NoOp && Stranded(k)
  {
    ScanObeys();
    SessionKeeps(SCAN, files, es);
    StrandedForever(SCAN, Later(SCAN, Connected(files), es), more);
  }

  // --- It happens ---------------------------------------------------------------------

  const BROKEN := JointEvent.Turn(X.Tick(true, 1, false, false, false), Fine())

  /** The connection fails at the first packet of an accepted upload. */
  lemma PacketIsDropped()
    ensures
      var es := [ASKED, ACCEPTED, BROKEN];
      Session(SCAN, Connected(FILES), es) && Dropped(SCAN, Connected(FILES), es)
  {
    var u := Asks();
    var j := Onward(FILES, [], Connected(FILES), ASKED);
    u := Accepts(j);
    assert [] + [ASKED] == [ASKED];
    j := Onward(FILES, [ASKED], j, ACCEPTED);
    assert [ASKED] + [ACCEPTED] == [ASKED, ACCEPTED];
    BrokenPossible(j);
    j := Onward(FILES, [ASKED, ACCEPTED], j, BROKEN);
    var es := [ASKED, ACCEPTED, BROKEN];
    assert [ASKED, ACCEPTED] + [BROKEN] == es && es[..2] == [ASKED, ACCEPTED];
    assert Drops(Later(SCAN, Connected(FILES), es[..2]).xfer, es[2]);
  }

  lemma BrokenPossible(j: Joint)
    requires j.xfer.slot == Some(X.CdFile("C:\\f", false, Some(X.Reading(DATA)), true, false))
    ensures Possible(SCAN, j, BROKEN) && Drops(j.xfer, BROKEN)
  {
    DroppedTurn(j.xfer, BROKEN);
    assert NewsIn(SCAN, j, BROKEN) == [];
  }
}
