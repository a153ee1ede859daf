/**
 The scan data of the file manager as the window procedures change it, with the work lists held
 in the intrusive lists of linkseq.h: each handler is proved equal to the function that
 specifies it, and keeps the pointers of both lists consistent.
*/
module ScanEngineModule {
  import opened Options
  import opened Trees
  import opened ScanSpec
  import opened ScanShape
  import opened ScanLists

  /** What one pass of a request loop decides. */
  datatype Verdict = Again | Stop(end: bool)

  class ScanEngine {
    // DLGDATA
    var op: Op
    const lists: WorkLists
    var total: nat
    var flags: Flags
    var cancel: bool
    var setup: Setup
    // what is outstanding, and the history
    ghost var pending: seq<Pending>
    ghost var busy: Option<Pending>
    ghost var job: Op
    ghost var given: nat
    ghost var log: seq<Action>

    ghost predicate Valid()
      reads lists, lists.repr
    {
      lists.Valid() && this !in lists.repr
    }

    ghost function View(): Scan
      reads this, lists
    {
      Scan(op, lists.todo, lists.del, total, flags, cancel, setup, pending, busy, job, given, log)
    }

    constructor ()
      ensures Valid() && fresh(lists.repr) && View() == Fresh(NoOp, NO_SETUP)
    {
      lists := new WorkLists();
      op, total, flags, cancel := NoOp, 0, NO_FLAGS, false;
      setup, pending, busy, job, given, log := NO_SETUP, [], None, NoOp, 0, [];
    }

    ghost method Note(a: Action)
      modifies `log
      ensures log == old(log) + [a]
    {
      log := log + [a];
    }

    /** A branch the source believes impossible writes to the debug log. */
    ghost method NoteWtf()
      modifies `log
      ensures View() == Do(old(View()), Wtf)
    {
      log := log + [Wtf];
    }

    ghost method Await(p: Pending)
      modifies `pending, `busy
      ensures pending == old(pending) + [p] && busy == None
    {
      pending, busy := pending + [p], None;
    }

    /** Dispatch of the message that answers p. */
    ghost method Dispatch(p: Pending)
      modifies `pending, `busy
      ensures View() == Take(old(View()), p)
    {
      pending, busy := Without(pending, p), Some(p);
    }

    /** An update that changes nothing but what is awaited and the history. */
    ghost method Issue(a: Action)
      requires a.List? || a.AskDelete? || (a.Stall? && lists.todo == [])
      modifies `pending, `busy, `log
      ensures View() == Do(old(View()), a)
    {
      if a.List? { Await(AwaitList(a.it)); }
      if a.AskDelete? { Await(AwaitDelete(a.it)); }
      Note(a);
    }

    // --- Lists ----------------------------------------------------------------------

    /** _scanFilesAdd. */
    method FilesAdd(it: Item)
      requires Valid()
      modifies `total, lists.repr
      ensures Valid() && fresh(lists.repr - old(lists.repr))
      ensures View() == Add(old(View()), it)
    {
      if it.node.name == "" { return; }
      if it.node.dir && it.base != [] && (it.node.name == "." || it.node.name == "..") { return; }
      lists.AddScan(it);
      if !it.node.dir { total := Wrap(total + it.node.size); }
    }

    /** The loops of _scanFilesClean. */
    method EmptyLists()
      requires Valid()
      modifies lists.repr
      ensures Valid() && lists.repr == old(lists.repr) && lists.todo == [] && lists.del == []
    {
      while !lists.ScanEmpty()
        invariant Valid() && lists.repr == old(lists.repr)
        decreases |lists.todo|
      {
        lists.PopScan();
      }
      while !lists.DelEmpty()
        invariant Valid() && lists.repr == old(lists.repr) && lists.todo == []
        decreases |lists.del|
      {
        lists.PopScanDel();
      }
    }

    /** The rest of _scanFilesClean. */
    method ResetFields(ghost early: bool)
      modifies this
      ensures View() == Clean(old(View())).(todo := lists.todo, del := lists.del, log := old(log) + [Finish(early)])
    {
      total, op, flags, cancel, busy, given, log := 0, NoOp, NO_FLAGS, false, None, 0, log + [Finish(early)];
    }

    /** _scanFilesClean. */
    method FilesClean()
      requires Valid()
      modifies this, lists.repr
      ensures Valid() && fresh(lists.repr - old(lists.repr))
      ensures View() == End(old(View()))
    {
      ghost var early := lists.todo != [] || lists.del != [];
      EmptyLists();
      ResetFields(early);
    }

    /** _scanSkipNext. */
    method SkipNext() returns (ok: bool)
      requires Valid()
      modifies `total, `given, lists.repr
      ensures Valid() && fresh(lists.repr - old(lists.repr))
      ensures ok == (old(lists.todo) != [] || old(lists.del) != [])
      ensures ok ==> View() == PressedScan(old(View()), SkipButton).(busy := busy)
      ensures !ok ==> View() == old(View())
    {
      if !lists.ScanEmpty() {
        total, given := Wrap(total - lists.ScanHead().node.size), 0;
        lists.PopScan();
      } else if !lists.DelEmpty() {
        total := Wrap(total - lists.DelHead().node.size);
        lists.PopScanDel();
      } else {
        return false;
      }
      return true;
    }

    // --- Requests -------------------------------------------------------------------

    /** _scanSendRequest. */
    method SendRequest(env: Env) returns (end: bool)
      requires Valid()
      modifies this, lists.repr
      ensures Valid() && fresh(lists.repr - old(lists.repr))
      ensures (View(), end) == ScanSpec.SendRequest(old(View()), env)
    {
      ghost var was := View();
      while !lists.ScanEmpty()
        invariant Valid() && fresh(lists.repr - old(lists.repr))
        invariant ScanSpec.SendRequest(View(), env) == ScanSpec.SendRequest(was, env)
        decreases |lists.todo|
      {
        var verdict := RequestHead(env);
        if verdict.Stop? { return verdict.end; }
      }
      end := RequestListed(env);
    }

    /** The request for the first item of lsScanDel. */
    method RequestListed(env: Env) returns (end: bool)
      requires Valid() && lists.todo == []
      modifies this
      ensures Valid() && (View(), end) == ScanSpec.SendRequest(old(View()), env)
    {
      if lists.DelEmpty() { return true; }
      if env.sendOk { Issue(AskDelete(lists.DelHead())); } else { Issue(Stall); }
      return false;
    }

    /** One pass of the loop of _scanSendRequest. */
    method RequestHead(env: Env) returns (verdict: Verdict)
      requires Valid() && lists.todo != []
      modifies this, lists.repr
      ensures Valid() && fresh(lists.repr - old(lists.repr))
      ensures verdict == Again ==>
                && lists.todo == old(lists.todo)[1..]
                && ScanSpec.SendRequest(View(), env) == ScanSpec.SendRequest(old(View()), env)
      ensures verdict.Stop? ==> (View(), verdict.end) == ScanSpec.SendRequest(old(View()), env)
    {
      var scan := lists.ScanHead();
      if !scan.node.dir && op != RDelete {
        verdict := Receive(env);
      } else if !env.sendOk {
        verdict := Stop(true);
      } else {
        if scan.node.dir { Issue(List(scan)); } else { Issue(AskDelete(scan)); }
        verdict := Stop(false);
      }
    }

    /** The part of _scanSendRequest that deals with a file to be received. */
    method Receive(env: Env) returns (verdict: Verdict)
      requires Valid() && lists.todo != [] && !lists.todo[0].node.dir && op != RDelete
      modifies this, lists.repr
      ensures Valid() && fresh(lists.repr - old(lists.repr))
      ensures verdict == Again ==>
                && lists.todo == old(lists.todo)[1..]
                && ScanSpec.SendRequest(View(), env) == ScanSpec.SendRequest(old(View()), env)
      ensures verdict.Stop? ==> (View(), verdict.end) == ScanSpec.SendRequest(old(View()), env)
    {
      var scan := lists.ScanHead();
      if !flags.over && env.isFile(scan.At()) {
        verdict := ReceiveExisting(env);
      } else if env.sendOk {
        StartReceive(scan, env.isFile(scan.At()));
        verdict := Stop(false);
      } else {
        RefuseReceive(scan);
        verdict := Stop(true);
      }
    }

    /** The local file exists, and the user did not say OK. */
    method ReceiveExisting(env: Env) returns (verdict: Verdict)
      requires Valid() && lists.todo != [] && !lists.todo[0].node.dir && op != RDelete
      requires !flags.over && env.isFile(lists.todo[0].At())
      modifies this, lists.repr
      ensures Valid() && fresh(lists.repr - old(lists.repr))
      ensures verdict == Again ==>
                && lists.todo == old(lists.todo)[1..]
                && ScanSpec.SendRequest(View(), env) == ScanSpec.SendRequest(old(View()), env)
      ensures verdict.Stop? ==> (View(), verdict.end) == ScanSpec.SendRequest(old(View()), env)
    {
      if flags.noOver {
        PassHead();
        return Again;
      }
      Question(Overwrite, lists.ScanHead());
      return Stop(false);
    }

    /** A flag that is not for all files is used up. */
    method UseUp()
      modifies `flags
      ensures flags == Taken(old(flags))
    {
      if !flags.forAll { flags := NO_FLAGS; }
    }

    method StartReceive(scan: Item, ghost clash: bool)
      modifies this
      ensures View() == Do(old(View()), Recv(scan, clash))
    {
      UseUp();
      Await(AwaitRecv(scan));
      Note(Recv(scan, clash));
    }

    method RefuseReceive(scan: Item)
      modifies this
      ensures View() == Do(old(View()), RecvRefused(scan))
    {
      UseUp();
      Note(RecvRefused(scan));
    }

    /** A message box with a question about the head opens. */
    method Question(box: Box, scan: Item)
      requires box != Failure && box != Fatal
      modifies this
      ensures View() == Do(old(View()), Ask(box, scan))
    {
      UseUp();
      Await(AwaitButton(box, scan));
      Note(Ask(box, scan));
    }

    /** _scanError and _mbError. */
    method ShowError(box: Box, scan: Item)
      requires box == Failure || box == Fatal
      modifies this
      ensures View() == Do(old(View()), Ask(box, scan))
    {
      Await(AwaitButton(box, scan));
      Note(Ask(box, scan));
    }

    /** The file at the head is left out because of an earlier NONE. */
    method PassHead()
      requires Valid() && lists.todo != []
      modifies this, lists.repr
      ensures Valid() && fresh(lists.repr - old(lists.repr))
      ensures View() == Do(old(View()), Pass(old(lists.todo[0])))
    {
      PassFields(lists.ScanHead());
      lists.PopScan();
    }

    method PassFields(scan: Item)
      modifies `flags, `total, `given, `log
      ensures View() == old(View()).(flags := Taken(old(flags)), total := Wrap(old(total) - scan.node.size),
                                     given := 0, log := old(log) + [Pass(scan)])
    {
      flags, total, given, log := Taken(flags), Wrap(total - scan.node.size), 0, log + [Pass(scan)];
    }

    /** The head of lsScan is dropped: its name does not fit the buffer, or it was deleted. */
    method DropHead(ghost a: Action)
      requires Valid() && lists.todo != [] && (a == TooLong(lists.todo[0]) || a == LocalDelete(lists.todo[0]))
      modifies this, lists.repr
      ensures Valid() && fresh(lists.repr - old(lists.repr))
      ensures View() == Do(old(View()), a)
    {
      NoteDrop(a);
      lists.PopScan();
    }

    ghost method NoteDrop(a: Action)
      modifies `given, `log
      ensures View() == old(View()).(given := 0, log := old(log) + [a])
    {
      given, log := 0, log + [a];
    }

    /** The head of lsScanDel was deleted. */
    method DropDelHead()
      requires Valid() && lists.todo == [] && lists.del != []
      modifies this, lists.repr
      ensures Valid() && fresh(lists.repr - old(lists.repr))
      ensures View() == Do(old(View()), LocalDelete(old(lists.del[0])))
    {
      log := log + [LocalDelete(lists.DelHead())];
      lists.PopScanDel();
    }

    /** A top-level item of an upload uses up a flag that is not for all. */
    method UseUpTop()
      requires Valid()
      modifies `flags
      ensures Valid()
      ensures View() == UseFlags(old(View()))
    {
      if Uploads(op) && !lists.ScanEmpty() && |lists.ScanHead().At()| == 1 { UseUp(); }
    }

    method StartSend(scan: Item, ghost clash: bool, ok: bool)
      requires Valid()
      modifies this
      ensures Valid()
      ensures View() == Do(old(View()), if ok then Send(scan, clash) else SendRefused(scan))
    {
      UseUpTop();
      if ok {
        Await(AwaitSend(scan));
        Note(Send(scan, clash));
      } else {
        Await(AwaitButton(Failure, scan));
        Note(SendRefused(scan));
      }
    }

    method AddEntry(entry: Item, fits: bool)
      requires Valid()
      modifies this, lists.repr
      ensures Valid() && fresh(lists.repr - old(lists.repr))
      ensures View() == Do(old(View()), if fits then Queue(entry) else Missed(entry))
    {
      if fits {
        FilesAdd(entry);
        Note(Queue(entry));
      } else {
        Note(Missed(entry));
      }
      given := given + 1;
    }

    method EndListing(scan: Item)
      requires Valid()
      modifies this
      ensures Valid()
      ensures View() == Do(old(View()), LocalListed(scan))
    {
      UseUpTop();
      Await(AwaitLocalEnd(scan));
      Note(LocalListed(scan));
    }

    /** One entry of the directory at the head. */
    method ListEntry(i: nat, env: Env)
      requires Valid() && lists.todo != [] && lists.todo[0].node.dir && i == given < |lists.todo[0].node.kids|
      requires Gives(env, lists.todo[0], i)
      modifies this, lists.repr
      ensures Valid() && fresh(lists.repr - old(lists.repr))
      ensures lists.todo != [] && lists.todo[0] == old(lists.todo[0]) && given == old(given) + 1
      ensures ListLocal(View(), env) == ListLocal(old(View()), env)
    {
      var scan := lists.ScanHead();
      var entry := Item(scan.At(), scan.node.kids[i]);
      AddEntry(entry, PathLen(entry.At()) < setup.room);
    }

    /** What the search did not give is missed. */
    ghost method MissRest(env: Env)
      requires Valid() && lists.todo != [] && lists.todo[0].node.dir && given <= |lists.todo[0].node.kids|
      requires given < |lists.todo[0].node.kids| ==> !Gives(env, lists.todo[0], given)
      modifies `given, `log
      ensures Valid() && given == |lists.todo[0].node.kids|
      ensures ListLocal(View(), env) == ListLocal(old(View()), env)
      decreases |lists.todo[0].node.kids| - given
    {
      if given < |lists.todo[0].node.kids| {
        Miss(Item(lists.todo[0].At(), lists.todo[0].node.kids[given]));
        MissRest(env);
      }
    }

    ghost method Miss(it: Item)
      modifies `given, `log
      ensures View() == Do(old(View()), Missed(it))
    {
      given, log := given + 1, log + [Missed(it)];
    }

    /** The DosFindFirst / DosFindNext loop over the directory at the head. */
    method ListHead(env: Env)
      requires Valid() && lists.todo != [] && lists.todo[0].node.dir
      modifies this, lists.repr
      ensures Valid() && fresh(lists.repr - old(lists.repr))
      ensures View() == ListLocal(old(View()).(given := 0), env)
    {
      var scan := lists.ScanHead();
      given := 0;
      ghost var was := View();
      var i := 0;
      while i < |scan.node.kids| && Gives(env, scan, i)
        invariant Valid() && fresh(lists.repr - old(lists.repr))
        invariant lists.todo != [] && lists.todo[0] == scan && i == given <= |scan.node.kids|
        invariant ListLocal(View(), env) == ListLocal(was, env)
      {
        ListEntry(i, env);
        i := i + 1;
      }
      MissRest(env);
      EndListing(scan);
    }

    /** What the remote panel says about the item at the head of an upload. */
    method AskPanel(scan: Item) returns (check: Check)
      ensures check == CheckPanel(View(), scan)
    {
      if op == LDelete || |scan.At()| != 1 || scan.node.name !in setup.panel {
        return Proceed(false);
      }
      if scan.node.dir != setup.panel[scan.node.name] { return AskIt(KindClash); }
      if !scan.node.dir {
        if flags.noOver { return PassIt; }
        if !flags.over { return AskIt(Overwrite); }
      } else if !flags.dirOver {
        return AskIt(ReplaceDir);
      }
      return Proceed(true);
    }

    /** _scanLocalRequest. */
    method LocalRequest(env: Env) returns (end: bool)
      requires Valid()
      modifies this, lists.repr
      ensures Valid() && fresh(lists.repr - old(lists.repr))
      ensures (View(), end) == ScanSpec.LocalRequest(old(View()), env)
    {
      ghost var was := View();
      while !lists.ScanEmpty()
        invariant Valid() && fresh(lists.repr - old(lists.repr))
        invariant ScanSpec.LocalRequest(View(), env) == ScanSpec.LocalRequest(was, env)
        decreases |lists.todo|
      {
        var verdict := LocalHead(env);
        if verdict.Stop? { return verdict.end; }
      }
      end := DeleteListed(env);
    }

    /** One pass of the loop of _scanLocalRequest. */
    method LocalHead(env: Env) returns (verdict: Verdict)
      requires Valid() && lists.todo != []
      modifies this, lists.repr
      ensures Valid() && fresh(lists.repr - old(lists.repr))
      ensures verdict == Again ==>
                && lists.todo == old(lists.todo)[1..]
                && ScanSpec.LocalRequest(View(), env) == ScanSpec.LocalRequest(old(View()), env)
      ensures verdict.Stop? ==> (View(), verdict.end) == ScanSpec.LocalRequest(old(View()), env)
    {
      var scan := lists.ScanHead();
      if PathLen(scan.At()) + 4 > setup.room {
        DropHead(TooLong(scan));
        return Again;
      }
      var check := AskPanel(scan);
      if check.Proceed? {
        verdict := LocalProceed(env, check.clash);
      } else {
        verdict := LocalQuestion(env, check);
      }
    }

    /** The head of an upload is passed over or asked about. */
    method LocalQuestion(env: Env, check: Check) returns (verdict: Verdict)
      requires Valid() && lists.todo != [] && check == CheckPanel(View(), lists.todo[0]) && !check.Proceed?
      requires PathLen(lists.todo[0].At()) + 4 <= setup.room
      modifies this, lists.repr
      ensures Valid() && fresh(lists.repr - old(lists.repr))
      ensures verdict == Again ==>
                && lists.todo == old(lists.todo)[1..]
                && ScanSpec.LocalRequest(View(), env) == ScanSpec.LocalRequest(old(View()), env)
      ensures verdict.Stop? ==> (View(), verdict.end) == ScanSpec.LocalRequest(old(View()), env)
    {
      if check.PassIt? {
        PassHead();
        return Again;
      }
      Question(check.box, lists.ScanHead());
      return Stop(false);
    }

    /** The head of a local operation raises no question. */
    method LocalProceed(env: Env, ghost clash: bool) returns (verdict: Verdict)
      requires Valid()
      requires lists.todo != [] && CheckPanel(View(), lists.todo[0]) == Proceed(clash)
      requires PathLen(lists.todo[0].At()) + 4 <= setup.room
      modifies this, lists.repr
      ensures Valid() && fresh(lists.repr - old(lists.repr))
      ensures verdict == Again ==>
                && lists.todo == old(lists.todo)[1..]
                && ScanSpec.LocalRequest(View(), env) == ScanSpec.LocalRequest(old(View()), env)
      ensures verdict.Stop? ==> (View(), verdict.end) == ScanSpec.LocalRequest(old(View()), env)
    {
      var scan := lists.ScanHead();
      if scan.node.dir {
        if env.findOk { ListHead(env); } else { Stalled(); }
        return Stop(false);
      }
      if op != LDelete {
        StartSend(scan, clash, env.sendOk);
        return Stop(false);
      }
      if !env.canDelete(scan.At()) {
        ShowError(Failure, scan);
        return Stop(false);
      }
      DropHead(LocalDelete(scan));
      return Again;
    }

    method Stalled()
      requires Valid()
      modifies this
      ensures Valid()
      ensures View() == Do(old(View()), Stall)
    {
      UseUpTop();
      Note(Stall);
    }

    /** The loop over lsScanDel that ends _scanLocalRequest. */
    method DeleteListed(env: Env) returns (end: bool)
      requires Valid()
      requires lists.todo == []
      modifies this, lists.repr
      ensures Valid() && fresh(lists.repr - old(lists.repr))
      ensures (View(), end) == DeleteLocal(old(View()), env)
    {
      ghost var was := View();
      while !lists.DelEmpty()
        invariant Valid() && fresh(lists.repr - old(lists.repr))
        invariant lists.todo == [] && DeleteLocal(View(), env) == DeleteLocal(was, env)
        decreases |lists.del|
      {
        if !lists.DelHead().node.dir && !env.canDelete(lists.DelHead().At()) {
          ShowError(Failure, lists.DelHead());
          return false;
        }
        DropDelHead();
      }
      return true;
    }

    /** _scanNextStep. */
    method NextStep(env: Env)
      requires Valid()
      modifies this, lists.repr
      ensures Valid() && fresh(lists.repr - old(lists.repr))
      ensures View() == ScanSpec.NextStep(old(View()), env)
    {
      if !cancel {
        var end;
        if Local(op) { end := LocalRequest(env); } else { end := SendRequest(env); }
        if !end { return; }
      }
      FilesClean();
    }

    // --- Handlers -------------------------------------------------------------------

    method StartFields(newOp: Op, newSetup: Setup)
      modifies this
      ensures View() == Fresh(newOp, newSetup).(todo := lists.todo, del := lists.del)
    {
      op, setup, total, flags, cancel := newOp, newSetup, 0, NO_FLAGS, false;
      pending, busy, job, given, log := [], None, newOp, 0, [];
    }

    /** _scanFilesAddSelected. */
    method AddSelection(selected: seq<Tree>)
      requires Valid()
      modifies `total, lists.repr
      ensures Valid() && fresh(lists.repr - old(lists.repr))
      ensures View() == AddSelected(old(View()), selected)
    {
      ghost var was := View();
      var i := 0;
      while i < |selected|
        invariant Valid() && fresh(lists.repr - old(lists.repr))
        invariant 0 <= i <= |selected|
        invariant AddSelected(View(), selected[i..]) == AddSelected(was, selected)
      {
        assert selected[i..][1..] == selected[i + 1..];
        FilesAdd(Item([], selected[i]));
        i := i + 1;
      }
    }

    /** _scanFilesAddSelected after _scanFilesClean. */
    method AddAll(newOp: Op, selected: seq<Tree>, newSetup: Setup)
      requires Valid()
      modifies this, lists.repr
      ensures Valid() && fresh(lists.repr - old(lists.repr))
      ensures View() == Load(newOp, selected, newSetup)
    {
      EmptyLists();
      StartFields(newOp, newSetup);
      AddSelection(selected);
    }

    /** _cmdScanOp: nothing is started without a selection. */
    method Begin(newOp: Op, selected: seq<Tree>, newSetup: Setup, env: Env)
      requires Valid()
      modifies this, lists.repr
      ensures Valid() && fresh(lists.repr - old(lists.repr))
      ensures View() == Start(newOp, selected, newSetup, env)
    {
      AddAll(newOp, selected, newSetup);
      if lists.ScanEmpty() {
        op := NoOp;
      } else {
        NextStep(env);
      }
    }

    /** _filexferFindData. */
    method FindData(node: Tree)
      requires Valid()
      modifies this, lists.repr
      ensures Valid() && fresh(lists.repr - old(lists.repr))
      ensures View() == ScanSpec.FindData(old(View()), node)
    {
      if node.name == "." || lists.ScanEmpty() { return; }
      if !lists.ScanHead().node.dir {
        NoteWtf();
        return;
      }
      if node.name == ".." { return; }
      AddEntry(Item(lists.ScanHead().At(), node), true);
    }

    /** The head leaves lsScan; copies free it, the other operations keep it for deletion. */
    method RemoveHead()
      requires Valid() && lists.todo != []
      modifies `given, lists.repr
      ensures Valid() && fresh(lists.repr - old(lists.repr)) && given == 0
      ensures lists.todo == old(lists.todo)[1..]
      ensures lists.del == if Copies(op) then old(lists.del) else [old(lists.todo[0])] + old(lists.del)
    {
      given := 0;
      if Copies(op) { lists.PopScan(); } else { lists.KeepScan(); }
    }

    method RetireHead(ghost a: Action)
      requires Valid() && lists.todo != [] && (a.DirDone? || a.Eof?) && a.it == lists.todo[0]
      requires Uploads(op) ==> a.Eof?
      modifies this, lists.repr
      ensures Valid() && fresh(lists.repr - old(lists.repr))
      ensures View() == Do(old(View()), a)
    {
      busy, log := None, log + [a];
      RemoveHead();
    }

    ghost method NoteMaking(scan: Item)
      modifies `pending, `busy, `log
      ensures View() == old(View()).(pending := old(pending) + [AwaitMkDir(scan)], busy := None,
                                     log := old(log) + [DirDone(scan)])
    {
      pending, busy, log := pending + [AwaitMkDir(scan)], None, log + [DirDone(scan)];
    }

    /** A local directory leaves lsScan after the making of its copy was requested. */
    method RetireUploaded()
      requires Valid() && lists.todo != [] && Uploads(op)
      modifies this, lists.repr
      ensures Valid() && fresh(lists.repr - old(lists.repr))
      ensures View() == Do(old(View()), DirDone(old(lists.todo[0])))
    {
      NoteMaking(lists.ScanHead());
      RemoveHead();
    }

    /** _filexferEndOfList; file lists are requested by remote operations only. */
    method EndOfList(env: Env)
      requires Valid()
      requires !Uploads(op)
      modifies this, lists.repr
      ensures Valid() && fresh(lists.repr - old(lists.repr))
      ensures View() == ScanSpec.EndOfList(old(View()), env)
    {
      if lists.ScanEmpty() { return; }
      var scan := lists.ScanHead();
      if !scan.node.dir {
        NoteWtf();
        return;
      }
      if op != RDelete && !env.mkDirOk {
        ShowError(Fatal, scan);
        return;
      }
      RetireHead(DirDone(scan));
      NextStep(env);
    }

    /** _wmEndOfLocalList without a directory at the head. */
    method NoDirectory()
      requires Valid()
      modifies this, lists.repr
      ensures Valid() && fresh(lists.repr - old(lists.repr))
      ensures View() == End(Do(old(View()), Wtf))
    {
      NoteWtf();
      FilesClean();
    }

    /** _wmEndOfLocalList with a directory at the head. */
    method LocalDirectory(env: Env)
      requires Valid() && Local(op) && lists.todo != [] && lists.todo[0].node.dir
      modifies this, lists.repr
      ensures Valid() && fresh(lists.repr - old(lists.repr))
      ensures View() == ScanSpec.EndOfLocalList(old(View()), env)
    {
      if op == LDelete {
        RetireHead(DirDone(lists.ScanHead()));
        NextStep(env);
      } else if env.sendOk {
        RetireUploaded();
      } else {
        FilesClean();
      }
    }

    /** _wmEndOfLocalList; the message is posted by local operations only. */
    method EndOfLocalList(env: Env)
      requires Valid() && Local(op)
      modifies this, lists.repr
      ensures Valid() && fresh(lists.repr - old(lists.repr))
      ensures View() == ScanSpec.EndOfLocalList(old(View()), env)
    {
      if lists.ScanEmpty() || !lists.ScanHead().node.dir {
        NoDirectory();
      } else {
        LocalDirectory(env);
      }
    }

    /** _filexferEndOfFile. */
    method EndOfFile(env: Env)
      requires Valid()
      modifies this, lists.repr
      ensures Valid() && fresh(lists.repr - old(lists.repr))
      ensures View() == ScanSpec.EndOfFile(old(View()), env)
    {
      if lists.ScanEmpty() {
        NoteWtf();
        return;
      }
      RetireHead(Eof(lists.ScanHead()));
      NextStep(env);
    }

    /** The item whose deletion was answered leaves lsScan. */
    method RemoveScanned(ok: bool)
      requires Valid() && op == RDelete && lists.todo != []
      modifies this, lists.repr
      ensures Valid() && fresh(lists.repr - old(lists.repr))
      ensures View() == Do(old(View()), DeleteReply(old(lists.todo[0]), ok))
    {
      ghost var was, a := View(), DeleteReply(lists.todo[0], ok);
      assert Effect(was, a) == Pop(was).(busy := None);
      busy := None;
      NoteDrop(a);
      lists.PopScan();
    }

    /** The item whose deletion was answered leaves lsScanDel. */
    method RemoveListed(ok: bool)
      requires Valid() && lists.del != [] && !(op == RDelete && lists.todo != [])
      modifies this, lists.repr
      ensures Valid() && fresh(lists.repr - old(lists.repr))
      ensures View() == Do(old(View()), DeleteReply(old(lists.del[0]), ok))
    {
      ghost var was, a := View(), DeleteReply(lists.del[0], ok);
      assert Effect(was, a) == PopDel(was).(busy := None);
      busy, log := None, log + [a];
      lists.PopScanDel();
    }

    /** What follows the answer to a delete request. */
    method AfterDelete(named: Item, ok: bool, env: Env)
      requires Valid()
      modifies this, lists.repr
      ensures Valid() && fresh(lists.repr - old(lists.repr))
      ensures View() == if ok then ScanSpec.NextStep(old(View()), env) else Do(old(View()), Ask(Fatal, named))
    {
      if ok { NextStep(env); } else { ShowError(Fatal, named); }
    }

    /** A file of lsScan was deleted; a directory there would be a surprise. */
    method ScannedDeleted(ok: bool)
      requires Valid() && op == RDelete && lists.todo != []
      modifies this, lists.repr
      ensures Valid() && fresh(lists.repr - old(lists.repr))
      ensures View() == Do(if old(lists.todo[0].node.dir) then Do(old(View()), Wtf) else old(View()),
                           DeleteReply(old(lists.todo[0]), ok))
    {
      if lists.ScanHead().node.dir { NoteWtf(); }
      RemoveScanned(ok);
    }

    /** _filexferDeleteResult when a file of lsScan was deleted. */
    method ScannedResult(named: Item, ok: bool, env: Env)
      requires Valid() && op == RDelete && lists.todo != []
      modifies this, lists.repr
      ensures Valid() && fresh(lists.repr - old(lists.repr))
      ensures View() == ScanSpec.DeleteResult(old(View()), named, ok, env)
    {
      ScannedDeleted(ok);
      AfterDelete(named, ok, env);
    }

    /** _filexferDeleteResult when an item of lsScanDel was deleted. */
    method ListedResult(named: Item, ok: bool, env: Env)
      requires Valid() && !(op == RDelete && lists.todo != []) && lists.del != []
      modifies this, lists.repr
      ensures Valid() && fresh(lists.repr - old(lists.repr))
      ensures View() == ScanSpec.DeleteResult(old(View()), named, ok, env)
    {
      RemoveListed(ok);
      AfterDelete(named, ok, env);
    }

    /** _filexferDeleteResult. */
    method DeleteResult(named: Item, ok: bool, env: Env)
      requires Valid()
      modifies this, lists.repr
      ensures Valid() && fresh(lists.repr - old(lists.repr))
      ensures View() == ScanSpec.DeleteResult(old(View()), named, ok, env)
    {
      if op == RDelete && !lists.ScanEmpty() {
        ScannedResult(named, ok, env);
      } else if !lists.DelEmpty() {
        ListedResult(named, ok, env);
      } else if op == RLMove {
        NoteWtf();
      } else {
        AfterDelete(named, ok, env);
      }
    }

    /** An answer that only ends the wait. */
    method Answered(ghost a: Action)
      requires a.MkDirReply? || a.Abort?
      modifies this
      ensures View() == Do(old(View()), a)
    {
      busy, log := None, log + [a];
    }

    /** _filexferMkDirResult; a refusal is only written to the debug log. */
    method MkDirResult(it: Item, ok: bool, env: Env)
      requires Valid()
      modifies this, lists.repr
      ensures Valid() && fresh(lists.repr - old(lists.repr))
      ensures View() == ScanSpec.MkDirResult(old(View()), it, ok, env)
    {
      if Uploads(op) {
        Answered(MkDirReply(it, ok));
        NextStep(env);
      }
    }

    /** _scanError. */
    method TransferFailed()
      requires Valid()
      modifies this
      ensures Valid()
      ensures View() == ScanSpec.TransferFailed(old(View()))
    {
      if !lists.ScanEmpty() {
        ShowError(Failure, lists.ScanHead());
      } else if !lists.DelEmpty() {
        ShowError(Failure, lists.DelHead());
      } else {
        NoteWtf();
      }
    }

    /** _filexferFileChunk. */
    method FileChunk(it: Item, env: Env)
      requires Valid()
      modifies this, lists.repr
      ensures Valid() && fresh(lists.repr - old(lists.repr))
      ensures View() == ScanSpec.FileChunk(old(View()), it, env)
    {
      if cancel {
        Answered(Abort(it));
        NextStep(env);
      }
    }

    /** The buttons that set a flag. */
    method PressFlag(box: Box, it: Item, b: Button)
      requires b != SkipButton
      modifies this
      ensures View() == Do(old(View()), Pressed(box, it, b, lists.todo == []))
    {
      match b {
        case OkButton => flags := NO_FLAGS.(over := true);
        case OkDirButton => flags := NO_FLAGS.(dirOver := true);
        case AllButton => flags := NO_FLAGS.(over := true, forAll := true);
        case NoneButton => flags := NO_FLAGS.(noOver := true, forAll := true);
        case CancelButton => cancel := true;
      }
      busy, log := None, log + [Pressed(box, it, b, lists.todo == [])];
    }

    method EndPress(ok: bool, ghost a: Action)
      modifies `cancel, `busy, `log
      ensures View() == old(View()).(cancel := cancel, busy := None, log := old(log) + [a])
      ensures cancel == (old(cancel) || !ok)
    {
      if !ok { cancel := true; }
      busy, log := None, log + [a];
    }

    method PressSkip(box: Box, it: Item)
      requires Valid()
      modifies this, lists.repr
      ensures Valid() && fresh(lists.repr - old(lists.repr))
      ensures View() == Do(old(View()), Pressed(box, it, SkipButton, old(lists.todo) == []))
    {
      ghost var was, late := View(), lists.todo == [];
      var ok := SkipNext();
      EndPress(ok, Pressed(box, it, SkipButton, late));
      assert PressedScan(was, SkipButton).busy == None;
    }

    /** The switch of _wmMsgBoxDisMiss. */
    method Press(box: Box, it: Item, b: Button)
      requires Valid()
      modifies this, lists.repr
      ensures Valid() && fresh(lists.repr - old(lists.repr))
      ensures View() == Do(old(View()), Pressed(box, it, b, old(lists.todo) == []))
    {
      if b == SkipButton { PressSkip(box, it); } else { PressFlag(box, it, b); }
    }

    /** _wmMsgBoxDisMiss. */
    method MsgBoxDismiss(box: Box, it: Item, b: Button, env: Env)
      requires Valid()
      modifies this, lists.repr
      ensures Valid() && fresh(lists.repr - old(lists.repr))
      ensures View() == ScanSpec.MsgBoxDismiss(old(View()), box, it, b, env)
    {
      Press(box, it, b);
      NextStep(env);
    }

    /** MBID_CANCEL from the progress window. */
    method CancelScan()
      modifies `cancel
      ensures View() == old(View()).(cancel := true)
    {
      cancel := true;
    }

    // --- One event ------------------------------------------------------------------

    /** What an answer that can come says about the operation. */
    lemma AnswerFits(e: Event)
      requires Shape(View()) && Enabled(View(), e)
      ensures e.EndOfListEvent? ==> !Uploads(op)
      ensures e.LocalEndEvent? ==> Local(op)
    {
    }

    /** The notices of the transfer. */
    method HandleTransfer(e: Event)
      requires Valid() && (e.EofEvent? || e.FailEvent? || e.ChunkEvent?)
      modifies this, lists.repr
      ensures Valid() && fresh(lists.repr - old(lists.repr))
      ensures View() == Step(old(View()), e)
    {
      match e
      case EofEvent(p, env) =>
        Dispatch(p);
        EndOfFile(env);
      case FailEvent(p) =>
        Dispatch(p);
        TransferFailed();
      case ChunkEvent(p, env) =>
        if cancel {
          Dispatch(p);
          FileChunk(p.it, env);
        }
    }

    /** The ends of listings. */
    method HandleListing(e: Event)
      requires Valid() && Shape(View()) && Enabled(View(), e) && (e.EndOfListEvent? || e.LocalEndEvent?)
      modifies this, lists.repr
      ensures Valid() && fresh(lists.repr - old(lists.repr))
      ensures View() == Step(old(View()), e)
    {
      AnswerFits(e);
      match e
      case EndOfListEvent(it, env) =>
        Dispatch(AwaitList(it));
        EndOfList(env);
      case LocalEndEvent(it, env) =>
        Dispatch(AwaitLocalEnd(it));
        EndOfLocalList(env);
    }

    /** The answers to requests. */
    method HandleReply(e: Event)
      requires Valid() && (e.DeleteEvent? || e.MkDirEvent?)
      modifies this, lists.repr
      ensures Valid() && fresh(lists.repr - old(lists.repr))
      ensures View() == Step(old(View()), e)
    {
      match e
      case DeleteEvent(it, ok, env) =>
        Dispatch(AwaitDelete(it));
        DeleteResult(it, ok, env);
      case MkDirEvent(it, ok, env) =>
        Dispatch(AwaitMkDir(it));
        MkDirResult(it, ok, env);
    }

    /** The buttons. */
    method HandleButton(box: Box, it: Item, b: Button, env: Env)
      requires Valid()
      modifies this, lists.repr
      ensures Valid() && fresh(lists.repr - old(lists.repr))
      ensures View() == Step(old(View()), ButtonEvent(box, it, b, env))
    {
      Dispatch(AwaitButton(box, it));
      MsgBoxDismiss(box, it, b, env);
    }

    /** The window procedure: every event that can come does to the scan data what the
        specification says, and both lists stay right. */
    method Handle(e: Event)
      requires Valid() && Shape(View()) && Enabled(View(), e)
      modifies this, lists.repr
      ensures Valid() && fresh(lists.repr - old(lists.repr))
      ensures View() == Step(old(View()), e)
    {
      if e.EntryEvent? {
        FindData(e.node);
      } else if e.CancelEvent? {
        CancelScan();
      } else if e.EndOfListEvent? || e.LocalEndEvent? {
        HandleListing(e);
      } else if e.EofEvent? || e.FailEvent? || e.ChunkEvent? {
        HandleTransfer(e);
      } else if e.ButtonEvent? {
        HandleButton(e.box, e.it, e.b, e.env);
      } else {
        HandleReply(e);
      }
    }
  }
}
