/**
 The file manager's recursive copy, move and delete as a function of events.

 `Do` performs one primitive update of the scan data and records it in the history;
 the handlers below it follow the window procedures of fxdlg.c branch by branch.
*/
module ScanSpec {
  import opened Options
  import opened Trees

  // --- Data -------------------------------------------------------------------------

  datatype Op = NoOp | RLCopy | RLMove | RDelete | LRCopy | LRMove | LDelete

  predicate Remote(op: Op) { op.RLCopy? || op.RLMove? || op.RDelete? }
  predicate Local(op: Op) { op.LRCopy? || op.LRMove? || op.LDelete? }
  predicate Copies(op: Op) { op.RLCopy? || op.LRCopy? }
  predicate Moves(op: Op) { op.RLMove? || op.LRMove? }
  predicate Deletes(op: Op) { op.RDelete? || op.LDelete? }
  predicate Downloads(op: Op) { op.RLCopy? || op.RLMove? }
  predicate Uploads(op: Op) { op.LRCopy? || op.LRMove? }

  // The _SCANFL_ bits.
  datatype Flags = Flags(over: bool, noOver: bool, dirOver: bool, forAll: bool)

  const NO_FLAGS := Flags(false, false, false, false)

  // A flag that does not hold for all files is used up by the next file.
  function Taken(f: Flags): Flags { if f.forAll then f else NO_FLAGS }

  datatype Box = Overwrite | KindClash | ReplaceDir | Failure | Fatal

  datatype Button = OkButton | OkDirButton | AllButton | NoneButton | SkipButton | CancelButton

  /** The buttons each message box shows. */
  predicate Offers(box: Box, b: Button) {
    match box
    case Overwrite => b != OkDirButton
    case KindClash => b == SkipButton || b == CancelButton
    case ReplaceDir => b == OkDirButton || b == SkipButton || b == CancelButton
    case Failure => b == SkipButton || b == CancelButton
    case Fatal => b == CancelButton
  }

  /** What the operation is waiting for. */
  datatype Pending =
    | AwaitList(it: Item)                // answer to a file list request
    | AwaitLocalEnd(it: Item)            // posted WM_ENDOFLOCALLIST
    | AwaitRecv(it: Item)
    | AwaitSend(it: Item)
    | AwaitDelete(it: Item)
    | AwaitMkDir(it: Item)
    | AwaitButton(box: Box, it: Item)    // an open message box

  /** One primitive update; the history of an operation is the list of these. */
  datatype Action =
    | List(it: Item)                     // file list of a remote directory requested
    | Queue(it: Item)                    // an entry of the directory at the head was added
    | Missed(it: Item)                   // a local entry that is too long, or behind an error of the search
    | LocalListed(it: Item)              // all entries of a local directory were added
    | DirDone(it: Item)                  // the directory left lsScan; its copy was made or requested
    | MkDirReply(it: Item, ok: bool)
    | Recv(it: Item, clash: bool)        // download started; clash: onto an existing file
    | RecvRefused(it: Item)              // download not started: the operation ends
    | Send(it: Item, clash: bool)        // upload started; clash: the remote panel shows that name
    | SendRefused(it: Item)              // upload not started: the failure box opened
    | Eof(it: Item)                      // the transfer of the head ended with end-of-file
    | AskDelete(it: Item)                // delete request sent
    | DeleteReply(it: Item, ok: bool)
    | LocalDelete(it: Item)
    | Ask(box: Box, it: Item)
    | Pressed(box: Box, it: Item, b: Button, late: bool)  // late: lsScan was already empty
    | Pass(it: Item)                     // left alone because of an earlier NONE
    | TooLong(it: Item)                  // dropped: the local name is too long
    | Stall                              // returned with nothing requested, posted or asked
    | Abort(it: Item)
    | Finish(early: bool)                // _scanFilesClean; early: something was still queued
    | Wtf                                // a branch the source believes impossible

  /** The directories shown in the two panels, as the window has them, with a separator at the end. */
  datatype Paths = Paths(remote: string, local: string)

  /** What does not change during one operation. */
  datatype Setup = Setup(room: nat, panel: map<string, bool>, paths: Paths)
    // room: bytes left in the local name buffer after the current path.
    // panel: the names shown in the remote panel; true for directories.

  const NO_SETUP: Setup := Setup(0, map[], Paths("", ""))

  datatype Scan = Scan(
    op: Op, todo: seq<Item>, del: seq<Item>, total: nat, flags: Flags, cancel: bool,
    setup: Setup,
    // outstanding requests, posted messages and open boxes, and the one being answered
    pending: seq<Pending>, busy: Option<Pending>,
    // history
    // given: how many entries of the directory at the head were listed so far
    job: Op, given: nat, log: seq<Action>)

  /** What the system calls made during one event return. The search of a local directory may
      break off with an error behind some of its entries; findOk is about its first call. */
  datatype Env = Env(sendOk: bool, mkDirOk: bool, findOk: bool,
                     isFile: Path -> bool, canDelete: Path -> bool, breaksAt: Path -> Option<nat>)

  /** Every call succeeds, and no file is in the way. */
  function Fine(): Env { Env(true, true, true, _ => false, _ => true, _ => None) }

  /** The search of the directory gives its i-th entry. */
  predicate Gives(env: Env, dir: Item, i: nat) {
    env.breaksAt(dir.At()).None? || i < env.breaksAt(dir.At()).value
  }

  // --- Arithmetic on the 64-bit progress total --------------------------------------

  const TWO_64: nat := 0x1_0000_0000_0000_0000

  function Wrap(x: int): nat { x % TWO_64 }

  // --- Primitive updates ------------------------------------------------------------

  function Without<T(==)>(ps: seq<T>, p: T): seq<T> {
    if ps == [] then [] else if ps[0] == p then ps[1..] else [ps[0]] + Without(ps[1..], p)
  }

  /** Dispatch of the message or answer p: it is no longer outstanding. */
  function Take(s: Scan, p: Pending): Scan {
    s.(pending := Without(s.pending, p), busy := Some(p))
  }

  /** What the operation is waiting for or is just being told. */
  function Now(s: Scan): Option<Pending> {
    if s.busy.Some? then s.busy else if s.pending != [] then Some(s.pending[0]) else None
  }

  function Wait(s: Scan, p: Pending): Scan {
    s.(pending := s.pending + [p], busy := None)
  }

  function Victim(s: Scan): Option<Item> {
    if s.todo != [] then Some(s.todo[0]) else if s.del != [] then Some(s.del[0]) else None
  }

  /** A top-level item of an upload uses up a flag that is not for all. */
  function UseFlags(s: Scan): Scan {
    if Uploads(s.op) && s.todo != [] && |s.todo[0].At()| == 1 then s.(flags := Taken(s.flags)) else s
  }

  /** _scanFilesAdd. */
  function Add(s: Scan, it: Item): Scan {
    if it.node.name == "" then s
    else if it.node.dir && it.base != [] && (it.node.name == "." || it.node.name == "..") then s
    else if it.node.dir then
      if s.todo != [] && s.todo[0].node.dir then
        s.(todo := [s.todo[0], it] + s.todo[1..])
      else
        s.(todo := [it] + s.todo)
    else
      s.(todo := s.todo + [it], total := Wrap(s.total + it.node.size))
  }

  function Pop(s: Scan): Scan {
    s.(todo := if s.todo == [] then [] else s.todo[1..], given := 0)
  }

  function PopDel(s: Scan): Scan {
    s.(del := if s.del == [] then [] else s.del[1..])
  }

  /** The head leaves lsScan: copies free it, the other operations remember it for deletion. */
  function Retire(s: Scan, it: Item): Scan {
    var t := Pop(s).(busy := None);
    if Copies(s.op) then t else t.(del := [it] + s.del)
  }

  /** _scanFilesClean. */
  function Clean(s: Scan): Scan {
    s.(op := NoOp, todo := [], del := [], total := 0, flags := NO_FLAGS, cancel := false,
       busy := None, given := 0)
  }

  function PressedScan(s: Scan, b: Button): Scan {
    var t := s.(busy := None);
    match b
    case OkButton => t.(flags := NO_FLAGS.(over := true))
    case OkDirButton => t.(flags := NO_FLAGS.(dirOver := true))
    case AllButton => t.(flags := NO_FLAGS.(over := true, forAll := true))
    case NoneButton => t.(flags := NO_FLAGS.(noOver := true, forAll := true))
    case SkipButton =>                             // _scanSkipNext
      if s.todo != [] then Pop(t).(total := Wrap(s.total - s.todo[0].node.size))
      else if s.del != [] then PopDel(t).(total := Wrap(s.total - s.del[0].node.size))
      else t.(cancel := true)
    case CancelButton => t.(cancel := true)
  }

  function Effect(s: Scan, a: Action): Scan {
    match a
    case List(it) => Wait(s, AwaitList(it))
    case Queue(it) => Add(s, it).(given := s.given + 1)
    case Missed(it) => s.(given := s.given + 1)
    case LocalListed(it) => Wait(UseFlags(s), AwaitLocalEnd(it))
    case DirDone(it) =>
      if Uploads(s.op) then Wait(Retire(s, it), AwaitMkDir(it)) else Retire(s, it)
    case MkDirReply(it, ok) => s.(busy := None)
    case Recv(it, clash) => Wait(s.(flags := Taken(s.flags)), AwaitRecv(it))
    case RecvRefused(it) => s.(flags := Taken(s.flags))
    case Send(it, clash) => Wait(UseFlags(s), AwaitSend(it))
    case SendRefused(it) => Wait(UseFlags(s), AwaitButton(Failure, it))
    case Eof(it) => Retire(s, it)
    case AskDelete(it) => Wait(s, AwaitDelete(it))
    case DeleteReply(it, ok) =>
      (if s.op == RDelete && s.todo != [] then Pop(s) else PopDel(s)).(busy := None)
    case LocalDelete(it) => if s.todo != [] then Pop(s) else PopDel(s)
    case Ask(box, it) =>
      Wait(if box == Failure || box == Fatal then s else s.(flags := Taken(s.flags)),
           AwaitButton(box, it))
    case Pressed(box, it, b, _) => PressedScan(s, b)
    case Pass(it) =>
      Pop(s).(flags := Taken(s.flags), total := Wrap(s.total - it.node.size))
    case TooLong(it) => Pop(s)
    case Stall => UseFlags(s)
    case Abort(it) => s.(busy := None)
    case Finish(_) => Clean(s)
    case Wtf => s
  }

  function Do(s: Scan, a: Action): Scan {
    Effect(s, a).(log := s.log + [a])
  }

  function End(s: Scan): Scan {
    Do(s, Finish(s.todo != [] || s.del != []))
  }

  // --- The next request -------------------------------------------------------------

  /** _scanSendRequest; the flag says that the operation is over. */
  function SendRequest(s: Scan, env: Env): (Scan, bool)
    decreases |s.todo|
  {
    if s.todo != [] then
      var it := s.todo[0];
      if it.node.dir then
        if env.sendOk then (Do(s, List(it)), false) else (s, true)
      else if s.op == RDelete then
        if env.sendOk then (Do(s, AskDelete(it)), false) else (s, true)
      else if !s.flags.over && env.isFile(it.At()) then
        if s.flags.noOver then SendRequest(Do(s, Pass(it)), env)
        else (Do(s, Ask(Overwrite, it)), false)
      else if env.sendOk then (Do(s, Recv(it, env.isFile(it.At()))), false)
      else (Do(s, RecvRefused(it)), true)
    else if s.del != [] then
      if env.sendOk then (Do(s, AskDelete(s.del[0])), false) else (Do(s, Stall), false)
    else (s, true)
  }

  /** What the search makes of the next entry of the directory at the head. */
  function NextListed(s: Scan, env: Env): Action
    requires s.todo != [] && s.given < |s.todo[0].node.kids|
  {
    var it := Item(s.todo[0].At(), s.todo[0].node.kids[s.given]);
    if Gives(env, s.todo[0], s.given) && PathLen(it.At()) < s.setup.room then Queue(it) else Missed(it)
  }

  /** The DosFindFirst / DosFindNext loop over the directory at the head. An error ends it like
      the last entry does: what follows is missed, and the list is taken for complete. */
  function ListLocal(s: Scan, env: Env): Scan
    requires s.todo != [] && s.todo[0].node.dir
    decreases |s.todo[0].node.kids| - s.given
  {
    var head := s.todo[0];
    if s.given < |head.node.kids| then ListLocal(Do(s, NextListed(s, env)), env)
    else Do(s, LocalListed(head))
  }

  /** The checks against the remote panel that precede a top-level item of an upload. */
  datatype Check = Proceed(clash: bool) | PassIt | AskIt(box: Box)

  function CheckPanel(s: Scan, it: Item): Check {
    if s.op == LDelete || |it.At()| != 1 || it.node.name !in s.setup.panel then Proceed(false)
    else if it.node.dir != s.setup.panel[it.node.name] then AskIt(KindClash)
    else if !it.node.dir then
      if s.flags.noOver then PassIt else if !s.flags.over then AskIt(Overwrite) else Proceed(true)
    else if !s.flags.dirOver then AskIt(ReplaceDir)
    else Proceed(true)
  }

  /** _scanLocalRequest. */
  function LocalRequest(s: Scan, env: Env): (Scan, bool)
    decreases |s.todo|
  {
    if s.todo == [] then DeleteLocal(s, env)
    else
      var it := s.todo[0];
      if PathLen(it.At()) + 4 > s.setup.room then LocalRequest(Do(s, TooLong(it)), env)
      else
        match CheckPanel(s, it)
        case PassIt => LocalRequest(Do(s, Pass(it)), env)
        case AskIt(box) => (Do(s, Ask(box, it)), false)
        case Proceed(clash) =>
          if !it.node.dir then
            if s.op == LDelete then
              if env.canDelete(it.At()) then LocalRequest(Do(s, LocalDelete(it)), env)
              else (Do(s, Ask(Failure, it)), false)
            else if env.sendOk then (Do(s, Send(it, clash)), false)
            else (Do(s, SendRefused(it)), false)
          else if env.findOk then (ListLocal(s.(given := 0), env), false)
          else (Do(s, Stall), false)
  }

  function DeleteLocal(s: Scan, env: Env): (Scan, bool)
    requires s.todo == []
    decreases |s.del|
  {
    if s.del == [] then (s, true)
    else if !s.del[0].node.dir && !env.canDelete(s.del[0].At()) then
      (Do(s, Ask(Failure, s.del[0])), false)
    else DeleteLocal(Do(s, LocalDelete(s.del[0])), env)
  }

  /** _scanNextStep. */
  function NextStep(s: Scan, env: Env): Scan {
    if s.cancel then End(s)
    else
      var (t, end) := if Local(s.op) then LocalRequest(s, env) else SendRequest(s, env);
      if end then End(t) else t
  }

  // --- Handlers ---------------------------------------------------------------------

  /** _filexferFindData while an operation runs. */
  function FindData(s: Scan, node: Tree): Scan {
    if node.name == "." || s.todo == [] then s
    else if !s.todo[0].node.dir then Do(s, Wtf)
    else if node.name == ".." then s
    else Do(s, Queue(Item(s.todo[0].At(), node)))
  }

  /** _filexferEndOfList while an operation runs. */
  function EndOfList(s: Scan, env: Env): Scan {
    if s.todo == [] then s
    else if !s.todo[0].node.dir then Do(s, Wtf)
    else if s.op != RDelete && !env.mkDirOk then Do(s, Ask(Fatal, s.todo[0]))
    else NextStep(Do(s, DirDone(s.todo[0])), env)
  }

  /** _wmEndOfLocalList. */
  function EndOfLocalList(s: Scan, env: Env): Scan {
    if s.todo == [] || !s.todo[0].node.dir then End(Do(s, Wtf))
    else if s.op != LDelete && !env.sendOk then End(s)
    else
      var t := Do(s, DirDone(s.todo[0]));
      if s.op == LDelete then NextStep(t, env) else t
  }

  /** _filexferEndOfFile. */
  function EndOfFile(s: Scan, env: Env): Scan {
    if s.todo == [] then Do(s, Wtf) else NextStep(Do(s, Eof(s.todo[0])), env)
  }

  /** _filexferDeleteResult; `named` is the item the answer names. */
  function DeleteResult(s: Scan, named: Item, ok: bool, env: Env): Scan {
    var t :=
      if s.op == RDelete && s.todo != [] then
        Do(if s.todo[0].node.dir then Do(s, Wtf) else s, DeleteReply(s.todo[0], ok))
      else if s.del != [] then Do(s, DeleteReply(s.del[0], ok))
      else if s.op == RLMove then Do(s, Wtf)
      else s;
    if s.op == RLMove && s.del == [] then t
    else if ok then NextStep(t, env)
    else Do(t, Ask(Fatal, named))
  }

  /** _filexferMkDirResult while an upload runs. */
  function MkDirResult(s: Scan, it: Item, ok: bool, env: Env): Scan {
    if Uploads(s.op) then NextStep(Do(s, MkDirReply(it, ok)), env) else s
  }

  /** _scanError, reached from a failed transfer. */
  function TransferFailed(s: Scan): Scan {
    match Victim(s)
    case None => Do(s, Wtf)
    case Some(it) => Do(s, Ask(Failure, it))
  }

  /** _filexferFileChunk. */
  function FileChunk(s: Scan, it: Item, env: Env): Scan {
    if s.cancel then NextStep(Do(s, Abort(it)), env) else s
  }

  /** _wmMsgBoxDisMiss for the boxes an operation opens. */
  function MsgBoxDismiss(s: Scan, box: Box, it: Item, b: Button, env: Env): Scan {
    NextStep(Do(s, Pressed(box, it, b, s.todo == [])), env)
  }

  // --- Events -----------------------------------------------------------------------

  datatype Event =
    | EntryEvent(it: Item, node: Tree)       // CFX_FINDDATA for the directory it
    | EndOfListEvent(it: Item, env: Env)
    | LocalEndEvent(it: Item, env: Env)
    | EofEvent(p: Pending, env: Env)
    | FailEvent(p: Pending)                  // CFX_RECV_xxx_FAIL, CFX_SEND_xxx_FAIL
    | ChunkEvent(p: Pending, env: Env)
    | DeleteEvent(it: Item, ok: bool, env: Env)
    | MkDirEvent(it: Item, ok: bool, env: Env)
    | ButtonEvent(box: Box, it: Item, b: Button, env: Env)
    | CancelEvent                            // Cancel in the progress window

  predicate Transfer(p: Pending) { p.AwaitRecv? || p.AwaitSend? }

  predicate DotEntry(e: Event) { e.EntryEvent? && e.node.name in {".", ".."} }

  /** Every event but a click on Cancel answers something outstanding. */
  function Answers(e: Event): Option<Pending> {
    match e
    case EntryEvent(it, _) => Some(AwaitList(it))
    case EndOfListEvent(it, _) => Some(AwaitList(it))
    case LocalEndEvent(it, _) => Some(AwaitLocalEnd(it))
    case EofEvent(p, _) => Some(p)
    case FailEvent(p) => Some(p)
    case ChunkEvent(p, _) => Some(p)
    case DeleteEvent(it, _, _) => Some(AwaitDelete(it))
    case MkDirEvent(it, _, _) => Some(AwaitMkDir(it))
    case ButtonEvent(box, it, _, _) => Some(AwaitButton(box, it))
    case CancelEvent => None
  }

  /** An event happens only as an answer, and a listing is exactly that of the directory. */
  predicate Enabled(s: Scan, e: Event) {
    && (Answers(e).Some? ==> Answers(e).value in s.pending)
    && match e
       case EntryEvent(it, node) =>
         DotEntry(e) || (s.given < |it.node.kids| && node == it.node.kids[s.given])
       case EndOfListEvent(it, _) => s.given == |it.node.kids|
       case EofEvent(p, _) => Transfer(p)
       case FailEvent(p) => Transfer(p)
       case ChunkEvent(p, _) => Transfer(p)
       case ButtonEvent(box, _, b, _) => Offers(box, b)
       case CancelEvent => s.op != NoOp
       case _ => true
  }

  function Step(s: Scan, e: Event): Scan {
    match e
    case EntryEvent(it, node) => FindData(s, node)
    case EndOfListEvent(it, env) => EndOfList(Take(s, AwaitList(it)), env)
    case LocalEndEvent(it, env) => EndOfLocalList(Take(s, AwaitLocalEnd(it)), env)
    case EofEvent(p, env) => EndOfFile(Take(s, p), env)
    case FailEvent(p) => TransferFailed(Take(s, p))
    case ChunkEvent(p, env) => if s.cancel then FileChunk(Take(s, p), p.it, env) else s
    case DeleteEvent(it, ok, env) => DeleteResult(Take(s, AwaitDelete(it)), it, ok, env)
    case MkDirEvent(it, ok, env) => MkDirResult(Take(s, AwaitMkDir(it)), it, ok, env)
    case ButtonEvent(box, it, b, env) =>
      MsgBoxDismiss(Take(s, AwaitButton(box, it)), box, it, b, env)
    case CancelEvent => s.(cancel := true)
  }

  /** _cmdScanOp up to the first request: the selection is loaded into lsScan. */
  function Load(op: Op, sel: seq<Tree>, setup: Setup): Scan {
    AddSelected(Fresh(op, setup), sel)
  }

  function Fresh(op: Op, setup: Setup): Scan {
    Scan(op, [], [], 0, NO_FLAGS, false, setup, [], None, op, 0, [])
  }

  /** _scanFilesAddSelected. */
  function AddSelected(s: Scan, sel: seq<Tree>): Scan
    decreases sel
  {
    if sel == [] then s
    else AddSelected(Add(s, Item([], sel[0])), sel[1..])
  }

  function Start(op: Op, sel: seq<Tree>, setup: Setup, env: Env): Scan {
    var s := Load(op, sel, setup);
    if s.todo == [] then s.(op := NoOp) else NextStep(s, env)
  }

  /** A run: an operation is started and then any enabled events happen. */
  ghost predicate Runs(s: Scan, es: seq<Event>)
    decreases es
  {
    es == [] || (Enabled(s, es[0]) && Runs(Step(s, es[0]), es[1..]))
  }

  function After(s: Scan, es: seq<Event>): Scan
    decreases es
  {
    if es == [] then s else After(Step(s, es[0]), es[1..])
  }
}
