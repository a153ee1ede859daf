/**
 What every reachable state of the scan engine looks like, and the rule by which
 everything else about runs is proved: a property that every permitted primitive
 update keeps holds after every event.
*/
module ScanShape {
  import opened Options
  import opened Trees
  import opened ScanSpec

  /** lsScan holds directories first, then files. */
  ghost predicate DirsFirst(todo: seq<Item>) {
    forall i, j | 0 <= i < j < |todo| :: todo[j].node.dir ==> todo[i].node.dir
  }

  predicate Head(s: Scan, it: Item) { s.todo != [] && it == s.todo[0] }

  predicate HeadDir(s: Scan, it: Item) { Head(s, it) && it.node.dir }

  predicate HeadFile(s: Scan, it: Item) { Head(s, it) && !it.node.dir }

  /** What the answer p is about: always the item the engine will take off its list. */
  predicate Fits(s: Scan, p: Pending) {
    match p
    case AwaitList(it) => Remote(s.op) && HeadDir(s, it)
    case AwaitLocalEnd(it) => Local(s.op) && HeadDir(s, it) && s.given == |it.node.kids|
    case AwaitRecv(it) => Downloads(s.op) && HeadFile(s, it)
    case AwaitSend(it) => Uploads(s.op) && HeadFile(s, it)
    case AwaitDelete(it) =>
      if s.todo != [] then s.op == RDelete && HeadFile(s, it)
      else Remote(s.op) && s.del != [] && it == s.del[0]
    case AwaitMkDir(it) => Uploads(s.op) && s.given == 0
    case AwaitButton(box, it) =>
      match box
      case Overwrite => !Deletes(s.op) && HeadFile(s, it)
      case KindClash => Uploads(s.op) && Head(s, it) && s.given == 0
      case ReplaceDir => Uploads(s.op) && HeadDir(s, it) && s.given == 0
      case Failure => s.given == 0 && Victim(s) == Some(it)
      case Fatal => true
  }

  ghost predicate Lists(op: Op, todo: seq<Item>, del: seq<Item>, given: nat) {
    && (op == NoOp ==> todo == [] && del == [])
    && DirsFirst(todo)
    && (Copies(op) ==> del == [])
    && (Deletes(op) ==> forall d | d in del :: d.node.dir)
    && (given > 0 ==> todo != [] && todo[0].node.dir && given <= |todo[0].node.kids|)
    && (forall t | t in todo :: WellFormed(t.node))
  }

  /** At most one thing is outstanding, and its answer concerns the right item. */
  ghost predicate Waiting(s: Scan) {
    && |s.pending| <= 1
    && (s.busy.Some? ==> s.pending == [])
    && (s.op == NoOp ==> s.pending == [] && s.busy == None)
    && (s.op != NoOp ==> s.op == s.job)
    && (s.pending != [] ==> Fits(s, s.pending[0]))
    && (s.busy.Some? ==> Fits(s, s.busy.value))
  }

  ghost predicate Shape(s: Scan) {
    Lists(s.op, s.todo, s.del, s.given) && Waiting(s)
  }

  predicate Told(s: Scan, p: Pending) { s.pending == [] && s.busy == Some(p) }

  /** Nothing is outstanding and nothing is being answered. */
  predicate Idle(s: Scan) { s.op != NoOp && s.pending == [] && s.busy == None }

  /** The last update was one after which the engine does nothing but stop. */
  predicate Stuck(log: seq<Action>) {
    log != [] && var a := log[|log| - 1]; a.Stall? || a.RecvRefused? || (a.DeleteReply? && !a.ok)
  }

  predicate Quiet(s: Scan) { Idle(s) && !s.cancel && !Stuck(s.log) }

  /** Between two items: the head was not touched yet. */
  predicate Ready(s: Scan) { Quiet(s) && s.given == 0 }

  /** When a primitive update may happen. */
  ghost predicate Can(s: Scan, a: Action) {
    match a
    case List(it) => Ready(s) && Remote(s.op) && HeadDir(s, it)
    case Queue(it) => NextEntry(s, it)
    case Missed(it) => NextEntry(s, it) && Local(s.op)
    case LocalListed(it) =>
      Quiet(s) && Local(s.op) && HeadDir(s, it) && s.given == |it.node.kids| && Cleared(s)
    case DirDone(it) =>
      && HeadDir(s, it) && s.given == |it.node.kids|
      && (Told(s, AwaitList(it)) || Told(s, AwaitLocalEnd(it)))
    case MkDirReply(it, ok) => Told(s, AwaitMkDir(it))
    case Recv(it, clash) =>
      Ready(s) && Downloads(s.op) && HeadFile(s, it) && (clash ==> s.flags.over)
    case RecvRefused(it) => Ready(s) && Downloads(s.op) && HeadFile(s, it)
    case Send(it, clash) =>
      && Ready(s) && Uploads(s.op) && HeadFile(s, it) && CheckPanel(s, it) == Proceed(clash)
      && Cleared(s)
    case SendRefused(it) => Ready(s) && Uploads(s.op) && HeadFile(s, it)
    case Eof(it) => HeadFile(s, it) && (Told(s, AwaitRecv(it)) || Told(s, AwaitSend(it)))
    case AskDelete(it) =>
      && Ready(s) && Remote(s.op)
      && (if s.todo != [] then s.op == RDelete && HeadFile(s, it) else s.del != [] && it == s.del[0])
    case DeleteReply(it, ok) => Told(s, AwaitDelete(it)) && s.given == 0
    case LocalDelete(it) =>
      && Ready(s) && Local(s.op)
      && (if s.todo != [] then s.op == LDelete && HeadFile(s, it) else s.del != [] && it == s.del[0])
    case Ask(box, it) => CanAsk(s, box, it)
    case Pressed(box, it, b, late) =>
      Told(s, AwaitButton(box, it)) && Offers(box, b) && (late <==> s.todo == [])
    case Pass(it) => Ready(s) && !Deletes(s.op) && HeadFile(s, it) && s.flags.noOver
    case TooLong(it) => Ready(s) && Local(s.op) && Head(s, it) && PathLen(it.At()) + 4 > s.setup.room
    case Stall =>
      && Ready(s)
      && (if s.todo != [] then Local(s.op) && s.todo[0].node.dir else Remote(s.op) && s.del != [])
    case Abort(it) => s.cancel && (Told(s, AwaitRecv(it)) || Told(s, AwaitSend(it)))
    case Finish(early) =>
      && (Idle(s) || (s.todo != [] && Told(s, AwaitLocalEnd(s.todo[0]))))
      && (early <==> s.todo != [] || s.del != [])
    case Wtf => false
  }

  /** An upload asks only about top-level items whose name fits. */
  predicate Askable(s: Scan, it: Item) {
    Uploads(s.op) ==> |it.At()| == 1 && PathLen(it.At()) + 4 <= s.setup.room
  }

  /** The remote panel shows a file of that name. */
  predicate ShowsFile(setup: Setup, it: Item) {
    it.node.name in setup.panel && !setup.panel[it.node.name]
  }

  /** A top-level upload goes on only when the remote panel raises no question. */
  predicate Cleared(s: Scan) {
    s.op != NoOp && s.todo != [] && CheckPanel(s, s.todo[0]).Proceed?
  }

  /** it is the next entry of the directory at the head. */
  predicate NextEntry(s: Scan, it: Item) {
    && s.todo != [] && s.todo[0].node.dir && s.given < |s.todo[0].node.kids|
    && it == Item(s.todo[0].At(), s.todo[0].node.kids[s.given])
    && if Remote(s.op) then s.pending == [AwaitList(s.todo[0])] && s.busy == None
       else Local(s.op) && Quiet(s)
  }

  predicate CanAsk(s: Scan, box: Box, it: Item) {
    match box
    case Overwrite =>
      && Ready(s) && !Deletes(s.op) && HeadFile(s, it) && !s.flags.over && !s.flags.noOver
      && Askable(s, it) && (Uploads(s.op) ==> ShowsFile(s.setup, it))
    case KindClash => Ready(s) && Uploads(s.op) && Head(s, it)
    case ReplaceDir => Ready(s) && Uploads(s.op) && HeadDir(s, it) && !s.flags.dirOver && Askable(s, it)
    case Failure =>
      || (Ready(s) && Local(s.op) && (s.op == LDelete || s.todo == []) && Victim(s) == Some(it))
      || (HeadFile(s, it) && (Told(s, AwaitRecv(it)) || Told(s, AwaitSend(it))))
    case Fatal =>
      || (Idle(s) && s.log != [] && s.log[|s.log| - 1] == DeleteReply(it, false))
      || (HeadDir(s, it) && Told(s, AwaitList(it)))
  }

  // --- Shape is kept ----------------------------------------------------------------

  lemma QueueLists(op: Op, todo: seq<Item>, del: seq<Item>, given: nat, it: Item)
    requires Lists(op, todo, del, given)
    requires todo != [] && todo[0].node.dir && given < |todo[0].node.kids|
    requires WellFormed(it.node)
    ensures it.node.dir ==> Lists(op, [todo[0], it] + todo[1..], del, given + 1)
    ensures !it.node.dir ==> Lists(op, todo + [it], del, given + 1)
  {
    var wide := [todo[0], it] + todo[1..];
    assert forall i | 2 <= i < |wide| :: wide[i] == todo[i - 1];
  }

  /** The next entry of a directory is a well-formed tree and goes behind the head or to the end. */
  lemma QueueShape(s: Scan, it: Item)
    requires Shape(s) && NextEntry(s, it)
    ensures it.node in s.todo[0].node.kids && WellFormed(it.node)
    ensures Add(s, it).todo == if it.node.dir then [s.todo[0], it] + s.todo[1..] else s.todo + [it]
    ensures Shape(Do(s, Queue(it)))
  {
    assert s.todo[0] in s.todo && it.node in s.todo[0].node.kids;
    QueueLists(s.op, s.todo, s.del, s.given, it);
  }

  lemma PopLists(op: Op, todo: seq<Item>, del: seq<Item>, given: nat)
    requires Lists(op, todo, del, given)
    ensures todo != [] ==> Lists(op, todo[1..], del, 0)
    ensures del != [] ==> Lists(op, todo, del[1..], given)
    ensures todo != [] && !Copies(op) && (Deletes(op) ==> todo[0].node.dir) ==>
              Lists(op, todo[1..], [todo[0]] + del, 0)
  {
    assert forall i | 0 <= i < |todo| - 1 :: todo[1..][i] == todo[i + 1];
  }

  lemma RetireShape(s: Scan, a: Action)
    requires Shape(s) && Can(s, a) && (a.DirDone? || a.Eof?)
    ensures Shape(Do(s, a))
  {
    PopLists(s.op, s.todo, s.del, s.given);
  }

  lemma DeleteShape(s: Scan, a: Action)
    requires Shape(s) && Can(s, a) && (a.DeleteReply? || a.LocalDelete?)
    ensures Shape(Do(s, a))
  {
    PopLists(s.op, s.todo, s.del, s.given);
  }

  lemma BoxShape(s: Scan, a: Action)
    requires Shape(s) && Can(s, a) && (a.Ask? || a.SendRefused?)
    ensures Shape(Do(s, a))
  {
  }

  lemma ButtonShape(s: Scan, a: Action)
    requires Shape(s) && Can(s, a) && a.Pressed?
    ensures Shape(Do(s, a))
  {
    if a.b == SkipButton {
      PopLists(s.op, s.todo, s.del, s.given);
    } else {
      var t := PressedScan(s, a.b);
      assert t == s.(busy := None, flags := t.flags, cancel := t.cancel);
    }
  }

  lemma PassShape(s: Scan, a: Action)
    requires Shape(s) && Can(s, a) && (a.Pass? || a.TooLong?)
    ensures Shape(Do(s, a))
  {
    PopLists(s.op, s.todo, s.del, s.given);
  }

  lemma RestShape(s: Scan, a: Action)
    requires Shape(s) && Can(s, a)
    requires a.Missed? || a.MkDirReply? || a.Stall? || a.RecvRefused? || a.Abort? || a.Finish?
    ensures Shape(Do(s, a))
  {
  }

  lemma IssueShape(s: Scan, a: Action)
    requires Shape(s) && Can(s, a) && (a.List? || a.LocalListed? || a.Recv? || a.Send? || a.AskDelete?)
    ensures Shape(Do(s, a))
  {
  }

  lemma ShapeKept(s: Scan, a: Action)
    requires Shape(s) && Can(s, a)
    ensures Shape(Do(s, a))
  {
    if a.Queue? { QueueShape(s, a.it); }
    else if a.DirDone? || a.Eof? { RetireShape(s, a); }
    else if a.DeleteReply? || a.LocalDelete? { DeleteShape(s, a); }
    else if a.Ask? || a.SendRefused? { BoxShape(s, a); }
    else if a.Pressed? { ButtonShape(s, a); }
    else if a.Pass? || a.TooLong? { PassShape(s, a); }
    else if a.Missed? || a.MkDirReply? || a.Stall? || a.RecvRefused? || a.Abort? || a.Finish? { RestShape(s, a); }
    else { IssueShape(s, a); }
  }

  lemma TakeShape(s: Scan, p: Pending)
    requires Shape(s) && p in s.pending
    ensures Told(Take(s, p), p) && Shape(Take(s, p)) && Now(Take(s, p)) == Now(s) == Some(p)
    ensures s.pending == [p] && s.busy == None
  {
  }

  // --- How the two lists change -----------------------------------------------------

  /** Same: untouched. Added: an entry was queued. Counted: an entry was passed over.
      Kept: the head went to lsScanDel. Left: the head left for good.
      DelLeft: the head of lsScanDel left. Emptied: both lists were cleaned. */
  datatype Shift = Same | Added | Counted | Kept | Left | DelLeft | Emptied

  function ShiftOf(s: Scan, a: Action): Shift {
    match a
    case Queue(_) => Added
    case Missed(_) => Counted
    case DirDone(_) => if Copies(s.op) then Left else Kept
    case Eof(_) => if Copies(s.op) then Left else Kept
    case DeleteReply(_, _) => if s.todo != [] then Left else DelLeft
    case LocalDelete(_) => if s.todo != [] then Left else DelLeft
    case Pass(_) => Left
    case TooLong(_) => Left
    case Pressed(_, _, b, _) =>
      if b != SkipButton then Same else if s.todo != [] then Left else DelLeft
    case Finish(_) => Emptied
    case _ => Same
  }

  ghost predicate Shifted(s: Scan, a: Action, t: Scan) {
    && t.log == s.log + [a]
    && t.setup == s.setup && t.job == s.job
    && match ShiftOf(s, a)
       case Same => t.todo == s.todo && t.del == s.del && t.given == s.given
       case Added =>
         && NextEntry(s, a.it) && t.del == s.del && t.given == s.given + 1
         && t.todo == if a.it.node.dir then [s.todo[0], a.it] + s.todo[1..] else s.todo + [a.it]
       case Counted =>
         NextEntry(s, a.it) && t.todo == s.todo && t.del == s.del && t.given == s.given + 1
       case Kept =>
         && s.todo != [] && a.it == s.todo[0]
         && t.todo == s.todo[1..] && t.given == 0 && t.del == [a.it] + s.del
       case Left => s.todo != [] && t.todo == s.todo[1..] && t.given == 0 && t.del == s.del
       case DelLeft =>
         s.todo == [] && s.del != [] && t.todo == [] && t.given == s.given && t.del == s.del[1..]
       case Emptied => t.todo == [] && t.del == [] && t.given == 0
  }

  lemma ShiftsRemove(s: Scan, a: Action)
    requires Shape(s) && Can(s, a)
    requires a.DeleteReply? || a.LocalDelete? || a.Pass? || a.TooLong?
    ensures Shifted(s, a, Do(s, a))
  {
  }

  lemma ShiftsPressed(s: Scan, a: Action)
    requires Shape(s) && Can(s, a) && a.Pressed?
    ensures Shifted(s, a, Do(s, a))
  {
    assert Fits(s, AwaitButton(a.box, a.it));
    if a.b == SkipButton {
      assert Victim(s).Some?;
    } else {
      var t := PressedScan(s, a.b);
      assert t == s.(busy := None, flags := t.flags, cancel := t.cancel);
    }
  }

  lemma ShiftsKeep(s: Scan, a: Action)
    requires Shape(s) && Can(s, a) && (a.DirDone? || a.Eof? || a.Missed? || a.Finish?)
    ensures Shifted(s, a, Do(s, a))
  {
  }

  lemma ShiftsNot(s: Scan, a: Action)
    requires Shape(s) && Can(s, a) && ShiftOf(s, a) == Same && !a.Pressed?
    ensures Shifted(s, a, Do(s, a))
  {
  }

  lemma Shifts(s: Scan, a: Action)
    requires Shape(s) && Can(s, a)
    ensures Shifted(s, a, Do(s, a))
  {
    if a.Queue? { QueueShape(s, a.it); }
    else if a.DirDone? || a.Eof? || a.Missed? || a.Finish? { ShiftsKeep(s, a); }
    else if a.DeleteReply? || a.LocalDelete? || a.Pass? || a.TooLong? { ShiftsRemove(s, a); }
    else if a.Pressed? { ShiftsPressed(s, a); }
    else { ShiftsNot(s, a); }
  }

  // --- What an update waits for -----------------------------------------------------

  function Next(s: Scan, a: Action): Option<Pending> {
    match a
    case List(it) => Some(AwaitList(it))
    case Queue(_) => Now(s)
    case LocalListed(it) => Some(AwaitLocalEnd(it))
    case DirDone(it) => if Uploads(s.op) then Some(AwaitMkDir(it)) else None
    case Recv(it, _) => Some(AwaitRecv(it))
    case Send(it, _) => Some(AwaitSend(it))
    case SendRefused(it) => Some(AwaitButton(Failure, it))
    case AskDelete(it) => Some(AwaitDelete(it))
    case Ask(box, it) => Some(AwaitButton(box, it))
    case _ => None
  }

  lemma NextAsked(s: Scan, a: Action)
    requires Shape(s) && Can(s, a) && Next(s, a).Some?
    ensures Now(Do(s, a)) == Next(s, a)
  {
    if a.Queue? { QueueShape(s, a.it); }
  }

  lemma NextNothing(s: Scan, a: Action)
    requires Shape(s) && Can(s, a) && Next(s, a).None?
    ensures Now(Do(s, a)) == None
  {
    if a.Queue? { QueueShape(s, a.it); }
    if a.Pressed? {
      var t := PressedScan(s, a.b);
      assert t.pending == [] && t.busy == None;
    }
  }

  lemma NextWait(s: Scan, a: Action)
    requires Shape(s) && Can(s, a)
    ensures Now(Do(s, a)) == Next(s, a)
  {
    if Next(s, a).Some? { NextAsked(s, a); } else { NextNothing(s, a); }
  }

  // --- What happens to the flags and the operation ----------------------------------

  function NewFlags(s: Scan, a: Action): Flags {
    match a
    case Recv(_, _) => Taken(s.flags)
    case RecvRefused(_) => Taken(s.flags)
    case Send(_, _) => UseFlags(s).flags
    case SendRefused(_) => UseFlags(s).flags
    case LocalListed(_) => UseFlags(s).flags
    case Stall => UseFlags(s).flags
    case Ask(box, _) => if box == Failure || box == Fatal then s.flags else Taken(s.flags)
    case Pass(_) => Taken(s.flags)
    case Finish(_) => NO_FLAGS
    case Pressed(_, _, b, _) =>
      (match b
       case OkButton => NO_FLAGS.(over := true)
       case OkDirButton => NO_FLAGS.(dirOver := true)
       case AllButton => NO_FLAGS.(over := true, forAll := true)
       case NoneButton => NO_FLAGS.(noOver := true, forAll := true)
       case _ => s.flags)
    case _ => s.flags
  }

  lemma FlagsPressed(s: Scan, a: Action)
    requires a.Pressed?
    ensures Do(s, a).flags == NewFlags(s, a) && Do(s, a).op == s.op
    ensures a.b == CancelButton ==> Do(s, a).cancel
  {
  }

  lemma FlagsOther(s: Scan, a: Action)
    requires !a.Pressed?
    ensures Do(s, a).flags == NewFlags(s, a)
    ensures Do(s, a).op == if a.Finish? then NoOp else s.op
    ensures !a.Finish? ==> Do(s, a).cancel == s.cancel
  {
  }

  lemma FlagsAfter(s: Scan, a: Action)
    ensures Do(s, a).flags == NewFlags(s, a)
    ensures Do(s, a).op == if a.Finish? then NoOp else s.op
    ensures if a.Pressed? then a.b == CancelButton ==> Do(s, a).cancel
            else a.Finish? || Do(s, a).cancel == s.cancel
  {
    if a.Pressed? { FlagsPressed(s, a); } else { FlagsOther(s, a); }
  }
}
