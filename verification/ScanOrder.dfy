/**
 Children before parents: nothing is ever deleted below something deleted earlier.
*/
module ScanOrder {
  import opened Trees
  import opened ScanSpec
  import opened ScanShape
  import opened ScanRuns

  /** A deletion was requested from the server or made locally. */
  predicate IsDelete(a: Action) { a.AskDelete? || a.LocalDelete? }

  lemma KidBelow(h: Path, name: string, p: Path)
    ensures Below(h + [name], p) <==> p == h || Below(h, p)
    ensures Below(p, h + [name]) ==> Below(p, h)
  {
    var kid := h + [name];
    assert kid[..|h|] == h;
    if |p| <= |h| { assert kid[..|p|] == h[..|p|]; }
    if Below(p, kid) { assert p[..|h|] == p[..|kid|][..|h|]; }
  }

  // --- The queue --------------------------------------------------------------------

  /** Only the directory being listed has queued descendants: its entries listed so far. */
  ghost predicate Nested(todo: seq<Item>, given: nat) {
    && (forall i, j | 0 <= i < j < |todo| :: todo[i].At() != todo[j].At())
    && (forall i, j | 1 <= i < |todo| && 0 <= j < |todo| :: !Below(todo[j].At(), todo[i].At()))
    && (forall i | 1 <= i < |todo| && Below(todo[i].At(), todo[0].At()) ::
          todo[i].base == todo[0].At() &&
          exists k | 0 <= k < given && k < |todo[0].node.kids| ::
            todo[0].node.kids[k].name == todo[i].node.name)
  }

  lemma NestedPop(todo: seq<Item>, given: nat)
    requires Nested(todo, given) && todo != []
    ensures Nested(todo[1..], 0)
  {
    var rest := todo[1..];
    assert forall i | 0 <= i < |rest| :: rest[i] == todo[i + 1];
  }

  /** What a new entry of the head can and cannot be nested with. */
  lemma EntryApart(todo: seq<Item>, given: nat, c: Item, i: nat)
    requires Nested(todo, given) && i < |todo| && given < |todo[0].node.kids|
    requires WellFormed(todo[0].node)
    requires c == Item(todo[0].At(), todo[0].node.kids[given])
    ensures todo[i].At() != c.At() && !Below(todo[i].At(), c.At())
    ensures Below(c.At(), todo[i].At()) ==> i == 0
  {
    KidBelow(todo[0].At(), c.node.name, todo[i].At());
    if i > 0 && Below(todo[i].At(), todo[0].At()) {
      var k :| 0 <= k < given && todo[0].node.kids[k].name == todo[i].node.name;
      assert todo[0].node.kids[k].name != c.node.name;
    }
  }

  ghost predicate FitsIn(todo: seq<Item>, c: Item) {
    forall i | 0 <= i < |todo| ::
      && todo[i].At() != c.At() && !Below(todo[i].At(), c.At())
      && (Below(c.At(), todo[i].At()) ==> i == 0)
  }

  lemma NestedQueue(todo: seq<Item>, given: nat, c: Item)
    requires Nested(todo, given) && todo != [] && given < |todo[0].node.kids|
    requires WellFormed(todo[0].node)
    requires c == Item(todo[0].At(), todo[0].node.kids[given])
    ensures Nested([todo[0], c] + todo[1..], given + 1)
    ensures Nested(todo + [c], given + 1)
  {
    forall i | 0 <= i < |todo|
      ensures todo[i].At() != c.At() && !Below(todo[i].At(), c.At())
      ensures Below(c.At(), todo[i].At()) ==> i == 0
    {
      EntryApart(todo, given, c, i);
    }
    NestedFront(todo, given, c);
    NestedBack(todo, given, c);
  }

  lemma NestedFront(todo: seq<Item>, given: nat, c: Item)
    requires Nested(todo, given) && todo != [] && given < |todo[0].node.kids|
    requires c == Item(todo[0].At(), todo[0].node.kids[given]) && FitsIn(todo, c)
    ensures Nested([todo[0], c] + todo[1..], given + 1)
  {
    assert todo[0].node.kids[given].name == c.node.name;
    var front := [todo[0], c] + todo[1..];
    assert forall i | 2 <= i < |front| :: front[i] == todo[i - 1];
    assert front[0] == todo[0] && front[1] == c;
  }

  lemma NestedBack(todo: seq<Item>, given: nat, c: Item)
    requires Nested(todo, given) && todo != [] && given < |todo[0].node.kids|
    requires c == Item(todo[0].At(), todo[0].node.kids[given]) && FitsIn(todo, c)
    ensures Nested(todo + [c], given + 1)
  {
    assert todo[0].node.kids[given].name == c.node.name;
    var back := todo + [c];
    assert forall i | 0 <= i < |todo| :: back[i] == todo[i];
  }

  // --- What was deleted and what will be --------------------------------------------

  /** Nothing processed lies below a queued item, and nothing queued below a deleted one. */
  ghost predicate Apart(todo: seq<Item>, del: seq<Item>, log: seq<Action>) {
    forall t | t in todo ::
      && (forall d | d in del :: !Below(d.At(), t.At()))
      && (forall a | a in log && IsDelete(a) ::
            && !Below(a.it.At(), t.At()) && !Below(t.At(), a.it.At())
            && (t.node.dir ==> a.it.At() != t.At()))
  }

  /** lsScanDel is in an order in which children come first. */
  ghost predicate DelOrder(del: seq<Item>) {
    forall i, j | 0 <= i < j < |del| :: !Below(del[j].At(), del[i].At())
  }

  ghost predicate DelLater(del: seq<Item>, log: seq<Action>) {
    forall d, a | d in del && a in log && IsDelete(a) :: !Below(d.At(), a.it.At())
  }

  /** No deletion is followed by the deletion of something below it. */
  ghost predicate ChildrenFirst(log: seq<Action>) {
    forall i, j | 0 <= i < j < |log| && IsDelete(log[i]) && IsDelete(log[j]) ::
      !Below(log[j].it.At(), log[i].it.At())
  }

  ghost predicate Order(s: Scan) {
    && Nested(s.todo, s.given)
    && Apart(s.todo, s.del, s.log)
    && DelOrder(s.del)
    && DelLater(s.del, s.log)
    && ChildrenFirst(s.log)
  }

  // --- Kept by every update ---------------------------------------------------------

  /** An update that deletes nothing does not concern the history. */
  lemma QuietLog(todo: seq<Item>, del: seq<Item>, log: seq<Action>, a: Action)
    requires !IsDelete(a)
    ensures Apart(todo, del, log) ==> Apart(todo, del, log + [a])
    ensures DelLater(del, log) ==> DelLater(del, log + [a])
    ensures ChildrenFirst(log) ==> ChildrenFirst(log + [a])
  {
  }

  /** A new entry of the head is as far from what was processed as the head is. */
  lemma EntryIsApart(todo: seq<Item>, del: seq<Item>, log: seq<Action>, it: Item)
    requires Apart(todo, del, log) && todo != [] && todo[0].node.dir && it.base == todo[0].At()
    ensures Apart([it], del, log)
  {
    var h := todo[0];
    forall d | d in del ensures !Below(d.At(), it.At()) {
      KidBelow(h.At(), it.node.name, d.At());
    }
    forall b | b in log && IsDelete(b)
      ensures !Below(b.it.At(), it.At()) && !Below(it.At(), b.it.At()) && b.it.At() != it.At()
    {
      KidBelow(h.At(), it.node.name, b.it.At());
      KidBelow(h.At(), it.node.name, h.At());
    }
  }

  lemma ApartMore(todo: seq<Item>, more: seq<Item>, del: seq<Item>, log: seq<Action>, it: Item)
    requires Apart(todo, del, log) && Apart([it], del, log)
    requires forall x | x in more :: x == it || x in todo
    ensures Apart(more, del, log)
  {
    assert it in [it];
  }

  lemma AddedMembers(todo: seq<Item>, it: Item)
    requires todo != []
    ensures forall x | x in [todo[0], it] + todo[1..] :: x == it || x in todo
    ensures forall x | x in todo + [it] :: x == it || x in todo
  {
    assert todo == [todo[0]] + todo[1..];
  }

  lemma AddedNested(s: Scan, a: Action, t: Scan)
    requires Lists(s.op, s.todo, s.del, s.given) && Nested(s.todo, s.given)
    requires Shifted(s, a, t) && ShiftOf(s, a) == Added
    ensures Nested(t.todo, t.given)
  {
    assert s.todo[0] in s.todo;
    NestedQueue(s.todo, s.given, a.it);
  }

  lemma AddedApart(s: Scan, a: Action, t: Scan)
    requires Apart(s.todo, s.del, s.log)
    requires Shifted(s, a, t) && ShiftOf(s, a) == Added
    ensures Apart(t.todo, s.del, s.log)
  {
    EntryIsApart(s.todo, s.del, s.log, a.it);
    AddedMembers(s.todo, a.it);
    ApartMore(s.todo, t.todo, s.del, s.log, a.it);
  }

  lemma OrderAdded(s: Scan, a: Action, t: Scan)
    requires Lists(s.op, s.todo, s.del, s.given) && Order(s)
    requires Shifted(s, a, t) && ShiftOf(s, a) == Added
    ensures Order(t)
  {
    AddedNested(s, a, t);
    AddedApart(s, a, t);
    QuietLog(t.todo, t.del, s.log, a);
  }

  lemma HeadToDel(todo: seq<Item>, del: seq<Item>, given: nat, log: seq<Action>)
    requires Nested(todo, given) && Apart(todo, del, log) && todo != []
    requires DelOrder(del) && DelLater(del, log)
    ensures Apart(todo[1..], [todo[0]] + del, log)
    ensures DelOrder([todo[0]] + del) && DelLater([todo[0]] + del, log)
  {
    assert todo[0] in todo;
    assert forall i | 0 <= i < |todo| - 1 :: todo[1..][i] == todo[i + 1];
    assert forall x | x in [todo[0]] + del :: x == todo[0] || x in del;
  }

  lemma OrderKeptItem(s: Scan, a: Action, t: Scan)
    requires Order(s) && Shifted(s, a, t) && ShiftOf(s, a) == Kept && !IsDelete(a)
    ensures Order(t)
  {
    NestedPop(s.todo, s.given);
    HeadToDel(s.todo, s.del, s.given, s.log);
    QuietLog(t.todo, t.del, s.log, a);
  }

  lemma OrderDelete(s: Scan, a: Action)
    requires Lists(s.op, s.todo, s.del, s.given) && Order(s) && IsDelete(a)
    requires if s.todo != [] then HeadFile(s, a.it) else s.del != [] && a.it == s.del[0]
    ensures Apart(s.todo, s.del, s.log + [a])
    ensures DelLater(s.del, s.log + [a]) && ChildrenFirst(s.log + [a])
  {
    if s.todo != [] {
      forall t | t in s.todo
        ensures !t.node.dir && !Below(a.it.At(), t.At()) && !Below(t.At(), a.it.At())
      {
        var i :| 0 <= i < |s.todo| && s.todo[i] == t;
        assert !s.todo[0].node.dir;
      }
    }
  }

  lemma OrderShrinks(s: Scan, a: Action, t: Scan)
    requires Nested(s.todo, s.given) && DelOrder(s.del)
    requires Apart(s.todo, s.del, t.log) && DelLater(s.del, t.log) && ChildrenFirst(t.log)
    requires Shifted(s, a, t) && !ShiftOf(s, a).Added? && !ShiftOf(s, a).Kept?
    ensures Order(t)
  {
    if s.todo != [] { NestedPop(s.todo, s.given); }
    assert forall i | 0 <= i < |s.del| - 1 :: s.del[1..][i] == s.del[i + 1];
  }

  lemma OrderAfter(s: Scan, a: Action, t: Scan)
    requires Shape(s) && Order(s) && Can(s, a) && Shifted(s, a, t)
    ensures Order(t)
  {
    if ShiftOf(s, a).Added? {
      OrderAdded(s, a, t);
    } else if ShiftOf(s, a).Kept? {
      OrderKeptItem(s, a, t);
    } else {
      if IsDelete(a) { OrderDelete(s, a); } else { QuietLog(s.todo, s.del, s.log, a); }
      OrderShrinks(s, a, t);
    }
  }

  lemma OrderClosed()
    ensures Closed(Order)
  {
    forall s: Scan, a: Action | Shape(s) && Order(s) && Can(s, a)
      ensures Order(Do(s, a))
    {
      Shifts(s, a);
      OrderAfter(s, a, Do(s, a));
    }
  }

  lemma OrderAtStart(op: Op, sel: seq<Tree>, setup: Setup)
    requires Forest(sel)
    ensures Order(Load(op, sel, setup))
  {
    var s := Fresh(op, setup);
    SelectionOrder(s, sel);
  }

  /** Selected items lie side by side. */
  ghost predicate TopLevel(todo: seq<Item>, sel: seq<Tree>) {
    && (forall i | 0 <= i < |todo| :: todo[i].base == [])
    && (forall i, j | 0 <= i < j < |todo| :: todo[i].node.name != todo[j].node.name)
    && (forall i, k | 0 <= i < |todo| && 0 <= k < |sel| :: todo[i].node.name != sel[k].name)
  }

  lemma TopLevelApart(todo: seq<Item>, i: nat, j: nat)
    requires TopLevel(todo, []) && i < |todo| && j < |todo|
    ensures !Below(todo[i].At(), todo[j].At())
    ensures i != j ==> todo[i].At() != todo[j].At()
  {
    assert todo[i].At()[0] == todo[i].node.name && todo[j].At()[0] == todo[j].node.name;
  }

  lemma TopLevelNested(todo: seq<Item>)
    requires TopLevel(todo, [])
    ensures Nested(todo, 0)
  {
    forall i: nat, j: nat {:trigger todo[i], todo[j]} | i < |todo| && j < |todo|
      ensures !Below(todo[i].At(), todo[j].At()) && (i != j ==> todo[i].At() != todo[j].At())
    {
      TopLevelApart(todo, i, j);
    }
  }

  lemma TopLevelInsert(todo: seq<Item>, p: nat, sel: seq<Tree>)
    requires TopLevel(todo, sel) && Distinct(sel) && sel != [] && p <= |todo|
    ensures TopLevel(todo[..p] + [Item([], sel[0])] + todo[p..], sel[1..])
  {
    var next := todo[..p] + [Item([], sel[0])] + todo[p..];
    assert forall i | 0 <= i < p :: next[i] == todo[i];
    assert forall i | p < i < |next| :: next[i] == todo[i - 1];
    assert forall k | 0 <= k < |sel| - 1 :: sel[1..][k] == sel[k + 1];
  }

  lemma TopLevelAdd(s: Scan, sel: seq<Tree>)
    requires TopLevel(s.todo, sel) && Distinct(sel) && sel != []
    ensures TopLevel(Add(s, Item([], sel[0])).todo, sel[1..])
  {
    var it := Item([], sel[0]);
    if it.node.name == "" {
    } else if !it.node.dir {
      TopLevelInsert(s.todo, |s.todo|, sel);
      assert s.todo + [it] == s.todo[..|s.todo|] + [it] + s.todo[|s.todo|..];
    } else if s.todo != [] && s.todo[0].node.dir {
      TopLevelInsert(s.todo, 1, sel);
      assert [s.todo[0], it] + s.todo[1..] == s.todo[..1] + [it] + s.todo[1..];
    } else {
      TopLevelInsert(s.todo, 0, sel);
      assert [it] + s.todo == s.todo[..0] + [it] + s.todo[0..];
    }
  }

  lemma {:induction false} SelectionOrder(s: Scan, sel: seq<Tree>)
    requires TopLevel(s.todo, sel) && Distinct(sel)
    requires s.del == [] && s.log == [] && s.given == 0
    ensures Order(AddSelected(s, sel))
    decreases sel
  {
    if sel == [] {
      TopLevelNested(s.todo);
    } else {
      TopLevelAdd(s, sel);
      SelectionOrder(Add(s, Item([], sel[0])), sel[1..]);
    }
  }

  /** In every run, whatever is skipped, refused, cancelled or failing, a directory is
      deleted only after everything deleted below it. */
  lemma DeletesChildrenFirst(op: Op, sel: seq<Tree>, setup: Setup, env: Env, es: seq<Event>)
    requires op != NoOp && sel != [] && Forest(sel)
    requires Runs(Start(op, sel, setup, env), es)
    ensures ChildrenFirst(After(Start(op, sel, setup, env), es).log)
  {
    OrderClosed();
    OrderAtStart(op, sel, setup);
    Always(Order, op, sel, setup, env, es);
  }
}
