/** Paths relative to the directory shown in a panel, and finite directory trees. */
module Trees {

  // "dir1\dir11\file" is the sequence ["dir1", "dir11", "file"].
  type Path = seq<string>

  /** One directory entry together with everything below it. */
  datatype Tree = Tree(name: string, dir: bool, size: nat, kids: seq<Tree>)

  /** A work-list record: the directory it was found in and the entry itself. */
  datatype Item = Item(base: Path, node: Tree) {
    function At(): Path { base + [node.name] }
  }

  ghost predicate WellFormed(t: Tree) {
    && t.name != "" && t.name != "." && t.name != ".." && '\\' !in t.name
    && (!t.dir ==> t.kids == [])
    && Distinct(t.kids)
    && forall k | k in t.kids :: WellFormed(k)
  }

  ghost predicate Distinct(ts: seq<Tree>) {
    forall i, j | 0 <= i < j < |ts| :: ts[i].name != ts[j].name
  }

  /** What can be selected in a panel: well-formed entries with distinct names. */
  ghost predicate Forest(ts: seq<Tree>) {
    Distinct(ts) && forall t | t in ts :: WellFormed(t)
  }

  /** q lies strictly inside the directory p. */
  predicate Below(q: Path, p: Path) {
    |p| < |q| && q[..|p|] == p
  }

  /** Length of the text form of a path, separators included. */
  function PathLen(p: Path): nat {
    if p == [] then 0 else if |p| == 1 then |p[0]| else |p[0]| + 1 + PathLen(p[1..])
  }

  // --- Everything inside a tree -----------------------------------------------------

  /** How often p is the path of the entry t of base or of something below it. */
  ghost function Under(base: Path, t: Tree, p: Path): nat
    decreases t, 1
  {
    (if base + [t.name] == p then 1 else 0) + UnderAll(base + [t.name], t.kids, p)
  }

  ghost function UnderAll(base: Path, ts: seq<Tree>, p: Path): nat
    decreases ts, 0
  {
    if ts == [] then 0 else Under(base, ts[0], p) + UnderAll(base, ts[1..], p)
  }

  /** Everything inside base starts with base and continues with the name of an entry. */
  lemma {:induction false} UnderShape(base: Path, t: Tree, p: Path)
    requires Under(base, t, p) > 0
    ensures |base| < |p| && p[..|base|] == base && p[|base|] == t.name
    decreases t, 1
  {
    var here := base + [t.name];
    if p != here {
      UnderAllShape(here, t.kids, p);
      assert p[..|base|] == p[..|here|][..|base|];
      assert p[|base|] == p[..|here|][|base|];
    }
  }

  lemma {:induction false} UnderAllShape(base: Path, ts: seq<Tree>, p: Path)
    requires UnderAll(base, ts, p) > 0
    ensures |base| < |p| && p[..|base|] == base
    ensures exists k | 0 <= k < |ts| :: ts[k].name == p[|base|]
    decreases ts, 0
  {
    if Under(base, ts[0], p) > 0 {
      UnderShape(base, ts[0], p);
    } else {
      UnderAllShape(base, ts[1..], p);
      var k :| 0 <= k < |ts[1..]| && ts[1..][k].name == p[|base|];
      assert ts[k + 1].name == p[|base|];
    }
  }

  /** In a well-formed tree no path occurs twice. */
  lemma {:induction false} UnderOnce(base: Path, t: Tree, p: Path)
    requires WellFormed(t)
    ensures Under(base, t, p) <= 1
    decreases t, 1
  {
    var here := base + [t.name];
    UnderAllOnce(here, t.kids, p);
    if UnderAll(here, t.kids, p) > 0 {
      UnderAllShape(here, t.kids, p);
      assert p != here;
    }
  }

  lemma {:induction false} UnderAllOnce(base: Path, ts: seq<Tree>, p: Path)
    requires Forest(ts)
    ensures UnderAll(base, ts, p) <= 1
    decreases ts, 0
  {
    if ts != [] {
      assert forall t | t in ts[1..] :: t in ts;
      UnderOnce(base, ts[0], p);
      UnderAllOnce(base, ts[1..], p);
      if Under(base, ts[0], p) > 0 && UnderAll(base, ts[1..], p) > 0 {
        UnderShape(base, ts[0], p);
        UnderAllShape(base, ts[1..], p);
      }
    }
  }

  // --- The entries of a tree ----------------------------------------------------------

  /** it is the entry t of base or an entry below it. */
  ghost predicate In(base: Path, t: Tree, it: Item)
    decreases t, 1
  {
    it == Item(base, t) || Among(base + [t.name], t.kids, it)
  }

  ghost predicate Among(base: Path, ts: seq<Tree>, it: Item)
    decreases ts, 0
  {
    ts != [] && (In(base, ts[0], it) || Among(base, ts[1..], it))
  }

  lemma {:induction false} TopAmong(base: Path, ts: seq<Tree>, t: Tree)
    requires t in ts
    ensures Among(base, ts, Item(base, t))
  {
    if t != ts[0] { TopAmong(base, ts[1..], t); }
  }

  /** With a directory its entries are there, too. */
  lemma {:induction false} KidAmong(base: Path, ts: seq<Tree>, it: Item, kid: Tree)
    requires Among(base, ts, it) && kid in it.node.kids
    ensures Among(base, ts, Item(it.At(), kid))
    decreases ts
  {
    if Among(base, ts[1..], it) {
      KidAmong(base, ts[1..], it, kid);
    } else if it == Item(base, ts[0]) {
      TopAmong(it.At(), ts[0].kids, kid);
    } else {
      KidAmong(base + [ts[0].name], ts[0].kids, it, kid);
    }
  }

  lemma {:induction false} AmongUnder(base: Path, ts: seq<Tree>, it: Item)
    requires Among(base, ts, it)
    ensures UnderAll(base, ts, it.At()) > 0
    decreases ts
  {
    if Among(base, ts[1..], it) {
      AmongUnder(base, ts[1..], it);
    } else if it != Item(base, ts[0]) {
      AmongUnder(base + [ts[0].name], ts[0].kids, it);
    }
  }

  lemma AmongFirst(base: Path, ts: seq<Tree>, it: Item)
    requires Forest(ts) && Among(base, ts, it)
    ensures In(base, ts[0], it) <==> UnderAll(base, ts[1..], it.At()) == 0
    ensures Forest(ts[1..]) && Forest(ts[0].kids)
  {
    assert ts[0] in ts && forall t | t in ts[1..] :: t in ts;
    UnderAllOnce(base, ts, it.At());
    if In(base, ts[0], it) && it != Item(base, ts[0]) { AmongUnder(base + [ts[0].name], ts[0].kids, it); }
    if Among(base, ts[1..], it) { AmongUnder(base, ts[1..], it); }
  }

  /** A path names one entry only. */
  lemma {:induction false} AmongOne(base: Path, ts: seq<Tree>, a: Item, b: Item)
    requires Forest(ts) && Among(base, ts, a) && Among(base, ts, b) && a.At() == b.At()
    ensures a == b
    decreases ts
  {
    AmongFirst(base, ts, a);
    AmongFirst(base, ts, b);
    var here := base + [ts[0].name];
    if !In(base, ts[0], a) {
      AmongOne(base, ts[1..], a, b);
    } else if Among(here, ts[0].kids, a) && Among(here, ts[0].kids, b) {
      AmongOne(here, ts[0].kids, a, b);
    } else {
      forall it | Among(here, ts[0].kids, it) ensures |it.At()| > |here| {
        AmongUnder(here, ts[0].kids, it);
        UnderAllShape(here, ts[0].kids, it.At());
      }
    }
  }

  // --- Work-list items --------------------------------------------------------------

  ghost function UnderItems(its: seq<Item>, p: Path): nat {
    if its == [] then 0 else Under(its[0].base, its[0].node, p) + UnderItems(its[1..], p)
  }

  lemma {:induction false} UnderItemsAppend(a: seq<Item>, b: seq<Item>, p: Path)
    ensures UnderItems(a + b, p) == UnderItems(a, p) + UnderItems(b, p)
  {
    if a == [] {
      assert a + b == b;
    } else {
      assert (a + b)[0] == a[0] && (a + b)[1..] == a[1..] + b;
      UnderItemsAppend(a[1..], b, p);
    }
  }

  /** How often p is the path of one of the items themselves. */
  ghost function AtItems(its: seq<Item>, p: Path): nat {
    if its == [] then 0 else (if its[0].At() == p then 1 else 0) + AtItems(its[1..], p)
  }
}
