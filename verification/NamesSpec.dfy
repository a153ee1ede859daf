/**
 Reading the key names header, namestbl.c: lines are cut, comments passed over, and nested
 conditional lines become a tree of #define entries.
*/
module NamesSpec {
  import opened Options
  import opened Strings

  /** NTNODE with its child count, and NTDEFINE. */
  datatype Obj =
    | Node(name: string, kids: seq<Obj>, cObjects: nat)
    | Define(name: string, value: nat, comment: Option<string>)

  // --- Values -------------------------------------------------------------------------

  const ULONG_MAX: nat := 0xFFFF_FFFF

  function Digit(c: char): nat {
    if '0' <= c <= '9' then c as nat - '0' as nat
    else if 'a' <= Lower(c) <= 'z' then Lower(c) as nat - 'a' as nat + 10
    else 36
  }

  predicate Digits(s: string, base: nat) {
    s != "" && forall i | 0 <= i < |s| :: Digit(s[i]) < base
  }

  function Number(s: string, base: nat): nat {
    if s == "" then 0 else Number(s[..|s| - 1], base) * base + Digit(s[|s| - 1])
  }

  /** strtoul with base 0 for a text that it reads to the end; too large a number is cut. */
  function Strtoul(s: string): Option<nat> {
    var t := if s != "" && s[0] == '+' then s[1..] else s;
    var n :=
      if |t| > 2 && t[0] == '0' && Lower(t[1]) == 'x' && Digits(t[2..], 16) then Some(Number(t[2..], 16))
      else if t != "" && t[0] == '0' && Digits(t, 8) then Some(Number(t, 8))
      else if t != "" && t[0] != '0' && Digits(t, 10) then Some(Number(t, 10))
      else None;
    if n.Some? && n.value > ULONG_MAX then Some(ULONG_MAX) else n
  }

  /** The two length limits of __ntInsertDefine and utilStrToULong, and its reading. */
  function ParseValue(v: string): Option<nat> {
    if |v| > 32 || v == "" || |v| >= 24 || v[0] == '-' then None else Strtoul(v)
  }

  // --- Lines --------------------------------------------------------------------------

  /** The size of the line buffer. */
  const BUFFER: nat := 1024

  function LineLength(t: string): (n: nat)
    ensures n <= |t| && (t != "" ==> n >= 1)
  {
    if t == "" then 0 else if t[0] == '\n' then 1 else 1 + LineLength(t[1..])
  }

  /** fgets: a line with its end, or as much of it as fits the buffer. */
  function FGets(t: string): (r: (string, string))
    requires t != ""
    ensures r.0 + r.1 == t && |r.1| < |t|
  {
    var n := if LineLength(t) > BUFFER - 1 then BUFFER - 1 else LineLength(t);
    (t[..n], t[n..])
  }

  // --- One line -----------------------------------------------------------------------

  /** What a line means; a line that means nothing says whether it ends inside a comment. */
  datatype Line =
    | Nothing(inComment: bool)
    | EndIf
    | IfDef(name: string)
    | DefineLine(name: string, value: string, comment: Option<string>)

  predicate Starts(s: string, p: string) { |p| <= |s| && s[..|p|] == p }

  /** The directive p at the start of s, in any case of letters, and white space after it. */
  predicate Directive(s: string, p: string) { |p| < |s| && Same(s[..|p|], p) && IsSpace(s[|p|]) }

  /** The position of the end of a comment, or the length of t. */
  function CommentEnd(t: string): (n: nat)
    ensures n <= |t| && (n < |t| ==> n + 2 <= |t|)
  {
    if |t| < 2 then |t| else if t[..2] == "*/" then 0 else 1 + CommentEnd(t[1..])
  }

  /** The text of a comment behind a #define. */
  function CommentText(s: string): Option<string> {
    var r := RTrim(SkipSpaces(s));
    var c := if |r| >= 2 && r[|r| - 2..] == "*/" then RTrim(r[..|r| - 2]) else r;
    if c == "" then None else Some(c)
  }

  /** What follows the word #define: a name, a value and perhaps a comment. */
  function ReadDefine(s: string): Line {
    var u := SkipSpaces(s);
    var v := SkipSpaces(u[WordLength(u)..]);
    if v == "" then Nothing(false)
    else
      var w := SkipSpaces(v[WordLength(v)..]);
      DefineLine(u[..WordLength(u)], v[..WordLength(v)],
                 if Starts(w, "//") || Starts(w, "/*") then CommentText(w[2..]) else None)
  }

  /** A line that starts with something else than white space or a comment. */
  function Read(t: string): Line {
    if Directive(t, "#endif") || Same(t, "#endif") then EndIf
    else if Directive(t, "#ifdef") then
      var u := SkipSpaces(t[7..]);
      IfDef(u[..WordLength(u)])
    else if Directive(t, "#define") then ReadDefine(t[7..])
    else Nothing(false)
  }

  /** A line, read from inside a comment or not. */
  function Scan(s: string, inComment: bool): Line
    decreases |s|, 1
  {
    var t := SkipSpaces(s);
    if t == "" then Nothing(inComment)
    else if inComment then Inside(t)
    else if Starts(t, "//") then Nothing(false)
    else if Starts(t, "/*") then Inside(SkipSpaces(t[2..]))
    else Read(t)
  }

  /** The rest of a line inside a comment. */
  function Inside(u: string): Line
    decreases |u|, 0
  {
    var k := CommentEnd(u);
    if k == |u| then Nothing(true) else Scan(u[k + 2..], false)
  }

  /** The meaning of every line of a text; a comment may go on from one line to the next. */
  function Lines(text: string, inComment: bool): seq<Line>
    decreases |text|
  {
    if text == "" then []
    else
      var (line, rest) := FGets(text);
      var l := Scan(line, inComment);
      [l] + Lines(rest, l.Nothing? && l.inComment)
  }

  // --- The tree -----------------------------------------------------------------------

  /** The name shown for a node. */
  function Shown(name: string): string { "[ " + name + " ]" }

  /** __ntInsertDefine: nothing if the value is not a number. */
  function NewDefine(l: Line): seq<Obj>
    requires l.DefineLine?
  {
    var v := ParseValue(l.value);
    if v.Some? then [Define(l.name, v.value, l.comment)] else []
  }

  /** __ntReadNode: the children up to the matching #endif or the end, and the lines behind it. */
  function Build(ls: seq<Line>): (r: (seq<Obj>, seq<Line>))
    ensures |r.1| <= |ls|
    decreases |ls|
  {
    if ls == [] then ([], [])
    else
      match ls[0]
      case Nothing(_) => Build(ls[1..])
      case EndIf => ([], ls[1..])
      case IfDef(name) =>
        var (kids, behind) := Build(ls[1..]);
        var (more, end) := Build(behind);
        ([Node(Shown(name), kids, |kids|)] + more, end)
      case DefineLine(_, _, _) =>
        var (more, end) := Build(ls[1..]);
        (NewDefine(ls[0]) + more, end)
  }

  lemma NodeBuilt(name: string, ls: seq<Line>)
    ensures
      var (kids, behind) := Build(ls);
      Build([IfDef(name)] + ls) ==
      ([Node(Shown(name), kids, |kids|)] + Build(behind).0, Build(behind).1)
  {
    assert ([IfDef(name)] + ls)[1..] == ls;
  }

  lemma EndBuilt(ls: seq<Line>)
    ensures Build([EndIf] + ls) == ([], ls)
  {
    assert ([EndIf] + ls)[1..] == ls;
  }

  lemma DefineBuilt(l: Line, ls: seq<Line>)
    requires l.DefineLine?
    ensures Build([l] + ls) == (NewDefine(l) + Build(ls).0, Build(ls).1)
  {
    assert ([l] + ls)[1..] == ls;
  }

  // --- Looking up ---------------------------------------------------------------------

  /** _ntFind: depth first, in the order of the text. */
  function Find(objs: seq<Obj>, value: nat): (r: Option<Obj>)
    ensures r.Some? ==> r.value.Define? && r.value.value == value
    decreases objs
  {
    if objs == [] then None
    else
      var here :=
        match objs[0]
        case Node(_, kids, _) => Find(kids, value)
        case Define(_, v, _) => if v == value then Some(objs[0]) else None;
      if here.Some? then here else Find(objs[1..], value)
  }

  /** The entries of the tree in order. */
  function Entries(objs: seq<Obj>): seq<Obj>
    decreases objs
  {
    if objs == [] then []
    else (if objs[0].Node? then Entries(objs[0].kids) else [objs[0]]) + Entries(objs[1..])
  }

  function First(ds: seq<Obj>, value: nat): Option<Obj> {
    if ds == [] then None
    else if ds[0].Define? && ds[0].value == value then Some(ds[0])
    else First(ds[1..], value)
  }

  /** A flat scan of the lines that does not know of nesting. */
  function FlatScan(ls: seq<Line>): seq<Obj> {
    if ls == [] then []
    else (if ls[0].DefineLine? then NewDefine(ls[0]) else []) + FlatScan(ls[1..])
  }

  lemma Grouped(a: seq<Obj>, b: seq<Obj>, c: seq<Obj>)
    ensures a + (b + c) == (a + b) + c
  {
  }

  lemma {:induction false} EntriesConcat(a: seq<Obj>, b: seq<Obj>)
    ensures Entries(a + b) == Entries(a) + Entries(b)
    decreases |a|
  {
    if a == [] {
      assert a + b == b;
    } else {
      var own := if a[0].Node? then Entries(a[0].kids) else [a[0]];
      EntriesConcat(a[1..], b);
      assert (a + b)[0] == a[0] && (a + b)[1..] == a[1..] + b;
      Grouped(own, Entries(a[1..]), Entries(b));
    }
  }

  lemma {:induction false} FirstConcat(a: seq<Obj>, b: seq<Obj>, value: nat)
    ensures First(a + b, value) == if First(a, value).Some? then First(a, value) else First(b, value)
    decreases |a|
  {
    if a == [] {
      assert a + b == b;
    } else {
      FirstConcat(a[1..], b, value);
      assert (a + b)[1..] == a[1..] + b;
    }
  }

  /** The search in the tree finds the first entry with the value. */
  lemma {:induction false} FindIsFirst(objs: seq<Obj>, value: nat)
    ensures Find(objs, value) == First(Entries(objs), value)
    decreases objs
  {
    if objs != [] {
      FindIsFirst(objs[1..], value);
      if objs[0].Node? {
        FindIsFirst(objs[0].kids, value);
        FirstConcat(Entries(objs[0].kids), Entries(objs[1..]), value);
      } else {
        FirstConcat([objs[0]], Entries(objs[1..]), value);
      }
    }
  }

  lemma FlatNode(name: string, kids: seq<Obj>, more: seq<Obj>)
    ensures Entries([Node(name, kids, |kids|)] + more) == Entries(kids) + Entries(more)
  {
    EntriesConcat([Node(name, kids, |kids|)], more);
    assert Entries([Node(name, kids, |kids|)]) == Entries(kids) + Entries([]);
  }

  lemma FlatDefine(l: Line, more: seq<Obj>)
    requires l.DefineLine?
    ensures Entries(NewDefine(l) + more) == NewDefine(l) + Entries(more)
  {
    EntriesConcat(NewDefine(l), more);
  }

  /** For any lines at all: the entries of the tree are what the flat scan finds in the part
      that was read. */
  lemma {:induction false} TreeIsFlatScan(ls: seq<Line>)
    ensures FlatScan(ls) == Entries(Build(ls).0) + FlatScan(Build(ls).1)
    decreases |ls|
  {
    if ls != [] {
      TreeIsFlatScan(ls[1..]);
      if ls[0].IfDef? {
        var (kids, behind) := Build(ls[1..]);
        var (more, end) := Build(behind);
        TreeIsFlatScan(behind);
        FlatNode(Shown(ls[0].name), kids, more);
        Grouped(Entries(kids), Entries(more), FlatScan(end));
      } else if ls[0].DefineLine? {
        var (more, end) := Build(ls[1..]);
        FlatDefine(ls[0], more);
        Grouped(NewDefine(ls[0]), Entries(more), FlatScan(end));
      }
    }
  }

  /** So the search in the tree agrees with a flat scan of the lines: it gives the define that is
      listed first among those with the value. */
  lemma FindAgreesWithScan(ls: seq<Line>, value: nat)
    ensures First(FlatScan(ls), value) ==
            if Find(Build(ls).0, value).Some? then Find(Build(ls).0, value)
            else First(FlatScan(Build(ls).1), value)
  {
    var (objs, rest) := Build(ls);
    TreeIsFlatScan(ls);
    FindIsFirst(objs, value);
    FirstConcat(Entries(objs), FlatScan(rest), value);
  }
}
