/**
 The round trip of the key names header: a tree is written as nested lines, with white space
 and comments wherever the header has them, and reading that text gives the tree back.
*/
module NamesText {
  import opened Options
  import opened Strings
  import opened NamesSpec
  import opened NamesValues

  /** White space, line ends included, a block comment over any number of lines, a comment up to
      the end of its line, or a line that is passed over. */
  datatype Noise = Blank(c: char) | Comment(body: string) | LineComment(body: string) | Dead(line: Dull)

  /** A line that is passed over: one that is no directive, a define without a value, or one with a
      value that is no number. */
  datatype Dull =
    | Other(text: string)
    | Empty(word: string, gap: string, name: string, end: string)
    | Odd(word: string, gap: string, name: string, sep: string, value: string, rest: Rest)

  /** What follows the value of a define: blanks, or a comment on the same line. */
  datatype Rest =
    | Plain(end: string)
    | Remark(before: string, block: bool, left: string, text: string, right: string, end: string)

  /** A tree with everything that is written around its names and values. What stands behind the
      name of an #ifdef and behind an #endif may be any comment that ends on that line. */
  datatype Src =
    | SrcNode(lead: seq<Noise>, word: string, gap: string, name: string, open: string,
              kids: seq<Src>, tail: seq<Noise>, last: string, shut: string)
    | SrcDefine(lead: seq<Noise>, word: string, gap: string, name: string, sep: string, number: nat, form: Form, value: string, rest: Rest)

  function TokenText(n: Noise): string {
    match n
    case Blank(c) => [c]
    case Comment(body) => "/*" + body + "*/"
    case LineComment(body) => "//" + body + "\n"
    case Dead(line) => DullText(line) + "\n"
  }

  function DullText(d: Dull): string {
    match d
    case Other(text) => text
    case Empty(word, gap, name, end) => word + (gap + (name + end))
    case Odd(word, gap, name, sep, value, rest) => word + (gap + (name + (sep + (value + RestText(rest)))))
  }

  function NoiseText(ns: seq<Noise>): string {
    if ns == [] then "" else TokenText(ns[0]) + NoiseText(ns[1..])
  }

  function Mark(block: bool): string { if block then "/*" else "//" }

  function Close(block: bool): string { if block then "*/" else "" }

  function RestText(r: Rest): string {
    match r
    case Plain(end) => end
    case Remark(before, block, left, text, right, end) =>
      before + (Mark(block) + (left + (text + (right + (Close(block) + end)))))
  }

  /** The lines of one tree without what is in front of them. */
  function Own(s: Src): string
    decreases s, 0
  {
    match s
    case SrcNode(_, word, gap, name, open, kids, tail, last, shut) =>
      word + (gap + (name + open)) + "\n" + Text(kids) + NoiseText(tail) + (last + shut) + "\n"
    case SrcDefine(_, _, _, _, _, _, _, _, _) => DefineText(s) + "\n"
  }

  function DefineText(s: Src): string
    requires s.SrcDefine?
  {
    s.word + (s.gap + (s.name + (s.sep + (s.value + RestText(s.rest)))))
  }

  function Text(srcs: seq<Src>): string
    decreases srcs, 0
  {
    if srcs == [] then "" else NoiseText(srcs[0].lead) + Own(srcs[0]) + Text(srcs[1..])
  }

  /** The tree without its surroundings, and with the numbers that its values stand for. */
  function TreeOf(s: Src): Obj
    decreases s, 0
  {
    match s
    case SrcNode(_, _, _, name, _, kids, _, _, _) => Node("[ " + name + " ]", Trees(kids), |kids|)
    case SrcDefine(_, _, _, name, _, number, _, _, rest) =>
      Define(name, if number > 0xFFFF_FFFF then 0xFFFF_FFFF else number, if rest.Remark? then Some(rest.text) else None)
  }

  function Trees(srcs: seq<Src>): (r: seq<Obj>)
    ensures |r| == |srcs|
    decreases srcs, 0
  {
    if srcs == [] then [] else [TreeOf(srcs[0])] + Trees(srcs[1..])
  }

  ghost predicate GoodNoise(ns: seq<Noise>) {
    forall i | 0 <= i < |ns| ::
      match ns[i]
      case Blank(c) => IsSpace(c)
      case Comment(body) => CommentEnd(body + "*/") == |body|
      case LineComment(body) => '\n' !in body
      case Dead(line) => GoodDull(line)
  }

  /** The line begins with the directive p. */
  predicate Begins(s: string, p: string) {
    Same(s, p) || (|s| > |p| && Same(s[..|p|], p) && IsSpace(s[|p|]))
  }

  ghost predicate GoodDull(d: Dull) {
    match d
    case Other(text) =>
      && text != "" && !IsSpace(text[0]) && '\n' !in text && !Starts(text, "//") && !Starts(text, "/*")
      && !Begins(text, "#ifdef") && !Begins(text, "#endif") && !Begins(text, "#define")
    case Empty(word, gap, name, end) => Same(word, "#define") && GoodName(gap, name) && Blanks(end)
    case Odd(word, gap, name, sep, value, rest) =>
      && Same(word, "#define") && GoodName(gap, name) && GoodName(sep, value) && GoodRemainder(rest)
      && !exists n, f :: Spells(value, n, f)
  }

  /** White space within a line. */
  predicate Blanks(s: string) { AllSpace(s) && '\n' !in s }

  predicate Gap(s: string) { s != "" && Blanks(s) }

  /** Something set off by white space, up to the end of the line. */
  predicate SetOff(s: string) { (s == "" || IsSpace(s[0])) && '\n' !in s }

  predicate GoodComment(c: string, block: bool) {
    && c != "" && !IsSpace(c[0]) && !IsSpace(c[|c| - 1]) && '\n' !in c
    && (!block ==> |c| < 2 || c[|c| - 2..] != "*/")
  }

  predicate GoodRemainder(r: Rest) {
    match r
    case Plain(end) => Blanks(end)
    case Remark(before, block, left, text, right, end) =>
      Gap(before) && Blanks(left) && GoodComment(text, block) && Blanks(right) && Blanks(end)
  }

  predicate GoodName(gap: string, name: string) { Gap(gap) && name != "" && NoSpace(name) }

  ghost predicate Good(srcs: seq<Src>)
    decreases srcs
  {
    forall i | 0 <= i < |srcs| ::
      && GoodNoise(srcs[i].lead) && GoodName(srcs[i].gap, srcs[i].name)
      && match srcs[i]
         case SrcNode(_, word, _, _, open, kids, tail, last, shut) =>
           && Same(word, "#ifdef") && SetOff(open) && Good(kids)
           && GoodNoise(tail) && Same(last, "#endif") && SetOff(shut)
         case SrcDefine(_, word, _, _, sep, number, form, value, rest) =>
           Same(word, "#define") && Spells(value, number, form) && GoodName(sep, value) && GoodRemainder(rest)
  }

  /** Every line fits the buffer. */
  ghost predicate ShortLines(t: string) {
    forall i | 0 <= i <= |t| :: LineLength(t[i..]) < 1024
  }

  lemma ShortTail(p: string, t: string)
    requires ShortLines(p + t)
    ensures ShortLines(t)
  {
    forall i | 0 <= i <= |t|
      ensures LineLength(t[i..]) < 1024
    {
      assert (p + t)[|p| + i..] == t[i..];
    }
  }

  // --- Cutting lines ------------------------------------------------------------------

  lemma {:induction false} LongerLine(p: string, t: string)
    requires '\n' !in p
    ensures LineLength(p + t) == |p| + LineLength(t)
    decreases |p|
  {
    if p == "" {
      assert p + t == t;
    } else {
      LongerLine(p[1..], t);
      assert (p + t)[1..] == p[1..] + t;
    }
  }

  /** Text in front of a line makes the line longer. */
  lemma GetsLonger(p: string, t: string)
    requires '\n' !in p && t != "" && ShortLines(p + t)
    ensures FGets(p + t) == (p + FGets(t).0, FGets(t).1)
  {
    LongerLine(p, t);
    assert (p + t)[0..] == p + t && (p + t)[|p|..] == t;
    var n := LineLength(t);
    assert (p + t)[..|p| + n] == p + t[..n] && (p + t)[|p| + n..] == t[n..];
  }

  lemma GetsWhole(line: string, t: string)
    requires '\n' !in line && ShortLines(line + "\n" + t)
    ensures FGets(line + "\n" + t) == (line + "\n", t)
  {
    LongerLine(line, "\n" + t);
    assert line + "\n" + t == line + ("\n" + t);
    assert LineLength("\n" + t) == 1;
    assert (line + "\n" + t)[0..] == line + "\n" + t;
    assert (line + "\n" + t)[..|line| + 1] == line + "\n" && (line + "\n" + t)[|line| + 1..] == t;
  }

  /** The beginning of the first line of t, all of t if it has no line end. */
  function Head(t: string): string { if t == "" then "" else FGets(t).0 }

  /** If a line means the same without the prefix p, the text reads the same without it. */
  lemma PrefixSkipped(p: string, t: string, before: bool, after: bool)
    requires p != "" && '\n' !in p && ShortLines(p + t)
    requires Scan(p + Head(t), before) == Scan(Head(t), after)
    ensures Build(Lines(p + t, before)) == Build(Lines(t, after))
  {
    if t == "" {
      assert p + t == p;
      LongerLine(p, "");
      assert FGets(p) == (p, "") by { assert p[0..] == p; }
      assert Lines(p, before) == [Nothing(after)] + [];
    } else {
      GetsLonger(p, t);
    }
  }

  /** An empty line reads as nothing. */
  lemma LineEndSkipped(t: string, inComment: bool)
    requires ShortLines("\n" + t)
    ensures Build(Lines("\n" + t, inComment)) == Build(Lines(t, inComment))
  {
    assert "" + "\n" + t == "\n" + t;
    GetsWhole("", t);
    assert Scan("\n", inComment) == Nothing(inComment);
    assert Lines("\n" + t, inComment) == [Nothing(inComment)] + Lines(t, inComment);
  }

  // --- Noise --------------------------------------------------------------------------

  lemma BlankSkipped(c: char, t: string, inComment: bool)
    requires IsSpace(c) && ShortLines([c] + t)
    ensures Build(Lines([c] + t, inComment)) == Build(Lines(t, inComment))
  {
    if c == '\n' {
      LineEndSkipped(t, inComment);
    } else {
      SkipAll([c], Head(t));
      PrefixSkipped([c], t, inComment, inComment);
    }
  }

  lemma {:induction false} EndBehindBlanks(s: string)
    ensures CommentEnd(s) == |s| - |SkipSpaces(s)| + CommentEnd(SkipSpaces(s))
    ensures s[|s| - |SkipSpaces(s)|..] == SkipSpaces(s)
    decreases |s|
  {
    if s != "" && IsSpace(s[0]) {
      EndBehindBlanks(s[1..]);
      if |s| >= 2 { assert s[..2][0] == s[0]; }
    }
  }

  lemma BlanksInside(s: string)
    ensures Inside(s) == Inside(SkipSpaces(s))
  {
    EndBehindBlanks(s);
    var t := SkipSpaces(s);
    var k := CommentEnd(t);
    if k == |t| {
      assert Inside(s) == Nothing(true) && Inside(t) == Nothing(true);
    } else {
      var rest := t[k + 2..];
      SameRest(s, t, |s| - |t|, k + 2);
      assert s[CommentEnd(s) + 2..] == rest;
      assert Inside(s) == Scan(rest, false) && Inside(t) == Scan(rest, false);
    }
  }

  /** Inside a comment the blanks in front of a line do not matter. */
  lemma InsideComment(s: string)
    ensures Scan(s, true) == Inside(s)
  {
    BlanksInside(s);
  }

  lemma SameRest(s: string, t: string, d: nat, k: nat)
    requires d + |t| == |s| && s[d..] == t && k <= |t|
    ensures s[d + k..] == t[k..]
  {
  }

  /** A character of a comment that does not begin its end. */
  lemma CommentCharSkipped(c: char, t: string)
    requires ShortLines([c] + t) && (c == '*' ==> t == "" || t[0] != '/')
    ensures Build(Lines([c] + t, true)) == Build(Lines(t, true))
  {
    if c == '\n' {
      LineEndSkipped(t, true);
    } else {
      var line := Head(t);
      var s := [c] + line;
      assert s[1..] == line;
      if t != "" { assert line[0] == t[0]; }
      assert |s| >= 2 ==> s[..2] == [c, line[0]];
      InsideComment(s);
      InsideComment(line);
      if |line| >= 1 {
        assert CommentEnd(s) == 1 + CommentEnd(line);
        if CommentEnd(line) < |line| { assert s[CommentEnd(s) + 2..] == line[CommentEnd(line) + 2..]; }
      }
      PrefixSkipped([c], t, true, true);
    }
  }

  lemma {:induction false} BodySkipped(body: string, t: string)
    requires CommentEnd(body + "*/") == |body| && ShortLines(body + "*/" + t)
    ensures Build(Lines(body + "*/" + t, true)) == Build(Lines(t, false))
    decreases |body|
  {
    if body == "" {
      assert body + "*/" + t == "*/" + t;
      var s := "*/" + Head(t);
      assert s[..2] == "*/" && s[2..] == Head(t);
      InsideComment(s);
      PrefixSkipped("*/", t, true, false);
    } else {
      var rest := body[1..] + "*/";
      assert body + "*/" == [body[0]] + rest && (body + "*/")[1..] == rest;
      assert (body + "*/")[..2] == [body[0], rest[0]];
      assert body + "*/" + t == [body[0]] + (rest + t);
      assert (rest + t)[0] == rest[0];
      CommentCharSkipped(body[0], rest + t);
      ShortTail([body[0]], rest + t);
      BodySkipped(body[1..], t);
    }
  }

  lemma CommentSkipped(body: string, t: string)
    requires CommentEnd(body + "*/") == |body| && ShortLines("/*" + body + "*/" + t)
    ensures Build(Lines("/*" + body + "*/" + t, false)) == Build(Lines(t, false))
  {
    var rest := body + "*/" + t;
    assert "/*" + body + "*/" + t == "/*" + rest;
    var s := "/*" + Head(rest);
    assert s[2..] == Head(rest) && s[..2] == "/*";
    InsideComment(Head(rest));
    EndBehindBlanks(Head(rest));
    PrefixSkipped("/*", rest, false, true);
    ShortTail("/*", rest);
    BodySkipped(body, t);
  }

  lemma LineCommentLine(body: string)
    ensures Scan("//" + body + "\n", false) == Nothing(false)
  {
    var s := "//" + body + "\n";
    assert s[..2] == "//" && s[0] == '/';
    assert SkipSpaces(s) == s;
  }

  lemma LineCommentSkipped(body: string, t: string)
    requires '\n' !in body && ShortLines("//" + body + "\n" + t)
    ensures Build(Lines("//" + body + "\n" + t, false)) == Build(Lines(t, false))
  {
    GetsWhole("//" + body, t);
    LineCommentLine(body);
    NothingSkipped("//" + body + "\n", t);
  }

  /** A line that means nothing and begins no comment. */
  lemma NothingSkipped(line: string, t: string)
    requires line != "" && FGets(line + t) == (line, t) && Scan(line, false) == Nothing(false)
    ensures Build(Lines(line + t, false)) == Build(Lines(t, false))
  {
    assert Lines(line + t, false) == [Nothing(false)] + Lines(t, false);
  }

  lemma Regroup(a: string, b: string, c: string)
    ensures a + b + c == a + (b + c)
  {
  }

  lemma TokenSkipped(n: Noise, t: string)
    requires GoodNoise([n]) && ShortLines(TokenText(n) + t)
    ensures Build(Lines(TokenText(n) + t, false)) == Build(Lines(t, false))
  {
    assert [n][0] == n;
    match n
    case Blank(c) => BlankSkipped(c, t, false);
    case Comment(body) => CommentSkipped(body, t);
    case LineComment(body) => LineCommentSkipped(body, t);
    case Dead(line) => DullSkipped(line, t);
  }

  lemma DullSkipped(d: Dull, t: string)
    requires GoodDull(d) && ShortLines(DullText(d) + "\n" + t)
    ensures Build(Lines(DullText(d) + "\n" + t, false)) == Build(Lines(t, false))
  {
    DullLine(d);
    GetsWhole(DullText(d), t);
    match d
    case Other(text) =>
      OtherLine(text);
      NothingSkipped(text + "\n", t);
    case Empty(word, gap, name, end) =>
      EmptyLine(word, gap, name, end);
      NothingSkipped(DullText(d) + "\n", t);
    case Odd(word, gap, name, sep, value, rest) =>
      DefineRead(word, gap, name, sep, value, rest);
      ReadsNothingElse(value);
      DefineBuilt(Scan(DullText(d) + "\n", false), Lines(t, false));
      assert Lines(DullText(d) + "\n" + t, false) == [Scan(DullText(d) + "\n", false)] + Lines(t, false);
      assert [] + Build(Lines(t, false)).0 == Build(Lines(t, false)).0;
  }

  lemma DullLine(d: Dull)
    requires GoodDull(d)
    ensures '\n' !in DullText(d)
  {
    if !d.Other? {
      WordFree(d.word, "#define");
      SpaceFree(d.name);
      if d.Odd? {
        SpaceFree(d.value);
        assert '\n' !in RestText(d.rest);
      }
    }
  }

  /** Text that begins with no directive. */
  lemma OtherLine(text: string)
    requires GoodDull(Other(text))
    ensures Scan(text + "\n", false) == Nothing(false)
  {
    var s := text + "\n";
    assert s[0] == text[0] && SkipSpaces(s) == s;
    NotDirective(text, "#ifdef");
    NotDirective(text, "#endif");
    NotDirective(text, "#define");
    if |text| >= 2 { assert s[..2] == text[..2]; } else { assert s[..2][1] == '\n'; }
  }

  lemma NotDirective(text: string, p: string)
    requires !Begins(text, p) && NoSpace(p)
    ensures !Directive(text + "\n", p) && !Same(text + "\n", p)
  {
    var s := text + "\n";
    assert |text| > |p| ==> s[..|p|] == text[..|p|] && s[|p|] == text[|p|];
    assert |text| == |p| ==> s[..|p|] == text;
    assert s[|s| - 1] == '\n' && (|s| == |p| ==> !IsSpace(p[|s| - 1]));
  }

  /** A define without a value. */
  lemma EmptyLine(word: string, gap: string, name: string, end: string)
    requires Same(word, "#define") && GoodName(gap, name) && Blanks(end)
    ensures Scan(word + (gap + (name + end)) + "\n", false) == Nothing(false)
  {
    var tail := end + "\n";
    LineShape(word, gap, name, end);
    DefineKeyword(word, gap, name + tail);
    NextWord(gap[1..], name, tail);
    SkipAll(tail, "");
    assert tail + "" == tail;
  }

  lemma {:induction false} NoiseSkipped(ns: seq<Noise>, t: string)
    requires GoodNoise(ns) && ShortLines(NoiseText(ns) + t)
    ensures Build(Lines(NoiseText(ns) + t, false)) == Build(Lines(t, false))
    decreases |ns|
  {
    if ns == [] {
      assert NoiseText(ns) + t == t;
    } else {
      var rest := NoiseText(ns[1..]) + t;
      Regroup(TokenText(ns[0]), NoiseText(ns[1..]), t);
      ShortTail(TokenText(ns[0]), rest);
      TokenSkipped(ns[0], rest);
      NoiseSkipped(ns[1..], t);
    }
  }

  // --- Directives ---------------------------------------------------------------------

  /** What stands behind an #endif does not matter. */
  lemma EndIfLine(word: string, shut: string)
    requires Same(word, "#endif") && SetOff(shut)
    ensures Scan(word + shut + "\n", false) == EndIf
  {
    var s := word + shut + "\n";
    HashFirst(word, "#endif");
    assert s[0] == word[0];
    NoComment(s);
    assert s[..6] == word;
    assert s[6] == if shut == "" then '\n' else shut[0];
  }

  /** A directive begins with its mark in any case of letters. */
  lemma HashFirst(word: string, p: string)
    requires Same(word, p) && p != "" && p[0] == '#'
    ensures word != "" && word[0] == '#'
  {
    assert Lower(word[0]) == Lower(p[0]);
  }

  /** A word set off by white space on both sides. */
  lemma NextWord(gap: string, w: string, rest: string)
    requires AllSpace(gap) && w != "" && NoSpace(w) && (rest == "" || IsSpace(rest[0]))
    ensures
      var u := SkipSpaces(gap + (w + rest));
      u == w + rest && WordLength(u) == |w| && u[..|w|] == w && u[|w|..] == rest
  {
    assert (w + rest)[0] == w[0];
    SkipAll(gap, w + rest);
    WordEnds(w, rest);
  }

  lemma Behind(gap: string, after: string)
    requires gap != ""
    ensures gap + after == [gap[0]] + (gap[1..] + after)
  {
  }

  /** A line is not the directive p if it differs from it in a letter. */
  lemma Differs(s: string, p: string, k: nat)
    requires k < |p| && k < |s| && Lower(s[k]) != Lower(p[k])
    ensures !Directive(s, p) && !Same(s, p)
  {
    if |p| < |s| { assert s[..|p|][k] == s[k]; }
  }

  /** A line that starts with a word and white space. */
  lemma Keyword(word: string, p: string, gap: string, after: string)
    requires Same(word, p) && word != "" && gap != "" && IsSpace(gap[0])
    ensures
      var s := word + (gap + after); var n := |word|;
      && |s| > n && s[0] == word[0] && s[n] == gap[0] && s[..n] == word && s[n..] == gap + after
      && s[n + 1..] == gap[1..] + after
      && Directive(s, p)
  {
    Behind(gap, after);
  }

  /** A line that starts with a directive is not a comment. */
  lemma NoComment(s: string)
    requires s != "" && s[0] == '#'
    ensures Scan(s, false) == Read(s)
  {
    assert SkipSpaces(s) == s;
    if |s| >= 2 { assert s[..2][0] == s[0]; }
  }

  /** What stands behind the name of an #ifdef does not matter. */
  lemma IfDefLine(word: string, gap: string, name: string, open: string)
    requires Same(word, "#ifdef") && GoodName(gap, name) && SetOff(open)
    ensures Scan(word + (gap + (name + open)) + "\n", false) == IfDef(name)
  {
    var after := name + (open + "\n");
    var s := word + (gap + after);
    LineShape(word, gap, name, open);
    Keyword(word, "#ifdef", gap, after);
    HashFirst(word, "#ifdef");
    NoComment(s);
    assert Lower(s[1]) == Lower(word[1]) == 'i';
    Differs(s, "#endif", 1);
    NextWord(gap[1..], name, open + "\n");
  }

  lemma LineShape(word: string, gap: string, name: string, open: string)
    ensures word + (gap + (name + open)) + "\n" == word + (gap + (name + (open + "\n")))
  {
  }

  lemma DefineKeyword(word: string, gap: string, after: string)
    requires Same(word, "#define") && Gap(gap)
    ensures Scan(word + (gap + after), false) == ReadDefine(gap[1..] + after)
  {
    var s := word + (gap + after);
    Keyword(word, "#define", gap, after);
    HashFirst(word, "#define");
    NoComment(s);
    assert Lower(s[1]) == Lower(word[1]) == 'd';
    Differs(s, "#endif", 1);
    Differs(s, "#ifdef", 1);
    DefineSkips(s, word, gap, after);
  }

  lemma DefineSkips(s: string, word: string, gap: string, after: string)
    requires |word| == 7 && gap != "" && AllSpace(gap) && s == word + (gap + after)
    ensures ReadDefine(s[7..]) == ReadDefine(gap[1..] + after)
  {
    assert s[7..] == gap + after;
    SkipAll(gap, after);
    SkipAll(gap[1..], after);
  }

  /** The words of a define line. */
  lemma DefineWords(gap: string, name: string, sep: string, value: string, tail: string)
    requires AllSpace(gap) && name != "" && NoSpace(name)
    requires Gap(sep) && value != "" && NoSpace(value) && tail != "" && IsSpace(tail[0])
    ensures
      var w := SkipSpaces(tail);
      ReadDefine(gap + (name + (sep + (value + tail)))) ==
      DefineLine(name, value, if Starts(w, "//") || Starts(w, "/*") then CommentText(w[2..]) else None)
  {
    NextWord(gap, name, sep + (value + tail));
    NextWord(sep, value, tail);
  }

  lemma {:induction false} TrimBlanks(s: string)
    requires AllSpace(s)
    ensures RTrim(s) == ""
    decreases |s|
  {
    if s != "" { TrimBlanks(s[..|s| - 1]); }
  }

  lemma Trimmed(body: string, blanks: string)
    requires body != "" && !IsSpace(body[|body| - 1]) && AllSpace(blanks)
    ensures RTrim(body + blanks) == body
  {
    TrimEnd(body, blanks);
    TrimBlanks(blanks);
    assert body + "" == body;
  }

  lemma BlockBody(c: string, right: string, end: string)
    requires GoodComment(c, true) && AllSpace(right) && AllSpace(end)
    ensures CommentText(c + (right + ("*/" + end))) == Some(c)
  {
    var body := c + right + "*/";
    var rest := c + (right + ("*/" + end));
    assert rest == body + end && rest[0] == c[0];
    assert body[|body| - 2..] == "*/" && body[..|body| - 2] == c + right;
    Trimmed(body, end);
    Trimmed(c, right);
  }

  lemma LineBody(c: string, right: string, end: string)
    requires GoodComment(c, false) && AllSpace(right) && AllSpace(end)
    ensures CommentText(c + (right + end)) == Some(c)
  {
    assert (c + (right + end))[0] == c[0];
    Trimmed(c, right + end);
  }

  /** What follows the mark of a comment. */
  lemma CommentBody(left: string, c: string, right: string, block: bool, end: string)
    requires AllSpace(left) && GoodComment(c, block) && AllSpace(right) && AllSpace(end)
    ensures CommentText(left + (c + (right + (Close(block) + end)))) == Some(c)
  {
    var rest := c + (right + (Close(block) + end));
    SkipAll(left, rest);
    if block {
      BlockBody(c, right, end);
    } else {
      assert Close(block) + end == end;
      LineBody(c, right, end);
    }
  }

  lemma RemarkRead(r: Rest)
    requires r.Remark? && GoodRemainder(r)
    ensures
      var w := SkipSpaces(RestText(r) + "\n");
      && Starts(w, Mark(r.block))
      && CommentText(w[2..]) == Some(r.text)
  {
    var body := r.left + (r.text + (r.right + (Close(r.block) + (r.end + "\n"))));
    var marked := Mark(r.block) + body;
    assert RestText(r) + "\n" == r.before + marked;
    assert marked[0] == '/';
    SkipAll(r.before, marked);
    assert marked[..2] == Mark(r.block) && marked[2..] == body;
    CommentBody(r.left, r.text, r.right, r.block, r.end + "\n");
  }

  lemma RestStarts(r: Rest)
    requires GoodRemainder(r)
    ensures var tail := RestText(r) + "\n"; IsSpace(tail[0])
    ensures r.Plain? ==> SkipSpaces(RestText(r) + "\n") == ""
  {
    if r.Plain? {
      SkipAll(r.end + "\n", "");
      assert r.end + "\n" + "" == r.end + "\n";
    }
  }

  lemma DefineShape(word: string, gap: string, name: string, sep: string, value: string, rest: string)
    ensures word + (gap + (name + (sep + (value + rest)))) + "\n" ==
            word + (gap + (name + (sep + (value + (rest + "\n")))))
  {
  }

  lemma DefineRead(word: string, gap: string, name: string, sep: string, value: string, rest: Rest)
    requires Same(word, "#define") && GoodName(gap, name) && GoodName(sep, value) && GoodRemainder(rest)
    ensures Scan(word + (gap + (name + (sep + (value + RestText(rest))))) + "\n", false) ==
            DefineLine(name, value, if rest.Remark? then Some(rest.text) else None)
  {
    var tail := RestText(rest) + "\n";
    DefineShape(word, gap, name, sep, value, RestText(rest));
    RestStarts(rest);
    DefineKeyword(word, gap, name + (sep + (value + tail)));
    DefineWords(gap[1..], name, sep, value, tail);
    if rest.Remark? { RemarkRead(rest); }
  }

  // --- The round trip -----------------------------------------------------------------

  /** A line of text that means l, and what follows it. */
  lemma LineRead(line: string, t: string, l: Line)
    requires '\n' !in line && ShortLines(line + "\n" + t) && Scan(line + "\n", false) == l && !l.Nothing?
    ensures Lines(line + "\n" + t, false) == [l] + Lines(t, false)
  {
    GetsWhole(line, t);
  }

  lemma SpaceFree(s: string)
    requires NoSpace(s)
    ensures '\n' !in s
  {
  }

  /** The text reads as the objects and then like the text t. */
  ghost predicate ReadsAs(text: string, objs: seq<Obj>, t: string) {
    Build(Lines(text, false)) == (objs + Build(Lines(t, false)).0, Build(Lines(t, false)).1)
  }

  lemma ReadsThrough(a: string, x: seq<Obj>, b: string, y: seq<Obj>, c: string)
    requires ReadsAs(a, x, b) && ReadsAs(b, y, c)
    ensures ReadsAs(a, x + y, c)
  {
    assert x + (y + Build(Lines(c, false)).0) == (x + y) + Build(Lines(c, false)).0;
  }

  lemma TextCons(srcs: seq<Src>, t: string)
    requires srcs != []
    ensures Text(srcs) + t == NoiseText(srcs[0].lead) + (Own(srcs[0]) + (Text(srcs[1..]) + t))
  {
    var a, b, c := NoiseText(srcs[0].lead), Own(srcs[0]), Text(srcs[1..]);
    Regroup(a + b, c, t);
    Regroup(a, b, c + t);
  }

  lemma GoodRest(srcs: seq<Src>)
    requires Good(srcs) && srcs != []
    ensures Good(srcs[1..]) && Good([srcs[0]]) && GoodNoise(srcs[0].lead)
  {
    assert forall i | 0 <= i < |srcs| - 1 :: srcs[1..][i] == srcs[i + 1];
    assert [srcs[0]][0] == srcs[0];
  }

  /** The text of a list of trees, followed by any text t, reads as the trees and then t. */
  lemma {:induction false} TextRead(srcs: seq<Src>, t: string)
    requires Good(srcs) && ShortLines(Text(srcs) + t)
    ensures ReadsAs(Text(srcs) + t, Trees(srcs), t)
    decreases srcs, 1
  {
    if srcs == [] {
      assert Text(srcs) + t == t;
      assert [] + Build(Lines(t, false)).0 == Build(Lines(t, false)).0;
    } else {
      var more := Text(srcs[1..]) + t;
      var own := Own(srcs[0]);
      TextCons(srcs, t);
      GoodRest(srcs);
      NoiseSkipped(srcs[0].lead, own + more);
      ShortTail(NoiseText(srcs[0].lead), own + more);
      ShortTail(own, more);
      TextRead(srcs[1..], t);
      if srcs[0].SrcNode? { NodeRead(srcs[0], more); } else { DefineReads(srcs[0], more); }
      ReadsThrough(own + more, [TreeOf(srcs[0])], more, Trees(srcs[1..]), t);
    }
  }

  /** The first line of a node and its last. */
  function Opening(s: Src): string
    requires s.SrcNode?
  {
    s.word + (s.gap + (s.name + s.open))
  }

  function Closing(s: Src, t: string): string
    requires s.SrcNode?
  {
    s.last + s.shut + "\n" + t
  }

  lemma NodeShape(s: Src, t: string)
    requires s.SrcNode?
    ensures Own(s) + t == Opening(s) + "\n" + (Text(s.kids) + (NoiseText(s.tail) + Closing(s, t)))
  {
    Unfold(Opening(s) + "\n", Text(s.kids), NoiseText(s.tail), s.last + s.shut, t);
  }

  lemma Unfold(a: string, b: string, c: string, d: string, t: string)
    ensures a + b + c + d + "\n" + t == a + (b + (c + (d + "\n" + t)))
  {
    var rest := d + "\n" + t;
    Regroup(a + b + c, d, "\n");
    Regroup(a + b + c, d + "\n", t);
    Regroup(a + b, c, rest);
    Regroup(a, b, c + rest);
  }

  lemma {:induction false} NodeRead(s: Src, t: string)
    requires s.SrcNode? && Good([s]) && ShortLines(Own(s) + t)
    ensures ReadsAs(Own(s) + t, [TreeOf(s)], t)
    decreases s, 2
  {
    assert [s][0] == s;
    var inner := Text(s.kids) + (NoiseText(s.tail) + Closing(s, t));
    NodeShape(s, t);
    SpaceFree(s.name);
    WordFree(s.word, "#ifdef");
    IfDefLine(s.word, s.gap, s.name, s.open);
    LineRead(Opening(s), inner, IfDef(s.name));
    ShortTail(Opening(s) + "\n", inner);
    KidsRead(s, t);
    NodeBuilt(s.name, Lines(inner, false));
  }

  /** The children of a node up to its end. */
  lemma {:induction false} KidsRead(s: Src, t: string)
    requires s.SrcNode? && Good([s])
    requires ShortLines(Text(s.kids) + (NoiseText(s.tail) + Closing(s, t)))
    ensures Build(Lines(Text(s.kids) + (NoiseText(s.tail) + Closing(s, t)), false)) ==
            (Trees(s.kids), Lines(t, false))
    decreases s, 1
  {
    assert [s][0] == s;
    TextRead(s.kids, NoiseText(s.tail) + Closing(s, t));
    ShortTail(Text(s.kids), NoiseText(s.tail) + Closing(s, t));
    EndRead(s, t);
    assert Trees(s.kids) + [] == Trees(s.kids);
  }

  lemma EndRead(s: Src, t: string)
    requires s.SrcNode? && GoodNoise(s.tail) && Same(s.last, "#endif") && SetOff(s.shut)
    requires ShortLines(NoiseText(s.tail) + Closing(s, t))
    ensures Build(Lines(NoiseText(s.tail) + Closing(s, t), false)) == ([], Lines(t, false))
  {
    NoiseSkipped(s.tail, Closing(s, t));
    ShortTail(NoiseText(s.tail), Closing(s, t));
    CloseRead(s.last, s.shut, t);
  }

  /** Whatever stands behind an #endif on its line, it ends the node. */
  lemma CloseRead(word: string, shut: string, t: string)
    requires Same(word, "#endif") && SetOff(shut) && ShortLines(word + shut + "\n" + t)
    ensures Build(Lines(word + shut + "\n" + t, false)) == ([], Lines(t, false))
  {
    EndIfLine(word, shut);
    WordFree(word, "#endif");
    LineRead(word + shut, t, EndIf);
    EndBuilt(Lines(t, false));
  }

  /** A directive is on one line. */
  lemma WordFree(word: string, p: string)
    requires Same(word, p) && '\n' !in p
    ensures '\n' !in word
  {
    assert forall i | 0 <= i < |word| :: Lower(word[i]) == Lower(p[i]) && p[i] in p;
  }

  lemma OneLine(s: Src)
    requires s.SrcDefine? && Good([s])
    ensures '\n' !in DefineText(s)
  {
    assert [s][0] == s;
    SpaceFree(s.name);
    SpaceFree(s.value);
    WordFree(s.word, "#define");
    assert '\n' !in RestText(s.rest);
  }

  lemma DefineMeans(s: Src)
    requires s.SrcDefine? && Good([s])
    ensures var l := Scan(DefineText(s) + "\n", false); l.DefineLine? && NewDefine(l) == [TreeOf(s)]
  {
    assert [s][0] == s;
    DefineRead(s.word, s.gap, s.name, s.sep, s.value, s.rest);
    ReadsNumbers(s.value, s.number, s.form);
  }

  lemma DefineReads(s: Src, t: string)
    requires s.SrcDefine? && Good([s]) && ShortLines(Own(s) + t)
    ensures ReadsAs(Own(s) + t, [TreeOf(s)], t)
  {
    OneLine(s);
    DefineMeans(s);
    DefineLineRead(DefineText(s), Scan(DefineText(s) + "\n", false), t);
  }

  lemma DefineLineRead(line: string, l: Line, t: string)
    requires '\n' !in line && ShortLines(line + "\n" + t) && Scan(line + "\n", false) == l && l.DefineLine?
    ensures ReadsAs(line + "\n" + t, NewDefine(l), t)
  {
    LineRead(line, t, l);
    DefineBuilt(l, Lines(t, false));
  }

  /** Reading the text of any trees gives the trees, with their child counts, and leaves nothing
      unread: whatever white space and comments stand between the lines and at the end, behind
      the names and values, and behind each #ifdef and #endif. */
  lemma RoundTrip(srcs: seq<Src>, tail: seq<Noise>)
    requires Good(srcs) && GoodNoise(tail) && ShortLines(Text(srcs) + NoiseText(tail))
    ensures Build(Lines(Text(srcs) + NoiseText(tail), false)) == (Trees(srcs), [])
  {
    TextRead(srcs, NoiseText(tail));
    ShortTail(Text(srcs), NoiseText(tail));
    assert NoiseText(tail) + "" == NoiseText(tail);
    NoiseSkipped(tail, "");
    assert Trees(srcs) + [] == Trees(srcs);
  }

  /** So a value is looked up in the tree of such a text as by a scan of its lines. */
  lemma LookupInText(srcs: seq<Src>, tail: seq<Noise>, value: nat)
    requires Good(srcs) && GoodNoise(tail) && ShortLines(Text(srcs) + NoiseText(tail))
    ensures Find(Trees(srcs), value) == First(FlatScan(Lines(Text(srcs) + NoiseText(tail), false)), value)
  {
    RoundTrip(srcs, tail);
    FindAgreesWithScan(Lines(Text(srcs) + NoiseText(tail), false), value);
  }

  // --- Where comments are not seen ----------------------------------------------------

  /** What stands behind the name of an #ifdef is not looked at: a comment that begins there and
      goes on to the next lines is not seen, and those lines are read as if there were none. */
  lemma CommentBehindIfdefIsNotSeen(gap: string, name: string, body: string, t: string)
    requires GoodName(gap, name) && '\n' !in body
    requires ShortLines("#ifdef" + (gap + (name + (" /*" + body))) + "\n" + t)
    ensures Lines("#ifdef" + (gap + (name + (" /*" + body))) + "\n" + t, false) == [IfDef(name)] + Lines(t, false)
  {
    var open := " /*" + body;
    SpaceFree(name);
    IfDefLine("#ifdef", gap, name, open);
    assert '\n' !in gap + (name + open);
    LineRead("#ifdef" + (gap + (name + open)), t, IfDef(name));
  }
}
