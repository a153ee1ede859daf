/**
 The reader of the key names header with its cursor and its growing lists of children.
*/
module NamesTable {
  import opened Options
  import opened Strings
  import opened NamesSpec

  /** The open header file: the text that was not read yet. */
  class DefFile {
    var text: string

    constructor (text: string)
      ensures this.text == text
    {
      this.text := text;
    }

    method GetLine() returns (line: string)
      requires text != ""
      modifies this
      ensures (line, text) == FGets(old(text))
    {
      var r := FGets(text);
      line, text := r.0, r.1;
    }
  }

  /** The children of a node while they are read. */
  class Children {
    var pObjects: seq<Obj>
    var cObjects: nat

    ghost predicate Valid()
      reads this
    {
      cObjects == |pObjects|
    }

    constructor ()
      ensures Valid() && pObjects == []
    {
      pObjects, cObjects := [], 0;
    }

    /** __ntInsertNode, with the children of the new node. */
    method InsertNode(name: string, sub: Children)
      requires Valid() && sub.Valid()
      modifies this
      ensures Valid()
      ensures pObjects == old(pObjects) + [Node(Shown(name), old(sub.pObjects), |old(sub.pObjects)|)]
    {
      pObjects := pObjects + [Node("[ " + name + " ]", sub.pObjects, sub.cObjects)];
      cObjects := cObjects + 1;
    }

    /** __ntInsertDefine. */
    method InsertDefine(name: string, value: string, comment: Option<string>)
      requires Valid()
      modifies this
      ensures Valid() && pObjects == old(pObjects) + NewDefine(DefineLine(name, value, comment))
    {
      if |value| > 32 { return; }
      var ulValue := ParseValue(value);
      if ulValue.None? { return; }
      pObjects := pObjects + [Define(name, ulValue.value, comment)];
      cObjects := cObjects + 1;
    }
  }

  /** One line of __ntReadNode up to its directive; the loop is the jump back to l00. */
  method ScanLine(line: string, inComment: bool) returns (l: Line)
    ensures l == Scan(line, inComment)
  {
    var pcPtr, fInComment := line, inComment;
    while true
      invariant Scan(pcPtr, fInComment) == Scan(line, inComment)
      decreases |pcPtr|
    {
      pcPtr := SkipSpaces(pcPtr);
      if pcPtr == "" { return Nothing(fInComment); }
      if !fInComment {
        if Starts(pcPtr, "//") { return Nothing(false); }
        if !Starts(pcPtr, "/*") { return Read(pcPtr); }
        pcPtr := SkipSpaces(pcPtr[2..]);
      }
      var k := CommentEnd(pcPtr);
      if k == |pcPtr| { return Nothing(true); }
      pcPtr, fInComment := pcPtr[k + 2..], false;
    }
  }

  /** The next line of the header, given the meaning of all that are left. */
  method NextLine(fdDef: DefFile, inComment: bool, ghost ls: seq<Line>) returns (l: Line, ghost rest: seq<Line>)
    requires fdDef.text != "" && ls == Lines(fdDef.text, inComment)
    modifies fdDef
    ensures ls == [l] + rest && rest == Lines(fdDef.text, l.Nothing? && l.inComment)
    ensures |fdDef.text| < |old(fdDef.text)|
  {
    var line := fdDef.GetLine();
    l := ScanLine(line, inComment);
    rest := Lines(fdDef.text, l.Nothing? && l.inComment);
  }

  /** Of the lines ls the objects objs were read, and rest is still to read. */
  ghost predicate ReadSoFar(objs: seq<Obj>, rest: seq<Line>, ls: seq<Line>) {
    objs + Build(rest).0 == Build(ls).0 && Build(rest).1 == Build(ls).1
  }

  lemma More(objs: seq<Obj>, x: seq<Obj>, l: seq<Line>, rest: seq<Line>, ls: seq<Line>)
    requires ReadSoFar(objs, l, ls) && Build(l) == (x + Build(rest).0, Build(rest).1)
    ensures ReadSoFar(objs + x, rest, ls)
  {
    assert objs + (x + Build(rest).0) == objs + x + Build(rest).0;
  }

  lemma ReadOne(objs: seq<Obj>, l: Line, rest: seq<Line>, ls: seq<Line>)
    requires ReadSoFar(objs, [l] + rest, ls)
    ensures
      match l
      case Nothing(_) => ReadSoFar(objs, rest, ls)
      case EndIf => (objs, rest) == Build(ls)
      case IfDef(name) =>
        (var kids := Build(rest); ReadSoFar(objs + [Node(Shown(name), kids.0, |kids.0|)], kids.1, ls))
      case DefineLine(_, _, _) => ReadSoFar(objs + NewDefine(l), rest, ls)
  {
    match l
    case Nothing(_) =>
      assert ([l] + rest)[1..] == rest;
    case EndIf =>
      EndBuilt(rest);
      assert objs + [] == objs;
    case IfDef(name) =>
      NodeBuilt(name, rest);
      var kids := Build(rest);
      More(objs, [Node(Shown(name), kids.0, |kids.0|)], [l] + rest, kids.1, ls);
    case DefineLine(_, _, _) =>
      DefineBuilt(l, rest);
      More(objs, NewDefine(l), [l] + rest, rest, ls);
  }

  lemma ReadAll(objs: seq<Obj>, ls: seq<Line>)
    requires ReadSoFar(objs, [], ls)
    ensures (objs, []) == Build(ls)
  {
    assert objs + [] == objs;
  }

  /** __ntReadNode, given the meaning of the lines that are left. */
  method ReadNode(fdDef: DefFile, ghost ls: seq<Line>) returns (node: Children, ghost rest: seq<Line>)
    requires ls == Lines(fdDef.text, false)
    modifies fdDef
    ensures fresh(node) && node.Valid() && |fdDef.text| <= |old(fdDef.text)|
    ensures rest == Lines(fdDef.text, false) && (node.pObjects, rest) == Build(ls)
    decreases |fdDef.text|
  {
    node := new Children();
    rest := ls;
    var fInComment := false;
    assert [] + Build(ls).0 == Build(ls).0;
    while fdDef.text != ""
      invariant node.Valid() && fresh(node) && |fdDef.text| <= |old(fdDef.text)|
      invariant rest == Lines(fdDef.text, fInComment) && ReadSoFar(node.pObjects, rest, ls)
      decreases |fdDef.text|
    {
      var l;
      l, rest := NextLine(fdDef, fInComment, rest);
      ReadOne(node.pObjects, l, rest, ls);
      fInComment := l.Nothing? && l.inComment;
      if l.EndIf? {
        return;
      } else if l.IfDef? {
        var sub;
        sub, rest := ReadNode(fdDef, rest);
        node.InsertNode(l.name, sub);
      } else if l.DefineLine? {
        node.InsertDefine(l.name, l.value, l.comment);
      }
    }
    ReadAll(node.pObjects, ls);
  }

  /** _ntFind: the search returns out of its loop at the first define with the value. */
  method FindDefine(objs: seq<Obj>, ulKeysym: nat) returns (r: Option<Obj>)
    ensures r == First(Entries(objs), ulKeysym)
    decreases objs
  {
    FindIsFirst(objs, ulKeysym);
    var i := 0;
    while i < |objs|
      invariant i <= |objs| && Find(objs[i..], ulKeysym) == Find(objs, ulKeysym)
      decreases |objs| - i
    {
      assert objs[i..][1..] == objs[i + 1..] && objs[i] in objs;
      match objs[i] {
        case Node(_, kids, _) =>
          var found := FindDefine(kids, ulKeysym);
          FindIsFirst(kids, ulKeysym);
          if found.Some? { return found; }
        case Define(_, value, _) =>
          if value == ulKeysym { return Some(objs[i]); }
      }
      i := i + 1;
    }
    return None;
  }
}
