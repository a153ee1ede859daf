/**
 The server's log files, log.c: records are appended to one file; a file that has grown too
 large is renamed to the extension 1, the file with that extension to 2, and so on.
*/
module LogRotation {
  import opened Options
  import opened Strings

  type Files = map<string, string>

  /** CCHMAXPATH. */
  const MAX_PATH: nat := 260

  // --- Names --------------------------------------------------------------------------

  /** ultoa with the radix 10. */
  function Decimal(k: nat): (s: string)
    ensures s != ""
  {
    if k < 10 then [('0' as int + k) as char] else Decimal(k / 10) + [('0' as int + k % 10) as char]
  }

  lemma {:induction false} DecimalDiffers(i: nat, j: nat)
    requires i < j
    ensures Decimal(i) != Decimal(j)
    ensures |Decimal(i)| <= |Decimal(j)|
  {
    if j >= 10 {
      var a, b := Decimal(i), Decimal(j);
      if i < 10 {
        assert |Decimal(j / 10)| >= 1;
      } else if i / 10 < j / 10 {
        DecimalDiffers(i / 10, j / 10);
        assert a[..|a| - 1] == Decimal(i / 10) && b[..|b| - 1] == Decimal(j / 10);
      } else {
        assert a[|a| - 1] == ('0' as int + i % 10) as char && b[|b| - 1] == ('0' as int + j % 10) as char;
      }
    }
  }

  /** The length of the name s[..i] without its extension, when s[i..] has no point. */
  function StemLength(s: string, i: nat): (n: nat)
    requires i <= |s|
    ensures n <= |s|
  {
    if i == 0 || s[i - 1] == '\\' then |s|
    else if s[i - 1] == '.' then i - 1
    else StemLength(s, i - 1)
  }

  /** utilSetExtension with a buffer of CCHMAXPATH characters. */
  function SetExtension(file: string, ext: string): Option<string> {
    var name := file[..StemLength(file, |file|)] + "." + ext;
    if |name| < MAX_PATH then Some(name) else None
  }

  /** Neither a point nor a separator. */
  predicate Unmarked(s: string) { '.' !in s && '\\' !in s }

  lemma {:induction false} StemOf(s: string, tail: string, i: nat)
    requires i <= |tail| && Unmarked(tail)
    ensures StemLength(s + tail, |s| + i) == StemLength(s + tail, |s|)
    decreases i
  {
    if i > 0 {
      assert (s + tail)[|s| + i - 1] == tail[i - 1];
      StemOf(s, tail, i - 1);
    }
  }

  /** An extension is what follows the last point of a name, unless a separator comes later. It is
      replaced, and where there is none one is added; the name must fit the buffer. */
  lemma ExtensionReplaced(stem: string, tail: string, ext: string)
    requires Unmarked(tail)
    ensures SetExtension(stem + "." + tail, ext) ==
            if |stem| + 1 + |ext| < 260 then Some(stem + "." + ext) else None
    ensures stem == "" || stem[|stem| - 1] == '\\' ==>
              SetExtension(stem + tail, ext) ==
              if |stem| + |tail| + 1 + |ext| < 260 then Some(stem + tail + "." + ext) else None
  {
    var whole := (stem + ".") + tail;
    StemOf(stem + ".", tail, |tail|);
    assert whole[|stem|] == '.' && whole[..|stem|] == stem;
    StemOf(stem, tail, |tail|);
    assert (stem + tail)[..|stem + tail|] == stem + tail;
    if stem != "" { assert (stem + tail)[|stem| - 1] == stem[|stem| - 1]; }
  }

  /** The decimal digits of a text, read from the left. */
  function ReadDecimal(s: string): int {
    if s == "" then 0 else 10 * ReadDecimal(s[..|s| - 1]) + (s[|s| - 1] as int - '0' as int)
  }

  /** The extension of the k-th file is the number k in decimal digits, without a zero in front. */
  lemma {:induction false} DecimalReads(k: nat)
    ensures ReadDecimal(Decimal(k)) == k
    ensures forall i | 0 <= i < |Decimal(k)| :: '0' <= Decimal(k)[i] <= '9'
    ensures k > 0 ==> Decimal(k)[0] != '0'
  {
    var s := Decimal(k);
    if k < 10 {
      assert s[..0] == "" && ReadDecimal(s) == 10 * ReadDecimal(s[..0]) + k;
    } else {
      DecimalReads(k / 10);
      assert s[..|s| - 1] == Decimal(k / 10);
      assert forall i | 0 <= i < |s| - 1 :: s[i] == Decimal(k / 10)[i];
    }
  }

  function Numbered(file: string, k: nat): Option<string> {
    SetExtension(file, Decimal(k))
  }

  /** The k-th file, newest first. */
  function Name(file: string, k: nat): string {
    if k == 0 || Numbered(file, k).None? then file else Numbered(file, k).value
  }

  lemma NumberedDiffer(file: string, i: nat, j: nat)
    requires i < j && Numbered(file, j).Some?
    ensures Numbered(file, i).Some? && Numbered(file, i) != Numbered(file, j)
  {
    DecimalDiffers(i, j);
    var stem := file[..StemLength(file, |file|)] + ".";
    assert (stem + Decimal(i))[|stem|..] == Decimal(i) && (stem + Decimal(j))[|stem|..] == Decimal(j);
  }

  /** None of the other names is the name of the log file itself. */
  predicate Rotatable(file: string, n: nat) {
    forall k | 1 <= k < n :: Numbered(file, k) != Some(file)
  }

  // --- Rotation as a function of the files --------------------------------------------

  function Rename(files: Files, src: string, dst: string): Files {
    if src in files then (files - {src})[dst := files[src]] else files
  }

  /** The loop of the rotation: idx is the next file to rename, and dst its new name. */
  function Shifted(files: Files, file: string, idx: nat, dst: string): Files
    decreases idx
  {
    if idx == 0 || Numbered(file, idx).None? then Rename(files, file, dst)
    else Shifted(Rename(files, Numbered(file, idx).value, dst), file, idx - 1, Numbered(file, idx).value)
  }

  function Rotated(files: Files, file: string, n: nat): Files
    requires n >= 1
  {
    if n == 1 then files - {file}
    else if Numbered(file, n - 1).None? then files
    else Shifted(files - {Numbered(file, n - 1).value}, file, n - 2, Numbered(file, n - 1).value)
  }

  function Content(files: Files, name: string): string {
    if name in files then files[name] else ""
  }

  /** What is in the files, newest first. */
  function Contents(files: Files, file: string, n: nat): (r: seq<string>)
    ensures |r| == n && forall k | 0 <= k < n :: r[k] == Content(files, Name(file, k))
  {
    seq(n, k requires 0 <= k < n => Content(files, Name(file, k)))
  }

  /** Texts that are given newest first, from the oldest on. */
  function Joined(texts: seq<string>): string {
    if texts == [] then "" else texts[|texts| - 1] + Joined(texts[..|texts| - 1])
  }

  /** Everything in the log, oldest file first. */
  function Text(files: Files, file: string, n: nat): string { Joined(Contents(files, file, n)) }

  /** Each file from idx on down has moved up by one name. */
  lemma {:induction false} ShiftedMoves(files: Files, file: string, n: nat, idx: nat, dst: string, k: nat)
    requires n >= 2 && idx <= n - 2 && Numbered(file, n - 1).Some? && Rotatable(file, n)
    requires dst == Name(file, idx + 1) && dst !in files && k <= n - 1
    ensures
      var after := Shifted(files, file, idx, dst);
      && file !in after
      && (1 <= k <= idx + 1 ==> Content(after, Name(file, k)) == Content(files, Name(file, k - 1)))
      && (k > idx + 1 ==> Content(after, Name(file, k)) == Content(files, Name(file, k)))
    decreases idx
  {
    NamesDiffer(file, n);
    if idx > 0 {
      var src := Name(file, idx);
      ShiftedMoves(Rename(files, src, dst), file, n, idx - 1, src, k);
    }
  }

  /** Rotation moves every file one name up; the oldest one goes. */
  lemma RotatedMoves(files: Files, file: string, n: nat, k: nat)
    requires 1 <= n && Rotatable(file, n) && k < n && (n > 1 ==> Numbered(file, n - 1).Some?)
    ensures Content(Rotated(files, file, n), Name(file, k)) == if k == 0 then "" else Content(files, Name(file, k - 1))
    ensures file !in Rotated(files, file, n)
  {
    if n > 1 {
      NamesDiffer(file, n);
      var dst := Numbered(file, n - 1).value;
      ShiftedMoves(files - {dst}, file, n, n - 2, dst, k);
    }
  }

  lemma NamesDiffer(file: string, n: nat)
    requires n >= 2 && Numbered(file, n - 1).Some? && Rotatable(file, n)
    ensures forall i, j | 0 <= i < j < n :: Name(file, i) != Name(file, j)
    ensures forall i | 0 <= i < n :: Numbered(file, i).Some?
  {
    NumbersDiffer(file, n);
  }

  /** The numbered names differ from each other. */
  lemma NumbersDiffer(file: string, n: nat)
    requires n >= 2 && Numbered(file, n - 1).Some?
    ensures forall i, j | 1 <= i < j < n :: Name(file, i) != Name(file, j)
    ensures forall i | 0 <= i < n :: Numbered(file, i).Some?
  {
    forall i | 0 <= i < n
      ensures Numbered(file, i).Some?
    {
      if i < n - 1 { NumberedDiffer(file, i, n - 1); }
    }
    forall i, j | 1 <= i < j < n
      ensures Name(file, i) != Name(file, j)
    {
      NumberedDiffer(file, i, j);
    }
  }

  /** Every file takes the place of the next older one, and the name of the log is free. */
  ghost predicate MovesUp(files: Files, file: string, n: nat)
    requires n >= 1
  {
    && file !in Rotated(files, file, n)
    && forall k | 1 <= k < n :: Content(Rotated(files, file, n), Name(file, k)) == Content(files, Name(file, k - 1))
  }

  /** Rotation does that for all files if and only if no numbered name is the name of the log. */
  lemma RotationMovesUp(file: string, n: nat)
    requires n > 1 && Numbered(file, n - 1).Some?
    ensures Rotatable(file, n) <==> forall files: Files :: MovesUp(files, file, n)
  {
    if Rotatable(file, n) {
      forall files: Files
        ensures MovesUp(files, file, n)
      {
        forall k | 1 <= k < n
          ensures Content(Rotated(files, file, n), Name(file, k)) == Content(files, Name(file, k - 1))
        {
          RotatedMoves(files, file, n, k);
        }
        RotatedMoves(files, file, n, 0);
      }
    } else {
      var k :| 1 <= k < n && Numbered(file, k) == Some(file);
      var files: Files := map[Name(file, k - 1) := "x"];
      assert Name(file, k) == file && Content(files, Name(file, k - 1)) == "x";
      assert !MovesUp(files, file, n);
    }
  }

  /** A new empty file changes nothing in the text. */
  lemma {:induction false} JoinedCons(texts: seq<string>)
    ensures Joined([""] + texts) == Joined(texts)
    decreases |texts|
  {
    if texts == [] {
      assert Joined([""]) == "" + Joined([""][..0]);
    } else {
      var n := |texts| - 1;
      assert ([""] + texts)[..n + 1] == [""] + texts[..n];
      JoinedCons(texts[..n]);
    }
  }

  lemma ContentsMove(files: Files, file: string, n: nat)
    requires 1 <= n && Rotatable(file, n) && (n > 1 ==> Numbered(file, n - 1).Some?)
    ensures Contents(Rotated(files, file, n), file, n) == [""] + Contents(files, file, n)[..n - 1]
  {
    forall k | 0 <= k < n
      ensures Contents(Rotated(files, file, n), file, n)[k] == ([""] + Contents(files, file, n)[..n - 1])[k]
    {
      RotatedMoves(files, file, n, k);
    }
  }

  /** Rotation drops the contents of the oldest file and nothing else. */
  lemma RotationDropsTheOldest(files: Files, file: string, n: nat)
    requires 1 <= n && Rotatable(file, n) && (n > 1 ==> Numbered(file, n - 1).Some?)
    ensures Text(files, file, n) == Content(files, Name(file, n - 1)) + Text(Rotated(files, file, n), file, n)
  {
    ContentsMove(files, file, n);
    JoinedCons(Contents(files, file, n)[..n - 1]);
  }

  /** The files after a call of logStr that writes: full says that the file has grown too large,
      and ok whether it can be opened again then. */
  function Logged(files: Files, file: string, n: nat, full: bool, ok: bool, record: string): Files
    requires n >= 1
  {
    var room := if full then Rotated(files, file, n) else files;
    if full && !ok then room else room[file := Content(room, file) + record]
  }

  /** With a limit of max kilobytes, where rotation works, the log is never longer than the limit by
      more than its last record; below the limit nothing is renamed, and from it on the log begins
      anew and its contents go to the first of the other files. */
  lemma LogStaysSmall(files: Files, file: string, n: nat, max: nat, ok: bool, record: string)
    requires 1 <= n && Rotatable(file, n) && (n > 1 ==> Numbered(file, n - 1).Some?) && file in files && max > 0
    ensures
      var size := |files[file]|; var after := Logged(files, file, n, size >= max * 1024, ok, record);
      && (size < max * 1024 ==> after == files[file := files[file] + record])
      && (file in after ==> |after[file]| < max * 1024 + |record|)
      && (size >= max * 1024 && file in after ==> after[file] == record)
      && (size >= max * 1024 && n > 1 ==> Content(after, Name(file, 1)) == files[file])
  {
    RotatedMoves(files, file, n, 0);
    if n > 1 {
      NamesDiffer(file, n);
      RotatedMoves(files, file, n, 1);
    }
  }

  // --- Records ------------------------------------------------------------------------

  /** r is s without the white space around it. */
  predicate Trims(s: string, r: string) {
    && (exists i, j :: 0 <= i <= j <= |s| && r == s[i..j] && AllSpace(s[..i]) && AllSpace(s[j..]))
    && (r != "" ==> !IsSpace(r[0]) && !IsSpace(r[|r| - 1]))
  }

  /** A piece is one record or what was in one of the files at the start. */
  type Piece = string

  function Flat(pieces: seq<Piece>): string {
    if pieces == [] then "" else Flat(pieces[..|pieces| - 1]) + pieces[|pieces| - 1]
  }

  /** The pieces of all files, given newest file first, in the order of their age. */
  function Ordered(slots: seq<seq<Piece>>): seq<Piece> {
    if slots == [] then [] else Ordered(slots[1..]) + slots[0]
  }

  lemma {:induction false} FlatConcat(a: seq<Piece>, b: seq<Piece>)
    ensures Flat(a + b) == Flat(a) + Flat(b)
  {
    if b == [] {
      assert a + b == a;
    } else {
      FlatConcat(a, b[..|b| - 1]);
      assert (a + b)[..|a + b| - 1] == a + b[..|b| - 1];
    }
  }

  lemma {:induction false} OrderedLast(slots: seq<seq<Piece>>)
    requires slots != []
    ensures Ordered(slots) == slots[|slots| - 1] + Ordered(slots[..|slots| - 1])
  {
    if |slots| > 1 {
      OrderedLast(slots[1..]);
      assert slots[1..][..|slots| - 2] == slots[..|slots| - 1][1..];
    }
  }

  lemma {:induction false} JoinedIsFlat(texts: seq<string>, slots: seq<seq<Piece>>)
    requires |texts| == |slots| && forall k | 0 <= k < |slots| :: texts[k] == Flat(slots[k])
    ensures Joined(texts) == Flat(Ordered(slots))
    decreases |texts|
  {
    if texts != [] {
      var n := |texts| - 1;
      JoinedIsFlat(texts[..n], slots[..n]);
      OrderedLast(slots);
      FlatConcat(slots[n], Ordered(slots[..n]));
    }
  }

  lemma Regrouped(a: seq<Piece>, b: seq<Piece>, c: seq<Piece>)
    ensures a + (b + c) == (a + b) + c
  {
  }

  /** slots tells what is in the files, newest first. */
  ghost predicate Matches(files: Files, file: string, slots: seq<seq<Piece>>) {
    forall k | 0 <= k < |slots| :: Content(files, Name(file, k)) == Flat(slots[k])
  }

  lemma MatchesCreated(files: Files, file: string, slots: seq<seq<Piece>>)
    requires Matches(files, file, slots) && file !in files
    ensures Matches(files[file := ""], file, slots)
  {
    forall k | 0 <= k < |slots|
      ensures Content(files[file := ""], Name(file, k)) == Flat(slots[k])
    {
      assert Content(files, Name(file, k)) == Flat(slots[k]);
    }
  }

  /** Rotation drops the oldest slot and nothing else. */
  lemma MatchesRotated(files: Files, file: string, n: nat, slots: seq<seq<Piece>>)
    requires Matches(files, file, slots) && |slots| == n >= 1 && Rotatable(file, n)
    requires n > 1 ==> Numbered(file, n - 1).Some?
    ensures Matches(Rotated(files, file, n), file, [[]] + slots[..n - 1])
    ensures Ordered(slots) == slots[n - 1] + Ordered([[]] + slots[..n - 1])
  {
    forall k | 0 <= k < n
      ensures Content(Rotated(files, file, n), Name(file, k)) == Flat(([[]] + slots[..n - 1])[k])
    {
      SlotRotated(files, file, n, slots, k);
    }
    OrderedRotated(slots);
  }

  lemma SlotRotated(files: Files, file: string, n: nat, slots: seq<seq<Piece>>, k: nat)
    requires Matches(files, file, slots) && |slots| == n && k < n && Rotatable(file, n)
    requires n > 1 ==> Numbered(file, n - 1).Some?
    ensures Content(Rotated(files, file, n), Name(file, k)) == Flat(([[]] + slots[..n - 1])[k])
  {
    RotatedMoves(files, file, n, k);
    if k > 0 { assert Content(files, Name(file, k - 1)) == Flat(slots[k - 1]); }
  }

  lemma OrderedRotated(slots: seq<seq<Piece>>)
    requires slots != []
    ensures Ordered(slots) == slots[|slots| - 1] + Ordered([[]] + slots[..|slots| - 1])
  {
    OrderedLast(slots);
    var next := [[]] + slots[..|slots| - 1];
    assert next[1..] == slots[..|slots| - 1];
    assert Ordered(next) == Ordered(slots[..|slots| - 1]) + [];
  }

  lemma MatchesAppended(files: Files, file: string, slots: seq<seq<Piece>>, record: Piece)
    requires Matches(files, file, slots) && slots != [] && file in files
    requires forall k | 1 <= k < |slots| :: Name(file, k) != file
    ensures Matches(files[file := files[file] + record], file, slots[0 := slots[0] + [record]])
    ensures Ordered(slots[0 := slots[0] + [record]]) == Ordered(slots) + [record]
  {
    var next := slots[0 := slots[0] + [record]];
    assert (slots[0] + [record])[..|slots[0]|] == slots[0];
    forall k | 0 <= k < |slots|
      ensures Content(files[file := files[file] + record], Name(file, k)) == Flat(next[k])
    {
      assert Content(files, Name(file, k)) == Flat(slots[k]);
    }
    assert next[1..] == slots[1..];
  }

  /** At the start every file is one piece. */
  ghost function Slots(files: Files, file: string, n: nat): seq<seq<Piece>> {
    seq(n, k requires 0 <= k < n => [Content(files, Name(file, k))])
  }

  lemma SlotsHold(files: Files, file: string, n: nat)
    ensures |Slots(files, file, n)| == n
    ensures Matches(files, file, Slots(files, file, n))
  {
    forall k | 0 <= k < n
      ensures Content(files, Name(file, k)) == Flat(Slots(files, file, n)[k])
    {
      assert [Content(files, Name(file, k))][..0] == [];
      assert Flat([Content(files, Name(file, k))]) == "" + Content(files, Name(file, k));
    }
  }

  lemma SlotsText(files: Files, file: string, n: nat)
    ensures Flat(Ordered(Slots(files, file, n))) == Text(files, file, n)
  {
    SlotsHold(files, file, n);
    WholeText(files, file, Slots(files, file, n));
  }

  lemma WholeText(files: Files, file: string, slots: seq<seq<Piece>>)
    requires Matches(files, file, slots)
    ensures Text(files, file, |slots|) == Flat(Ordered(slots))
  {
    JoinedIsFlat(Contents(files, file, |slots|), slots);
  }

  /** Creating an empty log file does not change the text. */
  lemma Unchanged(files: Files, file: string, n: nat)
    requires file !in files
    ensures Text(files[file := ""], file, n) == Text(files, file, n)
  {
    assert Contents(files[file := ""], file, n) == Contents(files, file, n);
  }

  /** The files right after the log was opened. */
  lemma Begun(files: Files, file: string, n: nat, present: Files)
    requires present == files || (file !in files && present == files[file := ""])
    ensures |Slots(present, file, n)| == n && Matches(present, file, Slots(present, file, n))
    ensures Flat(Ordered(Slots(present, file, n))) == Text(files, file, n)
    ensures Ordered(Slots(present, file, n)) == [] + Ordered(Slots(present, file, n))
  {
    SlotsHold(present, file, n);
    SlotsText(present, file, n);
    if file !in files { Unchanged(files, file, n); }
  }

  /** How many files take part in a rotation of n files. */
  function Rotating(file: string, n: nat): nat {
    if n > 1 && Numbered(file, n - 1).None? then 1 else n
  }

  class Log {
    const acFile: string
    const ulFiles: nat
    const ulMaxSize: nat
    const ulLevel: nat
    var files: Files
    var open: bool                        // iFile is not -1
    ghost var slots: seq<seq<Piece>>      // what is in the files, newest first
    ghost var dropped: seq<Piece>         // what was in files that are gone
    ghost var history: seq<Piece>         // what was there at the start, and all records

    /** How many files take part in the rotation; none is renamed if the names get too long. */
    ghost function Kept(): nat {
      Rotating(acFile, ulFiles)
    }

    /** The slots tell what is in the files, and together with what is gone they are the history. */
    ghost predicate Tracked()
      reads this
    {
      && |slots| == Kept()
      && Matches(files, acFile, slots)
      && history == dropped + Ordered(slots)
    }

    /** No name is excluded here; but only for a name that no rotation name equals do the files
        keep the history. */
    ghost predicate Valid()
      reads this
    {
      && ulFiles >= 1 && acFile != ""
      && (open ==> acFile in files)
      && (Rotatable(acFile, ulFiles) ==> Tracked())
    }

    /** A log with the given settings and whatever files are there. */
    constructor (acFile: string, ulFiles: nat, ulMaxSize: nat, ulLevel: nat, files: Files, ok: bool)
      requires ulFiles >= 1 && acFile != ""
      ensures Valid() && history == Ordered(slots) && dropped == []
      ensures Flat(history) == Text(files, acFile, Kept())
    {
      this.acFile, this.ulFiles, this.ulMaxSize, this.ulLevel := acFile, ulFiles, ulMaxSize, ulLevel;
      var present := if ok && acFile !in files then files[acFile := ""] else files;
      this.files, this.open := present, ok;
      slots, dropped := Slots(present, acFile, Rotating(acFile, ulFiles)), [];
      history := Ordered(Slots(present, acFile, Rotating(acFile, ulFiles)));
      Begun(files, acFile, Rotating(acFile, ulFiles), present);
    }

    /** The files from the oldest to the newest are the end of what was there at the start and
        all records, and no record is in two files. */
    lemma FilesAreTheEnd()
      requires Valid() && Rotatable(acFile, ulFiles)
      ensures Flat(history) == Flat(dropped) + Text(files, acFile, Kept())
    {
      WholeText(files, acFile, slots);
      FlatConcat(dropped, Ordered(slots));
    }

    /** _logOpen for a configured log. */
    method Open(ok: bool)
      requires !open
      modifies this`files, this`open
      ensures open == ok
      ensures files == if ok && acFile !in old(files) then old(files)[acFile := ""] else old(files)
    {
      if ok {
        open := true;
        if acFile !in files { files := files[acFile := ""]; }
      }
    }

    method Unlink(name: string)
      modifies this`files
      ensures files == old(files) - {name}
    {
      files := files - {name};
    }

    /** A rename never lands on a file that exists. */
    method RenameFile(src: string, dst: string)
      requires dst !in files
      modifies this`files
      ensures files == Rename(old(files), src, dst)
    {
      if src in files {
        files := (files - {src})[dst := files[src]];
      }
    }

    /** The rotation of logStr, with the log file closed. */
    method Rotate()
      requires ulFiles >= 1
      modifies this`files
      ensures files == Rotated(old(files), acFile, ulFiles)
    {
      if ulFiles == 1 {
        Unlink(acFile);
        return;
      }
      var last := Numbered(acFile, ulFiles - 1);
      if last.None? { return; }
      NumbersDiffer(acFile, ulFiles);
      var dst := last.value;
      Unlink(dst);
      ghost var start := files;
      var idx := ulFiles - 2;
      while idx != 0
        invariant 0 <= idx <= ulFiles - 2
        invariant dst == Name(acFile, idx + 1) && dst !in files
        invariant Shifted(files, acFile, idx, dst) == Shifted(start, acFile, ulFiles - 2, last.value)
      {
        var src := Numbered(acFile, idx);
        if src.None? { break; }
        assert src.value == Name(acFile, idx) && Name(acFile, idx) != Name(acFile, idx + 1);
        RenameFile(src.value, dst);
        dst := src.value;
        idx := idx - 1;
      }
      RenameFile(acFile, dst);
    }

    predicate Full(pos: nat) {
      ulMaxSize != 0 && pos >= ulMaxSize * 1024
    }

    /** logStr up to the writing: a file that is too large is rotated away. */
    method MakeRoom(pos: nat, ok: bool)
      requires Valid() && open
      modifies this
      ensures Valid() && history == old(history)
      ensures open == (ok || !Full(pos))
      ensures
        var room := if Full(pos) then Rotated(old(files), acFile, ulFiles) else old(files);
        files == if open then room[acFile := Content(room, acFile)] else room
    {
      if Full(pos) {
        open := false;
        ghost var was := files;
        Rotate();
        Note(was);
        if acFile !in files && Rotatable(acFile, ulFiles) { MatchesCreated(files, acFile, slots); }
        Open(ok);
      }
    }

    /** The history of the files after a rotation. */
    ghost method Note(was: Files)
      requires ulFiles >= 1 && acFile != "" && files == Rotated(was, acFile, ulFiles) && !open
      requires Rotatable(acFile, ulFiles) ==>
                 |slots| == Kept() && Matches(was, acFile, slots) && history == dropped + Ordered(slots)
      modifies this`slots, this`dropped
      ensures Valid()
    {
      if Rotatable(acFile, ulFiles) && (ulFiles == 1 || Numbered(acFile, ulFiles - 1).Some?) {
        MatchesRotated(was, acFile, ulFiles, slots);
        ghost var oldest := slots[ulFiles - 1];
        slots := [[]] + slots[..ulFiles - 1];
        Regrouped(dropped, oldest, Ordered(slots));
        dropped := dropped + oldest;
      }
    }

    method Write(s: string)
      requires open && acFile in files
      modifies this`files
      ensures files == old(files)[acFile := old(files)[acFile] + s]
    {
      files := files[acFile := files[acFile] + s];
    }

    /** The trimming loops of logStr. */
    static method Trim(s: string) returns (r: string)
      ensures Trims(s, r)
    {
      var i, j := 0, |s|;
      while i < |s| && IsSpace(s[i])
        invariant i <= |s| && AllSpace(s[..i])
      {
        i := i + 1;
      }
      while j > i && IsSpace(s[j - 1])
        invariant i <= j <= |s| && AllSpace(s[j..])
        invariant j == |s| || j > i || AllSpace(s[i..])
      {
        j := j - 1;
      }
      r := s[i..j];
    }

    /** logStr: pos is the position in the open file, stamp the time, and ok says whether the
        file can be opened again after a rotation. */
    method LogStr(level: nat, str: string, pos: nat, stamp: string, ok: bool) returns (text: string)
      requires Valid()
      modifies this
      ensures Valid() && Trims(str, text)
      ensures
        var record := stamp + text + "\n"; var full := ulMaxSize != 0 && pos >= ulMaxSize * 1024;
        if level <= ulLevel && old(open) then
          && files == Logged(old(files), acFile, ulFiles, full, ok, record)
          && open == (ok || !full)
          && history == if open then old(history) + [record] else old(history)
        else
          files == old(files) && open == old(open) && history == old(history)
    {
      text := Trim(str);
      if level > ulLevel || !open { return; }
      MakeRoom(pos, ok);
      if open {
        WriteRecord(stamp, text);
      }
    }

    method WriteRecord(stamp: string, text: string)
      requires Valid() && open
      modifies this`files, this`slots, this`history
      ensures Valid() && history == old(history) + [stamp + text + "\n"]
      ensures files == old(files)[acFile := old(files)[acFile] + (stamp + text + "\n")]
    {
      ghost var was := files;
      WriteParts(stamp, text);
      ghost var record := stamp + text + "\n";
      if Rotatable(acFile, ulFiles) {
        NamesApart();
        MatchesAppended(was, acFile, slots, record);
        Regrouped(dropped, Ordered(slots), [record]);
        slots := slots[0 := slots[0] + [record]];
      }
      history := history + [record];
    }

    /** The three writes of one record. */
    method WriteParts(stamp: string, text: string)
      requires open && acFile in files
      modifies this`files
      ensures files == old(files)[acFile := old(files)[acFile] + (stamp + text + "\n")]
    {
      ghost var was := files[acFile];
      Write(stamp);
      Write(text);
      Write("\n");
      assert files[acFile] == was + (stamp + text + "\n");
    }

    /** The other files have other names. */
    lemma NamesApart()
      requires ulFiles >= 1 && Rotatable(acFile, ulFiles)
      ensures forall k | 1 <= k < Kept() :: Name(acFile, k) != acFile
    {
      if Kept() > 1 { NamesDiffer(acFile, ulFiles); }
    }
  }

  /** Why the name of the log file must not be one of the numbered names: the newest text is
      gone and the older one still there. */
  lemma NumberedNameLosesTheNewest()
    ensures !Rotatable("x.2", 3)
    ensures Rotated(map["x.1" := "older", "x.2" := "newer"], "x.2", 3) == map["x.1" := "older"]
  {
    assert Decimal(1) == "1" && Decimal(2) == "2";
    assert StemLength("x.2", 3) == StemLength("x.2", 2) == 1;
    assert "x.2"[..1] + "." + "2" == "x.2" && "x.2"[..1] + "." + "1" == "x.1";
    assert Numbered("x.2", 2) == Some("x.2") && Numbered("x.2", 1) == Some("x.1");
    var files: Files := map["x.1" := "older", "x.2" := "newer"];
    assert files - {"x.2"} == map["x.1" := "older"];
    assert Rename(map["x.1" := "older"], "x.1", "x.2") == map["x.2" := "older"];
    assert Rename(map["x.2" := "older"], "x.2", "x.1") == map["x.1" := "older"];
  }
}
