/**
 The text form of the access list in the INI file: what is written for a rule, what a reading of
 it gives, and which rules survive.
*/
module AclText {
  import opened Options
  import opened AclSpec
  import opened Strings

  const MAX: Addr := 0xFFFF_FFFF

  /** The loops over the bits of a mask turn at most this often. */
  const TURNS: nat := 31

  /** inet_ntoa, inet_addr (None for its error value, the all-ones address) and the reading of a
      prefix length. */
  datatype Inet = Inet(ntoa: Addr -> string, aton: string -> Option<Addr>, cidr: string -> Option<Addr>)

  predicate Dotted(s: string) {
    7 <= |s| <= 15 && '.' in s && forall i | 0 <= i < |s| :: s[i] == '.' || '0' <= s[i] <= '9'
  }

  ghost predicate Inverts(net: Inet) {
    && net.ntoa(MAX) == "255.255.255.255"
    && forall a: Addr :: Dotted(net.ntoa(a)) && net.aton(net.ntoa(a)) == if a == MAX then None else Some(a)
  }

  // --- Bits ---------------------------------------------------------------------------

  /** ~a & b. */
  function NotAnd(a: nat, b: nat): (m: nat)
    ensures m <= b
    decreases b
  {
    if b == 0 then 0 else 2 * NotAnd(a / 2, b / 2) + if a % 2 == 0 && b % 2 == 1 then 1 else 0
  }

  /** a | b. */
  function Or(a: nat, b: nat): nat
    decreases b
  {
    if b == 0 then a else 2 * Or(a / 2, b / 2) + if a % 2 == 1 || b % 2 == 1 then 1 else 0
  }

  /** At most n times while the lowest bit is set, shift right. */
  function DropLow(m: nat, n: nat): nat
    decreases n
  {
    if n == 0 || m % 2 == 0 then m else DropLow(m / 2, n - 1)
  }

  /** At most n times while the highest of 32 bits is set, shift left. */
  function DropHigh(m: nat, n: nat): nat
    decreases n
  {
    if n == 0 || m < 0x8000_0000 then m else DropHigh(2 * m % 0x1_0000_0000, n - 1)
  }

  /** Above at most n low bits a and b are equal; the low bits are all 0 in a and all 1 in b. */
  predicate Block(a: nat, b: nat, n: nat)
    decreases n
  {
    a == b || (n > 0 && a % 2 == 0 && b % 2 == 1 && Block(a / 2, b / 2, n - 1))
  }

  lemma {:induction false} NothingAbove(a: nat, b: nat)
    requires a <= b
    ensures NotAnd(a, b) == 0 <==> a == b
    decreases b
  {
    if b > 0 { NothingAbove(a / 2, b / 2); }
  }

  /** The mask test of the printing recognises exactly the blocks. */
  lemma {:induction false} BlockIsMask(a: nat, b: nat, n: nat)
    requires a <= b
    ensures DropLow(NotAnd(a, b), n) == 0 <==> Block(a, b, n)
    decreases n
  {
    NothingAbove(a, b);
    if n > 0 && a != b {
      assert b > 0;
      var m := NotAnd(a, b);
      assert m / 2 == NotAnd(a / 2, b / 2);
      assert m % 2 == 1 <==> a % 2 == 0 && b % 2 == 1;
      BlockIsMask(a / 2, b / 2, n - 1);
    }
  }

  /** A block is its first address and the mask of its low bits. */
  lemma {:induction false} BlockFromMask(a: nat, b: nat, n: nat)
    requires a <= b && Block(a, b, n)
    ensures NotAnd(NotAnd(a, b), a) == a && Or(a, NotAnd(a, b)) == b
    decreases n
  {
    NothingAbove(a, b);
    if a == b {
      AllOutside(a);
    } else {
      var m := NotAnd(a, b);
      assert m / 2 == NotAnd(a / 2, b / 2) && m % 2 == 1;
      BlockFromMask(a / 2, b / 2, n - 1);
    }
  }

  lemma {:induction false} AllOutside(a: nat)
    ensures NotAnd(0, a) == a
  {
    if a > 0 { AllOutside(a / 2); }
  }

  function Pow2(k: nat): (p: nat)
    ensures p >= 1
  {
    if k == 0 then 1 else 2 * Pow2(k - 1)
  }

  /** The mask of a block is a run of ones at the low end. */
  lemma {:induction false} BlockMaskRun(a: nat, b: nat, n: nat) returns (k: nat)
    requires a <= b && Block(a, b, n)
    ensures k <= n && NotAnd(a, b) == Pow2(k) - 1 && (a != b ==> k >= 1)
    decreases n
  {
    NothingAbove(a, b);
    if a == b {
      k := 0;
    } else {
      var m := NotAnd(a, b);
      assert m / 2 == NotAnd(a / 2, b / 2) && m % 2 == 1;
      k := BlockMaskRun(a / 2, b / 2, n - 1);
      k := k + 1;
    }
  }

  lemma Pow2At32()
    ensures Pow2(31) == 0x8000_0000 && Pow2(32) == 0x1_0000_0000
  {
    assert Pow2(8) == 0x100;
    assert Pow2(16) == 0x1_0000 by { assert Pow2(12) == 0x1000; }
    assert Pow2(24) == 0x100_0000 by { assert Pow2(20) == 0x10_0000; }
    assert Pow2(31) == 0x8000_0000 by { assert Pow2(28) == 0x1000_0000; }
  }

  lemma {:induction false} Pow2Grows(i: nat, j: nat)
    requires i <= j
    ensures Pow2(i) <= Pow2(j)
  {
    if i < j { Pow2Grows(i, j - 1); }
  }

  /** The mask test of the reading accepts the complement of such a run. */
  lemma {:induction false} RunComplement(k: nat, n: nat)
    requires k <= 32 && n >= 32 - k
    ensures Pow2(k) <= 0x1_0000_0000 && DropHigh(0x1_0000_0000 - Pow2(k), n) == 0
    decreases 32 - k
  {
    Pow2At32();
    Pow2Grows(k, 32);
    if k < 32 {
      Pow2Grows(k, 31);
      RunComplement(k + 1, n - 1);
    }
  }

  // --- Words --------------------------------------------------------------------------

  /** utilStrCutWord: the first word and what follows it. */
  function CutWord(s: string): (string, string) {
    var t := SkipSpaces(s);
    (t[..WordLength(t)], t[WordLength(t)..])
  }

  /** The position of c in s, or the length of s. */
  function Find(s: string, c: char): (n: nat)
    ensures n <= |s| && (n < |s| ==> s[n] == c)
  {
    if s == "" || s[0] == c then 0 else 1 + Find(s[1..], c)
  }

  lemma CutFirst(w: string, rest: string)
    requires w != "" && NoSpace(w) && (rest == "" || IsSpace(rest[0]))
    ensures CutWord(w + rest) == (w, rest)
  {
    assert (w + rest)[0] == w[0];
    WordEnds(w, rest);
  }

  lemma CutNext(w: string, rest: string)
    requires w != "" && NoSpace(w) && (rest == "" || IsSpace(rest[0]))
    ensures CutWord(" " + w + rest) == (w, rest)
  {
    assert (" " + w + rest)[1..] == w + rest;
    CutFirst(w, rest);
  }

  lemma {:induction false} FindIn(p: string, c: char, s: string)
    requires c !in p
    ensures Find(p + [c] + s, c) == |p|
    decreases |p|
  {
    if p != "" {
      assert (p + [c] + s)[1..] == p[1..] + [c] + s;
      FindIn(p[1..], c, s);
    }
  }

  lemma {:induction false} FindNot(s: string, c: char)
    requires c !in s
    ensures Find(s, c) == |s|
    decreases |s|
  {
    if s != "" { FindNot(s[1..], c); }
  }

  // --- Ranges -------------------------------------------------------------------------

  lemma {:induction false} OrFits(a: nat, b: nat, k: nat)
    requires a < Pow2(k) && b < Pow2(k)
    ensures Or(a, b) < Pow2(k)
    decreases k
  {
    if b != 0 { OrFits(a / 2, b / 2, k - 1); }
  }

  /** utilInAddrRangeToStr with a buffer of 32 characters. */
  function RangeText(net: Inet, first: Addr, last: Addr): Option<string> {
    var text :=
      if first == 0 && last == MAX then "any"
      else if first == last then net.ntoa(first)
      else
        var m := NotAnd(first, last);
        if DropLow(m, TURNS) == 0 then net.ntoa(first) + "/" + net.ntoa(MAX - m)
        else net.ntoa(first) + " - " + net.ntoa(last);
    if |text| < 32 then Some(text) else None
  }

  predicate AllDigits(s: string) { forall i | 0 <= i < |s| :: '0' <= s[i] <= '9' }

  /** utilStrToInAddr of a text without spaces. */
  function ParseAddr(net: Inet, s: string): Option<Addr> {
    if |s| > 15 || s == "" then None else net.aton(s)
  }

  /** utilStrToMask of a text without spaces. */
  function ParseMask(net: Inet, s: string): Option<Addr> {
    if s == "255.255.255.255" then Some(MAX)
    else if |s| > 15 || s == "" then None
    else if AllDigits(s) then net.cidr(s)
    else
      var m := net.aton(s);
      if m.Some? && DropHigh(m.value, TURNS) == 0 then m else None
  }

  /** The addresses from a & mask to a | ~mask. */
  function Masked(a: Addr, mask: Addr): (Addr, Addr) {
    var first := NotAnd(MAX - mask, a);
    Pow2At32(); OrFits(first, MAX - mask, 32);
    (first, Or(first, MAX - mask))
  }

  /** utilStrToInAddrRange of one word. */
  function ParseRange(net: Inet, w: string): Option<(Addr, Addr)> {
    var slash, dash := Find(w, '/'), Find(w, '-');
    if Same("any", w) || Same("all", w) then Some((0, MAX))
    else if slash < |w| then
      var a, mask := ParseAddr(net, w[..slash]), ParseMask(net, w[slash + 1..]);
      if a.None? || mask.None? then None else Some(Masked(a.value, mask.value))
    else if dash < |w| then
      var a, b := ParseAddr(net, w[..dash]), ParseAddr(net, w[dash + 1..]);
      if a.None? || b.None? || a.value > b.value then None else Some((a.value, b.value))
    else
      var a := ParseAddr(net, w);
      if a.None? then None else Some((a.value, a.value))
  }

  /** The ranges that can be read back: everything, one address, and a network; but not the
      single address that is the error value of inet_addr. */
  predicate Readable(first: Addr, last: Addr) {
    (first == 0 && last == MAX) || (first == last && first != MAX) || (first != last && Block(first, last, TURNS))
  }

  lemma DottedWord(s: string)
    requires Dotted(s)
    ensures NoSpace(s) && '/' !in s && '-' !in s && !AllDigits(s) && !Same("any", s) && !Same("all", s)
    ensures s != "" && |s| <= 15
  {
    var i :| 0 <= i < |s| && s[i] == '.';
    assert s[i] < '0';
  }

  lemma SingleRange(net: Inet, a: Addr)
    requires Inverts(net)
    ensures ParseRange(net, net.ntoa(a)) == if a == MAX then None else Some((a, a))
  {
    DottedWord(net.ntoa(a));
    FindNot(net.ntoa(a), '/');
    FindNot(net.ntoa(a), '-');
  }

  lemma NetworkMask(first: Addr, last: Addr)
    requires first < last && Block(first, last, TURNS)
    ensures var m := NotAnd(first, last);
      && DropLow(m, TURNS) == 0 && 0 < m && DropHigh(MAX - m, TURNS) == 0
      && NotAnd(m, first) == first && Or(first, m) == last
  {
    BlockIsMask(first, last, TURNS);
    BlockFromMask(first, last, TURNS);
    NothingAbove(first, last);
    var k := BlockMaskRun(first, last, TURNS);
    RunComplement(k, TURNS);
  }

  lemma SlashRange(net: Inet, p: string, q: string)
    requires Dotted(p) && Dotted(q)
    ensures NoSpace(p + "/" + q)
    ensures
      var a, mask := ParseAddr(net, p), ParseMask(net, q);
      a.Some? && mask.Some? ==> ParseRange(net, p + "/" + q) == Some(Masked(a.value, mask.value))
  {
    DottedWord(p);
    DottedWord(q);
    var w := p + "/" + q;
    FindIn(p, '/', q);
    assert p + ['/'] + q == w;
    assert w[..|p|] == p && w[|p| + 1..] == q;
    assert |w| > 3;
  }

  lemma MaskText(net: Inet, m: Addr)
    requires Inverts(net) && m != MAX && DropHigh(m, TURNS) == 0
    ensures ParseMask(net, net.ntoa(m)) == Some(m)
  {
    DottedWord(net.ntoa(m));
    assert net.aton(net.ntoa(MAX)) == None && net.aton(net.ntoa(m)) == Some(m);
  }

  lemma MaskRange(net: Inet, first: Addr, mask: Addr)
    requires Inverts(net) && first != MAX && mask != MAX && DropHigh(mask, TURNS) == 0
    ensures ParseRange(net, net.ntoa(first) + "/" + net.ntoa(mask)) == Some(Masked(first, mask))
    ensures NoSpace(net.ntoa(first) + "/" + net.ntoa(mask))
  {
    DottedWord(net.ntoa(first));
    MaskText(net, mask);
    SlashRange(net, net.ntoa(first), net.ntoa(mask));
  }

  lemma NetworkRange(net: Inet, first: Addr, last: Addr)
    requires Inverts(net) && first < last && Block(first, last, TURNS)
    ensures ParseRange(net, net.ntoa(first) + "/" + net.ntoa(MAX - NotAnd(first, last))) == Some((first, last))
    ensures NoSpace(net.ntoa(first) + "/" + net.ntoa(MAX - NotAnd(first, last)))
  {
    NetworkMask(first, last);
    MaskedIs(first, last, NotAnd(first, last));
    MaskRange(net, first, MAX - NotAnd(first, last));
  }

  lemma MaskedIs(first: Addr, last: Addr, m: Addr)
    requires NotAnd(m, first) == first && Or(first, m) == last
    ensures Masked(first, MAX - m) == (first, last)
  {
  }

  // --- What a user may write ------------------------------------------------------------

  /** first and last are the ends of the aligned block of 2^k addresses around a. */
  ghost predicate BlockAround(a: nat, k: nat, first: nat, last: nat) {
    && first <= a <= last && last == first + (Pow2(k) - 1)
    && exists q: nat :: first == q * Pow2(k)
  }

  lemma Doubled(q: nat, p: nat)
    ensures 2 * (q * p) == q * (2 * p)
  {
  }

  /** The bits of a above the k lowest. */
  lemma {:induction false} HighBits(k: nat, a: nat) returns (q: nat)
    ensures NotAnd(Pow2(k) - 1, a) == q * Pow2(k)
    ensures q * Pow2(k) <= a <= q * Pow2(k) + (Pow2(k) - 1)
    ensures Or(q * Pow2(k), Pow2(k) - 1) == q * Pow2(k) + (Pow2(k) - 1)
    decreases k
  {
    if k == 0 {
      q := a;
      AllOutside(a);
      assert q * Pow2(0) == q;
    } else {
      q := HighBits(k - 1, a / 2);
      Doubled(q, Pow2(k - 1));
      var m := Pow2(k) - 1;
      assert m / 2 == Pow2(k - 1) - 1 && m % 2 == 1;
      HighStep(m, a, q * Pow2(k - 1));
      LowStep(m, q * Pow2(k - 1));
    }
  }

  lemma HighStep(m: nat, a: nat, h: nat)
    requires m % 2 == 1 && NotAnd(m / 2, a / 2) == h
    ensures NotAnd(m, a) == 2 * h
  {
  }

  lemma LowStep(m: nat, h: nat)
    requires m % 2 == 1 && Or(h, m / 2) == h + m / 2
    ensures Or(2 * h, m) == 2 * h + m
  {
  }

  /** Masking gives the ends of the block of the mask that the address is in. */
  lemma MaskedBlock(a: Addr, mask: Addr, k: nat)
    requires k <= 32 && mask == 0x1_0000_0000 - Pow2(k)
    ensures BlockAround(a, k, Masked(a, mask).0, Masked(a, mask).1)
  {
    var q := HighBits(k, a);
  }

  /** The test of the reading accepts no other masks. */
  lemma {:induction false} MaskIs(m: nat, n: nat) returns (k: nat)
    requires m < 0x1_0000_0000 && DropHigh(m, n) == 0
    ensures k <= 32 && m == 0x1_0000_0000 - Pow2(k)
    decreases n
  {
    Pow2At32();
    if m < 0x8000_0000 {
      k := 32;
    } else {
      k := MaskIs(2 * m % 0x1_0000_0000, n - 1);
      HalfMask(m, k);
      k := k - 1;
    }
  }

  lemma HalfMask(m: nat, k: nat)
    requires 0x8000_0000 <= m < 0x1_0000_0000 && k <= 32 && 2 * m - 0x1_0000_0000 == 0x1_0000_0000 - Pow2(k)
    ensures k > 0 && m == 0x1_0000_0000 - Pow2(k - 1)
  {
  }

  /** The mask is a run of ones and then k zeros. */
  ghost predicate IsMask(mask: Addr, k: nat) { k <= 32 && mask == 0x1_0000_0000 - Pow2(k) }

  /** A mask, as text, is read if and only if it is a run of ones and then zeros. */
  lemma ReadsMask(net: Inet, mask: Addr)
    requires Inverts(net)
    ensures ParseMask(net, net.ntoa(mask)) == if exists k :: IsMask(mask, k) then Some(mask) else None
  {
    DottedWord(net.ntoa(mask));
    if mask == MAX {
      assert Pow2(0) == 1;
      assert IsMask(mask, 0);
    } else {
      assert net.aton(net.ntoa(mask)) == Some(mask) && net.aton(net.ntoa(MAX)) == None;
      if DropHigh(mask, TURNS) == 0 {
        var k := MaskIs(mask, TURNS);
        assert IsMask(mask, k);
      }
      if exists k :: IsMask(mask, k) {
        var k :| IsMask(mask, k);
        assert Pow2(0) == 1;
        RunComplement(k, TURNS);
      }
    }
  }

  /** An address with a mask or with a prefix length stands for the block around it. */
  lemma ReadsNetwork(net: Inet, a: Addr, q: string, mask: Addr, k: nat)
    requires Inverts(net) && a != MAX && IsMask(mask, k)
    requires q == net.ntoa(mask) ||
             (1 <= |q| <= 3 && (forall i | 0 <= i < |q| :: '0' <= q[i] <= '9') && net.cidr(q) == Some(mask))
    ensures var r := ParseRange(net, net.ntoa(a) + "/" + q); r.Some? && BlockAround(a, k, r.value.0, r.value.1)
  {
    DottedWord(net.ntoa(a));
    if q == net.ntoa(mask) { ReadsMask(net, mask); }
    SlashIn(net.ntoa(a), q);
    MaskedBlock(a, mask, k);
  }

  lemma SlashIn(p: string, q: string)
    requires Dotted(p)
    ensures var w := p + "/" + q; Find(w, '/') == |p| && |p| < |w| && w[..|p|] == p && w[|p| + 1..] == q
    ensures var w := p + "/" + q; !Same("any", w) && !Same("all", w)
  {
    DottedWord(p);
    FindIn(p, '/', q);
    assert p + ['/'] + q == p + "/" + q;
  }

  /** Neither part of a network may be missing or longer than an address. */
  lemma PartsMustFit(net: Inet, p: string, q: string)
    requires '/' !in p && (p == "" || |p| > 15 || q == "" || |q| > 15)
    ensures ParseRange(net, p + "/" + q) == None
  {
    var w := p + "/" + q;
    FindIn(p, '/', q);
    assert p + ['/'] + q == w;
    assert w[|p|] == '/' && w[..|p|] == p && w[|p| + 1..] == q;
    NoSlash(w, |p|);
  }

  lemma NoSlash(w: string, i: nat)
    requires i < |w| && w[i] == '/'
    ensures !Same("any", w) && !Same("all", w)
  {
    assert |w| == 3 ==> Lower("any"[i]) != '/' && Lower("all"[i]) != '/';
  }

  /** Two addresses with a hyphen between them and no spaces stand for all between them, if they
      are in order and neither is the error value of inet_addr. */
  lemma ReadsHyphen(net: Inet, a: Addr, b: Addr)
    requires Inverts(net)
    ensures ParseRange(net, net.ntoa(a) + "-" + net.ntoa(b)) ==
            if a == MAX || b == MAX || a > b then None else Some((a, b))
  {
    var p, q := net.ntoa(a), net.ntoa(b);
    DottedWord(p);
    DottedWord(q);
    var w := p + "-" + q;
    assert p + ['-'] + q == w;
    FindIn(p, '-', q);
    FindNot(w, '/');
    assert w[..|p|] == p && w[|p| + 1..] == q;
  }

  // --- Rules --------------------------------------------------------------------------

  /** sizeof(acComment) - 1. */
  const COMMENT: nat := 63

  /** What a rule of the list is like: ranges come from the reading of a text, and comments fit
      their buffer. */
  predicate Proper(it: Item) { it.first <= it.last && |it.comment| <= COMMENT }

  function Word(b: bool, yes: string, no: string): string { if b then yes else no }

  /** aclItemToStr with a buffer of 128 characters. */
  function ItemText(net: Inet, it: Item): Option<string> {
    var range := RangeText(net, it.first, it.last);
    if range.None? then None
    else
      var line := Word(it.enable, "enable", "disable") + " " + range.value + " " +
                  Word(it.allow, "allow", "deny") + " " + it.comment;
      if |line| < 128 then Some(RTrim(line)) else None
  }

  /** aclStrToItem. */
  function ParseItem(net: Inet, s: string): Option<Item> {
    var (w1, s1) := CutWord(s);
    var (w2, s2) := CutWord(s1);
    var (w3, s3) := CutWord(s2);
    if !Same("enable", w1) && !Same("disable", w1) then None
    else if w2 == "" || ParseRange(net, w2).None? then None
    else if !Same("allow", w3) && !Same("deny", w3) then None
    else
      var range := ParseRange(net, w2).value;
      Some(Item(Same("enable", w1), range.0, range.1, Same("allow", w3),
                if |s3| > COMMENT then s3[..COMMENT] else s3))
  }

  /** What is left of a comment: it gains a space in front and loses the white space at its end. */
  function Reread(comment: string): string {
    var c := RTrim(" " + comment);
    if |c| > COMMENT then c[..COMMENT] else c
  }

  /** Reading a line made of three words and a tail. */
  lemma ParseLine(net: Inet, enable: bool, range: string, w3: string, tail: string)
    requires range != "" && NoSpace(range) && w3 != "" && NoSpace(w3) && (tail == "" || IsSpace(tail[0]))
    ensures
      var line := Word(enable, "enable", "disable") + " " + range + " " + w3 + tail;
      && CutWord(line) == (Word(enable, "enable", "disable"), " " + range + " " + w3 + tail)
      && CutWord(" " + range + " " + w3 + tail) == (range, " " + w3 + tail)
      && CutWord(" " + w3 + tail) == (w3, tail)
  {
    var w1 := Word(enable, "enable", "disable");
    var rest := " " + range + " " + w3 + tail;
    assert w1 + " " + range + " " + w3 + tail == w1 + rest;
    assert rest == " " + range + (" " + w3 + tail);
    CutFirst(w1, rest);
    CutNext(range, " " + w3 + tail);
    CutNext(w3, tail);
  }

  /** What ParseItem makes of such a line. */
  lemma ParseThree(net: Inet, enable: bool, range: string, w3: string, tail: string)
    requires range != "" && NoSpace(range) && w3 != "" && NoSpace(w3) && (tail == "" || IsSpace(tail[0]))
    ensures ParseItem(net, Word(enable, "enable", "disable") + " " + range + " " + w3 + tail) ==
            if ParseRange(net, range).None? || (!Same("allow", w3) && !Same("deny", w3)) then None
            else Some(Item(enable, ParseRange(net, range).value.0, ParseRange(net, range).value.1,
                           Same("allow", w3), if |tail| > COMMENT then tail[..COMMENT] else tail))
  {
    ParseLine(net, enable, range, w3, tail);
    Words();
  }

  lemma Words()
    ensures Same("enable", "enable") && !Same("enable", "disable") && Same("disable", "disable")
    ensures Same("allow", "allow") && !Same("allow", "deny") && Same("deny", "deny")
    ensures !Same("allow", "-") && !Same("deny", "-")
    ensures Same("any", "any") && NoSpace("any")
  {
  }

  /** The text of a range that can be read back is one word. */
  lemma ReadableText(net: Inet, it: Item)
    requires Inverts(net) && Proper(it) && Readable(it.first, it.last)
    ensures
      var r := RangeText(net, it.first, it.last);
      r.Some? && r.value != "" && NoSpace(r.value) && ParseRange(net, r.value) == Some((it.first, it.last))
  {
    Words();
    if it.first == 0 && it.last == MAX {
    } else if it.first == it.last {
      DottedWord(net.ntoa(it.first));
      SingleRange(net, it.first);
    } else {
      NetworkMask(it.first, it.last);
      NetworkRange(net, it.first, it.last);
      DottedWord(net.ntoa(it.first));
      DottedWord(net.ntoa(MAX - NotAnd(it.first, it.last)));
    }
  }

  /** The line without the white space at its end. */
  lemma LineText(net: Inet, it: Item)
    requires Inverts(net) && Proper(it) && RangeText(net, it.first, it.last).Some?
    ensures
      var range := RangeText(net, it.first, it.last).value;
      ItemText(net, it) ==
      Some(Word(it.enable, "enable", "disable") + " " + range + " " + Word(it.allow, "allow", "deny") +
           RTrim(" " + it.comment))
    ensures RTrim(" " + it.comment) == "" || IsSpace(RTrim(" " + it.comment)[0])
  {
    var range := RangeText(net, it.first, it.last).value;
    var p := Word(it.enable, "enable", "disable") + " " + range + " " + Word(it.allow, "allow", "deny");
    assert p + " " + it.comment == p + (" " + it.comment);
    TrimEnd(p, " " + it.comment);
    TrimIsPrefix(" " + it.comment);
  }

  /** What storing and loading makes of one rule. */
  function Reloaded(net: Inet, it: Item): Option<Item> {
    var t := ItemText(net, it);
    if t.None? then None else ParseItem(net, t.value)
  }

  /** A line with a range of one word that stands for the rule's own. */
  lemma ReadableLine(net: Inet, it: Item, range: string)
    requires range != "" && NoSpace(range) && ParseRange(net, range) == Some((it.first, it.last))
    requires RTrim(" " + it.comment) == "" || IsSpace(RTrim(" " + it.comment)[0])
    ensures
      ParseItem(net, Word(it.enable, "enable", "disable") + " " + range + " " + Word(it.allow, "allow", "deny") +
                     RTrim(" " + it.comment)) == Some(it.(comment := Reread(it.comment)))
  {
    Words();
    ParseThree(net, it.enable, range, Word(it.allow, "allow", "deny"), RTrim(" " + it.comment));
  }

  /** A rule with a readable range is read back as it was, but for its comment. */
  lemma ReadableSurvives(net: Inet, it: Item)
    requires Inverts(net) && Proper(it) && Readable(it.first, it.last)
    ensures Reloaded(net, it) == Some(it.(comment := Reread(it.comment)))
  {
    ReadableText(net, it);
    LineText(net, it);
    ReadableLine(net, it, RangeText(net, it.first, it.last).value);
  }

  /** The all-ones address is the error value of inet_addr. */
  lemma LastAddressIsLost(net: Inet, it: Item)
    requires Inverts(net) && Proper(it) && it.first == MAX
    ensures Reloaded(net, it) == None
  {
    if ItemText(net, it).Some? {
      LineText(net, it);
      DottedWord(net.ntoa(MAX));
      SingleRange(net, MAX);
      ParseThree(net, it.enable, net.ntoa(MAX), Word(it.allow, "allow", "deny"), RTrim(" " + it.comment));
    }
  }

  lemma HyphenWords(w1: string, p: string, q: string, w3: string, tail: string)
    ensures w1 + " " + (p + " - " + q) + " " + w3 + tail == w1 + " " + p + " " + "-" + (" " + q + " " + w3 + tail)
  {
  }

  /** The hyphen stands between spaces, and so it is read as the third word. */
  lemma HyphenIsLost(net: Inet, it: Item)
    requires Inverts(net) && Proper(it) && it.first != it.last && !Block(it.first, it.last, TURNS)
    requires !(it.first == 0 && it.last == MAX)
    ensures Reloaded(net, it) == None
  {
    if ItemText(net, it).Some? {
      LineText(net, it);
      BlockIsMask(it.first, it.last, TURNS);
      Words();
      var p, q, w3, tail :=
        net.ntoa(it.first), net.ntoa(it.last), Word(it.allow, "allow", "deny"), RTrim(" " + it.comment);
      DottedWord(p);
      HyphenWords(Word(it.enable, "enable", "disable"), p, q, w3, tail);
      ParseThree(net, it.enable, p, "-", " " + q + " " + w3 + tail);
    }
  }

  /** A rule survives exactly if its range can be read back. Otherwise the range is too long for
      the buffer, or the hyphen makes three words of it, or it is the error value of inet_addr. */
  lemma ReloadedIs(net: Inet, it: Item)
    requires Inverts(net) && Proper(it)
    ensures Reloaded(net, it) ==
            if Readable(it.first, it.last) then Some(it.(comment := Reread(it.comment))) else None
  {
    if Readable(it.first, it.last) {
      ReadableSurvives(net, it);
    } else if it.first == it.last {
      LastAddressIsLost(net, it);
    } else {
      HyphenIsLost(net, it);
    }
  }

  // --- The list -----------------------------------------------------------------------

  /** The ACL part of cfgStore. */
  function Store(net: Inet, items: seq<Item>): seq<string> {
    if items == [] then []
    else
      var t := ItemText(net, items[0]);
      (if t.Some? then [t.value] else []) + Store(net, items[1..])
  }

  /** The ACL part of cfgGet. */
  function LoadRules(net: Inet, texts: seq<string>): seq<Item> {
    if texts == [] then []
    else
      var it := ParseItem(net, texts[0]);
      (if it.Some? then [it.value] else []) + LoadRules(net, texts[1..])
  }

  /** The rules that survive storing and loading. */
  function Kept(items: seq<Item>): seq<Item> {
    if items == [] then []
    else
      (if Readable(items[0].first, items[0].last) then [items[0].(comment := Reread(items[0].comment))] else []) +
      Kept(items[1..])
  }

  lemma StoreCons(net: Inet, it: Item, rest: seq<Item>)
    ensures Store(net, [it] + rest) ==
            (if ItemText(net, it).Some? then [ItemText(net, it).value] else []) + Store(net, rest)
  {
    assert ([it] + rest)[1..] == rest;
  }

  lemma LoadCons(net: Inet, t: string, rest: seq<string>)
    ensures LoadRules(net, [t] + rest) ==
            (if ParseItem(net, t).Some? then [ParseItem(net, t).value] else []) + LoadRules(net, rest)
  {
    assert ([t] + rest)[1..] == rest;
  }

  lemma LoadStored(net: Inet, it: Item, rest: seq<Item>)
    ensures LoadRules(net, Store(net, [it] + rest)) ==
            (if Reloaded(net, it).Some? then [Reloaded(net, it).value] else []) + LoadRules(net, Store(net, rest))
  {
    StoreCons(net, it, rest);
    if ItemText(net, it).Some? {
      LoadCons(net, ItemText(net, it).value, Store(net, rest));
    } else {
      assert [] + Store(net, rest) == Store(net, rest);
    }
  }

  lemma {:induction false} LoadIsKept(net: Inet, items: seq<Item>)
    requires Inverts(net) && forall i | 0 <= i < |items| :: Proper(items[i])
    ensures LoadRules(net, Store(net, items)) == Kept(items)
  {
    if items != [] {
      LoadIsKept(net, items[1..]);
      LoadStored(net, items[0], items[1..]);
      ReloadedIs(net, items[0]);
      assert items == [items[0]] + items[1..];
    }
  }

  /** The first rule of the list that survives decides like it does in the list. */
  lemma KeptFirst(items: seq<Item>, a: Addr)
    requires items != []
    ensures Decide(Kept(items), a) ==
            if Readable(items[0].first, items[0].last) && Catches(items[0], a) then Verdict(items[0])
            else Decide(Kept(items[1..]), a)
  {
    if Readable(items[0].first, items[0].last) {
      var x := items[0].(comment := Reread(items[0].comment));
      assert Kept(items) == [x] + Kept(items[1..]);
      DecideCons(x, Kept(items[1..]), a);
      assert Catches(x, a) == Catches(items[0], a) && Verdict(x) == Verdict(items[0]);
    } else {
      assert Kept(items) == Kept(items[1..]);
    }
  }

  lemma {:induction false} KeptDecides(items: seq<Item>, a: Addr, k: nat)
    requires k <= |items| && Uncaught(items, k, a)
    ensures Decide(Kept(items), a) == Decide(Kept(items[k..]), a)
  {
    if k > 0 {
      assert items[1..][k - 1..] == items[k..];
      KeptFirst(items, a);
      KeptDecides(items[1..], a, k - 1);
    }
  }

  /** Storing and loading keeps the rule for an address exactly if its first rule survives, or
      the surviving rules after it say the same. */
  lemma LoadKeepsDecision(net: Inet, items: seq<Item>, a: Addr, k: nat)
    requires Inverts(net) && forall i | 0 <= i < |items| :: Proper(items[i])
    requires k <= |items| && Uncaught(items, k, a) && (k < |items| ==> Catches(items[k], a))
    ensures
      Decide(LoadRules(net, Store(net, items)), a) == Decide(items, a) <==>
        (k < |items| && !Readable(items[k].first, items[k].last) ==>
           Decide(Kept(items[k + 1..]), a) == Verdict(items[k]))
  {
    LoadIsKept(net, items);
    KeptDecides(items, a, k);
    DecideIsFirst(items, a, k);
    if k < |items| {
      KeptFirst(items[k..], a);
      assert items[k..][1..] == items[k + 1..];
    }
  }

  /** If every enabled rule is readable, all decisions of a list that keeps a rule survive. */
  lemma {:induction false} ReadableListKeepsAll(net: Inet, items: seq<Item>, a: Addr)
    requires Inverts(net) && forall i | 0 <= i < |items| :: Proper(items[i])
    requires forall i | 0 <= i < |items| :: items[i].enable ==> Readable(items[i].first, items[i].last)
    requires items == [] || exists i :: 0 <= i < |items| && Readable(items[i].first, items[i].last)
    ensures AclSpec.Check(LoadRules(net, Store(net, items)), a) == AclSpec.Check(items, a)
  {
    var k := FirstRule(items, a);
    LoadKeepsDecision(net, items, a, k);
    LoadIsKept(net, items);
    if items != [] {
      var i :| 0 <= i < |items| && Readable(items[i].first, items[i].last);
      KeptSome(items, i);
    }
  }

  lemma {:induction false} KeptSome(items: seq<Item>, i: nat)
    requires i < |items| && Readable(items[i].first, items[i].last)
    ensures Kept(items) != []
  {
    if i > 0 { KeptSome(items[1..], i - 1); }
  }

  /** Why the condition is needed: a list whose only rule denies such a range is empty after
      loading, and an empty list lets everyone in. */
  lemma HyphenRangeIsForgotten(net: Inet)
    requires Inverts(net)
    ensures
      var items := [Item(true, 3, 9, false, "")];
      && AclSpec.Check(items, 5) == Deny && !MayConnect(AclSpec.Check(items, 5))
      && AclSpec.Check(LoadRules(net, Store(net, items)), 5) == Empty
      && MayConnect(AclSpec.Check(LoadRules(net, Store(net, items)), 5))
  {
    var it := Item(true, 3, 9, false, "");
    LoadIsKept(net, [it]);
    assert !Block(3, 9, TURNS);
    assert Kept([it]) == [];
    assert Decide([it], 5) == Deny;
  }
}
