/**
 The numbers of the key names header: how they are written, and that exactly those texts are read,
 each as the number it stands for.
*/
module NamesValues {
  import opened Options
  import opened Strings
  import opened NamesSpec

  // --- Writing ------------------------------------------------------------------------

  datatype Base = Decimal | Octal | Hexadecimal

  function Radix(b: Base): nat {
    match b
    case Decimal => 10
    case Octal => 8
    case Hexadecimal => 16
  }

  /** A number may have a sign and, but for decimal ones, zeros in front. */
  datatype Form = Form(plus: bool, base: Base, zeros: nat)

  const FIGURES: string := "0123456789abcdef"

  function Figures(n: nat, radix: nat): string
    requires 2 <= radix <= 16
  {
    if n < radix then [FIGURES[n]] else Figures(n / radix, radix) + [FIGURES[n % radix]]
  }

  function Zeros(k: nat): string { if k == 0 then "" else "0" + Zeros(k - 1) }

  function Prefix(b: Base): string {
    match b
    case Decimal => ""
    case Octal => "0"
    case Hexadecimal => "0x"
  }

  /** The number n without its sign. */
  function Unsigned(n: nat, b: Base, zeros: nat): string {
    Prefix(b) + (Zeros(zeros) + Figures(n, Radix(b)))
  }

  function Sign(plus: bool): string { if plus then "+" else "" }

  function Spelling(n: nat, f: Form): string { Sign(f.plus) + Unsigned(n, f.base, f.zeros) }

  /** The text v is the number n in this form, in any case of letters, and short enough. */
  predicate Spells(v: string, n: nat, f: Form) {
    |v| < 24 && Same(v, Spelling(n, f)) && (f.base == Decimal ==> f.zeros == 0)
  }

  // --- Reading ------------------------------------------------------------------------

  lemma FigureDigit(d: nat, c: char)
    requires d < 16 && Lower(c) == Lower(FIGURES[d])
    ensures Digit(c) == d
  {
  }

  lemma DigitFigure(c: char)
    requires Digit(c) < 16
    ensures Lower(c) == Lower(FIGURES[Digit(c)])
  {
  }

  lemma SameFront(s: string, t: string)
    requires Same(s, t) && s != ""
    ensures Same(s[..|s| - 1], t[..|t| - 1]) && Lower(s[|s| - 1]) == Lower(t[|t| - 1])
  {
  }

  lemma Divided(n: nat, radix: nat, q: nat, r: nat)
    requires radix >= 2 && q == n / radix && r == n % radix
    ensures q * radix + r == n && (n >= radix ==> q < n)
  {
  }

  lemma LastDigit(s: string, front: string, d: nat, radix: nat)
    requires d < radix <= 16 && Same(s, front + [FIGURES[d]])
    ensures Same(s[..|s| - 1], front) && Digit(s[|s| - 1]) == d
    ensures Number(s, radix) == Number(s[..|s| - 1], radix) * radix + d
    ensures s[..|s| - 1] == "" || Digits(s[..|s| - 1], radix) ==> Digits(s, radix)
  {
    SameFront(s, front + [FIGURES[d]]);
    assert (front + [FIGURES[d]])[..|s| - 1] == front;
    FigureDigit(d, s[|s| - 1]);
    assert forall i | 0 <= i < |s| - 1 :: s[i] == s[..|s| - 1][i];
  }

  /** The figures of a number are digits, and read as the number. */
  lemma {:induction false} FiguresRead(s: string, n: nat, radix: nat)
    requires 2 <= radix <= 16 && Same(s, Figures(n, radix))
    ensures Digits(s, radix) && Number(s, radix) == n
    decreases n
  {
    if n < radix {
      assert "" + [FIGURES[n]] == [FIGURES[n]];
      LastDigit(s, "", n, radix);
    } else {
      var q, r := n / radix, n % radix;
      Divided(n, radix, q, r);
      LastDigit(s, Figures(q, radix), r, radix);
      FiguresRead(s[..|s| - 1], q, radix);
    }
  }

  lemma {:induction false} ZerosRead(k: nat, rest: string, radix: nat)
    requires 2 <= radix <= 16 && Digits(rest, radix)
    ensures Digits(Zeros(k) + rest, radix) && Number(Zeros(k) + rest, radix) == Number(rest, radix)
    decreases k
  {
    if k == 0 {
      assert Zeros(0) + rest == rest;
    } else {
      ZerosRead(k - 1, rest, radix);
      ZeroInFront(Zeros(k - 1) + rest, radix);
      Regrouped(k - 1, rest);
    }
  }

  lemma {:induction false} ZeroInFront(s: string, radix: nat)
    requires radix >= 2 && Digits(s, radix)
    ensures Digits("0" + s, radix) && Number("0" + s, radix) == Number(s, radix)
    decreases |s|
  {
    var t := "0" + s;
    assert t[..|t| - 1] == "0" + s[..|s| - 1];
    if |s| == 1 {
      assert t[..|t| - 1] == "0" && "0"[..0] == "" && s[..0] == "";
    } else {
      ZeroInFront(s[..|s| - 1], radix);
    }
  }

  lemma {:induction false} ZerosAre(k: nat)
    ensures |Zeros(k)| == k && forall i | 0 <= i < k :: Zeros(k)[i] == '0'
  {
    if k > 0 { ZerosAre(k - 1); }
  }

  lemma BehindZeros(t: string, z: string, s: string)
    requires Same(t, z + s) && forall i | 0 <= i < |z| :: z[i] == '0'
    ensures |z| <= |t| && t == z + t[|z|..] && Same(t[|z|..], s)
  {
    var u := z + s;
    assert forall i | 0 <= i < |z| :: u[i] == z[i];
    assert forall i | 0 <= i < |z| :: t[i] == z[i];
    assert forall i | 0 <= i < |s| :: u[|z| + i] == s[i] && t[|z|..][i] == t[|z| + i];
    assert t == t[..|z|] + t[|z|..];
  }

  /** The body of an unsigned number is read as the number. */
  lemma BodyRead(t: string, n: nat, zeros: nat, radix: nat)
    requires 2 <= radix <= 16 && Same(t, Zeros(zeros) + Figures(n, radix))
    ensures Digits(t, radix) && Number(t, radix) == n
  {
    ZerosAre(zeros);
    BehindZeros(t, Zeros(zeros), Figures(n, radix));
    FiguresRead(t[zeros..], n, radix);
    ZerosRead(zeros, t[zeros..], radix);
  }

  function Cut(n: nat): nat { if n > ULONG_MAX then ULONG_MAX else n }

  /** Figures begin with a zero for zero only. */
  lemma {:induction false} FirstFigure(n: nat, radix: nat)
    requires 2 <= radix <= 16
    ensures Figures(n, radix) != "" && Digit(Figures(n, radix)[0]) < radix
    ensures Figures(n, radix)[0] == '0' <==> n == 0
    ensures n == 0 ==> Figures(n, radix) == "0"
    decreases n
  {
    if n >= radix {
      Divided(n, radix, n / radix, n % radix);
      FirstFigure(n / radix, radix);
      assert n / radix != 0;
    }
  }

  /** Figures, and so a whole number behind its sign, begin with a digit. */
  lemma FirstIsDigit(t: string, n: nat, b: Base, zeros: nat)
    requires Same(t, Unsigned(n, b, zeros))
    ensures t != "" && '0' <= t[0] <= '9'
  {
    FirstFigure(n, Radix(b));
    assert Lower(t[0]) == Lower(Unsigned(n, b, zeros)[0]);
  }

  lemma HexRead(t: string, n: nat, zeros: nat)
    requires Same(t, Unsigned(n, Hexadecimal, zeros))
    ensures |t| > 2 && t[0] == '0' && Lower(t[1]) == 'x' && Digits(t[2..], 16) && Number(t[2..], 16) == n
  {
    var u := Unsigned(n, Hexadecimal, zeros);
    FirstFigure(n, 16);
    assert u[2..] == Zeros(zeros) + Figures(n, 16) && u[0] == '0' && u[1] == 'x';
    assert Same(t[2..], u[2..]);
    BodyRead(t[2..], n, zeros, 16);
  }

  lemma OctalRead(t: string, n: nat, zeros: nat)
    requires Same(t, Unsigned(n, Octal, zeros))
    ensures t != "" && t[0] == '0' && Digits(t, 8) && Number(t, 8) == n && !(|t| > 2 && Lower(t[1]) == 'x')
  {
    Regrouped(zeros, Figures(n, 8));
    BodyRead(t, n, zeros + 1, 8);
    OctalStart(t, zeros, Figures(n, 8));
  }

  lemma OctalStart(t: string, zeros: nat, s: string)
    requires Digits(t, 8) && Same(t, "0" + (Zeros(zeros) + s))
    ensures t[0] == '0' && !(|t| > 2 && Lower(t[1]) == 'x')
  {
    assert Lower(t[0]) == '0';
    assert |t| > 1 ==> Digit(t[1]) < 8;
  }

  lemma Regrouped(k: nat, s: string)
    ensures "0" + (Zeros(k) + s) == Zeros(k + 1) + s
  {
    assert Zeros(k + 1) == "0" + Zeros(k);
    Joined("0", Zeros(k), s);
  }

  lemma DecimalRead(t: string, n: nat)
    requires Same(t, Unsigned(n, Decimal, 0))
    ensures t != "" && Digits(t, 10) && Number(t, 10) == n && (t[0] == '0' ==> n == 0 && t == "0")
  {
    assert "" + ("" + Figures(n, 10)) == Figures(n, 10);
    FiguresRead(t, n, 10);
    FirstFigure(n, 10);
    assert Lower(t[0]) == Lower(Figures(n, 10)[0]);
  }

  lemma UnsignedRead(t: string, n: nat, b: Base, zeros: nat)
    requires Same(t, Unsigned(n, b, zeros)) && (b == Decimal ==> zeros == 0)
    ensures t != "" && t[0] != '+' && t[0] != '-' && Strtoul(t) == Some(Cut(n))
  {
    FirstIsDigit(t, n, b, zeros);
    match b
    case Hexadecimal => HexRead(t, n, zeros);
    case Octal => OctalRead(t, n, zeros);
    case Decimal =>
      DecimalRead(t, n);
      if n == 0 { assert Digits("0", 8) && Number("0", 8) == 0 by { ZeroIsOctal(); } }
  }

  lemma ZeroIsOctal()
    ensures Digits("0", 8) && Number("0", 8) == 0
  {
    assert "0"[..0] == "";
  }

  lemma SignedRead(v: string, t: string)
    requires v == "+" + t && t != "" && t[0] != '+' && t[0] != '-'
    ensures Strtoul(v) == Strtoul(t)
  {
    assert v[1..] == t;
  }

  /** Every spelling of a number, decimal, octal or hexadecimal, with or without a sign, zeros in
      front and capital letters, is read as that number, cut to 32 bits if it is larger. */
  lemma ReadsNumbers(v: string, n: nat, f: Form)
    requires Spells(v, n, f)
    ensures ParseValue(v) == Some(Cut(n))
  {
    var u := Unsigned(n, f.base, f.zeros);
    if f.plus {
      assert Spelling(n, f)[0] == '+' && Spelling(n, f)[1..] == u;
      assert Same(v[1..], u) && Lower(v[0]) == '+' && v == "+" + v[1..];
      UnsignedRead(v[1..], n, f.base, f.zeros);
      SignedRead(v, v[1..]);
    } else {
      assert Spelling(n, f) == u;
      UnsignedRead(v, n, f.base, f.zeros);
    }
  }

  // --- Nothing else is read -------------------------------------------------------------

  lemma Composed(q: nat, r: nat, radix: nat)
    requires r < radix && (radix == 8 || radix == 10 || radix == 16)
    ensures (q * radix + r) / radix == q && (q * radix + r) % radix == r
  {
  }

  lemma Grown(q: nat, r: nat, radix: nat)
    requires q > 0 && r < radix && (radix == 8 || radix == 10 || radix == 16)
    ensures Figures(q * radix + r, radix) == Figures(q, radix) + [FIGURES[r]]
  {
    Composed(q, r, radix);
    assert q * radix + r >= radix;
  }

  lemma {:induction false} ZerosEnd(k: nat)
    ensures Zeros(k) + "0" == Zeros(k + 1)
  {
    if k > 0 {
      ZerosEnd(k - 1);
      assert Zeros(k) + "0" == "0" + (Zeros(k - 1) + "0");
    }
  }

  lemma SameMore(s: string, t: string, c: char, d: char)
    requires Same(s, t) && Lower(c) == Lower(d)
    ensures Same(s + [c], t + [d])
  {
  }

  lemma OneDigit(t: string, radix: nat)
    requires 2 <= radix <= 16 && |t| == 1 && Digits(t, radix)
    ensures Same(t, Zeros(0) + Figures(Number(t, radix), radix))
  {
    assert t[..0] == "" && Number(t, radix) == Digit(t[0]);
    DigitFigure(t[0]);
    assert Figures(Number(t, radix), radix) == [FIGURES[Digit(t[0])]];
  }

  lemma OneMore(front: string, c: char, z: nat, q: nat, r: nat, radix: nat) returns (zeros: nat)
    requires (radix == 8 || radix == 10 || radix == 16) && r < radix && Lower(c) == Lower(FIGURES[r])
    requires Same(front, Zeros(z) + Figures(q, radix))
    ensures Same(front + [c], Zeros(zeros) + Figures(q * radix + r, radix))
  {
    SameMore(front, Zeros(z) + Figures(q, radix), c, FIGURES[r]);
    if q == 0 {
      ZerosEnd(z);
      FirstFigure(0, radix);
      zeros := z + 1;
    } else {
      Grown(q, r, radix);
      Joined(Zeros(z), Figures(q, radix), [FIGURES[r]]);
      zeros := z;
    }
  }

  lemma Joined(a: string, b: string, c: string)
    ensures (a + b) + c == a + (b + c)
  {
  }

  /** t is the figures of n behind some zeros. */
  predicate Figured(t: string, zeros: nat, n: nat, radix: nat)
    requires 2 <= radix <= 16
  {
    Same(t, Zeros(zeros) + Figures(n, radix))
  }

  lemma FrontDigits(t: string, radix: nat)
    requires Digits(t, radix) && |t| > 1
    ensures Digits(t[..|t| - 1], radix) && Digit(t[|t| - 1]) < radix && t == t[..|t| - 1] + [t[|t| - 1]]
  {
    assert forall i | 0 <= i < |t| - 1 :: t[..|t| - 1][i] == t[i];
  }

  lemma LastSpelled(t: string, z: nat, radix: nat) returns (zeros: nat)
    requires (radix == 8 || radix == 10 || radix == 16) && Digits(t, radix) && |t| > 1
    requires Figured(t[..|t| - 1], z, Number(t[..|t| - 1], radix), radix)
    ensures Figured(t, zeros, Number(t, radix), radix)
  {
    FrontDigits(t, radix);
    DigitFigure(t[|t| - 1]);
    zeros := OneMore(t[..|t| - 1], t[|t| - 1], z, Number(t[..|t| - 1], radix), Digit(t[|t| - 1]), radix);
  }

  /** Digits are the figures of the number that they are read as, behind some zeros. */
  lemma {:induction false} DigitsSpell(t: string, radix: nat) returns (zeros: nat)
    requires (radix == 8 || radix == 10 || radix == 16) && Digits(t, radix)
    ensures Figured(t, zeros, Number(t, radix), radix)
    decreases |t|
  {
    if |t| == 1 {
      OneDigit(t, radix);
      zeros := 0;
    } else {
      FrontDigits(t, radix);
      var z := DigitsSpell(t[..|t| - 1], radix);
      zeros := LastSpelled(t, z, radix);
    }
  }

  lemma HexSpelled(t: string) returns (zeros: nat)
    requires |t| > 2 && t[0] == '0' && Lower(t[1]) == 'x' && Digits(t[2..], 16)
    ensures Same(t, Unsigned(Number(t[2..], 16), Hexadecimal, zeros))
  {
    zeros := DigitsSpell(t[2..], 16);
    assert t == t[..2] + t[2..] && Same(t[..2], "0x");
  }

  lemma OctalSpelled(t: string) returns (b: Base, zeros: nat)
    requires t != "" && t[0] == '0' && Digits(t, 8)
    ensures Same(t, Unsigned(Number(t, 8), b, zeros)) && (b == Decimal ==> zeros == 0)
  {
    var n := Number(t, 8);
    var z := DigitsSpell(t, 8);
    FirstFigure(n, 8);
    if z == 0 {
      assert Zeros(0) + Figures(n, 8) == Figures(n, 8);
      FirstSame(t, Figures(n, 8));
      b, zeros := Decimal, 0;
      ZeroSpelled(t, n);
    } else {
      b, zeros := Octal, z - 1;
      Regrouped(z - 1, Figures(n, 8));
    }
  }

  lemma FirstSame(s: string, t: string)
    requires Same(s, t) && s != "" && s[0] == '0' && '0' <= Lower(t[0]) <= 'f'
    ensures t[0] == '0'
  {
  }

  lemma DecimalSpelled(t: string)
    requires t != "" && t[0] != '0' && Digits(t, 10)
    ensures Same(t, Unsigned(Number(t, 10), Decimal, 0))
  {
    var n := Number(t, 10);
    var z := DigitsSpell(t, 10);
    assert t[0] != '0' && Lower(t[0]) == Lower((Zeros(z) + Figures(n, 10))[0]);
    assert Zeros(0) == "" && "" + ("" + Figures(n, 10)) == "" + Figures(n, 10) == Figures(n, 10);
  }

  /** A text that is read behind its sign is an unsigned number. */
  lemma UnsignedSpelled(t: string) returns (n: nat, b: Base, zeros: nat)
    requires t != "" && t[0] != '+' && Strtoul(t).Some?
    ensures Same(t, Unsigned(n, b, zeros)) && (b == Decimal ==> zeros == 0)
  {
    if |t| > 2 && t[0] == '0' && Lower(t[1]) == 'x' && Digits(t[2..], 16) {
      n, b := Number(t[2..], 16), Hexadecimal;
      zeros := HexSpelled(t);
    } else if t[0] == '0' {
      n := Number(t, 8);
      b, zeros := OctalSpelled(t);
    } else {
      n, b, zeros := Number(t, 10), Decimal, 0;
      DecimalSpelled(t);
    }
  }

  lemma ZeroSpelled(t: string, n: nat)
    requires Same(t, Figures(n, 8)) && n == 0
    ensures Same(t, Unsigned(n, Decimal, 0))
  {
    assert Figures(0, 8) == "0" == Figures(0, 10);
    assert "" + ("" + "0") == "0";
  }

  /** A value is read if and only if it is the spelling of some number. */
  lemma ReadsNothingElse(v: string)
    ensures ParseValue(v).Some? <==> exists n, f :: Spells(v, n, f)
  {
    if ParseValue(v).Some? {
      var plus := v[0] == '+';
      var t := if plus then v[1..] else v;
      if plus { SignedStart(v); }
      var n, b, zeros := UnsignedSpelled(t);
      var f := Form(plus, b, zeros);
      assert Spelling(n, f) == Sign(plus) + Unsigned(n, b, zeros);
      assert v == Sign(plus) + t;
      assert Spells(v, n, f);
    }
    if exists n, f :: Spells(v, n, f) {
      var n, f :| Spells(v, n, f);
      ReadsNumbers(v, n, f);
    }
  }

  /** There is one sign at most. */
  lemma SignedStart(v: string)
    requires v != "" && v[0] == '+' && Strtoul(v).Some?
    ensures v[1..] != "" && v[1..][0] != '+' && Strtoul(v[1..]) == Strtoul(v)
  {
  }
}
