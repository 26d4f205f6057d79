/** `sprintf` with the directives the statistics block uses, and the scanner that inverts it. */
module Format {

  datatype Option<+T> = None | Some(value: T)

  /** Literal text, `%d` or `%ld` of a non-negative number, `%06ld` of a number below a million. */
  datatype Piece = Literal(text: string) | Number | Micros

  const MILLION: nat := 1000000

  // ---------------------------------------------------------------- decimal digits

  predicate IsDigit(c: char)
  {
    '0' <= c <= '9'
  }

  function Digit(d: nat): (c: char)
    requires d < 10
    ensures IsDigit(c)
  {
    '0' + (d as char)
  }

  function DigitValue(c: char): (d: nat)
    requires IsDigit(c)
    ensures d < 10
  {
    (c as int) - ('0' as int)
  }

  predicate AllDigits(s: string)
  {
    forall i | 0 <= i < |s| :: IsDigit(s[i])
  }

  /** Decimal digits without leading zeros. */
  function Decimal(n: nat): (s: string)
    ensures |s| > 0 && AllDigits(s)
  {
    if n < 10 then [Digit(n)] else Decimal(n / 10) + [Digit(n % 10)]
  }

  /** The last `width` decimal digits, padded with zeros. */
  function Padded(n: nat, width: nat): (s: string)
    ensures |s| == width && AllDigits(s)
  {
    if width == 0 then "" else Padded(n / 10, width - 1) + [Digit(n % 10)]
  }

  function Value(s: string): nat
    requires AllDigits(s)
  {
    if s == "" then 0 else 10 * Value(s[..|s| - 1]) + DigitValue(s[|s| - 1])
  }

  /** No leading zero, except in "0" itself. */
  predicate Canonical(s: string)
  {
    |s| > 0 && AllDigits(s) && (s[0] == '0' ==> |s| == 1)
  }

  lemma {:induction false} DecimalValue(n: nat)
    ensures Value(Decimal(n)) == n && Canonical(Decimal(n)) && (n > 0 ==> Decimal(n)[0] != '0')
  {
    if n >= 10 {
      DecimalValue(n / 10);
      assert Decimal(n)[..|Decimal(n)| - 1] == Decimal(n / 10);
    } else {
      assert Decimal(n)[..0] == "";
    }
  }

  lemma {:induction false} ValuePositive(s: string)
    requires AllDigits(s) && |s| > 0 && s[0] != '0'
    ensures Value(s) > 0
  {
    if |s| > 1 {
      ValuePositive(s[..|s| - 1]);
    }
  }

  lemma {:induction false} ValueDecimal(s: string)
    requires Canonical(s)
    ensures Decimal(Value(s)) == s
  {
    var init, last := s[..|s| - 1], s[|s| - 1];
    assert s == init + [last];
    assert Digit(DigitValue(last)) == last;
    if |s| > 1 {
      ValueDecimal(init);
      ValuePositive(init);
    }
  }

  lemma {:induction false} PaddedValue(n: nat, width: nat, bound: nat)
    requires n < bound && bound == Pow10(width)
    ensures Value(Padded(n, width)) == n
  {
    if width > 0 {
      PaddedValue(n / 10, width - 1, Pow10(width - 1));
      assert Padded(n, width)[..width - 1] == Padded(n / 10, width - 1);
    }
  }

  function Pow10(n: nat): nat
  {
    if n == 0 then 1 else 10 * Pow10(n - 1)
  }

  /** A number below 10 to the `width` has at most `width` digits. */
  lemma {:induction false} DecimalIsShort(n: nat, width: nat)
    requires width > 0 && n < Pow10(width)
    ensures |Decimal(n)| <= width
  {
    if n >= 10 {
      assert width > 1;
      DecimalIsShort(n / 10, width - 1);
    }
  }

  lemma {:induction false} ValuePadded(s: string)
    requires AllDigits(s)
    ensures Padded(Value(s), |s|) == s && Value(s) < Pow10(|s|)
  {
    if s != "" {
      var init, last := s[..|s| - 1], s[|s| - 1];
      ValuePadded(init);
      assert s == init + [last];
      assert Digit(DigitValue(last)) == last;
      LastDigit(Value(init), DigitValue(last));
    }
  }

  lemma LastDigit(n: nat, d: nat)
    requires d < 10
    ensures (10 * n + d) / 10 == n && (10 * n + d) % 10 == d
  {
  }

  lemma SixDigits()
    ensures Pow10(6) == MILLION
  {
    assert Pow10(3) == 1000;
  }

  // ---------------------------------------------------------------- printing

  /** Do the values fit the directives? */
  predicate Fits(f: seq<Piece>, vs: seq<nat>)
  {
    if f == [] then vs == []
    else if f[0].Literal? then Fits(f[1..], vs)
    else vs != [] && (f[0].Micros? ==> vs[0] < MILLION) && Fits(f[1..], vs[1..])
  }

  function Print(f: seq<Piece>, vs: seq<nat>): string
    requires Fits(f, vs)
  {
    if f == [] then ""
    else match f[0]
      case Literal(text) => text + Print(f[1..], vs)
      case Number => Decimal(vs[0]) + Print(f[1..], vs[1..])
      case Micros => Padded(vs[0], 6) + Print(f[1..], vs[1..])
  }

  // ---------------------------------------------------------------- scanning

  function DigitCount(s: string): (n: nat)
    ensures n <= |s| && AllDigits(s[..n]) && (n < |s| ==> !IsDigit(s[n]))
  {
    if s == "" || !IsDigit(s[0]) then 0
    else
      assert forall i | 0 < i < DigitCount(s[1..]) + 1 :: s[i] == s[1..][..DigitCount(s[1..])][i - 1];
      1 + DigitCount(s[1..])
  }

  function Scan(f: seq<Piece>, s: string): Option<(seq<nat>, string)>
  {
    if f == [] then Some(([], s))
    else match f[0]
      case Literal(text) => if text <= s then Scan(f[1..], s[|text|..]) else None
      case Number =>
        var n := DigitCount(s);
        if Canonical(s[..n]) then Prepend(Value(s[..n]), Scan(f[1..], s[n..])) else None
      case Micros =>
        if |s| >= 6 && AllDigits(s[..6]) then Prepend(Value(s[..6]), Scan(f[1..], s[6..])) else None
  }

  function Prepend(v: nat, r: Option<(seq<nat>, string)>): Option<(seq<nat>, string)>
  {
    match r
    case None => None
    case Some((vs, rest)) => Some(([v] + vs, rest))
  }

  /** Every `%d` is followed by text that starts with a non-digit, so its end can be seen. */
  predicate Separated(f: seq<Piece>)
  {
    && (forall i | 0 <= i < |f| && f[i].Number? :: i + 1 < |f| && f[i + 1].Literal?)
    && (forall i | 0 <= i < |f| && f[i].Literal? :: |f[i].text| > 0 && !IsDigit(f[i].text[0]))
  }

  lemma {:induction false} DigitsEnd(digits: string, rest: string)
    requires AllDigits(digits) && (rest == "" || !IsDigit(rest[0]))
    ensures DigitCount(digits + rest) == |digits|
  {
    if digits == "" {
      assert digits + rest == rest;
    } else {
      DigitsEnd(digits[1..], rest);
      assert (digits + rest)[1..] == digits[1..] + rest;
    }
  }

  /** Scanning what was printed gives back the values and leaves the rest alone. */
  lemma {:induction false} ScanUndoesPrint(f: seq<Piece>, vs: seq<nat>, rest: string)
    requires Fits(f, vs) && Separated(f)
    ensures Scan(f, Print(f, vs) + rest) == Some((vs, rest))
  {
    if f == [] {
      assert "" + rest == rest;
    } else {
      SeparatedTail(f);
      if f[0].Literal? {
        ScanUndoesPrint(f[1..], vs, rest);
        SplitFront(f[0].text, Print(f[1..], vs), rest);
      } else {
        var tail := Print(f[1..], vs[1..]);
        ScanUndoesPrint(f[1..], vs[1..], rest);
        if f[0].Number? {
          TailStartsNonDigit(f[1..], vs[1..]);
          ScanNumber(f, vs[0], tail + rest);
          SplitFront(Decimal(vs[0]), tail, rest);
        } else {
          ScanMicros(f, vs[0], tail + rest);
          SplitFront(Padded(vs[0], 6), tail, rest);
        }
        assert [vs[0]] + vs[1..] == vs;
      }
    }
  }

  lemma ScanNumber(f: seq<Piece>, v: nat, rest: string)
    requires f != [] && f[0].Number? && (rest == "" || !IsDigit(rest[0]))
    ensures Scan(f, Decimal(v) + rest) == Prepend(v, Scan(f[1..], rest))
  {
    DecimalValue(v);
    DigitsEnd(Decimal(v), rest);
    SplitFront(Decimal(v), rest, "");
    assert Decimal(v) + rest + "" == Decimal(v) + rest && rest + "" == rest;
  }

  lemma ScanMicros(f: seq<Piece>, v: nat, rest: string)
    requires f != [] && f[0].Micros? && v < MILLION
    ensures Scan(f, Padded(v, 6) + rest) == Prepend(v, Scan(f[1..], rest))
  {
    SixDigits();
    PaddedValue(v, 6, MILLION);
    SplitFront(Padded(v, 6), rest, "");
    assert Padded(v, 6) + rest + "" == Padded(v, 6) + rest && rest + "" == rest;
  }

  lemma SeparatedTail(f: seq<Piece>)
    requires Separated(f) && f != []
    ensures Separated(f[1..])
    ensures f[0].Number? ==> |f| > 1 && f[1].Literal?
  {
    forall i | 0 <= i < |f| - 1 ensures f[1..][i] == f[i + 1] {}
  }

  lemma TailStartsNonDigit(f: seq<Piece>, vs: seq<nat>)
    requires Fits(f, vs) && Separated(f) && f != [] && f[0].Literal?
    ensures Print(f, vs) != "" && !IsDigit(Print(f, vs)[0])
  {
  }

  lemma SplitFront(a: string, b: string, c: string)
    ensures a <= a + b + c && (a + b + c)[..|a|] == a && (a + b + c)[|a|..] == b + c
    ensures a + b + c == a + (b + c)
  {
  }

  /** `s` is what `vs` print as, followed by `rest`. */
  ghost predicate Printed(f: seq<Piece>, s: string, vs: seq<nat>, rest: string)
  {
    Fits(f, vs) && s == Print(f, vs) + rest
  }

  /** Whatever scans was printed from the values found: scanning accepts nothing else. */
  lemma {:induction false} PrintUndoesScan(f: seq<Piece>, s: string)
    requires Scan(f, s).Some?
    ensures Printed(f, s, Scan(f, s).value.0, Scan(f, s).value.1)
  {
    if f == [] {
      assert s == "" + s;
    } else if f[0].Literal? {
      var tail := s[|f[0].text|..];
      PrintUndoesScan(f[1..], tail);
      PrintedLiteral(f, s, Scan(f[1..], tail).value.0, Scan(f[1..], tail).value.1);
    } else {
      var n := if f[0].Number? then DigitCount(s) else 6;
      PrintUndoesScan(f[1..], s[n..]);
      if f[0].Number? {
        ValueDecimal(s[..n]);
      } else {
        SixDigits();
        ValuePadded(s[..6]);
      }
      PrintedValue(f, s, n, Value(s[..n]), Scan(f[1..], s[n..]).value.0, Scan(f[1..], s[n..]).value.1);
    }
  }

  lemma PrintedLiteral(f: seq<Piece>, s: string, vs: seq<nat>, rest: string)
    requires f != [] && f[0].Literal? && f[0].text <= s && Printed(f[1..], s[|f[0].text|..], vs, rest)
    ensures Printed(f, s, vs, rest)
  {
    Rejoin(f[0].text, s, Print(f[1..], vs), rest);
  }

  lemma PrintedValue(f: seq<Piece>, s: string, n: nat, v: nat, vs: seq<nat>, rest: string)
    requires f != [] && !f[0].Literal? && n <= |s| && Printed(f[1..], s[n..], vs, rest)
    requires f[0].Number? ==> s[..n] == Decimal(v)
    requires f[0].Micros? ==> v < MILLION && s[..n] == Padded(v, 6)
    ensures Printed(f, s, [v] + vs, rest)
  {
    PrintFront(f, v, vs);
    Rejoin(s[..n], s, Print(f[1..], vs), rest);
  }

  lemma PrintFront(f: seq<Piece>, v: nat, vs: seq<nat>)
    requires f != [] && !f[0].Literal? && (f[0].Micros? ==> v < MILLION) && Fits(f[1..], vs)
    ensures Fits(f, [v] + vs)
    ensures Print(f, [v] + vs) == (if f[0].Number? then Decimal(v) else Padded(v, 6)) + Print(f[1..], vs)
  {
    assert ([v] + vs)[1..] == vs;
  }

  lemma Rejoin(front: string, s: string, tail: string, rest: string)
    requires front <= s && s[|front|..] == tail + rest
    ensures s == (front + tail) + rest
  {
    assert s == front + s[|front|..];
  }

  // ---------------------------------------------------------------- no NUL is printed

  predicate NoNul(s: string)
  {
    forall i | 0 <= i < |s| :: s[i] != '\0'
  }

  lemma {:induction false} PrintHasNoNul(f: seq<Piece>, vs: seq<nat>)
    requires Fits(f, vs) && (forall p | p in f && p.Literal? :: NoNul(p.text))
    ensures NoNul(Print(f, vs))
  {
    if f != [] {
      PrintHasNoNul(f[1..], if f[0].Literal? then vs else vs[1..]);
    }
  }
}
