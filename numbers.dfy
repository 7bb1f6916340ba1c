/**
 * Integer text as the layout tool reads and writes it: `int(token, 8)` for
 * permission fields, and the decimal and tuple forms that appear in its
 * error messages.
 */
module Numbers {
  import opened Options

  predicate IsOctalDigit(c: char)
  {
    '0' as int <= c as int <= '7' as int
  }

  predicate AllOctalDigits(s: string)
  {
    forall i | 0 <= i < |s| :: IsOctalDigit(s[i])
  }

  /**
   * Octal digits in which an underscore may stand only between two digits,
   * the digit grouping `int()` accepts.
   */
  predicate IsGrouped(s: string)
  {
    && |s| > 0
    && forall i | 0 <= i < |s| ::
         IsOctalDigit(s[i]) || (s[i] == '_' && 0 < i < |s| - 1 && s[i + 1] != '_')
  }

  /** The digits of a grouped run, underscores dropped. */
  function Ungroup(s: string): (r: string)
    requires forall i | 0 <= i < |s| :: IsOctalDigit(s[i]) || s[i] == '_'
    ensures AllOctalDigits(r) && |r| <= |s|
  {
    if s == [] then ""
    else if s[0] == '_' then Ungroup(s[1..])
    else [s[0]] + Ungroup(s[1..])
  }

  function DigitValue(c: char): (d: nat)
    requires IsOctalDigit(c)
    ensures d < 8
  {
    c as int - '0' as int
  }

  /** The number an all-digit octal string denotes. */
  function OctalValue(ds: string): nat
    requires AllOctalDigits(ds)
  {
    if ds == [] then 0
    else 8 * OctalValue(ds[..|ds| - 1]) + DigitValue(ds[|ds| - 1])
  }

  /** The sign `int()` accepts in front of the digits, dropped. */
  function Unsigned(s: string): string
  {
    if |s| > 0 && (s[0] == '+' || s[0] == '-') then s[1..] else s
  }

  /** The `0o`/`0O` prefix `int(..., 8)` accepts, and one underscore after it, dropped. */
  function Unprefixed(u: string): string
  {
    if |u| >= 2 && u[0] == '0' && (u[1] == 'o' || u[1] == 'O') then
      var digits := u[2..];
      if |digits| > 0 && digits[0] == '_' then digits[1..] else digits
    else u
  }

  /**
   * `int(s, 8)`: an optional sign, an optional `0o`/`0O` prefix (which may be
   * followed by one underscore), then grouped octal digits; `None` where
   * Python raises ValueError.
   */
  function ParseOctal(s: string): (r: Option<int>)
    ensures r.Some? ==> s != []
    ensures r.Some? && r.value < 0 ==> s[0] == '-'
  {
    var body := Unprefixed(Unsigned(s));
    if !IsGrouped(body) then None
    else
      var v := OctalValue(Ungroup(body));
      var value: int := if |s| > 0 && s[0] == '-' then -(v as int) else v;
      Some(value)
  }

  function OctalDigit(d: nat): (c: char)
    requires d < 8
    ensures IsOctalDigit(c) && DigitValue(c) == d
  {
    ['0', '1', '2', '3', '4', '5', '6', '7'][d]
  }

  /** `format(n, "o")`: the octal digits of `n`, most significant first. */
  function OctalString(n: nat): (s: string)
    ensures s != [] && AllOctalDigits(s)
  {
    if n < 8 then [OctalDigit(n)] else OctalString(n / 8) + [OctalDigit(n % 8)]
  }

  function DecimalDigit(d: nat): (c: char)
    requires d < 10
    ensures '0' <= c <= '9'
  {
    ['0', '1', '2', '3', '4', '5', '6', '7', '8', '9'][d]
  }

  /** `"%i" % n` for a count. */
  function Decimal(n: nat): (s: string)
    ensures s != [] && forall i | 0 <= i < |s| :: '0' <= s[i] <= '9'
  {
    if n < 10 then [DecimalDigit(n)] else Decimal(n / 10) + [DecimalDigit(n % 10)]
  }

  function CommaSeparated(ns: seq<nat>): string
  {
    if |ns| == 0 then ""
    else if |ns| == 1 then Decimal(ns[0])
    else Decimal(ns[0]) + ", " + CommaSeparated(ns[1..])
  }

  /** `"%r" % t` for a non-empty tuple of counts: `(5,)`, `(6, 7)`. */
  function TupleRepr(ns: seq<nat>): string
  {
    if |ns| == 1 then "(" + Decimal(ns[0]) + ",)" else "(" + CommaSeparated(ns) + ")"
  }

  // ---------------------------------------------------------------------------
  // Lemmas
  // ---------------------------------------------------------------------------

  lemma {:induction false} OctalValueOfString(n: nat)
    ensures OctalValue(OctalString(n)) == n
  {
    if n >= 8 {
      var s := OctalString(n);
      var p := OctalString(n / 8);
      assert s == p + [OctalDigit(n % 8)];
      assert s[..|s| - 1] == p;
      OctalValueOfString(n / 8);
    }
  }

  lemma UngroupDigits(s: string)
    requires AllOctalDigits(s)
    ensures Ungroup(s) == s
  {
    if s != [] {
      UngroupDigits(s[1..]);
    }
  }

  /** Round trip: `int(format(n, "o"), 8) == n`. */
  lemma OctalRoundTrip(n: nat)
    ensures ParseOctal(OctalString(n)) == Some(n)
  {
    var s := OctalString(n);
    assert IsGrouped(s);
    UngroupDigits(s);
    OctalValueOfString(n);
  }

  lemma {:induction false} OctalValueLeadingZero(ds: string)
    requires AllOctalDigits(ds)
    ensures AllOctalDigits("0" + ds) && OctalValue("0" + ds) == OctalValue(ds)
    decreases |ds|
  {
    if ds != [] {
      var init := ds[..|ds| - 1];
      assert ("0" + ds)[..|"0" + ds| - 1] == "0" + init;
      OctalValueLeadingZero(init);
    }
  }

  /** A leading zero does not change the mode: `int("0" + d, 8) == int(d, 8)`. */
  lemma LeadingZero(n: nat)
    ensures ParseOctal("0" + OctalString(n)) == Some(n)
  {
    var s := OctalString(n);
    OctalValueOfString(n);
    OctalValueLeadingZero(s);
    var z := "0" + s;
    assert AllOctalDigits(z);
    assert IsGrouped(z);
    UngroupDigits(z);
    assert z[0] == '0' && IsOctalDigit(z[1]);
    assert Unprefixed(Unsigned(z)) == z;
  }

  /** Once sign and prefix are dropped, a spelling without a minus sign denotes the value of its digits. */
  lemma ParseUnsignedDigits(u: string, ds: string)
    requires Unprefixed(Unsigned(u)) == ds && ds != [] && AllOctalDigits(ds)
    requires u != [] && u[0] != '-'
    ensures ParseOctal(u) == Some(OctalValue(ds) as int)
  {
    assert IsGrouped(ds);
    UngroupDigits(ds);
  }

  /** The `0o` prefix is optional: `int("0o" + d, 8) == int(d, 8)`. */
  lemma OctalPrefix(n: nat)
    ensures ParseOctal("0o" + OctalString(n)) == Some(n)
  {
    var s := OctalString(n);
    var o := "0o" + s;
    OctalValueOfString(n);
    assert o[0] == '0' && o[1] == 'o' && o[2..] == s;
    assert Unsigned(o) == o;
    assert s[0] != '_';
    assert Unprefixed(o) == s;
    ParseUnsignedDigits(o, s);
  }

  /** A minus sign negates the mode: `int("-" + d, 8) == -int(d, 8)`. */
  lemma Negative(n: nat)
    ensures ParseOctal("-" + OctalString(n)) == Some(-(n as int))
  {
    var s := OctalString(n);
    var t := "-" + s;
    assert t[1..] == s;
    assert Unsigned(t) == s;
    assert |s| >= 2 ==> IsOctalDigit(s[1]);
    assert Unprefixed(s) == s;
    assert IsGrouped(s);
    UngroupDigits(s);
    OctalValueOfString(n);
  }

  /** A minus sign in front of an unsigned spelling negates what it denotes. */
  lemma NegateMode(s: string)
    requires ParseOctal(s).Some? && s[0] != '+' && s[0] != '-'
    ensures ParseOctal("-" + s) == Some(-ParseOctal(s).value)
  {
    assert ("-" + s)[1..] == s;
  }

  /** The octal digits of the one mode a link may carry, 0o755. */
  lemma Octal755()
    ensures OctalString(0x1ED) == "755"
  {
    var s7 := OctalString(7);
    assert s7 == "7";
    var s61 := OctalString(61);
    assert s61 == s7 + [OctalDigit(5)];
    assert OctalString(0x1ED) == s61 + [OctalDigit(5)];
  }

  /** The spellings a layout file may use for one mode (`755`, `0755`, `0o755`) all denote it. */
  lemma SpellingsAgree(n: nat)
    ensures var d := OctalString(n);
      ParseOctal(d) == Some(n) && ParseOctal("0" + d) == Some(n) && ParseOctal("0o" + d) == Some(n)
  {
    OctalRoundTrip(n);
    LeadingZero(n);
    OctalPrefix(n);
  }

  /** The three spellings of the link mode a layout file may use all denote 0o755. */
  lemma LinkModeParses(t: string)
    requires t == "755" || t == "0755" || t == "0o755"
    ensures ParseOctal(t) == Some(0x1ED)
  {
    var d := OctalString(0x1ED);
    Octal755();
    SpellingsAgree(0x1ED);
    assert t == d || t == "0" + d || t == "0o" + d;
  }

  /** Spellings `int(..., 8)` refuses with ValueError. */
  lemma InvalidModeExamples()
    ensures ParseOctal("8") == None
    ensures ParseOctal("7__5") == None
    ensures ParseOctal("_7") == None
  {
    assert !IsGrouped("8") by { assert !IsOctalDigit("8"[0]); }
    assert !IsGrouped("7__5") by { assert "7__5"[1] == '_' && "7__5"[2] == '_'; }
    assert !IsGrouped("_7") by { assert "_7"[0] == '_'; }
  }
}
