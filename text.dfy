/**
 * Text helpers that the Python code gets from its standard library:
 * `str(int)` and `"%i"`, `"%04X"`, `int(s)` and `int(s, 16)`,
 * `sep.join(xs)`, `s.split(sep)` and `s.endswith(t)`.
 */
module Text {
  import opened Wrappers

  // ---------------------------------------------------------------------
  // Positional notation

  /** Digits of `n` in base `b`, most significant first, no leading zeros. */
  function Digits(n: nat, b: nat): (ds: seq<nat>)
    requires b == 10 || b == 16
    ensures 1 <= |ds|
    ensures forall i :: 0 <= i < |ds| ==> ds[i] < b
    decreases n
  {
    if n < b then [n] else Digits(n / b, b) + [n % b]
  }

  /** The number a digit string denotes in base `b`. */
  function ValueOf(ds: seq<nat>, b: nat): nat
  {
    if ds == [] then 0 else ValueOf(ds[..|ds| - 1], b) * b + ds[|ds| - 1]
  }

  lemma {:induction false} ValueOfDigits(n: nat, b: nat)
    requires b == 10 || b == 16
    ensures ValueOf(Digits(n, b), b) == n
    decreases n
  {
    if n >= b {
      var ds := Digits(n, b);
      assert ds[..|ds| - 1] == Digits(n / b, b);
      ValueOfDigits(n / b, b);
    }
  }

  /** Leading zero digits do not change the value. */
  lemma {:induction false} ValueOfLeadingZero(ds: seq<nat>, b: nat)
    ensures ValueOf([0] + ds, b) == ValueOf(ds, b)
    decreases |ds|
  {
    if ds != [] {
      var zs := [0] + ds;
      assert zs[..|zs| - 1] == [0] + ds[..|ds| - 1];
      ValueOfLeadingZero(ds[..|ds| - 1], b);
    }
  }

  /** Character for a digit below 16: `0`-`9`, then upper-case `A`-`F`. */
  function DigitChar(d: nat): char
    requires d < 16
  {
    if d < 10 then ('0' as int + d) as char else ('A' as int + d - 10) as char
  }

  /** Value of a hexadecimal digit character in either case, if it is one. */
  function CharDigit(c: char): Option<nat>
  {
    if '0' <= c <= '9' then Some(c as int - '0' as int)
    else if 'A' <= c <= 'F' then Some(c as int - 'A' as int + 10)
    else if 'a' <= c <= 'f' then Some(c as int - 'a' as int + 10)
    else None
  }

  function DigitChars(ds: seq<nat>): (s: string)
    requires forall i :: 0 <= i < |ds| ==> ds[i] < 16
    ensures |s| == |ds|
    ensures forall i :: 0 <= i < |ds| ==> s[i] == DigitChar(ds[i])
  {
    if ds == [] then [] else DigitChars(ds[..|ds| - 1]) + [DigitChar(ds[|ds| - 1])]
  }

  /** The digit values of `s` in base `b`, if every character is such a digit. */
  function DigitValues(s: string, b: nat): (r: Option<seq<nat>>)
    ensures r.Some? ==> |r.value| == |s|
  {
    if s == [] then Some([])
    else
      match (DigitValues(s[..|s| - 1], b), CharDigit(s[|s| - 1]))
      case (Some(ds), Some(d)) => if d < b then Some(ds + [d]) else None
      case _ => None
  }

  lemma {:induction false} DigitValuesOfChars(ds: seq<nat>, b: nat)
    requires b <= 16
    requires forall i :: 0 <= i < |ds| ==> ds[i] < b
    ensures DigitValues(DigitChars(ds), b) == Some(ds)
    decreases |ds|
  {
    if ds != [] {
      var s := DigitChars(ds);
      assert s[..|s| - 1] == DigitChars(ds[..|ds| - 1]);
      DigitValuesOfChars(ds[..|ds| - 1], b);
      assert ds[..|ds| - 1] + [ds[|ds| - 1]] == ds;
    }
  }

  /** A non-empty run of base-`b` digits, read as a number. */
  function ParseDigits(s: string, b: nat): Option<nat>
  {
    if s == [] then None
    else match DigitValues(s, b)
      case Some(ds) => Some(ValueOf(ds, b))
      case None => None
  }

  // ---------------------------------------------------------------------
  // Decimal and hexadecimal text

  /** Python `str(n)` / `"%i" % n` for a natural number. */
  function NatToDecimal(n: nat): (s: string)
    ensures 1 <= |s|
    ensures forall i :: 0 <= i < |s| ==> '0' <= s[i] <= '9'
  {
    DigitChars(Digits(n, 10))
  }

  /** Python `str(i)` / `"%i" % i` for any integer. */
  function IntToDecimal(i: int): string
  {
    if i < 0 then "-" + NatToDecimal(-i) else NatToDecimal(i)
  }

  /** Python `int(s)` on an optionally signed run of decimal digits. */
  function ParseInt(s: string): Option<int>
  {
    if |s| > 0 && (s[0] == '-' || s[0] == '+') then
      match ParseDigits(s[1..], 10)
      case Some(n) => var v: int := if s[0] == '-' then -(n as int) else n; Some(v)
      case None => None
    else
      match ParseDigits(s, 10)
      case Some(n) => Some(n)
      case None => None
  }

  /** Python `int(s, 16)` on a run of hexadecimal digits in either case. */
  function ParseHex(s: string): Option<nat>
  {
    ParseDigits(s, 16)
  }

  /** Python `"%04X" % n`: upper-case hexadecimal, zero-padded to four digits. */
  function Hex4(n: nat): (s: string)
    ensures 4 <= |s|
  {
    PadZeros(DigitChars(Digits(n, 16)), 4)
  }

  function PadZeros(s: string, width: nat): (r: string)
    ensures |r| == if |s| < width then width else |s|
    decreases width - |s|
  {
    if |s| < width then PadZeros("0" + s, width) else s
  }

  lemma {:induction false} NatToDecimalRoundTrip(n: nat)
    ensures ParseDigits(NatToDecimal(n), 10) == Some(n)
  {
    DigitValuesOfChars(Digits(n, 10), 10);
    ValueOfDigits(n, 10);
  }

  /** Reading back what `str` wrote gives the same integer. */
  lemma {:induction false} IntToDecimalRoundTrip(i: int)
    ensures ParseInt(IntToDecimal(i)) == Some(i)
  {
    var s := IntToDecimal(i);
    if i < 0 {
      var n: nat := -i;
      assert s == "-" + NatToDecimal(n);
      assert s[0] == '-' && s[1..] == NatToDecimal(n);
      NatToDecimalRoundTrip(n);
      assert ParseDigits(s[1..], 10) == Some(n);
    } else {
      assert s == NatToDecimal(i);
      assert '0' <= s[0] <= '9';
      NatToDecimalRoundTrip(i);
      assert ParseDigits(s, 10) == Some(i);
    }
  }

  /** Different integers have different decimal texts. */
  lemma {:induction false} IntToDecimalInjective(i: int, j: int)
    requires i != j
    ensures IntToDecimal(i) != IntToDecimal(j)
  {
    IntToDecimalRoundTrip(i);
    IntToDecimalRoundTrip(j);
  }

  lemma {:induction false} PadZerosValue(s: string, width: nat)
    requires ParseDigits(s, 16).Some?
    ensures ParseDigits(PadZeros(s, width), 16) == ParseDigits(s, 16)
    decreases width - |s|
  {
    if |s| < width {
      var ds := DigitValues(s, 16).value;
      ZeroPrefixDigits(s);
      ValueOfLeadingZero(ds, 16);
      PadZerosValue("0" + s, width);
    }
  }

  lemma {:induction false} ZeroPrefixDigits(s: string)
    requires DigitValues(s, 16).Some?
    ensures DigitValues("0" + s, 16) == Some([0] + DigitValues(s, 16).value)
    decreases |s|
  {
    if s != [] {
      var t := "0" + s;
      assert t[..|t| - 1] == "0" + s[..|s| - 1];
      assert t[|t| - 1] == s[|s| - 1];
      ZeroPrefixDigits(s[..|s| - 1]);
      assert [0] + DigitValues(s[..|s| - 1], 16).value + [CharDigit(s[|s| - 1]).value]
          == [0] + (DigitValues(s[..|s| - 1], 16).value + [CharDigit(s[|s| - 1]).value]);
    } else {
      assert "0" + s == "0" && "0"[..0] == [];
      assert DigitValues([], 16) == Some([]);
      assert CharDigit('0') == Some(0);
      assert "0"[0] == '0';
      assert DigitValues("0", 16) == Some([] + [0]);
      assert DigitValues(s, 16).value == [];
      assert [0] + [] == [] + [0];
    }
  }

  /** `int(t, 16)` recovers `n` from `"%04X" % n`. */
  lemma {:induction false} Hex4RoundTrip(n: nat)
    ensures ParseHex(Hex4(n)) == Some(n)
  {
    var ds := Digits(n, 16);
    var s := DigitChars(ds);
    DigitValuesOfChars(ds, 16);
    ValueOfDigits(n, 16);
    assert ParseDigits(s, 16) == Some(n);
    PadZerosValue(s, 4);
    assert Hex4(n) == PadZeros(s, 4);
  }

  // ---------------------------------------------------------------------
  // Joining, splitting, suffixes

  /** Python `sep.join(xs)`. */
  function Join(sep: string, xs: seq<string>): string
  {
    if |xs| == 0 then ""
    else if |xs| == 1 then xs[0]
    else xs[0] + sep + Join(sep, xs[1..])
  }

  /** Python `s.split(sep)` for a one-character separator. */
  function Split(s: string, sep: char): (parts: seq<string>)
    ensures 1 <= |parts|
  {
    if s == [] then [""]
    else
      var rest := Split(s[1..], sep);
      if s[0] == sep then [""] + rest else [[s[0]] + rest[0]] + rest[1..]
  }

  lemma {:induction false} SplitWithoutSeparatorPrefix(a: string, rest: string, sep: char)
    requires sep !in a
    ensures Split(a + rest, sep) == [a + Split(rest, sep)[0]] + Split(rest, sep)[1..]
    decreases |a|
  {
    if a != [] {
      assert (a + rest)[1..] == a[1..] + rest;
      SplitWithoutSeparatorPrefix(a[1..], rest, sep);
      assert [a[0]] + (a[1..] + Split(rest, sep)[0]) == a + Split(rest, sep)[0];
    } else {
      assert a + rest == rest;
      var parts := Split(rest, sep);
      assert parts == [parts[0]] + parts[1..];
      assert a + parts[0] == parts[0];
    }
  }

  /** Splitting a join undoes it when no part contains the separator. */
  lemma {:induction false} SplitJoin(xs: seq<string>, sep: char)
    requires 1 <= |xs|
    requires forall i :: 0 <= i < |xs| ==> sep !in xs[i]
    ensures Split(Join([sep], xs), sep) == xs
  {
    if |xs| == 1 {
      SplitWithoutSeparatorPrefix(xs[0], "", sep);
      assert xs[0] + "" == xs[0];
    } else {
      var tail := Join([sep], xs[1..]);
      SplitJoin(xs[1..], sep);
      assert Join([sep], xs) == xs[0] + ([sep] + tail);
      SplitWithoutSeparatorPrefix(xs[0], [sep] + tail, sep);
      assert ([sep] + tail)[1..] == tail;
      assert Split([sep] + tail, sep) == [""] + xs[1..];
      assert xs[0] + "" == xs[0];
      assert [xs[0]] + xs[1..] == xs;
    }
  }

  /** `split` yields one more part than there are separators. */
  lemma {:induction false} SplitLength(s: string, sep: char)
    ensures |Split(s, sep)| == multiset(s)[sep] + 1
  {
    if s != [] {
      SplitLength(s[1..], sep);
      assert s == [s[0]] + s[1..];
    }
  }

  /** A join holds at least one separator between each pair of parts. */
  lemma {:induction false} JoinSeparatorCount(xs: seq<string>, sep: char)
    requires 1 <= |xs|
    ensures multiset(Join([sep], xs))[sep] >= |xs| - 1
    ensures (exists i :: 0 <= i < |xs| && sep in xs[i]) ==> multiset(Join([sep], xs))[sep] >= |xs|
  {
    if |xs| > 1 {
      JoinSeparatorCount(xs[1..], sep);
      var j := Join([sep], xs);
      assert j == xs[0] + [sep] + Join([sep], xs[1..]);
      assert multiset(j) == multiset(xs[0]) + multiset([sep]) + multiset(Join([sep], xs[1..]));
      if exists i :: 0 <= i < |xs| && sep in xs[i] {
        var i :| 0 <= i < |xs| && sep in xs[i];
        if i == 0 {
          assert multiset(xs[0])[sep] >= 1;
        } else {
          assert sep in xs[1..][i - 1];
        }
      }
    }
  }

  /** Splitting a join gives back the parts ONLY when no part contains the separator. */
  lemma {:induction false} SplitJoinNeedsClean(xs: seq<string>, sep: char)
    requires 1 <= |xs|
    requires exists i :: 0 <= i < |xs| && sep in xs[i]
    ensures Split(Join([sep], xs), sep) != xs
  {
    JoinSeparatorCount(xs, sep);
    SplitLength(Join([sep], xs), sep);
  }

  /** Python `s.endswith(t)`. */
  predicate EndsWith(s: string, t: string)
  {
    |t| <= |s| && s[|s| - |t|..] == t
  }
}
