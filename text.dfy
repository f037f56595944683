/**
 * The Python `str` operations the core relies on: strip, split, join, case
 * mapping and `int()`. Character classes follow Python on the ASCII range
 * (and, for whitespace, on Latin-1).
 */
module Text {
  import opened Wrappers

  /** `str.isspace()` for characters up to U+00FF. */
  predicate IsSpace(c: char) {
    c == ' ' || ('\t' <= c <= '\r') || ('\U{1C}' <= c <= '\U{1F}') || c == '\U{85}' || c == '\U{A0}'
  }

  predicate IsDigit(c: char) { '0' <= c <= '9' }

  predicate IsUpper(c: char) { 'A' <= c <= 'Z' }

  predicate IsLower(c: char) { 'a' <= c <= 'z' }

  /** `str.isalnum()` on ASCII characters. */
  predicate IsAlnum(c: char) { IsDigit(c) || IsUpper(c) || IsLower(c) }

  function LowerChar(c: char): char {
    if IsUpper(c) then (c as int - 'A' as int + 'a' as int) as char else c
  }

  function UpperChar(c: char): char {
    if IsLower(c) then (c as int - 'a' as int + 'A' as int) as char else c
  }

  /** `str.lower()` */
  function Lower(s: string): string {
    seq(|s|, i requires 0 <= i < |s| => LowerChar(s[i]))
  }

  /** `str.capitalize()`: first character upper case, the rest lower case. */
  function Capitalize(s: string): string {
    if s == [] then [] else [UpperChar(s[0])] + Lower(s[1..])
  }

  /** `str.lstrip()`: drops the leading whitespace and nothing else. */
  function LStrip(s: string): (r: string)
    ensures |r| <= |s|
    ensures r == [] || !IsSpace(r[0])
  {
    if s != [] && IsSpace(s[0]) then LStrip(s[1..]) else s
  }

  /** `lstrip()` drops a prefix made of whitespace only. */
  lemma {:induction false} LStripDrops(s: string)
    ensures var r := LStrip(s); r == s[|s| - |r|..] && forall i :: 0 <= i < |s| - |r| ==> IsSpace(s[i])
  {
    if s != [] && IsSpace(s[0]) {
      LStripDrops(s[1..]);
    }
  }

  /** `str.rstrip(chars)` for a predicate on characters. */
  function RStripWhile(s: string, drop: char -> bool): (r: string)
    ensures |r| <= |s| && r == s[..|r|]
    ensures r == [] || !drop(r[|r| - 1])
    ensures forall i :: |r| <= i < |s| ==> drop(s[i])
  {
    if s != [] && drop(s[|s| - 1]) then RStripWhile(s[..|s| - 1], drop) else s
  }

  /** `str.rstrip()` */
  function RStrip(s: string): string {
    RStripWhile(s, IsSpace)
  }

  /** `str.strip()` */
  function Strip(s: string): string {
    RStrip(LStrip(s))
  }

  lemma StripBorders(s: string)
    ensures var r := Strip(s); r == [] || (!IsSpace(r[0]) && !IsSpace(r[|r| - 1]))
  {
  }

  /** `sep.join(xs)` */
  function Join(sep: string, xs: seq<string>): string {
    if xs == [] then []
    else if |xs| == 1 then xs[0]
    else xs[0] + sep + Join(sep, xs[1..])
  }

  lemma {:induction false} JoinSnoc(sep: string, xs: seq<string>, x: string)
    requires xs != []
    ensures Join(sep, xs + [x]) == Join(sep, xs) + sep + x
  {
    if |xs| == 1 {
      assert xs + [x] == [xs[0], x];
    } else {
      assert (xs + [x])[1..] == xs[1..] + [x];
      JoinSnoc(sep, xs[1..], x);
    }
  }

  /** `s.split(sep)` for a one-character separator: always at least one piece. */
  function SplitOn(s: string, sep: char): (r: seq<string>)
    ensures |r| >= 1
  {
    if s == [] then [[]]
    else
      var rest := SplitOn(s[1..], sep);
      if s[0] == sep then [[]] + rest else [[s[0]] + rest[0]] + rest[1..]
  }

  /** No piece of a split holds the separator. */
  lemma {:induction false} SplitOnAvoids(s: string, sep: char)
    ensures forall k, i :: 0 <= k < |SplitOn(s, sep)| && 0 <= i < |SplitOn(s, sep)[k]| ==> SplitOn(s, sep)[k][i] != sep
  {
    if s != [] {
      var rest := SplitOn(s[1..], sep);
      SplitOnAvoids(s[1..], sep);
      var r := SplitOn(s, sep);
      if s[0] == sep {
        assert r == [[]] + rest;
        forall k, i | 0 <= k < |r| && 0 <= i < |r[k]| ensures r[k][i] != sep {
          assert r[k] == rest[k - 1];
        }
      } else {
        assert r == [[s[0]] + rest[0]] + rest[1..];
        forall k, i | 0 <= k < |r| && 0 <= i < |r[k]| ensures r[k][i] != sep {
          if k == 0 {
            if i > 0 { assert r[0][i] == rest[0][i - 1]; }
          } else {
            assert r[k] == rest[k];
          }
        }
      }
    }
  }

  /** Splitting and joining back with the same separator gives the text back. */
  lemma {:induction false} SplitOnJoin(s: string, sep: char)
    ensures Join([sep], SplitOn(s, sep)) == s
    ensures forall k, i :: 0 <= k < |SplitOn(s, sep)| && 0 <= i < |SplitOn(s, sep)[k]| ==> SplitOn(s, sep)[k][i] != sep
  {
    SplitOnAvoids(s, sep);
    if s != [] {
      var rest := SplitOn(s[1..], sep);
      SplitOnJoin(s[1..], sep);
      if s[0] == sep {
        assert SplitOn(s, sep) == [[]] + rest;
        assert ([[]] + rest)[1..] == rest;
      } else {
        var r := SplitOn(s, sep);
        assert r == [[s[0]] + rest[0]] + rest[1..];
        if |rest| == 1 {
          assert Join([sep], r) == [s[0]] + rest[0];
        } else {
          assert r[1..] == rest[1..];
          assert Join([sep], rest) == rest[0] + [sep] + Join([sep], rest[1..]);
        }
      }
    }
  }

  /** The longest prefix without whitespace. */
  function Word(s: string): (r: string)
    ensures |r| <= |s|
    ensures s != [] && !IsSpace(s[0]) ==> r != []
  {
    if s == [] || IsSpace(s[0]) then [] else [s[0]] + Word(s[1..])
  }

  /** The first word is a prefix without whitespace that ends at whitespace or at the end. */
  lemma {:induction false} WordSpec(s: string)
    ensures var r := Word(s);
      && r == s[..|r|]
      && (forall i :: 0 <= i < |r| ==> !IsSpace(r[i]))
      && (|r| == |s| || IsSpace(s[|r|]))
  {
    if s != [] && !IsSpace(s[0]) {
      WordSpec(s[1..]);
    }
  }

  /** `str.split()` with no argument: the maximal runs of non-whitespace. */
  function SplitWs(s: string): seq<string>
    decreases |s|
  {
    var t := LStrip(s);
    if t == [] then []
    else
      var w := Word(t);
      [w] + SplitWs(t[|w|..])
  }

  /** A field of `str.split()`: non-empty, without whitespace. */
  predicate IsField(f: string) {
    f != [] && forall i :: 0 <= i < |f| ==> !IsSpace(f[i])
  }

  predicate AllFields(xs: seq<string>) {
    forall k :: 0 <= k < |xs| ==> IsField(xs[k])
  }

  /** Every field of `str.split()` is non-empty and holds no whitespace. */
  lemma {:induction false} SplitWsFields(s: string)
    ensures AllFields(SplitWs(s))
    decreases |s|
  {
    var t := LStrip(s);
    if t != [] {
      var w := Word(t);
      var tail := t[|w|..];
      SplitWsUnfold(s);
      SplitWsFields(tail);
      AllFieldsCons(w, SplitWs(tail));
    }
  }

  lemma AllFieldsCons(w: string, xs: seq<string>)
    requires IsField(w) && AllFields(xs)
    ensures AllFields([w] + xs)
  {
    assert forall k :: 1 <= k <= |xs| ==> ([w] + xs)[k] == xs[k - 1];
  }

  /** The first field of `str.split()` is the first word after the leading whitespace. */
  lemma SplitWsUnfold(s: string)
    requires LStrip(s) != []
    ensures var t := LStrip(s); var w := Word(t);
      IsField(w) && SplitWs(s) == [w] + SplitWs(t[|w|..])
  {
    WordSpec(LStrip(s));
  }

  /** The value of a non-empty run of decimal digits. */
  function DigitsValue(s: string): nat
    requires forall i :: 0 <= i < |s| ==> IsDigit(s[i])
  {
    if s == [] then 0
    else
      assert IsDigit(s[|s| - 1]);
      10 * DigitsValue(s[..|s| - 1]) + (s[|s| - 1] as int - '0' as int)
  }

  /** A non-empty run of ASCII decimal digits. */
  predicate IsDigits(s: string) {
    s != [] && forall i :: 0 <= i < |s| ==> IsDigit(s[i])
  }

  /** The text `int()` accepts here: an optional sign, then decimal digits. */
  predicate IntSyntax(s: string) {
    IsDigits(s) || (s != [] && (s[0] == '-' || s[0] == '+') && IsDigits(s[1..]))
  }

  /** `int(s)` for decimal text with an optional sign; `None` stands for the `ValueError`. */
  function ParseInt(s: string): (r: Option<int>)
    ensures r.Some? <==> IntSyntax(s)
    ensures r.Some? ==> s != [] && IsDigit(s[|s| - 1])
    ensures r.Some? && r.value < 0 ==> s[0] == '-'
  {
    var neg := s != [] && s[0] == '-';
    var digits := if s != [] && (s[0] == '-' || s[0] == '+') then s[1..] else s;
    if digits == [] || exists i :: 0 <= i < |digits| && !IsDigit(digits[i]) then None
    else
      var v: int := DigitsValue(digits);
      if neg then Some(-v) else Some(v)
  }

  function Pow10(n: nat): nat {
    if n == 0 then 1 else 10 * Pow10(n - 1)
  }

  /** Shifting left by one decimal place distributes over a leading digit's weight. */
  lemma ShiftLeading(dig: int, p: int, v: int, last: int)
    ensures 10 * (dig * p + v) + last == dig * (10 * p) + (10 * v + last)
  {
  }

  /** Positional value: the leading digit weighs ten to the number of digits after it. */
  lemma {:induction false} DigitsValueLeading(d: char, t: string)
    requires IsDigit(d) && forall i :: 0 <= i < |t| ==> IsDigit(t[i])
    ensures DigitsValue([d] + t) == (d as int - '0' as int) * Pow10(|t|) + DigitsValue(t)
    decreases |t|
  {
    if t != [] {
      var n := |t|;
      var u := t[..n - 1];
      var s := [d] + t;
      assert s[..|s| - 1] == [d] + u;
      assert s[|s| - 1] == t[n - 1];
      DigitsValueLeading(d, u);
      ShiftLeading(d as int - '0' as int, Pow10(n - 1), DigitsValue(u), t[n - 1] as int - '0' as int);
    }
  }

  /**
   * `int()` reads digits at their positional value, a leading `+` changes
   * nothing, a leading `-` negates, and leading zeros do not count.
   */
  lemma ParseIntValue(t: string)
    requires IsDigits(t)
    ensures ParseInt(t) == Some(DigitsValue(t) as int)
    ensures ParseInt("+" + t) == Some(DigitsValue(t) as int)
    ensures ParseInt("-" + t) == Some(-(DigitsValue(t) as int))
    ensures ParseInt("0" + t) == ParseInt(t)
  {
    ParseSigned('+', t);
    ParseSigned('-', t);
    DigitsValueLeading('0', t);
    var z := "0" + t;
    assert IsDigits(z) by {
      assert forall i :: 1 <= i < |z| ==> z[i] == t[i - 1];
    }
    assert z[0] != '-' && z[0] != '+';
  }

  lemma ParseSigned(sign: char, t: string)
    requires IsDigits(t) && (sign == '+' || sign == '-')
    ensures ParseInt([sign] + t) == Some(if sign == '-' then -(DigitsValue(t) as int) else DigitsValue(t) as int)
  {
    var s := [sign] + t;
    assert s[1..] == t;
    assert !exists i :: 0 <= i < |t| && !IsDigit(t[i]);
  }

  /** Decimal rendering of a natural number, as `str(n)` or `df` print it. */
  function NatText(n: nat): (r: string)
    ensures r != [] && forall i :: 0 <= i < |r| ==> IsDigit(r[i])
  {
    var d := ((n % 10) + '0' as int) as char;
    if n < 10 then [d] else NatText(n / 10) + [d]
  }

  /** `int()` reads back what `NatText` renders. */
  lemma {:induction false} ParseNatText(n: nat)
    ensures ParseInt(NatText(n)) == Some(n)
  {
    DigitsValueNatText(n);
  }

  lemma {:induction false} DigitsValueNatText(n: nat)
    ensures DigitsValue(NatText(n)) == n
  {
    var s := NatText(n);
    if n >= 10 {
      DigitsValueNatText(n / 10);
      assert s[..|s| - 1] == NatText(n / 10);
    }
  }

  /** Text with no whitespace at either end is its own `strip()`. */
  lemma StripClean(s: string)
    requires s == [] || (!IsSpace(s[0]) && !IsSpace(s[|s| - 1]))
    ensures Strip(s) == s
  {
    assert LStrip(s) == s;
  }

  /** `str.lower()` moves no whitespace and is idempotent. */
  lemma LowerKeeps(s: string)
    ensures forall i :: 0 <= i < |s| ==> (IsSpace(Lower(s)[i]) <==> IsSpace(s[i]))
    ensures Lower(Lower(s)) == Lower(s)
  {
  }

  /** Text without the separator is a single piece. */
  lemma {:induction false} SplitOnNone(s: string, sep: char)
    requires forall i :: 0 <= i < |s| ==> s[i] != sep
    ensures SplitOn(s, sep) == [s]
  {
    if s != [] {
      SplitOnNone(s[1..], sep);
      assert [s[0]] + s[1..] == s;
    }
  }

  /** The first piece ends at the first separator. */
  lemma {:induction false} SplitOnCons(a: string, b: string, sep: char)
    requires forall i :: 0 <= i < |a| ==> a[i] != sep
    ensures SplitOn(a + [sep] + b, sep) == [a] + SplitOn(b, sep)
  {
    var s := a + [sep] + b;
    if a == [] {
      assert s[1..] == b;
    } else {
      assert s[1..] == a[1..] + [sep] + b;
      SplitOnCons(a[1..], b, sep);
      assert [a[0]] + a[1..] == a;
    }
  }

  /** A field followed by whitespace or nothing is the first word. */
  lemma {:induction false} WordOf(f: string, rest: string)
    requires IsField(f) && (rest == [] || IsSpace(rest[0]))
    ensures Word(f + rest) == f
  {
    var s := f + rest;
    assert s[0] == f[0];
    if |f| == 1 {
      assert s[1..] == rest;
    } else {
      assert s[1..] == f[1..] + rest;
      WordOf(f[1..], rest);
      assert [f[0]] + f[1..] == f;
    }
  }

  /** Fields joined by single spaces split back into the same fields. */
  lemma {:induction false} SplitWsJoin(fields: seq<string>)
    requires AllFields(fields)
    ensures SplitWs(Join(" ", fields)) == fields
  {
    if fields != [] {
      var f := fields[0];
      assert IsField(f);
      if |fields| == 1 {
        SplitWsJoinOne(fields);
      } else {
        var more := fields[1..];
        assert AllFields(more) by {
          assert forall k :: 0 <= k < |more| ==> more[k] == fields[k + 1];
        }
        SplitWsJoin(more);
        assert fields == [f] + more;
        SplitWsJoinCons(f, more);
      }
    }
  }

  lemma SplitWsJoinOne(fields: seq<string>)
    requires |fields| == 1 && IsField(fields[0])
    ensures SplitWs(Join(" ", fields)) == fields
  {
    assert Join(" ", fields) == fields[0] + [];
    SplitWsFirst(fields[0], []);
  }

  lemma SplitWsJoinCons(f: string, more: seq<string>)
    requires IsField(f) && more != [] && SplitWs(Join(" ", more)) == more
    ensures SplitWs(Join(" ", [f] + more)) == [f] + more
  {
    var tail := Join(" ", more);
    assert ([f] + more)[1..] == more;
    assert Join(" ", [f] + more) == f + ([' '] + tail);
    SplitWsFirst(f, [' '] + tail);
    SplitWsSpace(tail);
  }

  /** A field followed by whitespace or nothing is the first field. */
  lemma SplitWsFirst(f: string, rest: string)
    requires IsField(f) && (rest == [] || IsSpace(rest[0]))
    ensures SplitWs(f + rest) == [f] + SplitWs(rest)
  {
    var s := f + rest;
    WordOf(f, rest);
    assert s[0] == f[0];
    assert LStrip(s) == s;
    assert s[|f|..] == rest;
    SplitWsUnfold(s);
  }

  /** Leading whitespace does not change the fields. */
  lemma SplitWsSpace(x: string)
    ensures SplitWs([' '] + x) == SplitWs(x)
  {
    assert ([' '] + x)[1..] == x;
    assert LStrip([' '] + x) == LStrip(x);
  }
}
