/** The JavaScript built-ins that the colour handlers and the export loop of
    src/App.js lean on, written out over strings as sequences of characters:
    the digit classes, `parseInt`, `String.prototype.match(/\d+/g)`,
    `Number` of a digit run, number-to-string conversion, array element
    assignment and `Array.prototype.join`. Numbers are exact integers. */
module JsText {

  datatype Option<+T> = None | Some(value: T)

  // ---------------------------------------------------------------------
  // Digits
  // ---------------------------------------------------------------------

  /** The value of `c` as a digit of radix 16 or below: '0'-'9', 'a'-'f', 'A'-'F'. */
  function DigitValue(c: char): (d: Option<nat>)
    ensures d.Some? ==> d.value < 16
  {
    if '0' <= c <= '9' then Some(c as int - '0' as int)
    else if 'a' <= c <= 'f' then Some(c as int - 'a' as int + 10)
    else if 'A' <= c <= 'F' then Some(c as int - 'A' as int + 10)
    else None
  }

  /** `c` is a digit of the given radix (10 or 16 in this model). */
  predicate IsDigitIn(c: char, radix: nat)
  {
    DigitValue(c).Some? && DigitValue(c).value < radix
  }

  /** The regular-expression class `\d`, which (without the `u` flag) is ASCII 0-9. */
  predicate IsDigit(c: char)
  {
    IsDigitIn(c, 10)
  }

  predicate AllDigitsIn(s: string, radix: nat)
  {
    forall i :: 0 <= i < |s| ==> IsDigitIn(s[i], radix)
  }

  predicate NoDigits(s: string)
  {
    forall i :: 0 <= i < |s| ==> !IsDigit(s[i])
  }

  /** The character that writes the decimal digit `d`. */
  function DigitChar(d: nat): (c: char)
    requires d < 10
    ensures IsDigit(c) && DigitValue(c) == Some(d)
  {
    ('0' as int + d) as char
  }

  /** Length of the longest prefix of `s` made of digits of `radix`. */
  function PrefixLength(s: string, radix: nat): (n: nat)
    ensures n <= |s|
    ensures AllDigitsIn(s[..n], radix)
    ensures n < |s| ==> !IsDigitIn(s[n], radix)
  {
    if s == [] || !IsDigitIn(s[0], radix) then 0 else 1 + PrefixLength(s[1..], radix)
  }

  /** The number a string of digits denotes in `radix`, most significant digit first. */
  function Value(s: string, radix: nat): nat
    requires AllDigitsIn(s, radix)
  {
    if s == [] then 0 else radix * Value(s[..|s| - 1], radix) + DigitValue(s[|s| - 1]).value
  }

  /** The decimal text of a non-negative integer, as template literals,
      `Array.prototype.join` and `String(n)` write it for every integer below
      10^21 (from there on JavaScript switches to exponent notation). */
  function ToDecimal(n: nat): (s: string)
    ensures |s| > 0 && AllDigitsIn(s, 10)
    ensures Value(s, 10) == n
    ensures s[0] == '0' ==> s == "0"
  {
    if n < 10 then [DigitChar(n)]
    else
      var s := ToDecimal(n / 10) + [DigitChar(n % 10)];
      assert s[..|s| - 1] == ToDecimal(n / 10);
      s
  }

  /** Distinct numbers are written differently. */
  lemma ToDecimalInjective(a: nat, b: nat)
    ensures ToDecimal(a) == ToDecimal(b) ==> a == b
  {
  }

  /** A digit string followed by a non-digit (or nothing) is exactly the
      digit prefix of the whole. */
  lemma {:induction false} PrefixLengthOfDigitsThen(d: string, t: string, radix: nat)
    requires AllDigitsIn(d, radix)
    requires t == [] || !IsDigitIn(t[0], radix)
    ensures PrefixLength(d + t, radix) == |d|
  {
    if d != [] {
      assert (d + t)[1..] == d[1..] + t;
      PrefixLengthOfDigitsThen(d[1..], t, radix);
    }
  }

  // ---------------------------------------------------------------------
  // parseInt
  // ---------------------------------------------------------------------

  /** The characters `parseInt` skips before the number: StrWhiteSpaceChar of
      ECMAScript (section 7.1.4.1 of ECMA-262), i.e. the WhiteSpace and
      LineTerminator productions. */
  predicate IsJsWhitespace(c: char)
  {
    c == '\t' || c == '\U{000B}' || c == '\U{000C}' || c == ' ' || c == '\U{00A0}' ||
    c == '\U{FEFF}' || c == '\U{1680}' || '\U{2000}' <= c <= '\U{200A}' ||
    c == '\U{202F}' || c == '\U{205F}' || c == '\U{3000}' ||
    c == '\n' || c == '\r' || c == '\U{2028}' || c == '\U{2029}'
  }

  /** `s` without its leading white space. */
  function TrimStart(s: string): (r: string)
    ensures |r| <= |s| && r == s[|s| - |r|..]
    ensures forall i :: 0 <= i < |s| - |r| ==> IsJsWhitespace(s[i])
    ensures r == [] || !IsJsWhitespace(r[0])
  {
    if s != [] && IsJsWhitespace(s[0]) then TrimStart(s[1..]) else s
  }

  /** The unsigned part of `parseInt`: a "0x"/"0X" prefix selects radix 16
      (radix 10 otherwise), and the longest run of digits of that radix that
      follows is the number; no digit there gives NaN (`None`). */
  function ParseMagnitude(u: string): Option<nat>
  {
    var hex := |u| >= 2 && u[0] == '0' && (u[1] == 'x' || u[1] == 'X');
    var radix := if hex then 16 else 10;
    var digits := if hex then u[2..] else u;
    var n := PrefixLength(digits, radix);
    if n == 0 then None else Some(Value(digits[..n], radix))
  }

  /** `parseInt(text)` with no radix argument; `None` stands for NaN.
      Leading white space is skipped and one '+' or '-' is taken as the sign
      of the magnitude that follows. */
  function ParseInt(text: string): (r: Option<int>)
    ensures NoDigits(text) ==> r.None?
    ensures var t := TrimStart(text);
            t != [] && IsDigit(t[0]) && !(|t| >= 2 && t[0] == '0' && (t[1] == 'x' || t[1] == 'X')) ==>
              r.Some? && r.value >= 0
  {
    var t := TrimStart(text);
    if NoDigits(text) then
      assert forall i :: 0 <= i < |t| ==> t[i] == text[|text| - |t| + i];
      ParseSignedNaN(t);
      ParseSigned(t)
    else if t != [] && IsDigit(t[0]) then
      ParseSignedUnsigned(t);
      ParseSigned(t)
    else ParseSigned(t)
  }

  function ParseSigned(t: string): Option<int>
  {
    if |t| > 0 && t[0] == '-' then Signed(true, ParseMagnitude(t[1..]))
    else if |t| > 0 && t[0] == '+' then Signed(false, ParseMagnitude(t[1..]))
    else Signed(false, ParseMagnitude(t))
  }

  function Signed(negative: bool, magnitude: Option<nat>): Option<int>
  {
    match magnitude
    case None => None
    case Some(m) => Some(if negative then -(m as int) else m as int)
  }

  /** Text without a decimal digit has no number, signed or not: even the hex
      prefix needs the digit '0'. */
  lemma ParseSignedNaN(t: string)
    requires NoDigits(t)
    ensures ParseSigned(t).None?
  {
    if |t| > 0 && (t[0] == '-' || t[0] == '+') {
      assert NoDigits(t[1..]) by {
        forall i | 0 <= i < |t[1..]| ensures !IsDigit(t[1..][i]) {
          assert t[1..][i] == t[i + 1];
        }
      }
    }
  }

  /** Text that starts with a decimal digit, other than a hex prefix, reads as
      a non-negative number. */
  lemma ParseSignedUnsigned(t: string)
    requires t != [] && IsDigit(t[0])
    ensures !(|t| >= 2 && t[0] == '0' && (t[1] == 'x' || t[1] == 'X')) ==>
              ParseSigned(t).Some? && ParseSigned(t).value >= 0
  {
    assert t[0] != '-' && t[0] != '+';
    assert PrefixLength(t, 10) > 0;
  }

  /** The magnitude read from decimal text is the number it writes, whatever
      follows, as long as it does not continue the number. */
  lemma ParseMagnitudeOfDecimal(n: nat, rest: string)
    requires rest == [] || !IsDigit(rest[0])
    requires n == 0 && rest != [] ==> rest[0] != 'x' && rest[0] != 'X'
    ensures ParseMagnitude(ToDecimal(n) + rest) == Some(n)
  {
    var d := ToDecimal(n);
    var u := d + rest;
    if |u| >= 2 && u[0] == '0' {
      assert d == "0" && u[1] == rest[0];
    }
    PrefixLengthOfDigitsThen(d, rest, 10);
    assert u[..|d|] == d;
  }

  /** On text that starts with a digit, `parseInt` reads the magnitude, and
      with a minus sign in front its negation. */
  lemma ParseIntSign(u: string, m: nat)
    requires u != [] && IsDigit(u[0]) && ParseMagnitude(u) == Some(m)
    ensures ParseInt(u) == Some(m as int)
    ensures ParseInt("-" + u) == Some(-(m as int))
  {
    var plus: Option<int> := Some(m as int);
    var minus: Option<int> := Some(-(m as int));
    assert TrimStart(u) == u;
    assert ParseSigned(u) == plus;
    var t := "-" + u;
    assert t[0] == '-' && t[1..] == u;
    assert TrimStart(t) == t;
    assert ParseSigned(t) == minus;
  }

  /** `parseInt` reads back what `ToDecimal` writes, and ignores whatever
      follows the digits (a fraction, an exponent, a unit), provided it does
      not continue the number: no further digit, and no 'x' right after a
      lone "0" (which would select radix 16). */
  lemma ParseIntReadsDecimal(n: nat, rest: string)
    requires rest == [] || !IsDigit(rest[0])
    requires n == 0 && rest != [] ==> rest[0] != 'x' && rest[0] != 'X'
    ensures ParseInt(ToDecimal(n) + rest) == Some(n as int)
  {
    var d := ToDecimal(n);
    var u := d + rest;
    ParseMagnitudeOfDecimal(n, rest);
    assert u[0] == d[0];
    ParseIntSign(u, n);
  }

  // ---------------------------------------------------------------------
  // String.prototype.match(/\d+/g)
  // ---------------------------------------------------------------------

  /** The maximal runs of decimal digits of `s`, left to right: what
      `s.match(/\d+/g)` returns, with the empty sequence standing for the
      `null` it returns when there is no match. */
  function DigitRuns(s: string): (runs: seq<string>)
    decreases |s|
    ensures forall k :: 0 <= k < |runs| ==> |runs[k]| > 0 && AllDigitsIn(runs[k], 10)
  {
    if s == [] then []
    else if !IsDigit(s[0]) then DigitRuns(s[1..])
    else
      var n := PrefixLength(s, 10);
      [s[..n]] + DigitRuns(s[n..])
  }

  /** The characters of `s` that are decimal digits, in order. */
  function Digits(s: string): (r: string)
    ensures AllDigitsIn(r, 10)
  {
    if s == [] then []
    else if IsDigit(s[0]) then [s[0]] + Digits(s[1..])
    else Digits(s[1..])
  }

  function Concat(parts: seq<string>): string
  {
    if parts == [] then [] else parts[0] + Concat(parts[1..])
  }

  lemma {:induction false} DigitsAppend(a: string, b: string)
    ensures Digits(a + b) == Digits(a) + Digits(b)
  {
    if a != [] {
      assert (a + b)[0] == a[0];
      assert (a + b)[1..] == a[1..] + b;
      DigitsAppend(a[1..], b);
      if IsDigit(a[0]) {
        assert Digits(a + b) == [a[0]] + Digits(a[1..] + b);
        assert Digits(a) == [a[0]] + Digits(a[1..]);
      } else {
        assert Digits(a + b) == Digits(a[1..] + b);
      }
    } else {
      assert a + b == b;
    }
  }

  lemma {:induction false} DigitsOfDigits(d: string)
    requires AllDigitsIn(d, 10)
    ensures Digits(d) == d
  {
    if d != [] {
      DigitsOfDigits(d[1..]);
    }
  }

  /** The runs are the digits of `s` and nothing else: joined together
      they give every digit of `s`, in order. */
  lemma {:induction false} DigitRunsCoverDigits(s: string)
    decreases |s|
    ensures Concat(DigitRuns(s)) == Digits(s)
  {
    if s == [] {
    } else if !IsDigit(s[0]) {
      DigitRunsCoverDigits(s[1..]);
    } else {
      var n := PrefixLength(s, 10);
      var runs := DigitRuns(s);
      assert runs == [s[..n]] + DigitRuns(s[n..]);
      assert runs[1..] == DigitRuns(s[n..]);
      DigitRunsCoverDigits(s[n..]);
      assert s == s[..n] + s[n..];
      DigitsAppend(s[..n], s[n..]);
      DigitsOfDigits(s[..n]);
    }
  }

  /** `match` finds nothing (returns null) exactly when `s` has no decimal digit. */
  lemma {:induction false} NoDigitRunsIffNoDigits(s: string)
    decreases |s|
    ensures DigitRuns(s) == [] <==> NoDigits(s)
  {
    if s != [] {
      if !IsDigit(s[0]) {
        NoDigitRunsIffNoDigits(s[1..]);
        assert NoDigits(s) <==> NoDigits(s[1..]) by {
          if NoDigits(s[1..]) {
            forall i | 0 <= i < |s| ensures !IsDigit(s[i]) {
              if i > 0 { assert s[i] == s[1..][i - 1]; }
            }
          }
        }
      }
    }
  }

  /** Text without digits contributes no run to what follows it. */
  lemma {:induction false} DigitRunsSkipNonDigits(a: string, t: string)
    requires NoDigits(a)
    ensures DigitRuns(a + t) == DigitRuns(t)
  {
    if a != [] {
      assert (a + t)[0] == a[0] && !IsDigit(a[0]);
      assert (a + t)[1..] == a[1..] + t;
      assert NoDigits(a[1..]) by {
        forall i | 0 <= i < |a[1..]| ensures !IsDigit(a[1..][i]) { assert a[1..][i] == a[i + 1]; }
      }
      DigitRunsSkipNonDigits(a[1..], t);
      assert DigitRuns(a + t) == DigitRuns((a + t)[1..]);
    } else {
      assert a + t == t;
    }
  }

  /** A non-empty digit string ended by a non-digit (or by the end) is one run. */
  lemma DigitRunsSplitAtRun(d: string, t: string)
    requires |d| > 0 && AllDigitsIn(d, 10)
    requires t == [] || !IsDigit(t[0])
    ensures DigitRuns(d + t) == [d] + DigitRuns(t)
  {
    PrefixLengthOfDigitsThen(d, t, 10);
    assert (d + t)[0] == d[0];
    assert (d + t)[..|d|] == d;
    assert (d + t)[|d|..] == t;
  }

  // ---------------------------------------------------------------------
  // Arrays: element assignment and join
  // ---------------------------------------------------------------------

  /** An element of a JavaScript array: a number, or a hole left behind when
      an assignment lands beyond the end. */
  datatype Slot = Hole | Num(n: nat)

  /** `a[index] = v`: overwrites the element inside the array; beyond the end
      it grows the array to `index + 1` elements, the new ones before `index`
      being holes. */
  function Assign(a: seq<Slot>, index: nat, v: nat): (r: seq<Slot>)
    ensures |r| == if index < |a| then |a| else index + 1
    ensures r[index] == Num(v)
    ensures forall j :: 0 <= j < |a| && j != index ==> r[j] == a[j]
    ensures forall j :: |a| <= j < index ==> r[j] == Hole
  {
    if index < |a| then a[index := Num(v)]
    else a + seq(index - |a|, _ => Hole) + [Num(v)]
  }

  /** The numbers of an array, holes dropped, in order. */
  function Present(a: seq<Slot>): seq<nat>
  {
    if a == [] then []
    else if a[0].Hole? then Present(a[1..])
    else [a[0].n] + Present(a[1..])
  }

  predicate NoHoles(a: seq<Slot>)
  {
    forall j :: 0 <= j < |a| ==> a[j].Num?
  }

  lemma {:induction false} PresentAppend(a: seq<Slot>, b: seq<Slot>)
    ensures Present(a + b) == Present(a) + Present(b)
  {
    if a != [] {
      assert (a + b)[0] == a[0];
      assert (a + b)[1..] == a[1..] + b;
      PresentAppend(a[1..], b);
      if a[0].Num? {
        assert Present(a + b) == [a[0].n] + Present(a[1..] + b);
        assert Present(a) == [a[0].n] + Present(a[1..]);
      }
    } else {
      assert a + b == b;
    }
  }

  lemma {:induction false} PresentOfHoles(k: nat)
    ensures Present(seq(k, _ => Hole)) == []
  {
    if k > 0 {
      assert seq(k, _ => Hole)[1..] == seq(k - 1, _ => Hole);
      PresentOfHoles(k - 1);
    }
  }

  /** The numbers of an array without holes after `a[index] = v`: the value
      replaces element `index`, or is appended when `index` is past the end. */
  lemma PresentAssign(a: seq<Slot>, index: nat, v: nat)
    requires NoHoles(a)
    ensures |Present(a)| == |a|
    ensures Present(Assign(a, index, v))
         == if index < |a| then Present(a)[index := v] else Present(a) + [v]
  {
    var b := Assign(a, index, v);
    PresentNoHoles(a);
    if index < |a| {
      PresentNoHoles(b);
      var expected := Present(a)[index := v];
      assert |Present(b)| == |expected|;
      forall j | 0 <= j < |b| ensures Present(b)[j] == expected[j] {
        if j != index { assert b[j] == a[j]; }
      }
    } else {
      var holes := seq(index - |a|, _ => Hole);
      assert b == a + holes + [Num(v)];
      PresentAppend(a + holes, [Num(v)]);
      PresentAppend(a, holes);
      PresentOfHoles(index - |a|);
      assert Present([Num(v)]) == [v];
    }
  }

  /** `runs.map(Number)` for runs of decimal digits. */
  function MapNumber(runs: seq<string>): (a: seq<Slot>)
    requires forall k :: 0 <= k < |runs| ==> AllDigitsIn(runs[k], 10)
    ensures |a| == |runs| && NoHoles(a)
    ensures forall k :: 0 <= k < |runs| ==> a[k] == Num(Value(runs[k], 10))
  {
    if runs == [] then [] else [Num(Value(runs[0], 10))] + MapNumber(runs[1..])
  }

  /** `Number` reads back every number `join` wrote. */
  lemma MapNumberOfRendered(a: seq<Slot>)
    ensures MapNumber(RenderAll(NumsOnly(a))) == NumsOnly(a)
  {
    var b := NumsOnly(a);
    var parts := RenderAll(b);
    forall k | 0 <= k < |b| ensures MapNumber(parts)[k] == b[k] {
      assert b[k].Num? && parts[k] == ToDecimal(b[k].n);
    }
  }

  /** Dropping the holes first changes nothing about the numbers. */
  lemma {:induction false} PresentOfNumsOnly(a: seq<Slot>)
    ensures Present(NumsOnly(a)) == Present(a)
  {
    if a != [] {
      PresentOfNumsOnly(a[1..]);
      if a[0].Num? {
        var b := [a[0]] + NumsOnly(a[1..]);
        assert b[0] == a[0] && b[1..] == NumsOnly(a[1..]);
      }
    }
  }

  /** Without holes, the numbers are the elements themselves. */
  lemma {:induction false} PresentNoHoles(a: seq<Slot>)
    requires NoHoles(a)
    ensures |Present(a)| == |a|
    ensures forall j :: 0 <= j < |a| ==> Present(a)[j] == a[j].n
  {
    if a != [] {
      PresentNoHoles(a[1..]);
      forall j | 0 <= j < |a| ensures Present(a)[j] == a[j].n {
        if j > 0 { assert a[1..][j - 1] == a[j]; }
      }
    }
  }

  /** How an element is written by `join`: a hole as the empty string. */
  function Render(slot: Slot): string
  {
    match slot
    case Hole => ""
    case Num(n) => ToDecimal(n)
  }

  function RenderAll(a: seq<Slot>): (r: seq<string>)
    ensures |r| == |a|
    ensures forall j :: 0 <= j < |a| ==> r[j] == Render(a[j]) && AllDigitsIn(r[j], 10)
  {
    if a == [] then [] else [Render(a[0])] + RenderAll(a[1..])
  }

  /** The total length of the parts. */
  function SumLengths(parts: seq<string>): nat
  {
    if parts == [] then 0 else |parts[0]| + SumLengths(parts[1..])
  }

  /** `parts.join(sep)`: the parts with `sep` between neighbours. */
  function Join(parts: seq<string>, sep: string): string
  {
    if |parts| == 0 then ""
    else if |parts| == 1 then parts[0]
    else parts[0] + sep + Join(parts[1..], sep)
  }

  /** The joined text is as long as the parts together plus one separator
      between each pair of neighbours. */
  lemma {:induction false} JoinLength(parts: seq<string>, sep: string)
    ensures |Join(parts, sep)| == SumLengths(parts) + (if |parts| == 0 then 0 else (|parts| - 1) * |sep|)
  {
    if |parts| > 1 {
      JoinLength(parts[1..], sep);
      assert (|parts| - 2) * |sep| + |sep| == (|parts| - 1) * |sep|;
    }
  }

  /** Reading the digit runs back out of a joined array (followed by text
      without digits) gives the numbers it held, in order, holes dropped;
      the separator must hold no digit. */
  lemma {:induction false} DigitRunsOfJoin(a: seq<Slot>, sep: string, tail: string)
    requires |sep| > 0 && NoDigits(sep) && NoDigits(tail)
    ensures DigitRuns(Join(RenderAll(a), sep) + tail) == RenderAll(NumsOnly(a))
  {
    var parts := RenderAll(a);
    if |a| == 0 {
      DigitRunsSkipNonDigits(tail, []);
      assert tail + [] == tail;
      assert Join(parts, sep) + tail == tail;
    } else {
      var first := Render(a[0]);
      assert parts[0] == first;
      DigitRunsSkipNonDigits(tail, []);
      assert tail + [] == tail;
      if |a| == 1 {
        assert Join(parts, sep) == first;
        assert a[1..] == [];
        if a[0].Hole? {
          assert first + tail == tail;
          assert NumsOnly(a) == NumsOnly(a[1..]);
        } else {
          DigitRunsSplitAtRun(first, tail);
          assert NumsOnly(a) == [a[0]] + NumsOnly(a[1..]);
        }
      } else {
        var rest := Join(parts[1..], sep) + tail;
        assert parts[1..] == RenderAll(a[1..]);
        DigitRunsOfJoin(a[1..], sep, tail);
        DigitRunsSkipNonDigits(sep, rest);
        assert Join(parts, sep) + tail == first + (sep + rest);
        if a[0].Hole? {
          assert first + (sep + rest) == sep + rest;
          assert NumsOnly(a) == NumsOnly(a[1..]);
        } else {
          DigitRunsSplitAtRun(first, sep + rest);
          assert NumsOnly(a) == [a[0]] + NumsOnly(a[1..]);
        }
      }
    }
  }

  /** The elements of `a` that are numbers, holes dropped. */
  function NumsOnly(a: seq<Slot>): (r: seq<Slot>)
    ensures NoHoles(r)
  {
    if a == [] then []
    else if a[0].Hole? then NumsOnly(a[1..])
    else [a[0]] + NumsOnly(a[1..])
  }
}
