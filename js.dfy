/**
 * The slice of JavaScript's string and number semantics that the salon front end
 * relies on: `String.prototype.split` on one character, `Number(...)`,
 * `parseInt(...)`, `Number.prototype.toString`, `padStart`, `includes`,
 * `toLowerCase` and the form encoding used by `URLSearchParams`.
 * Numbers are restricted to integers and NaN: every number the modelled code
 * produces from its inputs is one of those.
 */
module Js {

  datatype Option<T> = None | Some(value: T)

  /** A JavaScript number as far as this model needs it: an integer or NaN. */
  datatype Num = Fin(v: int) | NaN {
    /** `a + b`; NaN is contagious. */
    function Add(k: int): Num {
      match this
      case Fin(x) => Fin(x + k)
      case NaN => NaN
    }
    /** `a < k`; every comparison with NaN is false. */
    predicate LessThan(k: int) {
      Fin? && v < k
    }
    /** `a >= k`; every comparison with NaN is false. */
    predicate AtLeast(k: int) {
      Fin? && v >= k
    }
    /** JavaScript truthiness: 0 and NaN are falsy. */
    predicate Truthy() {
      Fin? && v != 0
    }
  }

  // ---------------------------------------------------------------- digits

  predicate IsDigit(c: char) {
    '0' <= c <= '9'
  }

  predicate AllDigits(s: string) {
    forall i :: 0 <= i < |s| ==> IsDigit(s[i])
  }

  function DigitChar(d: int): (c: char)
    requires 0 <= d < 10
    ensures IsDigit(c)
  {
    ('0' as int + d) as char
  }

  /** The value of a string of decimal digits ("" has value 0). */
  function DigitsValue(s: string): nat
    requires AllDigits(s)
  {
    if s == [] then 0 else DigitsValue(s[..|s| - 1]) * 10 + (s[|s| - 1] as int - '0' as int)
  }

  // ---------------------------------------------------------------- toString

  /** `n.toString()` for a non-negative integer: shortest decimal form. */
  function NatToString(n: nat): (s: string)
    ensures 1 <= |s| && AllDigits(s)
    ensures n >= 10 ==> |s| >= 2
    ensures n < 10 ==> |s| == 1
  {
    if n < 10 then [DigitChar(n)] else NatToString(n / 10) + [DigitChar(n % 10)]
  }

  /** `n.toString()` for an integer. */
  function IntToString(n: int): string {
    if n < 0 then "-" + NatToString(-n) else NatToString(n)
  }

  /** `String(x)` for a number of this model. */
  function NumToString(x: Num): string {
    match x
    case Fin(n) => IntToString(n)
    case NaN => "NaN"
  }

  lemma {:induction false} DigitsValueOfNatToString(n: nat)
    ensures DigitsValue(NatToString(n)) == n
  {
    if n >= 10 {
      DigitsValueOfNatToString(n / 10);
      var s := NatToString(n);
      assert s[..|s| - 1] == NatToString(n / 10);
    }
  }

  /** The decimal form of a positive number never starts with '0'. */
  lemma {:induction false} NatToStringNoLeadingZero(n: nat)
    requires n >= 1
    ensures NatToString(n)[0] != '0'
  {
    if n >= 10 {
      NatToStringNoLeadingZero(n / 10);
    }
  }

  /** Leading zeros do not change the value of a digit string. */
  lemma {:induction false} DigitsValueLeadingZero(t: string)
    requires AllDigits(t)
    ensures AllDigits("0" + t) && DigitsValue("0" + t) == DigitsValue(t)
  {
    if t != [] {
      DigitsValueLeadingZero(t[..|t| - 1]);
      assert ("0" + t)[..|"0" + t| - 1] == "0" + t[..|t| - 1];
    }
  }

  // ---------------------------------------------------------------- padStart

  function Repeat(c: char, n: nat): (s: string)
    ensures |s| == n && forall i :: 0 <= i < n ==> s[i] == c
  {
    if n == 0 then [] else [c] + Repeat(c, n - 1)
  }

  /** `s.padStart(n, c)` with a one-character pad string. */
  function PadStart(s: string, n: nat, c: char): (r: string)
    ensures |r| == if |s| >= n then |s| else n
    ensures r[|r| - |s|..] == s
    ensures forall i :: 0 <= i < |r| - |s| ==> r[i] == c
  {
    if |s| >= n then s else Repeat(c, n - |s|) + s
  }

  /** `n.toString().padStart(2, "0")`, the two-digit field of "HH:MM". */
  function Pad2(n: int): string {
    PadStart(IntToString(n), 2, '0')
  }

  /** Below 100, the padded field is exactly two digits. */
  lemma Pad2Shape(n: nat)
    requires n < 100
    ensures |Pad2(n)| == 2 && AllDigits(Pad2(n))
  {
    if n >= 10 {
      assert |NatToString(n / 10)| == 1;
    }
  }

  // ---------------------------------------------------------------- split

  /** `s.indexOf(c)` for a character that occurs in `s`. */
  function IndexOf(s: string, c: char): (i: nat)
    requires c in s
    ensures i < |s| && s[i] == c && c !in s[..i]
  {
    if s[0] == c then 0
    else
      assert s == [s[0]] + s[1..];
      var j := IndexOf(s[1..], c);
      assert s[..j + 1] == [s[0]] + s[1..][..j];
      j + 1
  }

  /** `s.split(sep)` for a one-character separator: the text before the first separator, then the rest split. */
  function Split(s: string, sep: char): (parts: seq<string>)
    ensures |parts| >= 1
    decreases |s|
  {
    if sep !in s then [s]
    else
      var i := IndexOf(s, sep);
      [s[..i]] + Split(s[i + 1..], sep)
  }

  /** A string without the separator splits into itself. */
  lemma SplitNoSeparator(s: string, sep: char)
    requires sep !in s
    ensures Split(s, sep) == [s]
  {
  }

  /** The first separator of `a + [sep] + b` lies within `a` when `a` holds one, and right after `a` otherwise. */
  lemma IndexOfConcat(a: string, b: string, sep: char)
    ensures sep !in a ==> IndexOf(a + [sep] + b, sep) == |a|
    ensures sep in a ==> IndexOf(a + [sep] + b, sep) == IndexOf(a, sep)
  {
    var s := a + [sep] + b;
    var i := IndexOf(s, sep);
    assert s[|a|] == sep;
    if sep in a {
      var k := IndexOf(a, sep);
      assert s[k] == sep;
    }
  }

  /** Splitting distributes over a separator occurrence. */
  lemma {:induction false} SplitAtSeparator(a: string, b: string, sep: char)
    ensures Split(a + [sep] + b, sep) == Split(a, sep) + Split(b, sep)
    decreases |a|
  {
    if sep !in a {
      SplitAtFirstSeparator(a, b, sep);
      SplitNoSeparator(a, sep);
    } else {
      var i := IndexOf(a, sep);
      SplitAtSeparator(a[i + 1..], b, sep);
      SplitAtLaterSeparator(a, b, sep);
    }
  }

  /** When `a` holds a separator, splitting `a + [sep] + b` cuts first where `a` alone is cut first. */
  lemma SplitAtLaterSeparator(a: string, b: string, sep: char)
    requires sep in a
    requires var rest := a[IndexOf(a, sep) + 1..];
      Split(rest + [sep] + b, sep) == Split(rest, sep) + Split(b, sep)
    ensures Split(a + [sep] + b, sep) == Split(a, sep) + Split(b, sep)
  {
    var i := IndexOf(a, sep);
    var rest := a[i + 1..];
    SplitHead(a, b, sep);
    var p, q := Split(rest, sep), Split(b, sep);
    assert [a[..i]] + (p + q) == [a[..i]] + p + q;
  }

  /** The first piece of `a + [sep] + b` is the first piece of `a`; the rest is split further. */
  lemma SplitHead(a: string, b: string, sep: char)
    requires sep in a
    ensures var i := IndexOf(a, sep);
      Split(a + [sep] + b, sep) == [a[..i]] + Split(a[i + 1..] + [sep] + b, sep)
  {
    var i := IndexOf(a, sep);
    var s := a + [sep] + b;
    IndexOfConcat(a, b, sep);
    assert s[..i] == a[..i];
    assert s[i + 1..] == a[i + 1..] + [sep] + b;
  }

  /** When `a` holds no separator, the separator after it is the first one. */
  lemma SplitAtFirstSeparator(a: string, b: string, sep: char)
    requires sep !in a
    ensures Split(a + [sep] + b, sep) == [a] + Split(b, sep)
  {
    var s := a + [sep] + b;
    IndexOfConcat(a, b, sep);
    assert s[..|a|] == a && s[|a| + 1..] == b;
  }

  /** `a + sep + b` splits into exactly `a` and `b` when neither holds the separator. */
  lemma SplitTwo(a: string, b: string, sep: char)
    requires sep !in a && sep !in b
    ensures Split(a + [sep] + b, sep) == [a, b]
  {
    SplitAtSeparator(a, b, sep);
    SplitNoSeparator(a, sep);
    SplitNoSeparator(b, sep);
  }

  /** Regrouping three pieces joined by two separators. */
  lemma JoinRegroup<T>(a: seq<T>, x: seq<T>, b: seq<T>, y: seq<T>, c: seq<T>)
    ensures a + x + b + y + c == a + x + (b + y + c)
  {
  }

  lemma SplitThree(a: string, b: string, c: string, sep: char)
    requires sep !in a && sep !in b && sep !in c
    ensures Split(a + [sep] + (b + [sep] + c), sep) == [a, b, c]
  {
    SplitTwo(b, c, sep);
    SplitAtSeparator(a, b + [sep] + c, sep);
    SplitNoSeparator(a, sep);
  }

  /** A digit string holds no sign. */
  lemma DigitsHaveNoSign(s: string)
    requires AllDigits(s)
    ensures '-' !in s && '+' !in s
  {
  }

  // ---------------------------------------------------------------- Number / parseInt

  /** The whitespace `Number` and `parseInt` skip (the ASCII part of it). */
  predicate IsSpace(c: char) {
    c == ' ' || c == '\t' || c == '\n' || c == '\r' || c == '\U{B}' || c == '\U{C}'
  }

  function TrimStart(s: string): (r: string)
    ensures |r| <= |s| && r == s[|s| - |r|..]
    ensures r != [] ==> !IsSpace(r[0])
  {
    if s != [] && IsSpace(s[0]) then TrimStart(s[1..]) else s
  }

  function TrimEnd(s: string): (r: string)
    ensures |r| <= |s| && r == s[..|r|]
    ensures r != [] ==> !IsSpace(r[|r| - 1])
  {
    if s != [] && IsSpace(s[|s| - 1]) then TrimEnd(s[..|s| - 1]) else s
  }

  /** The numeric value of a trimmed string: optional sign, then decimal digits. */
  function SignedDigits(t: string): Num {
    if t != [] && (t[0] == '-' || t[0] == '+') && |t| > 1 && AllDigits(t[1..]) then
      if t[0] == '-' then Fin(-(DigitsValue(t[1..]) as int)) else Fin(DigitsValue(t[1..]))
    else if t != [] && AllDigits(t) then Fin(DigitsValue(t))
    else NaN
  }

  /** `Number(s)`: surrounding whitespace is ignored and the empty string is 0. */
  function Number(s: string): Num {
    var t := TrimEnd(TrimStart(s));
    if t == [] then Fin(0) else SignedDigits(t)
  }

  /** The longest prefix of digits. */
  function DigitPrefix(s: string): (p: string)
    ensures |p| <= |s| && AllDigits(p) && p == s[..|p|]
    ensures |p| < |s| ==> !IsDigit(s[|p|])
  {
    if s != [] && IsDigit(s[0]) then [s[0]] + DigitPrefix(s[1..]) else []
  }

  /** `parseInt(s)`: leading whitespace, an optional sign, then as many digits as there are. */
  function ParseInt(s: string): Num {
    var t := TrimStart(s);
    var negative := t != [] && t[0] == '-';
    var body := if t != [] && (t[0] == '-' || t[0] == '+') then t[1..] else t;
    var digits := DigitPrefix(body);
    if digits == [] then NaN
    else if negative then Fin(-(DigitsValue(digits) as int))
    else Fin(DigitsValue(digits))
  }

  lemma NoSpaceInDigits(s: string)
    requires AllDigits(s)
    ensures TrimStart(s) == s && TrimEnd(s) == s
  {
    if s != [] {
      assert !IsSpace(s[0]) by {
        assert IsDigit(s[0]);
      }
      assert !IsSpace(s[|s| - 1]) by {
        assert IsDigit(s[|s| - 1]);
      }
    }
  }

  /** A plain digit string reads back as its value under `Number`. */
  lemma NumberOfDigits(s: string)
    requires s != [] && AllDigits(s)
    ensures Number(s) == Fin(DigitsValue(s))
  {
    NoSpaceInDigits(s);
  }

  /** `Number(n.toString().padStart(2, "0")) == n` for every n >= 0. */
  lemma NumberOfPad2(n: nat)
    ensures AllDigits(Pad2(n)) && Number(Pad2(n)) == Fin(n)
  {
    DigitsValueOfNatToString(n);
    var s := NatToString(n);
    if |s| < 2 {
      assert Pad2(n) == "0" + s;
      DigitsValueLeadingZero(s);
    }
    NumberOfDigits(Pad2(n));
  }

  /** Any number of leading zeros leaves the value of a digit string unchanged. */
  lemma {:induction false} DigitsValueZeros(k: nat, t: string)
    requires AllDigits(t)
    ensures AllDigits(Repeat('0', k) + t) && DigitsValue(Repeat('0', k) + t) == DigitsValue(t)
  {
    if k > 0 {
      DigitsValueZeros(k - 1, t);
      DigitsValueLeadingZero(Repeat('0', k - 1) + t);
      assert Repeat('0', k) + t == "0" + (Repeat('0', k - 1) + t);
    } else {
      assert Repeat('0', k) + t == t;
    }
  }

  /** `Number(n.toString().padStart(w, "0")) == n` for every n >= 0 and width w. */
  lemma NumberOfPadded(n: nat, w: nat)
    ensures AllDigits(PadStart(IntToString(n), w, '0'))
    ensures Number(PadStart(IntToString(n), w, '0')) == Fin(n)
  {
    var s := NatToString(n);
    DigitsValueOfNatToString(n);
    var padded := PadStart(s, w, '0');
    assert IntToString(n) == s;
    if |s| < w {
      assert padded == Repeat('0', w - |s|) + s;
      DigitsValueZeros(w - |s|, s);
    } else {
      assert padded == s;
    }
    assert AllDigits(padded) && DigitsValue(padded) == n;
    NumberOfDigits(padded);
  }

  lemma {:induction false} DigitPrefixOfDigits(s: string)
    requires AllDigits(s)
    ensures DigitPrefix(s) == s
  {
    if s != [] {
      DigitPrefixOfDigits(s[1..]);
    }
  }

  /** `parseInt(String(n)) == n`: the integer ids the calendar renders read back unchanged. */
  lemma ParseIntOfIntToString(n: int)
    ensures ParseInt(IntToString(n)) == Fin(n)
  {
    if n < 0 {
      var m: nat := -n;
      assert IntToString(n) == "-" + NatToString(m);
      ParseIntOfNegative(m);
    } else {
      ParseIntOfNatToString(n);
    }
  }

  lemma ParseIntOfNatToString(m: nat)
    ensures ParseInt(NatToString(m)) == Fin(m)
  {
    var s := NatToString(m);
    DigitsValueOfNatToString(m);
    DigitPrefixOfDigits(s);
    NoSpaceInDigits(s);
    assert s[0] != '-' && s[0] != '+';
  }

  lemma ParseIntOfNegative(m: nat)
    requires m > 0
    ensures ParseInt("-" + NatToString(m)) == Fin(-(m as int))
  {
    var s := NatToString(m);
    var t := "-" + s;
    DigitsValueOfNatToString(m);
    DigitPrefixOfDigits(s);
    assert !IsSpace(t[0]);
    assert TrimStart(t) == t;
    assert t[1..] == s;
    assert DigitPrefix(t[1..]) == s;
  }

  // ---------------------------------------------------------------- Array.prototype.filter

  /** `s.filter(p)`: the elements satisfying p, in their original order. */
  function Filter<T>(s: seq<T>, p: T -> bool): (r: seq<T>)
    ensures |r| <= |s|
    ensures forall x :: x in r ==> x in s && p(x)
    decreases |s|
  {
    if s == [] then [] else (if p(s[0]) then [s[0]] else []) + Filter(s[1..], p)
  }

  /** Every element of s that satisfies p is kept. */
  lemma {:induction false} FilterKeeps<T>(s: seq<T>, p: T -> bool, x: T)
    requires x in s && p(x)
    ensures x in Filter(s, p)
    decreases |s|
  {
    if s[0] != x {
      FilterKeeps(s[1..], p, x);
    }
  }

  /** An element is kept exactly when it occurs and satisfies p. */
  lemma FilterMembers<T>(s: seq<T>, p: T -> bool)
    ensures forall x :: x in Filter(s, p) <==> x in s && p(x)
  {
    forall x | x in s && p(x)
      ensures x in Filter(s, p)
    {
      FilterKeeps(s, p, x);
    }
  }

  /** Filtering distributes over concatenation, so the kept elements stay in order. */
  lemma {:induction false} FilterConcat<T>(a: seq<T>, b: seq<T>, p: T -> bool)
    ensures Filter(a + b, p) == Filter(a, p) + Filter(b, p)
    decreases |a|
  {
    if a != [] {
      assert (a + b)[1..] == a[1..] + b;
      FilterConcat(a[1..], b, p);
    } else {
      assert a + b == b;
    }
  }

  /** When every element satisfies p nothing is dropped. */
  lemma {:induction false} FilterAll<T>(s: seq<T>, p: T -> bool)
    requires forall x :: x in s ==> p(x)
    ensures Filter(s, p) == s
    decreases |s|
  {
    if s != [] {
      FilterAll(s[1..], p);
    }
  }

  /** Filtering twice with the same test is filtering once. */
  lemma FilterIdempotent<T>(s: seq<T>, p: T -> bool)
    ensures Filter(Filter(s, p), p) == Filter(s, p)
  {
    FilterAll(Filter(s, p), p);
  }

  /** Filters with tests that agree everywhere keep the same elements. */
  lemma {:induction false} FilterSameTest<T>(s: seq<T>, p: T -> bool, q: T -> bool)
    requires forall x :: p(x) == q(x)
    ensures Filter(s, p) == Filter(s, q)
    decreases |s|
  {
    if s != [] {
      FilterSameTest(s[1..], p, q);
    }
  }

  /** `a` is `b` with some elements left out, the rest in their original order. */
  predicate IsSubsequence<T(==)>(a: seq<T>, b: seq<T>)
    decreases |b|
  {
    if a == [] then true
    else if b == [] then false
    else if a[0] == b[0] then IsSubsequence(a[1..], b[1..])
    else IsSubsequence(a, b[1..])
  }

  /** What a filter keeps is a subsequence of its input. */
  lemma {:induction false} FilterSubsequence<T>(s: seq<T>, p: T -> bool)
    ensures IsSubsequence(Filter(s, p), s)
    decreases |s|
  {
    if s != [] {
      FilterSubsequence(s[1..], p);
      var rest := Filter(s[1..], p);
      if p(s[0]) {
        assert Filter(s, p) == [s[0]] + rest;
        assert ([s[0]] + rest)[1..] == rest;
      } else {
        assert Filter(s, p) == rest;
        if rest != [] {
          assert IsSubsequence(rest, s[1..]);
        }
      }
    }
  }

  // ---------------------------------------------------------------- includes / toLowerCase

  /** `s.includes(sub)`. */
  predicate Includes(s: string, sub: string) {
    exists i :: 0 <= i <= |s| - |sub| && OccursAt(s, sub, i)
  }

  /** `sub` occurs in `s` starting at index `i`. */
  predicate OccursAt(s: string, sub: string, i: int)
    requires 0 <= i <= |s| - |sub|
  {
    s[i..i + |sub|] == sub
  }

  lemma IncludesEmpty(s: string)
    ensures Includes(s, "")
  {
    assert OccursAt(s, "", 0);
  }

  /** `toLowerCase` on one character; only the ASCII letters are mapped. */
  function LowerChar(c: char): char {
    if 'A' <= c <= 'Z' then (c as int + 32) as char else c
  }

  /** `s.toLowerCase()`, ASCII letters only. */
  function ToLower(s: string): (r: string)
    ensures |r| == |s| && forall i :: 0 <= i < |s| ==> r[i] == LowerChar(s[i])
  {
    seq(|s|, i requires 0 <= i < |s| => LowerChar(s[i]))
  }

  /** Lower-casing twice is lower-casing once. */
  lemma ToLowerIdempotent(s: string)
    ensures ToLower(ToLower(s)) == ToLower(s)
  {
  }

  // ---------------------------------------------------------------- Array.prototype.join

  /** `parts.join(sep)`: the parts with one separator between neighbours; no parts give "". */
  function Join(parts: seq<string>, sep: string): (r: string)
    ensures |parts| == 1 ==> r == parts[0]
    decreases |parts|
  {
    if parts == [] then ""
    else if |parts| == 1 then parts[0]
    else parts[0] + sep + Join(parts[1..], sep)
  }

  /** Splitting a join at a separator no part contains gives the parts back. */
  lemma {:induction false} JoinSplit(parts: seq<string>, sep: char)
    requires |parts| >= 1 && forall i :: 0 <= i < |parts| ==> sep !in parts[i]
    ensures Split(Join(parts, [sep]), sep) == parts
    decreases |parts|
  {
    SplitNoSeparator(parts[0], sep);
    if |parts| > 1 {
      var rest := Join(parts[1..], [sep]);
      JoinSplit(parts[1..], sep);
      SplitAtSeparator(parts[0], rest, sep);
      assert parts == [parts[0]] + parts[1..];
    }
  }

  // ---------------------------------------------------------------- form encoding

  function HexDigit(d: int): (c: char)
    requires 0 <= d < 16
  {
    if d < 10 then DigitChar(d) else ('A' as int + d - 10) as char
  }

  /** "%XX" for one byte, upper-case hexadecimal. */
  function PercentByte(b: int): (r: string)
    requires 0 <= b < 256
    ensures |r| == 3 && r[0] == '%' && '&' !in r && '=' !in r
  {
    ['%', HexDigit(b / 16), HexDigit(b % 16)]
  }

  /** The UTF-8 bytes of one Unicode scalar value. */
  function Utf8(c: char): (bytes: seq<int>)
    ensures 1 <= |bytes| <= 4 && forall i :: 0 <= i < |bytes| ==> 0 <= bytes[i] < 256
  {
    var n := c as int;
    if n < 0x80 then [n]
    else if n < 0x800 then [0xC0 + n / 0x40, 0x80 + n % 0x40]
    else if n < 0x10000 then [0xE0 + n / 0x1000, 0x80 + (n / 0x40) % 0x40, 0x80 + n % 0x40]
    else [0xF0 + n / 0x40000, 0x80 + (n / 0x1000) % 0x40, 0x80 + (n / 0x40) % 0x40, 0x80 + n % 0x40]
  }

  function PercentBytes(bytes: seq<int>): (r: string)
    requires forall i :: 0 <= i < |bytes| ==> 0 <= bytes[i] < 256
    ensures '&' !in r && '=' !in r
  {
    if bytes == [] then "" else PercentByte(bytes[0]) + PercentBytes(bytes[1..])
  }

  /** Characters the application/x-www-form-urlencoded serializer leaves alone. */
  predicate FormSafe(c: char) {
    ('a' <= c <= 'z') || ('A' <= c <= 'Z') || IsDigit(c) || c == '*' || c == '-' || c == '.' || c == '_'
  }

  /** The form-urlencoded form of one string, as `URLSearchParams.toString` writes it. */
  function FormEncode(s: string): (r: string)
    ensures '&' !in r && '=' !in r
  {
    if s == [] then ""
    else
      var head := if FormSafe(s[0]) then [s[0]] else if s[0] == ' ' then "+" else PercentBytes(Utf8(s[0]));
      head + FormEncode(s[1..])
  }

  /** A string of safe characters, such as a page number or a parameter name, is not changed by the encoder. */
  lemma {:induction false} FormEncodeSafe(s: string)
    requires forall i :: 0 <= i < |s| ==> FormSafe(s[i])
    ensures FormEncode(s) == s
  {
    if s != [] {
      FormEncodeSafe(s[1..]);
    }
  }
}
