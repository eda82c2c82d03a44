/** Small building blocks shared by the client and backend models: an optional
    value, the order-preserving filter of `Array.prototype.filter`, the string
    order of JavaScript's `<=` on strings, insertion-ordered de-duplication (what
    a JavaScript `Set` does), JavaScript's `parseInt(s, 10)` and Python's
    `str(n)` for non-negative integers. */
module Common {

  datatype Option<T> = None | Some(value: T)

  // ---------------------------------------------------------------------------
  // Array.prototype.filter
  // ---------------------------------------------------------------------------

  /** The elements of `s` that satisfy `p`, in their original order. */
  function Keep<T>(s: seq<T>, p: T -> bool): (r: seq<T>)
    ensures |r| <= |s|
    ensures forall x :: x in r ==> x in s && p(x)
  {
    if s == [] then []
    else (if p(s[0]) then [s[0]] else []) + Keep(s[1..], p)
  }

  /** Filtering keeps exactly the satisfying elements, each as often as it occurs. */
  lemma {:induction false} KeepCount<T>(s: seq<T>, p: T -> bool, x: T)
    ensures multiset(Keep(s, p))[x] == if p(x) then multiset(s)[x] else 0
  {
    if s != [] {
      KeepCount(s[1..], p, x);
      assert s == [s[0]] + s[1..];
    }
  }

  lemma KeepMembership<T>(s: seq<T>, p: T -> bool, x: T)
    ensures x in Keep(s, p) <==> x in s && p(x)
  {
    KeepCount(s, p, x);
    assert x in Keep(s, p) <==> multiset(Keep(s, p))[x] > 0;
  }

  /** Two successive filters are one filter by the conjunction (filter fusion). */
  lemma {:induction false} KeepKeep<T>(s: seq<T>, p: T -> bool, q: T -> bool, pq: T -> bool)
    requires forall x :: pq(x) == (p(x) && q(x))
    ensures Keep(Keep(s, p), q) == Keep(s, pq)
  {
    if s != [] {
      KeepKeep(s[1..], p, q, pq);
      var head := if p(s[0]) then [s[0]] else [];
      KeepAppend(head, Keep(s[1..], p), q);
    }
  }

  lemma KeepCons<T>(x: T, s: seq<T>, p: T -> bool)
    ensures Keep([x] + s, p) == (if p(x) then [x] else []) + Keep(s, p)
  {
    assert ([x] + s)[0] == x && ([x] + s)[1..] == s;
  }

  /** Filtering distributes over concatenation. */
  lemma {:induction false} KeepAppend<T>(a: seq<T>, b: seq<T>, p: T -> bool)
    ensures Keep(a + b, p) == Keep(a, p) + Keep(b, p)
  {
    if a == [] {
      assert a + b == b;
    } else {
      var x := a[0];
      var head := if p(x) then [x] else [];
      assert a == [x] + a[1..];
      assert a + b == [x] + (a[1..] + b);
      KeepCons(x, a[1..] + b, p);
      KeepCons(x, a[1..], p);
      KeepAppend(a[1..], b, p);
      assert head + (Keep(a[1..], p) + Keep(b, p)) == (head + Keep(a[1..], p)) + Keep(b, p);
    }
  }

  /** Filtering a list whose elements all pass changes nothing. */
  lemma {:induction false} KeepAll<T>(s: seq<T>, p: T -> bool)
    requires forall x :: x in s ==> p(x)
    ensures Keep(s, p) == s
  {
    if s != [] {
      KeepAll(s[1..], p);
    }
  }

  // ---------------------------------------------------------------------------
  // String order
  // ---------------------------------------------------------------------------

  /** `a <= b` on strings: lexicographic by character, a prefix before its extensions. */
  predicate StrLe(a: string, b: string)
    decreases |a|
  {
    if a == [] then true
    else if b == [] then false
    else if a[0] != b[0] then a[0] < b[0]
    else StrLe(a[1..], b[1..])
  }

  lemma {:induction false} StrLeReflexive(a: string)
    ensures StrLe(a, a)
    decreases |a|
  {
    if a != [] {
      StrLeReflexive(a[1..]);
    }
  }

  lemma {:induction false} StrLeTransitive(a: string, b: string, c: string)
    requires StrLe(a, b) && StrLe(b, c)
    ensures StrLe(a, c)
    decreases |a|
  {
    if a != [] && b != [] && c != [] && a[0] == b[0] && b[0] == c[0] {
      StrLeTransitive(a[1..], b[1..], c[1..]);
    }
  }

  // ---------------------------------------------------------------------------
  // Insertion-ordered de-duplication (JavaScript Set / object keys)
  // ---------------------------------------------------------------------------

  function AppendNew<T(==)>(acc: seq<T>, x: T): (r: seq<T>)
    ensures x in r && acc <= r && |r| <= |acc| + 1
  {
    if x in acc then acc else acc + [x]
  }

  /** Adds the elements of `s` one by one, in order, to `acc`. */
  function AddAll<T(==)>(acc: seq<T>, s: seq<T>): seq<T>
  {
    if s == [] then acc else AppendNew(AddAll(acc, s[..|s| - 1]), s[|s| - 1])
  }

  /** The distinct elements of `s`, in order of first occurrence. */
  function Dedup<T(==)>(s: seq<T>): seq<T>
  {
    AddAll([], s)
  }

  ghost predicate Distinct<T>(s: seq<T>)
  {
    forall i, j :: 0 <= i < j < |s| ==> s[i] != s[j]
  }

  lemma {:induction false} AddAllConcat<T>(acc: seq<T>, a: seq<T>, b: seq<T>)
    ensures AddAll(acc, a + b) == AddAll(AddAll(acc, a), b)
    decreases |b|
  {
    if b == [] {
      assert a + b == a;
    } else {
      AddAllConcat(acc, a, b[..|b| - 1]);
      assert (a + b)[..|a + b| - 1] == a + b[..|b| - 1];
    }
  }

  lemma {:induction false} AddAllSpec<T>(acc: seq<T>, s: seq<T>)
    requires Distinct(acc)
    ensures Distinct(AddAll(acc, s))
    ensures forall y :: y in AddAll(acc, s) <==> y in acc || y in s
    decreases |s|
  {
    if s != [] {
      var front := s[..|s| - 1];
      AddAllSpec(acc, front);
      assert s == front + [s[|s| - 1]];
    }
  }

  /** De-duplication yields each element of the input exactly once. */
  lemma DedupSpec<T>(s: seq<T>)
    ensures Distinct(Dedup(s))
    ensures forall y :: y in Dedup(s) <==> y in s
  {
    AddAllSpec([], s);
  }

  // ---------------------------------------------------------------------------
  // Decimal digits: Python str(n) and JavaScript parseInt(s, 10)
  // ---------------------------------------------------------------------------

  predicate IsAsciiDigit(c: char)
  {
    '0' as int <= c as int <= '9' as int
  }

  function DigitChar(d: nat): (c: char)
    requires d < 10
    ensures IsAsciiDigit(c) && c as int - '0' as int == d
  {
    (d + '0' as int) as char
  }

  /** Value of a string of ASCII digits, most significant first. */
  function DigitsValue(s: string): nat
    requires forall i :: 0 <= i < |s| ==> IsAsciiDigit(s[i])
  {
    if s == [] then 0
    else
      assert IsAsciiDigit(s[|s| - 1]);
      DigitsValue(s[..|s| - 1]) * 10 + (s[|s| - 1] as int - '0' as int)
  }

  /** Python's `str(n)` for a non-negative integer: no sign, no leading zeros. */
  function DecimalString(n: nat): (s: string)
    ensures |s| >= 1
    ensures forall i :: 0 <= i < |s| ==> IsAsciiDigit(s[i])
    ensures DigitsValue(s) == n
  {
    if n < 10 then [DigitChar(n)]
    else
      var s := DecimalString(n / 10) + [DigitChar(n % 10)];
      assert s[..|s| - 1] == DecimalString(n / 10);
      s
  }

  /** The number of digits of `str(n)` grows with `n`: six digits for 100000..999999. */
  lemma {:induction false} DecimalStringLength(n: nat, k: nat)
    requires Pow10(k) <= n < Pow10(k + 1)
    ensures |DecimalString(n)| == k + 1
    decreases k
  {
    if k > 0 {
      DecimalStringLength(n / 10, k - 1);
    }
  }

  function Pow10(k: nat): (r: nat)
    ensures r >= 1
  {
    if k == 0 then 1 else 10 * Pow10(k - 1)
  }

  /** Characters that `parseInt` skips before the number: JavaScript's
      WhiteSpace and LineTerminator productions. */
  predicate IsJsSpace(c: char)
  {
    c == '\t' || c == '\n' || c == '\U{0B}' || c == '\U{0C}' || c == '\r' || c == ' '
    || c == '\U{A0}' || c == '\U{1680}' || ('\U{2000}' <= c <= '\U{200A}')
    || c == '\U{2028}' || c == '\U{2029}' || c == '\U{202F}' || c == '\U{205F}'
    || c == '\U{3000}' || c == '\U{FEFF}'
  }

  function TrimStartJs(s: string): (r: string)
    ensures r == [] || !IsJsSpace(r[0])
    ensures |r| <= |s|
  {
    if s != [] && IsJsSpace(s[0]) then TrimStartJs(s[1..]) else s
  }

  /** The longest prefix of `s` made of ASCII digits. */
  function DigitPrefix(s: string): (r: string)
    ensures |r| <= |s| && r == s[..|r|]
    ensures forall i :: 0 <= i < |r| ==> IsAsciiDigit(r[i])
    ensures |r| < |s| ==> !IsAsciiDigit(s[|r|])
  {
    if s != [] && IsAsciiDigit(s[0]) then [s[0]] + DigitPrefix(s[1..]) else []
  }

  /** JavaScript `parseInt(s, 10)`; `None` stands for `NaN`. */
  function ParseInt(s: string): Option<int>
  {
    var t := TrimStartJs(s);
    var negative := |t| > 0 && t[0] == '-';
    var body := if |t| > 0 && (t[0] == '-' || t[0] == '+') then t[1..] else t;
    var digits := DigitPrefix(body);
    if digits == [] then None
    else
      var magnitude: int := DigitsValue(digits);
      Some(if negative then -magnitude else magnitude)
  }

  lemma DigitStartsNumber(s: string)
    requires s != [] && IsAsciiDigit(s[0])
    ensures TrimStartJs(s) == s && s[0] != '-' && s[0] != '+'
  {
    assert !IsJsSpace(s[0]);
  }

  /** `parseInt` reads a string of ASCII digits as its decimal value. */
  lemma ParseIntDigits(s: string)
    requires s != [] && forall i :: 0 <= i < |s| ==> IsAsciiDigit(s[i])
    ensures ParseInt(s) == Some(DigitsValue(s))
  {
    DigitStartsNumber(s);
    DigitPrefixAll(s);
  }

  /** `parseInt` reads back what Python's `str` (and JavaScript's `String`)
      writes for a non-negative integer. */
  lemma ParseIntDecimalString(n: nat)
    ensures ParseInt(DecimalString(n)) == Some(n)
  {
    ParseIntDigits(DecimalString(n));
  }

  lemma {:induction false} DigitPrefixAll(s: string)
    requires forall i :: 0 <= i < |s| ==> IsAsciiDigit(s[i])
    ensures DigitPrefix(s) == s
  {
    if s != [] {
      DigitPrefixAll(s[1..]);
    }
  }

  /** Distinct numbers have distinct decimal strings. */
  lemma DecimalStringInjective(a: nat, b: nat)
    requires a != b
    ensures DecimalString(a) != DecimalString(b)
  {
    ParseIntDecimalString(a);
    ParseIntDecimalString(b);
  }

  // ---------------------------------------------------------------------------
  // JavaScript parseInt(s) without a radix
  // ---------------------------------------------------------------------------

  predicate IsHexDigit(c: char)
  {
    IsAsciiDigit(c) || ('a' <= c <= 'f') || ('A' <= c <= 'F')
  }

  function HexDigitValue(c: char): (r: nat)
    requires IsHexDigit(c)
    ensures r < 16
  {
    if IsAsciiDigit(c) then c as int - '0' as int
    else if 'a' <= c <= 'f' then c as int - 'a' as int + 10
    else c as int - 'A' as int + 10
  }

  /** Value of a string of hexadecimal digits, most significant first. */
  function HexDigitsValue(s: string): nat
    requires forall i :: 0 <= i < |s| ==> IsHexDigit(s[i])
  {
    if s == [] then 0
    else HexDigitsValue(s[..|s| - 1]) * 16 + HexDigitValue(s[|s| - 1])
  }

  /** The longest prefix of `s` made of hexadecimal digits. */
  function HexPrefix(s: string): (r: string)
    ensures |r| <= |s| && r == s[..|r|]
    ensures forall i :: 0 <= i < |r| ==> IsHexDigit(r[i])
    ensures |r| < |s| ==> !IsHexDigit(s[|r|])
  {
    if s != [] && IsHexDigit(s[0]) then [s[0]] + HexPrefix(s[1..]) else []
  }

  /** The `0x` / `0X` prefix that makes a radix-less `parseInt` read hexadecimal. */
  predicate HasHexPrefix(body: string)
  {
    |body| >= 2 && body[0] == '0' && (body[1] == 'x' || body[1] == 'X')
  }

  /** JavaScript `parseInt(s)` with no radix argument: after the white space and
      an optional sign, `0x` or `0X` selects base 16 (and `NaN` when no hex digit
      follows); any other text is read in base 10, as `ParseInt` does. */
  function ParseIntNoRadix(s: string): Option<int>
  {
    var t := TrimStartJs(s);
    var negative := |t| > 0 && t[0] == '-';
    var body := if |t| > 0 && (t[0] == '-' || t[0] == '+') then t[1..] else t;
    if HasHexPrefix(body) then
      var digits := HexPrefix(body[2..]);
      if digits == [] then None
      else
        var magnitude: int := HexDigitsValue(digits);
        Some(if negative then -magnitude else magnitude)
    else ParseInt(s)
  }

  lemma {:induction false} HexPrefixAll(s: string)
    requires forall i :: 0 <= i < |s| ==> IsHexDigit(s[i])
    ensures HexPrefix(s) == s
  {
    if s != [] {
      HexPrefixAll(s[1..]);
    }
  }

  /** Without a radix, `parseInt` still reads back every non-negative decimal
      string, as ids written by `String(id)` are. */
  lemma ParseIntNoRadixDecimalString(n: nat)
    ensures ParseIntNoRadix(DecimalString(n)) == Some(n)
  {
    var d := DecimalString(n);
    DigitStartsNumber(d);
    assert !HasHexPrefix(d) by {
      if |d| >= 2 {
        assert IsAsciiDigit(d[1]);
      }
    }
    ParseIntDecimalString(n);
  }

  /** `0x` followed by hex digits: the radix-less call reads the hexadecimal
      value, where `parseInt(s, 10)` stops at the `x` and reads 0. */
  lemma ParseIntNoRadixHex(h: string)
    requires h != [] && forall i :: 0 <= i < |h| ==> IsHexDigit(h[i])
    ensures ParseIntNoRadix("0x" + h) == Some(HexDigitsValue(h))
    ensures ParseInt("0x" + h) == Some(0)
  {
    HexReadsHex(h);
    DecimalStopsAtX(h);
  }

  lemma HexReadsHex(h: string)
    requires h != [] && forall i :: 0 <= i < |h| ==> IsHexDigit(h[i])
    ensures ParseIntNoRadix("0x" + h) == Some(HexDigitsValue(h))
  {
    var s := "0x" + h;
    var t := TrimStartJs(s);
    assert t == s by {
      assert !IsJsSpace(s[0]);
    }
    assert t[0] != '-' && t[0] != '+';
    assert HasHexPrefix(s);
    assert s[2..] == h;
    HexPrefixAll(h);
  }

  lemma DecimalStopsAtX(h: string)
    ensures ParseInt("0x" + h) == Some(0)
  {
    var s := "0x" + h;
    assert TrimStartJs(s) == s by {
      assert !IsJsSpace(s[0]);
    }
    assert DigitPrefix(s) == "0" by {
      assert s[1..][0] == 'x';
      assert DigitPrefix(s[1..]) == [];
    }
    assert DigitsValue("0") == 0 by {
      assert "0"[..0] == [];
    }
  }
}
