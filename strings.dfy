/**
 * The Kotlin/Java string operations the application relies on: `split`,
 * `indexOf`, `contains`, `startsWith`, `replace`, `lowercase`, `isBlank`,
 * `Int.toString()` and `String.toInt()`, each written out over `seq<char>`.
 */
module Strings {
  import opened Wrappers

  // ---------------------------------------------------------------------
  // Prefixes and occurrences
  // ---------------------------------------------------------------------

  /** `s.startsWith(p)` */
  predicate StartsWith(s: string, p: string) {
    |p| <= |s| && s[..|p|] == p
  }

  /** `sub` occurs in `s` starting at index `i` */
  predicate OccursAt(s: string, sub: string, i: int) {
    0 <= i && i + |sub| <= |s| && s[i..i + |sub|] == sub
  }


  /** `s.indexOf(sub, from)`: the first occurrence at or after `from`, or -1 */
  function IndexOf(s: string, sub: string, from: nat): (r: int)
    decreases |s| - from
    ensures r == -1 || (from <= r && r + |sub| <= |s|)
  {
    if from + |sub| > |s| then -1
    else if s[from..from + |sub|] == sub then from
    else IndexOf(s, sub, from + 1)
  }

  /** A found index is an occurrence, and the first one at or after `from`. */
  lemma {:induction false} IndexOfFound(s: string, sub: string, from: nat)
    requires IndexOf(s, sub, from) != -1
    ensures OccursAt(s, sub, IndexOf(s, sub, from))
    ensures forall i :: from <= i < IndexOf(s, sub, from) ==> !OccursAt(s, sub, i)
    decreases |s| - from
  {
    if from + |sub| <= |s| && s[from..from + |sub|] != sub {
      IndexOfFound(s, sub, from + 1);
    }
  }

  /** -1 means there is no occurrence at or after `from`. */
  lemma {:induction false} IndexOfNone(s: string, sub: string, from: nat)
    requires IndexOf(s, sub, from) == -1
    ensures forall i :: from <= i ==> !OccursAt(s, sub, i)
    decreases |s| - from
  {
    if from + |sub| <= |s| {
      IndexOfNone(s, sub, from + 1);
    }
  }

  /** `s.contains(sub)` */
  predicate Contains(s: string, sub: string) {
    IndexOf(s, sub, 0) != -1
  }

  lemma ContainsIffOccurs(s: string, sub: string)
    ensures Contains(s, sub) <==> exists i :: OccursAt(s, sub, i)
  {
    if IndexOf(s, sub, 0) != -1 {
      IndexOfFound(s, sub, 0);
      assert OccursAt(s, sub, IndexOf(s, sub, 0));
    } else {
      IndexOfNone(s, sub, 0);
    }
  }

  /** An occurrence starts with the pattern's first character. */
  lemma OccursHead(s: string, sub: string, i: int)
    requires OccursAt(s, sub, i) && |sub| > 0
    ensures s[i] == sub[0]
  {
    assert s[i..i + |sub|][0] == s[i];
  }

  // ---------------------------------------------------------------------
  // split / join on a one-character delimiter
  // ---------------------------------------------------------------------

  /** Number of occurrences of `c` in `s` */
  function Count(s: string, c: char): nat {
    if |s| == 0 then 0 else (if s[0] == c then 1 else 0) + Count(s[1..], c)
  }

  /**
   * `s.split(c)` with Kotlin's semantics for a one-character delimiter and
   * no limit: every piece is kept, including empty leading and trailing ones.
   */
  function Split(s: string, c: char): (r: seq<string>)
    ensures |r| >= 1
  {
    if |s| == 0 then [""]
    else
      var rest := Split(s[1..], c);
      if s[0] == c then [""] + rest
      else [[s[0]] + rest[0]] + rest[1..]
  }

  /** `parts.joinToString(c)` */
  function Join(parts: seq<string>, c: char): string {
    if |parts| == 0 then ""
    else if |parts| == 1 then parts[0]
    else parts[0] + [c] + Join(parts[1..], c)
  }

  lemma {:induction false} SplitCount(s: string, c: char)
    ensures |Split(s, c)| == Count(s, c) + 1
  {
    if |s| > 0 {
      SplitCount(s[1..], c);
    }
  }

  lemma {:induction false} SplitPiecesHaveNoDelimiter(s: string, c: char)
    ensures forall k :: 0 <= k < |Split(s, c)| ==> c !in Split(s, c)[k]
  {
    if |s| > 0 {
      SplitPiecesHaveNoDelimiter(s[1..], c);
      var rest := Split(s[1..], c);
      if s[0] != c {
        assert c !in rest[0];
        assert c !in [s[0]] + rest[0];
      }
    }
  }

  lemma {:induction false} JoinSplit(s: string, c: char)
    ensures Join(Split(s, c), c) == s
  {
    if |s| > 0 {
      JoinSplit(s[1..], c);
      var rest := Split(s[1..], c);
      if s[0] == c {
        assert Split(s, c) == [""] + rest;
        if |rest| == 1 {
          assert Join(Split(s, c), c) == "" + [c] + rest[0];
        } else {
          assert (Split(s, c))[1..] == rest;
        }
      } else {
        var r := Split(s, c);
        if |rest| == 1 {
          assert r == [[s[0]] + rest[0]];
        } else {
          assert r[1..] == rest[1..];
          assert Join(r, c) == [s[0]] + rest[0] + [c] + Join(rest[1..], c);
          assert Join(rest, c) == rest[0] + [c] + Join(rest[1..], c);
        }
      }
    }
  }

  /** A string without the delimiter splits into itself alone. */
  lemma {:induction false} SplitWithoutDelimiter(s: string, c: char)
    requires c !in s
    ensures Split(s, c) == [s]
  {
    if |s| > 0 {
      assert c !in s[1..] by {
        forall i | 0 <= i < |s[1..]| ensures s[1..][i] != c { assert s[1..][i] == s[i + 1]; }
      }
      SplitWithoutDelimiter(s[1..], c);
      assert [s[0]] + s[1..] == s;
    }
  }

  /** The first delimiter ends the first piece. */
  lemma {:induction false} SplitAround(a: string, c: char, b: string)
    requires c !in a
    ensures Split(a + [c] + b, c) == [a] + Split(b, c)
  {
    var s := a + [c] + b;
    if |a| == 0 {
      assert s[0] == c && s[1..] == b;
    } else {
      assert s[0] == a[0] != c;
      assert s[1..] == a[1..] + [c] + b;
      assert c !in a[1..] by {
        forall i | 0 <= i < |a[1..]| ensures a[1..][i] != c { assert a[1..][i] == a[i + 1]; }
      }
      SplitAround(a[1..], c, b);
      assert [a[0]] + a[1..] == a;
    }
  }

  /** More than one piece means the delimiter occurs. */
  lemma SplitManyHasDelimiter(s: string, c: char)
    requires |Split(s, c)| > 1
    ensures c in s
  {
    if c !in s {
      SplitWithoutDelimiter(s, c);
    }
  }

  /** A trailing delimiter adds exactly one empty trailing piece. */
  lemma {:induction false} SplitTrailingDelimiter(s: string, c: char)
    ensures Split(s + [c], c) == Split(s, c) + [""]
  {
    if |s| == 0 {
      assert [c][1..] == [];
    } else {
      assert (s + [c])[1..] == s[1..] + [c];
      SplitTrailingDelimiter(s[1..], c);
    }
  }

  // ---------------------------------------------------------------------
  // replace(pattern, "") and replaceFirst(pattern, "")
  // ---------------------------------------------------------------------

  /** `s.replace(pat, "")`: every non-overlapping occurrence, scanned left to right, removed */
  function RemoveAll(s: string, pat: string): (r: string)
    requires |pat| > 0
    decreases |s|
    ensures |r| <= |s|
  {
    if |s| < |pat| then s
    else if s[..|pat|] == pat then RemoveAll(s[|pat|..], pat)
    else [s[0]] + RemoveAll(s[1..], pat)
  }

  /** A string in which the pattern does not occur is left as it is. */
  lemma {:induction false} RemoveAllAbsent(s: string, pat: string)
    requires |pat| > 0
    requires !Contains(s, pat)
    ensures RemoveAll(s, pat) == s
  {
    if |s| >= |pat| {
      ContainsIffOccurs(s, pat);
      assert !OccursAt(s, pat, 0);
      assert !Contains(s[1..], pat) by {
        ContainsIffOccurs(s[1..], pat);
        forall i | 0 <= i && i + |pat| <= |s[1..]| ensures !OccursAt(s[1..], pat, i) {
          assert s[1..][i..i + |pat|] == s[i + 1..i + 1 + |pat|];
          assert !OccursAt(s, pat, i + 1);
        }
      }
      RemoveAllAbsent(s[1..], pat);
      assert [s[0]] + s[1..] == s;
    }
  }

  /** `s.replaceFirst(pat, "")` for a pattern without regular-expression metacharacters */
  function RemoveFirst(s: string, pat: string): (r: string)
    ensures Contains(s, pat) ==> |r| == |s| - |pat|
    ensures !Contains(s, pat) ==> r == s
  {
    var i := IndexOf(s, pat, 0);
    if i == -1 then s else s[..i] + s[i + |pat|..]
  }

  /** A leading occurrence is the one `replaceFirst` removes. */
  lemma RemoveFirstPrefix(p: string, rest: string)
    ensures RemoveFirst(p + rest, p) == rest
  {
    var s := p + rest;
    assert OccursAt(s, p, 0) by { assert s[0..|p|] == p; }
    ContainsIffOccurs(s, p);
    IndexOfFound(s, p, 0);
    assert s[|p|..] == rest;
  }

  // ---------------------------------------------------------------------
  // lowercase, whitespace
  // ---------------------------------------------------------------------

  function LowerChar(c: char): (r: char)
    ensures 'A' <= c <= 'Z' ==> 'a' <= r <= 'z'
    ensures !('A' <= c <= 'Z') ==> r == c
  {
    if 'A' <= c <= 'Z' then (c as int + 32) as char else c
  }

  /** `s.lowercase()`, for the ASCII letters */
  function Lower(s: string): (r: string)
    ensures |r| == |s|
    ensures forall i :: 0 <= i < |s| ==> r[i] == LowerChar(s[i])
  {
    seq(|s|, i requires 0 <= i < |s| => LowerChar(s[i]))
  }

  /** Kotlin's `Char.isWhitespace()`: Java whitespace or a Unicode space separator */
  predicate IsWhitespace(c: char) {
    var n := c as int;
    n == 0x20 || (0x09 <= n <= 0x0D) || (0x1C <= n <= 0x1F)
    || n == 0xA0 || n == 0x1680 || (0x2000 <= n <= 0x200A)
    || n == 0x2028 || n == 0x2029 || n == 0x202F || n == 0x205F || n == 0x3000
  }

  /** `s.isBlank()`; equivalently `s.trim().isEmpty()` */
  predicate IsBlank(s: string) {
    forall i :: 0 <= i < |s| ==> IsWhitespace(s[i])
  }

  // ---------------------------------------------------------------------
  // Decimal numbers
  // ---------------------------------------------------------------------

  const INT_MIN: int := -0x8000_0000
  const INT_MAX: int := 0x7FFF_FFFF

  predicate InInt32(n: int) { INT_MIN <= n <= INT_MAX }

  predicate IsDigit(c: char) { '0' <= c <= '9' }

  predicate AllDigits(s: string) { forall i :: 0 <= i < |s| ==> IsDigit(s[i]) }

  function DigitChar(d: nat): (c: char)
    requires d < 10
    ensures IsDigit(c) && c as int - '0' as int == d
  {
    ('0' as int + d) as char
  }

  /** The value of a string of decimal digits, read left to right */
  function DigitsValue(s: string): nat
    requires AllDigits(s)
  {
    if |s| == 0 then 0
    else DigitsValue(s[..|s| - 1]) * 10 + (s[|s| - 1] as int - '0' as int)
  }

  /** `n.toString()` for a natural number: no sign, no leading zero */
  function NatToString(n: nat): (s: string)
    ensures |s| >= 1 && AllDigits(s)
    ensures |s| > 1 ==> s[0] != '0'
  {
    if n < 10 then [DigitChar(n)] else NatToString(n / 10) + [DigitChar(n % 10)]
  }

  /** `n.toString()` */
  function IntToString(n: int): (s: string)
    ensures |s| >= 1
  {
    if n < 0 then "-" + NatToString(-n) else NatToString(n)
  }

  /** `s.toInt()`: an optional sign and decimal digits, within the 32-bit range */
  function ParseInt(s: string): (r: Option<int>)
    ensures r.Some? ==> InInt32(r.value)
  {
    if |s| == 0 then None
    else if s[0] == '-' || s[0] == '+' then
      if |s| == 1 || !AllDigits(s[1..]) then None
      else
        var v: int := if s[0] == '-' then 0 - (DigitsValue(s[1..]) as int) else DigitsValue(s[1..]);
        if InInt32(v) then Some(v) else None
    else if AllDigits(s) then
      var v := DigitsValue(s);
      if InInt32(v) then Some(v) else None
    else None
  }

  lemma {:induction false} DigitsOfNatToString(n: nat)
    ensures DigitsValue(NatToString(n)) == n
  {
    if n >= 10 {
      DigitsOfNatToString(n / 10);
      var s := NatToString(n);
      assert s[..|s| - 1] == NatToString(n / 10);
    }
  }

  /** Printing then parsing a 32-bit integer gives it back. */
  lemma ParseIntToString(n: int)
    requires InInt32(n)
    ensures ParseInt(IntToString(n)) == Some(n)
  {
    if n < 0 {
      ParseNegativeToString(n);
    } else {
      ParseNatToString(n);
    }
  }

  lemma ParseNegativeToString(n: int)
    requires INT_MIN <= n < 0
    ensures ParseInt(IntToString(n)) == Some(n)
  {
    var s := IntToString(n);
    var digits := NatToString(-n);
    assert s == "-" + digits;
    assert s[0] == '-' && s[1..] == digits && |s| > 1;
    DigitsOfNatToString(-n);
    assert DigitsValue(s[1..]) == -n;
  }

  lemma ParseNatToString(n: int)
    requires 0 <= n <= INT_MAX
    ensures ParseInt(IntToString(n)) == Some(n)
  {
    var s := IntToString(n);
    assert s == NatToString(n);
    assert IsDigit(s[0]);
    DigitsOfNatToString(n);
  }

  /** A printed number is an optional minus sign followed by digits. */
  lemma IntToStringShape(n: int)
    ensures var s := IntToString(n);
      (n < 0 ==> s[0] == '-' && AllDigits(s[1..]) && |s| >= 2) && (n >= 0 ==> AllDigits(s))
  {
    if n < 0 {
      assert IntToString(n)[1..] == NatToString(-n);
    }
  }
}
