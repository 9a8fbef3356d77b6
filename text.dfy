/**
 * The JavaScript string operations the pages rely on: `trim`, ASCII case folding,
 * `includes`, `split(',')[0]`, number-to-string conversion and `a || b || ...` fallback chains.
 */
module Text {
  import opened Common

  /** ECMAScript WhiteSpace and LineTerminator code points: what `trim` strips and `\s` matches. */
  predicate IsSpace(c: char) {
    c == ' ' || c == '\t' || c == '\n' || c == '\r' || c == '\U{000B}' || c == '\U{000C}'
    || c == '\U{00A0}' || c == '\U{1680}' || ('\U{2000}' <= c <= '\U{200A}')
    || c == '\U{2028}' || c == '\U{2029}' || c == '\U{202F}' || c == '\U{205F}'
    || c == '\U{3000}' || c == '\U{FEFF}'
  }

  function TrimStart(s: string): (r: string)
    ensures r == [] || !IsSpace(r[0])
    ensures |r| <= |s| && r == s[|s| - |r|..]
    ensures forall i :: 0 <= i < |s| - |r| ==> IsSpace(s[i])
  {
    if s != [] && IsSpace(s[0]) then TrimStart(s[1..]) else s
  }

  function TrimEnd(s: string): (r: string)
    ensures r == [] || !IsSpace(r[|r| - 1])
    ensures |r| <= |s| && r == s[..|r|]
    ensures forall i :: |r| <= i < |s| ==> IsSpace(s[i])
  {
    if s != [] && IsSpace(s[|s| - 1]) then TrimEnd(s[..|s| - 1]) else s
  }

  /** `String.prototype.trim`. */
  function Trim(s: string): (r: string)
    ensures r == [] || (!IsSpace(r[0]) && !IsSpace(r[|r| - 1]))
    ensures r == [] <==> forall i :: 0 <= i < |s| ==> IsSpace(s[i])
    ensures |r| <= |s|
  {
    var t := TrimStart(s);
    var r := TrimEnd(t);
    assert r != [] ==> r[0] == t[0];
    r
  }

  /** Trimming a string that was already trimmed leaves it unchanged. */
  lemma TrimIdempotent(s: string)
    ensures Trim(Trim(s)) == Trim(s)
  {
    var r := Trim(s);
    assert TrimStart(r) == r;
    assert TrimEnd(r) == r;
  }

  /** A string with no whitespace at either end is its own trim. */
  lemma TrimUnchanged(s: string)
    requires s == [] || (!IsSpace(s[0]) && !IsSpace(s[|s| - 1]))
    ensures Trim(s) == s
  {
    assert TrimStart(s) == s;
    assert TrimEnd(s) == s;
  }

  /** Every character of `s` is whitespace. */
  predicate AllSpace(s: string) {
    forall i :: 0 <= i < |s| ==> IsSpace(s[i])
  }

  /** Leading whitespace added to a text is stripped with the text's own. */
  lemma {:induction false} TrimStartOfPrefixed(w: string, s: string)
    requires AllSpace(w)
    ensures TrimStart(w + s) == TrimStart(s)
  {
    if w == [] {
      assert w + s == s;
    } else {
      assert (w + s)[0] == w[0];
      assert (w + s)[1..] == w[1..] + s;
      TrimStartOfPrefixed(w[1..], s);
    }
  }

  /** Trailing whitespace added to a text is stripped with the text's own. */
  lemma {:induction false} TrimEndOfSuffixed(s: string, w: string)
    requires AllSpace(w)
    ensures TrimEnd(s + w) == TrimEnd(s)
  {
    if w == [] {
      assert s + w == s;
    } else {
      var u := s + w;
      assert u[|u| - 1] == w[|w| - 1];
      assert u[..|u| - 1] == s + w[..|w| - 1];
      TrimEndOfSuffixed(s, w[..|w| - 1]);
    }
  }

  /** A whitespace-only text trims to nothing from the start. */
  lemma TrimStartOfAllSpace(w: string)
    requires AllSpace(w)
    ensures TrimStart(w) == []
  {
  }

  /** Trailing whitespace does not change a text's trim. */
  lemma {:induction false} TrimOfSuffixed(s: string, w: string)
    requires AllSpace(w)
    ensures TrimEnd(TrimStart(s + w)) == TrimEnd(TrimStart(s))
  {
    if s == [] {
      assert s + w == w;
      TrimStartOfAllSpace(w);
    } else if IsSpace(s[0]) {
      assert (s + w)[0] == s[0];
      assert (s + w)[1..] == s[1..] + w;
      TrimOfSuffixed(s[1..], w);
    } else {
      assert (s + w)[0] == s[0];
      TrimEndOfSuffixed(s, w);
    }
  }

  /** Whitespace added around a text does not change its trim. */
  lemma TrimOfPadded(w1: string, s: string, w2: string)
    requires AllSpace(w1) && AllSpace(w2)
    ensures Trim(w1 + s + w2) == Trim(s)
  {
    TrimOfSuffixed(w1 + s, w2);
    TrimStartOfPrefixed(w1, s);
  }

  /** `!s.trim()`: the string is empty or whitespace only. */
  predicate IsBlank(s: string) {
    Trim(s) == []
  }

  /** `s.trim() || null`: the trimmed text, or nothing when it is blank. */
  function TrimOrNull(s: string): (r: Option<string>)
    ensures r == None <==> IsBlank(s)
    ensures r.Some? ==> r.value == Trim(s) && r.value != []
  {
    if IsBlank(s) then None else Some(Trim(s))
  }

  function LowerChar(c: char): (r: char)
    ensures 'A' <= c <= 'Z' ==> r as int == c as int + 32
    ensures !('A' <= c <= 'Z') ==> r == c
  {
    if 'A' <= c <= 'Z' then (c as int + 32) as char else c
  }

  /** Lowering a character never makes it whitespace or stops it being whitespace. */
  lemma LowerCharKeepsSpace(c: char)
    ensures IsSpace(LowerChar(c)) == IsSpace(c)
  {
    if 'A' <= c <= 'Z' {
      assert !IsSpace(c);
      assert 'a' <= LowerChar(c) <= 'z';
    }
  }

  /** `String.prototype.toLowerCase` on the ASCII letters. */
  function Lower(s: string): (r: string)
    ensures |r| == |s|
    ensures forall i :: 0 <= i < |s| ==> r[i] == LowerChar(s[i])
  {
    if s == [] then [] else [LowerChar(s[0])] + Lower(s[1..])
  }

  /** Lowering twice is lowering once. */
  lemma LowerIdempotent(s: string)
    ensures Lower(Lower(s)) == Lower(s)
  {
    assert forall i :: 0 <= i < |s| ==> Lower(Lower(s))[i] == Lower(s)[i];
  }

  /** Lowering commutes with stripping leading whitespace. */
  lemma {:induction false} TrimStartOfLower(s: string)
    ensures TrimStart(Lower(s)) == Lower(TrimStart(s))
  {
    if s != [] {
      LowerCharKeepsSpace(s[0]);
      assert Lower(s)[1..] == Lower(s[1..]);
      TrimStartOfLower(s[1..]);
    }
  }

  /** Lowering commutes with stripping trailing whitespace. */
  lemma {:induction false} TrimEndOfLower(s: string)
    ensures TrimEnd(Lower(s)) == Lower(TrimEnd(s))
  {
    if s != [] {
      LowerCharKeepsSpace(s[|s| - 1]);
      assert Lower(s)[..|s| - 1] == Lower(s[..|s| - 1]);
      TrimEndOfLower(s[..|s| - 1]);
    }
  }

  /** Lowering commutes with trimming, since it maps whitespace to whitespace and nothing else to it. */
  lemma TrimOfLower(s: string)
    ensures Trim(Lower(s)) == Lower(Trim(s))
  {
    TrimStartOfLower(s);
    TrimEndOfLower(TrimStart(s));
  }

  /** A capitalised word is lowered by lowering its first letter only. */
  lemma LowerCapitalised(s: string)
    requires s != [] && forall i :: 1 <= i < |s| ==> !('A' <= s[i] <= 'Z')
    ensures Lower(s) == [LowerChar(s[0])] + s[1..]
  {
    LowerUnchanged(s[1..]);
    assert Lower(s) == [LowerChar(s[0])] + Lower(s[1..]);
  }

  /** A text without upper-case letters is its own lower case. */
  lemma LowerUnchanged(t: string)
    requires forall i :: 0 <= i < |t| ==> !('A' <= t[i] <= 'Z')
    ensures Lower(t) == t
  {
    assert forall i :: 0 <= i < |t| ==> Lower(t)[i] == t[i];
  }

  /** `s.includes(pat)`. */
  predicate Contains(s: string, pat: string) {
    exists i | 0 <= i <= |s| - |pat| :: MatchAt(s, pat, i)
  }

  /** `pat` occurs in `s` starting at position `i`. */
  predicate MatchAt(s: string, pat: string, i: int) {
    0 <= i && i + |pat| <= |s| && s[i..i + |pat|] == pat
  }

  /** Every character of a contained pattern occurs in the containing string. */
  lemma ContainsChars(s: string, pat: string, k: nat)
    requires Contains(s, pat) && k < |pat|
    ensures pat[k] in s
  {
    var i :| 0 <= i <= |s| - |pat| && MatchAt(s, pat, i);
    assert s[i + k] == pat[k];
  }

  predicate IsDigit(c: char) {
    '0' <= c <= '9'
  }

  predicate AllDigits(s: string) {
    forall i :: 0 <= i < |s| ==> IsDigit(s[i])
  }

  /** A string of digits contains a pattern exactly when it contains its lower-cased form. */
  lemma ContainsLowerOfDigits(s: string, pat: string)
    requires AllDigits(s)
    ensures Contains(s, Lower(pat)) <==> Contains(s, pat)
  {
    if Contains(s, pat) {
      forall k | 0 <= k < |pat| ensures IsDigit(pat[k]) {
        var i :| 0 <= i <= |s| - |pat| && MatchAt(s, pat, i);
        assert s[i + k] == pat[k];
      }
      assert Lower(pat) == pat;
    }
    if Contains(s, Lower(pat)) {
      var lp := Lower(pat);
      forall k | 0 <= k < |pat| ensures IsDigit(pat[k]) {
        var i :| 0 <= i <= |s| - |lp| && MatchAt(s, lp, i);
        assert s[i + k] == lp[k] == LowerChar(pat[k]);
      }
      assert Lower(pat) == pat;
    }
  }

  function DigitChar(d: nat): (c: char)
    requires d < 10
    ensures IsDigit(c) && c as int - '0' as int == d
  {
    ('0' as int + d) as char
  }

  /** `String(n)` for a non-negative integer: its decimal digits, without leading zeros. */
  function NatToString(n: nat): (r: string)
    ensures |r| >= 1 && AllDigits(r)
    ensures n >= 10 ==> r[0] != '0'
  {
    if n < 10 then [DigitChar(n)] else NatToString(n / 10) + [DigitChar(n % 10)]
  }

  /** The number that a string of decimal digits denotes. */
  function DigitsValue(s: string): (n: nat)
    requires AllDigits(s)
  {
    if s == [] then 0 else 10 * DigitsValue(s[..|s| - 1]) + (s[|s| - 1] as int - '0' as int)
  }

  /** Reading back the decimal form of a number gives the number. */
  lemma {:induction false} DigitsValueOfNatToString(n: nat)
    ensures DigitsValue(NatToString(n)) == n
  {
    if n >= 10 {
      DigitsValueOfNatToString(n / 10);
      var s := NatToString(n);
      assert s[..|s| - 1] == NatToString(n / 10);
    }
  }

  /** A number in 1000..9999 has exactly four decimal digits. */
  lemma FourDigits(n: nat)
    requires 1000 <= n <= 9999
    ensures |NatToString(n)| == 4
  {
    assert |NatToString(n / 1000)| == 1;
    assert |NatToString(n / 100)| == 2;
    assert |NatToString(n / 10)| == 3;
  }

  /** `String(n)` for any integer, with a leading '-' when negative. */
  function IntToString(n: int): (r: string)
    ensures |r| >= 1
  {
    if n < 0 then "-" + NatToString(-n) else NatToString(n)
  }

  /** Reads a decimal integer with an optional leading '-'. */
  function ParseInt(s: string): (r: Option<int>)
  {
    if s == [] then None
    else if s[0] == '-' then (if |s| > 1 && AllDigits(s[1..]) then Some(0 - DigitsValue(s[1..]) as int) else None)
    else if AllDigits(s) then Some(DigitsValue(s))
    else None
  }

  /** Reading back the decimal form of an integer gives the integer. */
  lemma ParseIntOfIntToString(n: int)
    ensures ParseInt(IntToString(n)) == Some(n)
  {
    if n < 0 {
      var digits := NatToString(-n);
      DigitsValueOfNatToString(-n);
      ParseIntOfNegated(digits);
      assert IntToString(n) == "-" + digits;
    } else {
      var digits := NatToString(n);
      DigitsValueOfNatToString(n);
      ParseIntOfDigits(digits);
      assert IntToString(n) == digits;
    }
  }

  lemma ParseIntOfDigits(digits: string)
    requires |digits| >= 1 && AllDigits(digits)
    ensures ParseInt(digits) == Some(DigitsValue(digits))
  {
    assert IsDigit(digits[0]);
  }

  lemma ParseIntOfNegated(digits: string)
    requires |digits| >= 1 && AllDigits(digits)
    ensures ParseInt("-" + digits) == Some(0 - DigitsValue(digits))
  {
    var s := "-" + digits;
    assert s[0] == '-' && s[1..] == digits;
  }

  /** `s.split(c)[0]`: the text before the first occurrence of `c`, or all of `s`. */
  function BeforeFirst(s: string, c: char): (r: string)
    ensures c !in r
    ensures |r| <= |s| && r == s[..|r|]
    ensures |r| < |s| ==> s[|r|] == c
  {
    if s == [] || s[0] == c then [] else [s[0]] + BeforeFirst(s[1..], c)
  }

  /** Without the separator `split(c)[0]` is the whole string. */
  lemma BeforeFirstAbsent(s: string, c: char)
    requires c !in s
    ensures BeforeFirst(s, c) == s
  {
  }

  /** Everything after the first separator is ignored by `split(c)[0]`. */
  lemma {:induction false} BeforeFirstOfJoined(s: string, c: char, t: string)
    requires c !in s
    ensures BeforeFirst(s + [c] + t, c) == s
  {
    var u := s + [c] + t;
    if s != [] {
      assert u[0] == s[0] && u[1..] == s[1..] + [c] + t;
      BeforeFirstOfJoined(s[1..], c, t);
    }
  }

  /** `split(c)[0]` is the one prefix that stops at the first `c` or at the end. */
  lemma {:induction false} BeforeFirstUnique(s: string, c: char, r: string)
    requires |r| <= |s| && r == s[..|r|] && c !in r
    requires |r| < |s| ==> s[|r|] == c
    ensures BeforeFirst(s, c) == r
  {
    if r != [] {
      assert s[0] == r[0];
      BeforeFirstUnique(s[1..], c, r[1..]);
    }
  }

  /** `split(c)[0]` of a concatenation: the first part's when it holds a `c`, else all of it. */
  lemma BeforeFirstOfAppend(s: string, t: string, c: char)
    ensures c in s ==> BeforeFirst(s + t, c) == BeforeFirst(s, c)
    ensures c !in s ==> BeforeFirst(s + t, c) == s + BeforeFirst(t, c)
  {
    var r := BeforeFirst(s, c);
    if c in s {
      assert |r| < |s|;
      assert (s + t)[..|r|] == r;
      BeforeFirstUnique(s + t, c, r);
    } else {
      assert r == s[..|s|];
      var q := BeforeFirst(t, c);
      assert (s + t)[..|s + q|] == s + q;
      assert c !in s + q;
      if |s + q| < |s + t| {
        assert (s + t)[|s + q|] == t[|q|];
      }
      BeforeFirstUnique(s + t, c, s + q);
    }
  }

  /** Lowering does not move a separator that is not a letter. */
  lemma BeforeFirstOfLower(s: string, c: char)
    requires !('A' <= c <= 'Z') && !('a' <= c <= 'z')
    ensures BeforeFirst(Lower(s), c) == Lower(BeforeFirst(s, c))
  {
    var r := BeforeFirst(s, c);
    var lr := Lower(r);
    assert Lower(s)[..|r|] == lr by {
      assert forall i :: 0 <= i < |r| ==> Lower(s)[i] == lr[i];
    }
    assert c !in lr by {
      forall i | 0 <= i < |lr| ensures lr[i] != c {
        assert r[i] != c;
      }
    }
    BeforeFirstUnique(Lower(s), c, lr);
  }

  /** JavaScript truthiness of an optional string: present and non-empty. */
  predicate Truthy(o: Option<string>) {
    o.Some? && o.value != []
  }

  /** Position `i` holds the first truthy candidate. */
  predicate FirstTruthyAt(candidates: seq<Option<string>>, i: int)
    requires 0 <= i < |candidates|
  {
    Truthy(candidates[i]) && forall j :: 0 <= j < i ==> !Truthy(candidates[j])
  }

  /** `candidates[k] || ... || fallback`: the candidates from position `k` on. */
  function FirstTruthyFrom(candidates: seq<Option<string>>, k: nat, fallback: string): (r: string)
    requires k <= |candidates|
    ensures (forall i :: k <= i < |candidates| ==> !Truthy(candidates[i])) ==> r == fallback
    ensures forall i ::
      (k <= i < |candidates| && Truthy(candidates[i]) && forall j :: k <= j < i ==> !Truthy(candidates[j])) ==>
        r == candidates[i].value
    ensures r == fallback || exists i :: k <= i < |candidates| && Truthy(candidates[i]) && candidates[i].value == r
    decreases |candidates| - k
  {
    if k == |candidates| then fallback
    else if Truthy(candidates[k]) then candidates[k].value
    else FirstTruthyFrom(candidates, k + 1, fallback)
  }

  /** `a || b || ... || fallback` over optional strings. */
  function FirstTruthy(candidates: seq<Option<string>>, fallback: string): (r: string)
    ensures (forall i :: 0 <= i < |candidates| ==> !Truthy(candidates[i])) ==> r == fallback
    ensures forall i :: 0 <= i < |candidates| && FirstTruthyAt(candidates, i) ==> r == candidates[i].value
    ensures r == fallback || exists i :: 0 <= i < |candidates| && Truthy(candidates[i]) && candidates[i].value == r
  {
    FirstTruthyFrom(candidates, 0, fallback)
  }
}
