/**
 * Character classes and small string helpers shared by the scanners that
 * stand in for the program's regular expressions and string methods.
 * Letters, digits and word characters are the ASCII ones.
 */
module Text {
  import opened Wrappers

  /** The whitespace characters beyond Latin-1's control range that Python's `\s` and `str.strip()` accept. */
  const WideSpaces: set<char> :=
    {'\U{85}', '\U{A0}', '\U{1680}', '\U{2000}', '\U{2001}', '\U{2002}', '\U{2003}', '\U{2004}', '\U{2005}',
     '\U{2006}', '\U{2007}', '\U{2008}', '\U{2009}', '\U{200A}', '\U{2028}', '\U{2029}', '\U{202F}', '\U{205F}', '\U{3000}'}

  /**
   * Whitespace as Python's `\s` and `str.strip()` see it: the control
   * characters tab to carriage return and 0x1C to 0x1F, the space, and the
   * Unicode separators.
   */
  predicate IsSpace(c: char) {
    ('\t' <= c <= '\r') || ('\U{1C}' <= c <= ' ') || ('\U{85}' <= c && c in WideSpaces)
  }

  predicate IsDigit(c: char) {
    '0' <= c <= '9'
  }

  predicate IsLetter(c: char) {
    ('a' <= c <= 'z') || ('A' <= c <= 'Z')
  }

  /** A character of the class `\w`. */
  predicate IsWord(c: char) {
    IsLetter(c) || IsDigit(c) || c == '_'
  }

  /** A character of the class `[a-zA-Z_]`, which may start an identifier. */
  predicate IsIdentStart(c: char) {
    IsLetter(c) || c == '_'
  }

  predicate AllSpace(s: string) {
    forall i :: 0 <= i < |s| ==> IsSpace(s[i])
  }

  predicate AllDigits(s: string) {
    forall i :: 0 <= i < |s| ==> IsDigit(s[i])
  }

  predicate AllWord(s: string) {
    forall i :: 0 <= i < |s| ==> IsWord(s[i])
  }

  predicate StartsWith(s: string, prefix: string) {
    |prefix| <= |s| && s[..|prefix|] == prefix
  }

  /** `sub` occurs in `s` starting at index `i`. */
  predicate OccursAt(s: string, sub: string, i: int) {
    0 <= i <= |s| - |sub| && s[i..i + |sub|] == sub
  }

  /** Python's `sub in s`. */
  predicate Contains(s: string, sub: string) {
    exists i | 0 <= i <= |s| :: OccursAt(s, sub, i)
  }

  /** Lower-casing of one character (ASCII letters only). */
  function LowerChar(c: char): (r: char)
    ensures IsLetter(c) ==> IsLetter(r) && 'a' <= r <= 'z'
    ensures !('A' <= c <= 'Z') ==> r == c
  {
    if 'A' <= c <= 'Z' then (c as int - 'A' as int + 'a' as int) as char else c
  }

  /** Python's `str.lower()`, on ASCII letters. */
  function Lower(s: string): (r: string)
    ensures |r| == |s|
    ensures forall i :: 0 <= i < |s| ==> r[i] == LowerChar(s[i])
  {
    if s == [] then [] else [LowerChar(s[0])] + Lower(s[1..])
  }

  /** The index of the first character at or after `i` that is not whitespace, or |s|. */
  function SkipSpace(s: string, i: nat): (j: nat)
    requires i <= |s|
    ensures i <= j <= |s|
    decreases |s| - i
  {
    if i < |s| && IsSpace(s[i]) then SkipSpace(s, i + 1) else i
  }

  /** `SkipSpace` passes over whitespace only and stops at the first other character. */
  lemma {:induction false} SkipSpaceSpec(s: string, i: nat)
    requires i <= |s|
    ensures AllSpace(s[i..SkipSpace(s, i)])
    ensures SkipSpace(s, i) < |s| ==> !IsSpace(s[SkipSpace(s, i)])
    decreases |s| - i
  {
    if i < |s| && IsSpace(s[i]) {
      SkipSpaceSpec(s, i + 1);
      assert s[i..SkipSpace(s, i)] == [s[i]] + s[i + 1..SkipSpace(s, i)];
    }
  }

  /** `SkipSpace` stops exactly at the end of a whitespace run. */
  lemma {:induction false} SkipSpaceAt(s: string, i: nat, j: nat)
    requires i <= j <= |s| && AllSpace(s[i..j])
    requires j < |s| ==> !IsSpace(s[j])
    ensures SkipSpace(s, i) == j
    decreases j - i
  {
    if i < j {
      assert IsSpace(s[i..j][0]);
      assert s[i + 1..j] == s[i..j][1..];
      SkipSpaceAt(s, i + 1, j);
    }
  }

  /** The index of the first character at or after `i` that is not a word character, or |s|. */
  function SkipWord(s: string, i: nat): (j: nat)
    requires i <= |s|
    ensures i <= j <= |s|
    decreases |s| - i
  {
    if i < |s| && IsWord(s[i]) then SkipWord(s, i + 1) else i
  }

  /** `SkipWord` passes over word characters only and stops at the first other character. */
  lemma {:induction false} SkipWordSpec(s: string, i: nat)
    requires i <= |s|
    ensures AllWord(s[i..SkipWord(s, i)])
    ensures SkipWord(s, i) < |s| ==> !IsWord(s[SkipWord(s, i)])
    decreases |s| - i
  {
    if i < |s| && IsWord(s[i]) {
      SkipWordSpec(s, i + 1);
      assert s[i..SkipWord(s, i)] == [s[i]] + s[i + 1..SkipWord(s, i)];
    }
  }

  /** `SkipWord` stops exactly at the end of a run of word characters. */
  lemma {:induction false} SkipWordAt(s: string, i: nat, j: nat)
    requires i <= j <= |s| && AllWord(s[i..j])
    requires j < |s| ==> !IsWord(s[j])
    ensures SkipWord(s, i) == j
    decreases j - i
  {
    if i < j {
      assert IsWord(s[i..j][0]);
      assert s[i + 1..j] == s[i..j][1..];
      SkipWordAt(s, i + 1, j);
    }
  }

  /**
   * The end of the longest run of digits starting at `i` that is at most
   * `limit` long: a greedy `\d{0,limit}`.
   */
  function SkipDigits(s: string, i: nat, limit: nat): (j: nat)
    requires i <= |s|
    ensures i <= j <= |s| && j - i <= limit
    ensures AllDigits(s[i..j])
    ensures j - i < limit && j < |s| ==> !IsDigit(s[j])
    decreases limit
  {
    if limit > 0 && i < |s| && IsDigit(s[i]) then SkipDigits(s, i + 1, limit - 1) else i
  }

  /** A digit run of at most `limit` that stops where `SkipDigits` would is the one it finds. */
  lemma {:induction false} SkipDigitsAt(s: string, i: nat, limit: nat, j: nat)
    requires i <= j <= |s| && j - i <= limit
    requires AllDigits(s[i..j])
    requires j - i < limit && j < |s| ==> !IsDigit(s[j])
    ensures SkipDigits(s, i, limit) == j
    decreases limit
  {
    if i < j {
      assert s[i + 1..j] == s[i..j][1..];
      assert IsDigit(s[i..j][0]);
      SkipDigitsAt(s, i + 1, limit - 1, j);
    }
  }

  /** `s` with its leading whitespace removed. */
  function TrimStart(s: string): string {
    if s != [] && IsSpace(s[0]) then TrimStart(s[1..]) else s
  }

  /** `s` with its trailing whitespace removed. */
  function TrimEnd(s: string): string {
    if s != [] && IsSpace(s[|s| - 1]) then TrimEnd(s[..|s| - 1]) else s
  }

  /** Trimming the front drops exactly a whitespace prefix, up to the first other character. */
  lemma {:induction false} TrimStartSpec(s: string)
    ensures var r := TrimStart(s);
      |r| <= |s| && r == s[|s| - |r|..] && AllSpace(s[..|s| - |r|]) && (r != [] ==> !IsSpace(r[0]))
  {
    if s != [] && IsSpace(s[0]) {
      TrimStartSpec(s[1..]);
      var r := TrimStart(s[1..]);
      assert s[..|s| - |r|] == [s[0]] + s[1..][..|s| - 1 - |r|];
    }
  }

  /** Trimming the end drops exactly a whitespace suffix, back to the last other character. */
  lemma {:induction false} TrimEndSpec(s: string)
    ensures var r := TrimEnd(s);
      |r| <= |s| && r == s[..|r|] && AllSpace(s[|r|..]) && (r != [] ==> !IsSpace(r[|r| - 1]))
  {
    if s != [] && IsSpace(s[|s| - 1]) {
      var init := s[..|s| - 1];
      TrimEndSpec(init);
      var r := TrimEnd(init);
      assert forall k :: |r| <= k < |init| ==> s[k] == init[|r|..][k - |r|];
    }
  }

  /** Python's `str.strip()`. */
  function Strip(s: string): string {
    TrimEnd(TrimStart(s))
  }

  /** Python's `str.strip()` removes exactly the surrounding whitespace. */
  lemma StripSpec(s: string)
    ensures exists i, j :: 0 <= i <= j <= |s| && Strip(s) == s[i..j] && AllSpace(s[..i]) && AllSpace(s[j..])
    ensures Strip(s) != [] ==> !IsSpace(Strip(s)[0]) && !IsSpace(Strip(s)[|Strip(s)| - 1])
  {
    var t := TrimStart(s);
    var r := TrimEnd(t);
    TrimStartSpec(s);
    TrimEndSpec(t);
    var i := |s| - |t|;
    var j := i + |r|;
    assert r == s[i..j] by {
      assert t == s[i..];
    }
    assert s[j..] == t[|r|..];
    assert 0 <= i <= j <= |s| && Strip(s) == s[i..j] && AllSpace(s[..i]) && AllSpace(s[j..]);
  }

  /** `s.strip()` is empty exactly when `s` is all whitespace. */
  lemma StripEmpty(s: string)
    ensures Strip(s) == [] <==> AllSpace(s)
  {
    StripSpec(s);
    var t := TrimStart(s);
    TrimStartSpec(s);
    if Strip(s) == [] {
      assert AllSpace(t[..|t|]);
      assert s == s[..|s| - |t|] + t;
    } else {
      assert !IsSpace(Strip(s)[0]);
      assert Strip(s)[0] == t[0];
    }
  }

  /** The first index of `c` in `s` (Python's `str.find`, with -1 as None). */
  function Find(s: string, c: char): (r: Option<nat>)
    ensures r.None? <==> c !in s
    ensures r.Some? ==> r.value < |s| && s[r.value] == c && forall k :: 0 <= k < r.value ==> s[k] != c
  {
    if s == [] then None
    else if s[0] == c then Some(0)
    else match Find(s[1..], c)
      case None => None
      case Some(i) => Some(i + 1)
  }

  /** The last index of `c` in `s` (Python's `str.rfind`, with -1 as None). */
  function RFind(s: string, c: char): (r: Option<nat>)
    ensures r.None? <==> c !in s
    ensures r.Some? ==> r.value < |s| && s[r.value] == c && forall k :: r.value < k < |s| ==> s[k] != c
  {
    if s == [] then None
    else if s[|s| - 1] == c then Some(|s| - 1)
    else
      assert s == s[..|s| - 1] + [s[|s| - 1]];
      RFind(s[..|s| - 1], c)
  }

  /** The decimal text of `n`, as Python's `str(n)` gives it for a natural number. */
  function NatToString(n: nat): (r: string)
    ensures r != [] && AllDigits(r)
    decreases n
  {
    var d := ['0' + (n % 10) as char];
    if n < 10 then d else NatToString(n / 10) + d
  }

  /** The number a digit character stands for. */
  function DigitValue(c: char): nat {
    if IsDigit(c) then c as int - '0' as int else 0
  }

  /** The number a run of decimal digits denotes, most significant digit first. */
  function DigitsValue(s: string): nat {
    if s == [] then 0 else DigitsValue(s[..|s| - 1]) * 10 + DigitValue(s[|s| - 1])
  }

  /** Decimal text as Python writes it: digits only, and no leading zero unless it is `0` itself. */
  predicate Canonical(s: string) {
    s != [] && AllDigits(s) && (|s| > 1 ==> s[0] != '0')
  }

  /** `str(n)` is canonical decimal text whose digits denote `n`. */
  lemma {:induction false} NatToStringSpec(n: nat)
    ensures Canonical(NatToString(n)) && DigitsValue(NatToString(n)) == n
    decreases n
  {
    var r := NatToString(n);
    if n >= 10 {
      NatToStringSpec(n / 10);
      var h := NatToString(n / 10);
      assert r[..|r| - 1] == h;
      assert r[0] == h[0];
    }
  }

  /** Different numbers never get the same text. */
  lemma NatToStringInjective(m: nat, n: nat)
    ensures NatToString(m) == NatToString(n) <==> m == n
  {
    NatToStringSpec(m);
    NatToStringSpec(n);
  }

  /** Python's `str(i)` of an integer. */
  function IntToString(i: int): string {
    if i < 0 then "-" + NatToString(-i) else NatToString(i)
  }

  /**
   * The first position `q` at or after `p` (up to |s|, as `re.search`
   * tries) where `m` matches, and what it matched.
   */
  function FirstMatch<T>(s: string, m: (string, nat) -> Option<T>, p: nat): (r: Option<T>)
    ensures r.Some? ==> exists q :: p <= q <= |s| && m(s, q) == r && forall q' :: p <= q' < q ==> m(s, q').None?
    ensures r.None? <==> forall q :: p <= q <= |s| ==> m(s, q).None?
    decreases |s| + 1 - p
  {
    if p > |s| then None
    else if m(s, p).Some? then m(s, p)
    else FirstMatch(s, m, p + 1)
  }
}
