/**
 * Turning the options object of a pasted browser `fetch(url, {...})` command
 * into text that Python's literal evaluator accepts. `get_messages.py` and
 * `delete_message.py` run the same steps: cut the text from the first `{`
 * to the last `}`, rewrite the JavaScript literals `null`, `true` and
 * `false`, quote unquoted keys at the start of a line, then evaluate.
 * Each regular expression is a scanner over the original text, which moves
 * left to right and resumes after each replacement, as `re.sub` does.
 */
module JsCleanup {
  import opened Wrappers
  import opened Text
  import opened PyValue

  // ---------------------------------------------------------------------
  // `re.sub(r'\bword\b', rep, s)`
  // ---------------------------------------------------------------------

  /** Position `k` holds no word character: it is outside the text or holds a non-word character. */
  predicate Boundary(s: string, k: int) {
    k < 0 || k >= |s| || !IsWord(s[k])
  }

  /** `w` occurs at `i` as a whole word: the regex `\bw\b`, for a `w` made of word characters. */
  predicate WholeWordAt(s: string, w: string, i: int) {
    OccursAt(s, w, i) && Boundary(s, i - 1) && Boundary(s, i + |w|)
  }

  /** Position `k` lies inside some whole-word occurrence of `w`. */
  predicate Covered(s: string, w: string, k: int) {
    exists j | k - |w| < j <= k :: WholeWordAt(s, w, j)
  }

  function ReplaceWordFrom(s: string, w: string, rep: string, i: nat): string
    requires w != [] && i <= |s|
    decreases |s| - i
  {
    if i == |s| then []
    else if WholeWordAt(s, w, i) then rep + ReplaceWordFrom(s, w, rep, i + |w|)
    else [s[i]] + ReplaceWordFrom(s, w, rep, i + 1)
  }

  /** `re.sub(r'\b' + w + r'\b', rep, s)`. */
  function ReplaceWord(s: string, w: string, rep: string): string
    requires w != []
  {
    ReplaceWordFrom(s, w, rep, 0)
  }

  /** Two whole-word occurrences of a word never overlap. */
  lemma NoOverlap(s: string, w: string, i: int, j: int)
    requires w != [] && AllWord(w)
    requires WholeWordAt(s, w, i) && i < j < i + |w|
    ensures !WholeWordAt(s, w, j)
  {
    assert s[j - 1] == s[i..i + |w|][j - 1 - i];
  }

  /** The shape of `ReplaceWordFrom(s, w, rep, i)`, character by character. */
  ghost predicate ReplacedFrom(s: string, w: string, rep: string, i: nat, r: string)
    requires i <= |s|
  {
    && |r| == |s| - i
    && (forall j, d :: i <= j && WholeWordAt(s, w, j) && 0 <= d < |w| && d < |rep| ==> r[j - i + d] == rep[d])
    && (forall k :: i <= k < |s| && !Covered(s, w, k) ==> r[k - i] == s[k])
  }

  /** Where `rep` is written: the match at `i` and, past it, the occurrences already replaced. */
  lemma ReplacedFromMatchRep(s: string, w: string, rep: string, i: nat, r': string)
    requires w != [] && i < |s| && |rep| == |w| && |r'| == |s| - (i + |w|)
    requires forall j :: i < j < i + |w| ==> !WholeWordAt(s, w, j)
    requires forall j, d :: i + |w| <= j && WholeWordAt(s, w, j) && 0 <= d < |w| && d < |rep| ==> r'[j - (i + |w|) + d] == rep[d]
    ensures forall j, d :: i <= j && WholeWordAt(s, w, j) && 0 <= d < |w| && d < |rep| ==> (rep + r')[j - i + d] == rep[d]
  {
    var r := rep + r';
    forall j, d | i <= j && WholeWordAt(s, w, j) && 0 <= d < |w| && d < |rep| ensures r[j - i + d] == rep[d] {
      if j != i {
        assert j >= i + |w|;
        assert r[j - i + d] == r'[j - (i + |w|) + d];
      }
    }
  }

  /** The characters left alone lie past the match at `i`, where `r'` already keeps them. */
  lemma ReplacedFromMatchKeep(s: string, w: string, rep: string, i: nat, r': string)
    requires w != [] && i < |s| && WholeWordAt(s, w, i) && |rep| == |w| && |r'| == |s| - (i + |w|)
    requires forall k :: i + |w| <= k < |s| && !Covered(s, w, k) ==> r'[k - (i + |w|)] == s[k]
    ensures forall k :: i <= k < |s| && !Covered(s, w, k) ==> (rep + r')[k - i] == s[k]
  {
    var r := rep + r';
    forall k | i <= k < |s| && !Covered(s, w, k) ensures r[k - i] == s[k] {
      assert k - |w| < i <= k ==> Covered(s, w, k);
      assert r[k - i] == r'[k - (i + |w|)];
    }
  }

  lemma ReplacedFromMatch(s: string, w: string, rep: string, i: nat, r': string)
    requires w != [] && |rep| == |w| && i < |s|
    requires WholeWordAt(s, w, i)
    requires forall j :: i < j < i + |w| ==> !WholeWordAt(s, w, j)
    requires ReplacedFrom(s, w, rep, i + |w|, r')
    ensures ReplacedFrom(s, w, rep, i, rep + r')
  {
    ReplacedFromMatchRep(s, w, rep, i, r');
    ReplacedFromMatchKeep(s, w, rep, i, r');
  }

  /** Past a copied character, `rep` sits where `r'` already put it. */
  lemma ReplacedFromCopyRep(s: string, w: string, rep: string, i: nat, r': string)
    requires w != [] && i < |s| && |rep| == |w| && |r'| == |s| - (i + 1)
    requires forall j, d :: i + 1 <= j && WholeWordAt(s, w, j) && 0 <= d < |w| && d < |rep| ==> r'[j - (i + 1) + d] == rep[d]
    requires !WholeWordAt(s, w, i)
    ensures forall j, d :: i <= j && WholeWordAt(s, w, j) && 0 <= d < |w| && d < |rep| ==> ([s[i]] + r')[j - i + d] == rep[d]
  {
    var r := [s[i]] + r';
    forall j, d | i <= j && WholeWordAt(s, w, j) && 0 <= d < |w| && d < |rep| ensures r[j - i + d] == rep[d] {
      assert j > i;
      assert r[j - i + d] == r'[j - (i + 1) + d];
    }
  }

  /** The copied character is itself, and the ones after it are kept by `r'`. */
  lemma ReplacedFromCopyKeep(s: string, w: string, rep: string, i: nat, r': string)
    requires w != [] && i < |s| && |r'| == |s| - (i + 1)
    requires forall k :: i + 1 <= k < |s| && !Covered(s, w, k) ==> r'[k - (i + 1)] == s[k]
    ensures forall k :: i <= k < |s| && !Covered(s, w, k) ==> ([s[i]] + r')[k - i] == s[k]
  {
    var r := [s[i]] + r';
    forall k | i <= k < |s| && !Covered(s, w, k) ensures r[k - i] == s[k] {
      if k > i { assert r[k - i] == r'[k - (i + 1)]; }
    }
  }

  lemma ReplacedFromCopy(s: string, w: string, rep: string, i: nat, r': string)
    requires w != [] && |rep| == |w| && i < |s|
    requires ReplacedFrom(s, w, rep, i + 1, r')
    requires forall j :: i - |w| < j <= i ==> !WholeWordAt(s, w, j)
    ensures ReplacedFrom(s, w, rep, i, [s[i]] + r')
  {
    ReplacedFromCopyRep(s, w, rep, i, r');
    ReplacedFromCopyKeep(s, w, rep, i, r');
  }

  lemma {:induction false} ReplaceWordFromSpec(s: string, w: string, rep: string, i: nat)
    requires w != [] && AllWord(w) && |rep| == |w| && i <= |s|
    requires forall j :: i - |w| < j < i ==> !WholeWordAt(s, w, j)
    ensures ReplacedFrom(s, w, rep, i, ReplaceWordFrom(s, w, rep, i))
    decreases |s| - i
  {
    if i == |s| {
    } else if WholeWordAt(s, w, i) {
      forall j | i < j < i + |w| ensures !WholeWordAt(s, w, j) { NoOverlap(s, w, i, j); }
      ReplaceWordFromSpec(s, w, rep, i + |w|);
      ReplacedFromMatch(s, w, rep, i, ReplaceWordFrom(s, w, rep, i + |w|));
    } else {
      ReplaceWordFromSpec(s, w, rep, i + 1);
      ReplacedFromCopy(s, w, rep, i, ReplaceWordFrom(s, w, rep, i + 1));
    }
  }

  /**
   * Replacing a whole word by a text of the same length: every whole-word
   * occurrence of `w` becomes `rep`, and every character outside those
   * occurrences is left as it was.
   */
  lemma ReplaceWordSpec(s: string, w: string, rep: string)
    requires w != [] && AllWord(w) && |rep| == |w|
    ensures |ReplaceWord(s, w, rep)| == |s|
    ensures forall j :: WholeWordAt(s, w, j) ==> ReplaceWord(s, w, rep)[j..j + |w|] == rep
    ensures forall k :: 0 <= k < |s| && !Covered(s, w, k) ==> ReplaceWord(s, w, rep)[k] == s[k]
  {
    ReplaceWordFromSpec(s, w, rep, 0);
    var r := ReplaceWord(s, w, rep);
    forall j | WholeWordAt(s, w, j) ensures r[j..j + |w|] == rep {
      forall d | 0 <= d < |w| ensures r[j..j + |w|][d] == rep[d] {
        assert r[j..j + |w|][d] == r[j + d];
      }
    }
  }

  /** A text without a whole-word occurrence of `w` is returned unchanged. */
  lemma ReplaceWordAbsent(s: string, w: string, rep: string)
    requires w != [] && AllWord(w) && |rep| == |w|
    requires forall j :: 0 <= j < |s| ==> !WholeWordAt(s, w, j)
    ensures ReplaceWord(s, w, rep) == s
  {
    ReplaceWordSpec(s, w, rep);
  }

  // ---------------------------------------------------------------------
  // `re.sub(r'(?m)^\s*([a-zA-Z_]\w*)\s*:', r'"\1":', s)`
  // ---------------------------------------------------------------------

  /** `^` in multi-line mode: the start of the text or just after a newline. */
  predicate LineStart(s: string, p: nat) {
    p == 0 || (p <= |s| && s[p - 1] == '\n')
  }

  /** Where a key match found at `p` has its name and its colon. */
  datatype KeySpan = KeySpan(nameStart: nat, nameEnd: nat, colon: nat)

  /**
   * What `(?m)^\s*([a-zA-Z_]\w*)\s*:` asks of the text at `p`: a line start,
   * whitespace up to `q`, an identifier from `q` to `e` that the next
   * character ends, whitespace up to `t`, and a colon at `t`.
   */
  predicate KeyLayout(s: string, p: nat, q: nat, e: nat, t: nat) {
    && p <= q < e <= t < |s| && LineStart(s, p)
    && AllSpace(s[p..q]) && IsIdentStart(s[q]) && AllWord(s[q..e]) && !IsWord(s[e])
    && AllSpace(s[e..t]) && s[t] == ':'
  }

  /**
   * The key pattern tried at position `p`. `\s*` may run across newlines;
   * each `*` is greedy and no shorter choice can lead to a match, so the
   * attempt is deterministic.
   */
  function KeyMatch(s: string, p: nat): (r: Option<KeySpan>)
    requires p <= |s|
    ensures r.Some? ==> p <= r.value.nameStart < r.value.nameEnd <= r.value.colon < |s|
  {
    if !LineStart(s, p) then None
    else
      var q := SkipSpace(s, p);
      if q < |s| && IsIdentStart(s[q]) then
        var e := SkipWord(s, q + 1);
        var t := SkipSpace(s, e);
        if t < |s| && s[t] == ':' then Some(KeySpan(q, e, t)) else None
      else None
  }

  /** What a key match consists of: line start, spaces, identifier, spaces, colon. */
  lemma KeyMatchSpec(s: string, p: nat)
    requires p <= |s| && KeyMatch(s, p).Some?
    ensures var k := KeyMatch(s, p).value;
      && LineStart(s, p)
      && AllSpace(s[p..k.nameStart])
      && IsIdentStart(s[k.nameStart]) && AllWord(s[k.nameStart..k.nameEnd]) && !IsWord(s[k.nameEnd])
      && AllSpace(s[k.nameEnd..k.colon]) && s[k.colon] == ':'
  {
    var k := KeyMatch(s, p).value;
    SkipSpaceSpec(s, p);
    SkipWordSpec(s, k.nameStart + 1);
    SkipSpaceSpec(s, k.nameEnd);
    assert forall i :: k.nameStart < i < k.nameEnd ==> s[i] == s[k.nameStart + 1..k.nameEnd][i - k.nameStart - 1];
  }

  /** A key written in double quotes, its colon, and what follows. */
  function QuotedKey(name: string, rest: string): string {
    "\"" + (name + ("\":" + rest))
  }

  /** The text from `p` on with the keys quoted. */
  function QuoteKeysFrom(s: string, p: nat): string
    requires p <= |s|
    decreases |s| - p, 1
  {
    if p == |s| then [] else QuoteStep(s, p, KeyMatch(s, p))
  }

  /** One step of the substitution at `p`, given what the key pattern matched there. */
  function QuoteStep(s: string, p: nat, m: Option<KeySpan>): string
    requires p < |s|
    requires m.Some? ==> p <= m.value.nameStart < m.value.nameEnd <= m.value.colon < |s|
    decreases |s| - p, 0
  {
    match m
    case Some(k) => QuotedKey(s[k.nameStart..k.nameEnd], QuoteKeysFrom(s, k.colon + 1))
    case None => [s[p]] + QuoteKeysFrom(s, p + 1)
  }

  /** Quoting the unquoted keys that start a line. */
  function QuoteKeys(s: string): string {
    QuoteKeysFrom(s, 0)
  }

  /** The text with its whitespace and double quotes taken out. */
  function Essential(s: string): string {
    if s == [] then []
    else (if IsSpace(s[0]) || s[0] == '"' then [] else [s[0]]) + Essential(s[1..])
  }

  lemma {:induction false} EssentialAppend(a: string, b: string)
    ensures Essential(a + b) == Essential(a) + Essential(b)
  {
    if a == [] {
      assert a + b == b;
    } else {
      assert (a + b)[1..] == a[1..] + b;
      EssentialAppend(a[1..], b);
    }
  }

  lemma {:induction false} EssentialSpace(a: string)
    requires AllSpace(a)
    ensures Essential(a) == []
  {
    if a != [] { EssentialSpace(a[1..]); }
  }

  /** Replacing `pre name mid :` by `"name":` keeps the essential characters. */
  lemma EssentialSplice(pre: string, name: string, mid: string, tail: string, tailOut: string)
    requires AllSpace(pre) && AllSpace(mid)
    requires Essential(tailOut) == Essential(tail)
    ensures Essential("\"" + (name + ("\":" + tailOut))) == Essential(pre + (name + (mid + (":" + tail))))
  {
    EssentialAppend("\"", name + ("\":" + tailOut));
    EssentialAppend(name, "\":" + tailOut);
    EssentialAppend("\":", tailOut);
    assert Essential("\"") == [];
    assert Essential("\":") == [':'];
    EssentialAppend(pre, name + (mid + (":" + tail)));
    EssentialSpace(pre);
    EssentialAppend(name, mid + (":" + tail));
    EssentialAppend(mid, ":" + tail);
    EssentialSpace(mid);
    EssentialAppend(":", tail);
    assert Essential(":") == [':'];
  }

  lemma EssentialCons(c: char, tail: string, tailOut: string)
    requires Essential(tailOut) == Essential(tail)
    ensures Essential([c] + tailOut) == Essential([c] + tail)
  {
    EssentialAppend([c], tail);
    EssentialAppend([c], tailOut);
  }

  /** One step of the rewrite where the scanner finds no key. */
  lemma QuoteKeysFromCopy(s: string, p: nat)
    requires p < |s| && KeyMatch(s, p).None?
    ensures QuoteKeysFrom(s, p) == [s[p]] + QuoteKeysFrom(s, p + 1)
  {
  }

  /** One step of the rewrite where the scanner finds a key. */
  lemma QuoteKeysFromQuote(s: string, p: nat, k: KeySpan, rest: string)
    requires p < |s| && KeyMatch(s, p) == Some(k)
    requires rest == QuoteKeysFrom(s, k.colon + 1)
    ensures QuoteKeysFrom(s, p) == "\"" + (s[k.nameStart..k.nameEnd] + ("\":" + rest))
  {
    assert QuoteKeysFrom(s, p) == QuoteStep(s, p, Some(k));
  }

  lemma SplitAtColon(s: string, p: nat, q: nat, e: nat, t: nat)
    requires p <= q <= e <= t < |s| && s[t] == ':'
    ensures s[p..] == s[p..q] + (s[q..e] + (s[e..t] + (":" + s[t + 1..])))
  {
    assert s[t..] == ":" + s[t + 1..];
    assert s[e..] == s[e..t] + s[t..];
    assert s[q..] == s[q..e] + s[e..];
    assert s[p..] == s[p..q] + s[q..];
  }

  lemma QuoteKeysEssentialQuoteStep(s: string, p: nat, k: KeySpan, rest: string)
    requires p < |s| && KeyMatch(s, p) == Some(k)
    requires Essential(rest) == Essential(s[k.colon + 1..])
    ensures Essential("\"" + (s[k.nameStart..k.nameEnd] + ("\":" + rest))) == Essential(s[p..])
  {
    KeyMatchGaps(s, p, k);
    EssentialSplice(s[p..k.nameStart], s[k.nameStart..k.nameEnd], s[k.nameEnd..k.colon], s[k.colon + 1..], rest);
    SplitAtColon(s, p, k.nameStart, k.nameEnd, k.colon);
  }

  lemma KeyMatchGaps(s: string, p: nat, k: KeySpan)
    requires p < |s| && KeyMatch(s, p) == Some(k)
    ensures AllSpace(s[p..k.nameStart]) && AllSpace(s[k.nameEnd..k.colon])
  {
    KeyMatchSpec(s, p);
  }

  lemma {:induction false} QuoteKeysFromEssential(s: string, p: nat)
    requires p <= |s|
    ensures Essential(QuoteKeysFrom(s, p)) == Essential(s[p..])
    decreases |s| - p, 1
  {
    if p < |s| {
      if KeyMatch(s, p).Some? {
        QuoteKeysEssentialAtKey(s, p);
      } else {
        QuoteKeysEssentialAtCopy(s, p);
      }
    }
  }

  lemma {:induction false} QuoteKeysEssentialAtKey(s: string, p: nat)
    requires p < |s| && KeyMatch(s, p).Some?
    ensures Essential(QuoteKeysFrom(s, p)) == Essential(s[p..])
    decreases |s| - p, 0
  {
    var k := KeyMatch(s, p).value;
    QuoteKeysFromEssential(s, k.colon + 1);
    QuoteKeysFromQuote(s, p, k, QuoteKeysFrom(s, k.colon + 1));
    QuoteKeysEssentialQuoteStep(s, p, k, QuoteKeysFrom(s, k.colon + 1));
  }

  lemma {:induction false} QuoteKeysEssentialAtCopy(s: string, p: nat)
    requires p < |s| && KeyMatch(s, p).None?
    ensures Essential(QuoteKeysFrom(s, p)) == Essential(s[p..])
    decreases |s| - p, 0
  {
    QuoteKeysFromEssential(s, p + 1);
    QuoteKeysFromCopy(s, p);
    assert s[p..] == [s[p]] + s[p + 1..];
    EssentialCons(s[p], s[p + 1..], QuoteKeysFrom(s, p + 1));
  }

  /**
   * Quoting keys only removes whitespace and inserts double quotes: apart
   * from those, the text is kept character for character, in order.
   */
  lemma QuoteKeysEssential(s: string)
    ensures Essential(QuoteKeys(s)) == Essential(s)
  {
    QuoteKeysFromEssential(s, 0);
  }

  lemma {:induction false} QuoteKeysFromNoMatch(s: string, p: nat)
    requires p <= |s|
    requires forall q :: p <= q < |s| ==> KeyMatch(s, q).None?
    ensures QuoteKeysFrom(s, p) == s[p..]
    decreases |s| - p
  {
    if p < |s| {
      QuoteKeysFromNoMatch(s, p + 1);
      assert s[p..] == [s[p]] + s[p + 1..];
    }
  }

  /** A text in which no line starts with an unquoted key is returned unchanged. */
  lemma QuoteKeysNoMatch(s: string)
    requires forall q :: 0 <= q < |s| ==> KeyMatch(s, q).None?
    ensures QuoteKeys(s) == s
  {
    QuoteKeysFromNoMatch(s, 0);
  }

  /** Where the parts of `indent key gap : rest` sit. */
  lemma LineLayout(s: string, indent: string, key: string, gap: string, rest: string)
    requires s == indent + key + gap + ":" + rest
    ensures s[..|indent|] == indent
    ensures s[|indent|..|indent| + |key|] == key
    ensures s[|indent| + |key|..|indent| + |key| + |gap|] == gap
    ensures s[|indent| + |key| + |gap|] == ':'
    ensures s[|indent| + |key| + |gap| + 1..] == rest
  {
  }

  /** On such a line the key pattern matches at the start of the text. */
  lemma LineKeyMatch(s: string, indent: string, key: string, gap: string, rest: string)
    requires s == indent + key + gap + ":" + rest
    requires AllSpace(indent) && AllSpace(gap)
    requires key != [] && IsIdentStart(key[0]) && AllWord(key)
    ensures KeyMatch(s, 0) == Some(KeySpan(|indent|, |indent| + |key|, |indent| + |key| + |gap|))
  {
    LineLayout(s, indent, key, gap, rest);
    var q := |indent|;
    var e := q + |key|;
    var t := e + |gap|;
    assert s[q] == key[0];
    assert !IsWord(s[e]) by {
      if |gap| > 0 { assert s[e] == gap[0]; } else { assert s[e] == ':'; }
    }
    assert s[0..q] == s[..q];
    KeyMatchAt(s, 0, q, e, t);
  }

  /**
   * At a line start, spaces, an identifier, spaces and a colon are matched,
   * at whichever line of the text they stand.
   */
  lemma KeyMatchAt(s: string, p: nat, q: nat, e: nat, t: nat)
    requires KeyLayout(s, p, q, e, t)
    ensures KeyMatch(s, p) == Some(KeySpan(q, e, t))
  {
    SkipSpaceAt(s, p, q);
    assert s[q + 1..e] == s[q..e][1..];
    SkipWordAt(s, q + 1, e);
    SkipSpaceAt(s, e, t);
  }

  /** The key pattern matches at `p` exactly when the text there has the key's layout. */
  lemma KeyMatchIff(s: string, p: nat, q: nat, e: nat, t: nat)
    requires p <= |s|
    ensures KeyMatch(s, p) == Some(KeySpan(q, e, t)) <==> KeyLayout(s, p, q, e, t)
  {
    if KeyMatch(s, p) == Some(KeySpan(q, e, t)) {
      KeyMatchSpec(s, p);
    } else if KeyLayout(s, p, q, e, t) {
      KeyMatchAt(s, p, q, e, t);
    }
  }

  /**
   * At any line start laid out as spaces, an identifier, spaces and a colon,
   * the rewrite writes the identifier in double quotes with the colon and
   * carries on after the colon.
   */
  lemma QuoteKeysAtLine(s: string, p: nat, q: nat, e: nat, t: nat)
    requires KeyLayout(s, p, q, e, t)
    ensures QuoteKeysFrom(s, p) == "\"" + s[q..e] + "\":" + QuoteKeysFrom(s, t + 1)
  {
    KeyMatchAt(s, p, q, e, t);
    var rest := QuoteKeysFrom(s, t + 1);
    QuoteKeysFromQuote(s, p, KeySpan(q, e, t), rest);
    assert "\"" + (s[q..e] + ("\":" + rest)) == "\"" + s[q..e] + "\":" + rest;
  }

  /**
   * At a position where the text has no key layout, the character there is
   * copied and the rewrite goes on with the next one.
   */
  lemma QuoteKeysCopyAt(s: string, p: nat)
    requires p < |s|
    requires forall q, e, t :: !KeyLayout(s, p, q, e, t)
    ensures QuoteKeysFrom(s, p) == [s[p]] + QuoteKeysFrom(s, p + 1)
  {
    if KeyMatch(s, p).Some? {
      var k := KeyMatch(s, p).value;
      KeyMatchIff(s, p, k.nameStart, k.nameEnd, k.colon);
    }
    QuoteKeysFromCopy(s, p);
  }

  /** Text after the colon that holds no newline is copied unchanged. */
  lemma NoLineStartAfter(s: string, t: nat)
    requires t < |s| && s[t] != '\n' && '\n' !in s[t + 1..]
    ensures QuoteKeysFrom(s, t + 1) == s[t + 1..]
  {
    forall p | t + 1 <= p < |s| ensures KeyMatch(s, p).None? {
      assert !LineStart(s, p) by {
        if p - 1 > t { assert s[p - 1] == s[t + 1..][p - 1 - (t + 1)]; }
      }
    }
    QuoteKeysFromNoMatch(s, t + 1);
  }

  /**
   * A line made of optional indentation, an identifier, optional spaces and
   * a colon, followed by text without a newline, becomes `"identifier":`
   * followed by that text.
   */
  lemma QuoteKeyLine(indent: string, key: string, gap: string, rest: string)
    requires AllSpace(indent) && AllSpace(gap)
    requires key != [] && IsIdentStart(key[0]) && AllWord(key)
    requires '\n' !in rest
    ensures QuoteKeys(indent + key + gap + ":" + rest) == "\"" + key + "\":" + rest
  {
    var s := indent + key + gap + ":" + rest;
    var k := KeySpan(|indent|, |indent| + |key|, |indent| + |key| + |gap|);
    LineKeyMatch(s, indent, key, gap, rest);
    LineLayout(s, indent, key, gap, rest);
    QuoteFirstLine(s, k);
    assert "\"" + (key + ("\":" + rest)) == "\"" + key + "\":" + rest;
  }

  /** A key match at the start of a text with no further newline: only that key changes. */
  lemma QuoteFirstLine(s: string, k: KeySpan)
    requires |s| > 0 && KeyMatch(s, 0) == Some(k) && '\n' !in s[k.colon + 1..]
    ensures QuoteKeys(s) == "\"" + (s[k.nameStart..k.nameEnd] + ("\":" + s[k.colon + 1..]))
  {
    KeyMatchSpec(s, 0);
    NoLineStartAfter(s, k.colon);
    QuoteKeysFromQuote(s, 0, k, s[k.colon + 1..]);
  }

  // ---------------------------------------------------------------------
  // The pipeline
  // ---------------------------------------------------------------------

  /**
   * `content[content.find('{') : content.rfind('}') + 1]`, or `None` when
   * either brace is missing. When the last `}` comes before the first `{`,
   * Python's slice is empty.
   */
  function ConfigSlice(content: string): (r: Option<string>)
    ensures r.None? <==> '{' !in content || '}' !in content
    ensures r.Some? && r.value != [] ==>
      && r.value[0] == '{' && r.value[|r.value| - 1] == '}'
      && exists i :: OccursAt(content, r.value, i) && '{' !in content[..i] && '}' !in content[i + |r.value|..]
    ensures r.Some? ==>
      (r.value == [] <==> forall a, b :: 0 <= a <= b < |content| && content[a] == '{' ==> content[b] != '}')
  {
    match (Find(content, '{'), RFind(content, '}'))
    case (Some(i), Some(j)) =>
      if i <= j then
        var c := content[i..j + 1];
        assert OccursAt(content, c, i);
        assert forall k :: 0 <= k < i ==> content[..i][k] == content[k];
        assert forall k :: j + 1 <= k < |content| ==> content[j + 1..][k - j - 1] == content[k];
        Some(c)
      else
        Some([])
    case _ => None
  }

  /** The three literal rewrites and the key quoting, in the order the program applies them. */
  function CleanJs(config: string): string {
    var noNull := ReplaceWord(config, "null", "None");
    var noTrue := ReplaceWord(noNull, "true", "True");
    var noFalse := ReplaceWord(noTrue, "false", "False");
    QuoteKeys(noFalse)
  }

  /** How far parsing the options object of a fetch command got. */
  datatype ConfigParse =
    | NoConfig             // a brace is missing
    | BadConfig            // the literal evaluator raised
    | Config(options: Value)

  /**
   * Cut, clean and evaluate the options object; `eval` stands for
   * `ast.literal_eval` and is `None` where it raises.
   */
  function ParseConfig(content: string, eval: string -> Option<Value>): (r: ConfigParse)
    ensures r.NoConfig? <==> '{' !in content || '}' !in content
    ensures r.BadConfig? <==> ConfigSlice(content).Some? && eval(CleanJs(ConfigSlice(content).value)).None?
    ensures r.Config? ==> eval(CleanJs(ConfigSlice(content).value)) == Some(r.options)
  {
    match ConfigSlice(content)
    case None => NoConfig
    case Some(c) =>
      match eval(CleanJs(c))
      case None => BadConfig
      case Some(v) => Config(v)
  }
}
