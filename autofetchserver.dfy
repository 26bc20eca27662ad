/**
 * `js_control_tools/autofetchserver.py`: `AuthHeaderSniffer` watches the
 * requests a browser page makes, reports each new authorization header once,
 * and reads the current channel id off the page's URL. The browser itself,
 * the event loop and the cross-thread dispatch are not modelled: the page's
 * current URL and whether the dispatched call answered are parameters.
 */
module AutoFetchServer {
  import opened Wrappers
  import opened Text
  import opened PyValue

  // ---------------------------------------------------------------------
  // `extract_auth`
  // ---------------------------------------------------------------------

  /** A request's headers, in iteration order. */
  type Headers = seq<(string, string)>

  /** `AUTH_KEYS`. */
  predicate IsAuthName(lowered: string) {
    lowered == "authorization" || lowered == "proxy-authorization"
  }

  /** The condition `extract_auth` tests for each header. */
  predicate IsAuthHeader(name: string, value: string) {
    IsAuthName(Lower(name)) && Strip(value) != []
  }

  /** The first element of `xs` satisfying `p`: a for-loop with an early return. */
  function FirstWhere<T>(xs: seq<T>, p: T -> bool): Option<T> {
    if xs == [] then None
    else if p(xs[0]) then Some(xs[0])
    else FirstWhere(xs[1..], p)
  }

  lemma {:induction false} FirstWhereSpec<T>(xs: seq<T>, p: T -> bool)
    ensures FirstWhere(xs, p).None? <==> forall i :: 0 <= i < |xs| ==> !p(xs[i])
    ensures FirstWhere(xs, p).Some? ==>
      exists i :: 0 <= i < |xs| && xs[i] == FirstWhere(xs, p).value && p(xs[i]) && forall j :: 0 <= j < i ==> !p(xs[j])
  {
    if xs != [] && !p(xs[0]) {
      var tail := xs[1..];
      FirstWhereSpec(tail, p);
      assert forall i :: 1 <= i < |xs| ==> xs[i] == tail[i - 1];
      if FirstWhere(tail, p).Some? {
        var i :| 0 <= i < |tail| && tail[i] == FirstWhere(tail, p).value && p(tail[i]) && forall j :: 0 <= j < i ==> !p(tail[j]);
        assert xs[i + 1] == tail[i];
      }
    }
  }

  /** `extract_auth`: the first authorization header with a non-blank value, name and value as they were. */
  function ExtractAuth(headers: Headers): Option<(string, string)> {
    FirstWhere(headers, (h: (string, string)) => IsAuthHeader(h.0, h.1))
  }

  /**
   * `extract_auth` returns the first qualifying header in iteration order,
   * and None exactly when no header qualifies.
   */
  lemma ExtractAuthSpec(headers: Headers)
    ensures ExtractAuth(headers).None? <==> forall i :: 0 <= i < |headers| ==> !IsAuthHeader(headers[i].0, headers[i].1)
    ensures ExtractAuth(headers).Some? ==>
      exists i :: 0 <= i < |headers| && headers[i] == ExtractAuth(headers).value
        && IsAuthHeader(headers[i].0, headers[i].1)
        && forall j :: 0 <= j < i ==> !IsAuthHeader(headers[j].0, headers[j].1)
  {
    FirstWhereSpec(headers, (h: (string, string)) => IsAuthHeader(h.0, h.1));
  }

  /** A header qualifies exactly when its name is an authorization name and its value is not all whitespace. */
  lemma AuthHeaderIff(name: string, value: string)
    ensures IsAuthHeader(name, value) <==> IsAuthName(Lower(name)) && !AllSpace(value)
  {
    StripEmpty(value);
  }

  // ---------------------------------------------------------------------
  // `__init__`: `if not re.match(r"^https?://", url): url = "https://" + url`
  // ---------------------------------------------------------------------

  predicate HasScheme(url: string) {
    StartsWith(url, "http://") || StartsWith(url, "https://")
  }

  function NormalizeUrl(url: string): (r: string)
    ensures HasScheme(r)
    ensures HasScheme(url) ==> r == url
    ensures !HasScheme(url) ==> r == "https://" + url
  {
    if HasScheme(url) then url
    else
      var r := "https://" + url;
      assert r[..8] == "https://";
      r
  }

  /** Normalising twice is normalising once. */
  lemma NormalizeUrlIdempotent(url: string)
    ensures NormalizeUrl(NormalizeUrl(url)) == NormalizeUrl(url)
  {
  }

  // ---------------------------------------------------------------------
  // `_on_request` and the `_seen` set
  // ---------------------------------------------------------------------

  /** One `on_found(req.url, name, value)` call. */
  datatype Finding = Finding(url: string, name: string, value: string)

  /** The de-duplication key of a finding: the lower-cased name and the value. */
  function Key(name: string, value: string): (string, string) {
    (Lower(name), value)
  }

  function KeyOf(f: Finding): (string, string) {
    Key(f.name, f.value)
  }

  function KeysOf(found: seq<Finding>): set<(string, string)> {
    set i | 0 <= i < |found| :: KeyOf(found[i])
  }

  /** The `_seen` set records exactly the keys reported, and no key is reported twice. */
  ghost predicate Deduped(seen: set<(string, string)>, found: seq<Finding>) {
    && seen == KeysOf(found)
    && forall i, j :: 0 <= i < j < |found| ==> KeyOf(found[i]) != KeyOf(found[j])
  }

  /** The sniffer's state after handling one request. */
  datatype Sniffed = Sniffed(seen: set<(string, string)>, found: seq<Finding>)

  /** The key of the authorization header in `headers`, if it has one, is in `seen`. */
  predicate Saw(seen: set<(string, string)>, headers: Headers) {
    match ExtractAuth(headers)
    case None => true
    case Some((name, value)) => Key(name, value) in seen
  }

  /** `_on_request` on a request to `reqUrl` with `headers`. */
  function OnRequestStep(st: Sniffed, reqUrl: string, headers: Headers): (r: Sniffed)
    ensures st.seen <= r.seen
    ensures ExtractAuth(headers).None? ==> r == st
    ensures Saw(r.seen, headers)
  {
    match ExtractAuth(headers)
    case None => st
    case Some((name, value)) =>
      if Key(name, value) in st.seen then st
      else Sniffed(st.seen + {Key(name, value)}, st.found + [Finding(reqUrl, name, value)])
  }

  lemma KeysOfAppend(found: seq<Finding>, f: Finding)
    ensures KeysOf(found + [f]) == KeysOf(found) + {KeyOf(f)}
  {
    var all := found + [f];
    assert forall i :: 0 <= i < |found| ==> all[i] == found[i];
    assert all[|found|] == f;
    forall k | k in KeysOf(all) ensures k in KeysOf(found) + {KeyOf(f)} {
      var i :| 0 <= i < |all| && KeyOf(all[i]) == k;
      if i < |found| {
        assert k == KeyOf(found[i]);
      }
    }
  }

  /** Each request keeps the de-duplication invariant, and a new key is reported once, at the end. */
  lemma OnRequestKeepsDeduped(st: Sniffed, reqUrl: string, headers: Headers)
    requires Deduped(st.seen, st.found)
    ensures Deduped(OnRequestStep(st, reqUrl, headers).seen, OnRequestStep(st, reqUrl, headers).found)
  {
    var r := OnRequestStep(st, reqUrl, headers);
    if r != st {
      var (name, value) := ExtractAuth(headers).value;
      var f := Finding(reqUrl, name, value);
      KeysOfAppend(st.found, f);
      assert forall i :: 0 <= i < |st.found| ==> r.found[i] == st.found[i] && KeyOf(st.found[i]) in st.seen;
      assert r.found[|st.found|] == f;
    }
  }

  /** The state after a sequence of requests, starting from a fresh sniffer. */
  function Sniff(reqs: seq<(string, Headers)>): Sniffed {
    if reqs == [] then Sniffed({}, [])
    else
      var last := reqs[|reqs| - 1];
      OnRequestStep(Sniff(reqs[..|reqs| - 1]), last.0, last.1)
  }

  /** Over any sequence of requests, `on_found` fires at most once per (lower-cased name, value) pair. */
  lemma {:induction false} SniffReportsOnce(reqs: seq<(string, Headers)>)
    ensures Deduped(Sniff(reqs).seen, Sniff(reqs).found)
  {
    if reqs != [] {
      var init := reqs[..|reqs| - 1];
      SniffReportsOnce(init);
      OnRequestKeepsDeduped(Sniff(init), reqs[|reqs| - 1].0, reqs[|reqs| - 1].1);
    }
  }

  /** Every pair that showed up in some request ends up in `_seen`, hence was reported. */
  lemma {:induction false} SniffSeesAll(reqs: seq<(string, Headers)>)
    ensures forall i :: 0 <= i < |reqs| ==> Saw(Sniff(reqs).seen, reqs[i].1)
  {
    if reqs != [] {
      var init := reqs[..|reqs| - 1];
      SniffSeesAll(init);
      var last := reqs[|reqs| - 1];
      var before := Sniff(init).seen;
      var after := OnRequestStep(Sniff(init), last.0, last.1).seen;
      assert after == Sniff(reqs).seen;
      assert Saw(after, last.1);
      forall i | 0 <= i < |reqs| ensures Saw(after, reqs[i].1) {
        if i < |init| {
          assert reqs[i] == init[i];
          SawGrows(before, after, init[i].1);
        } else {
          assert reqs[i] == last;
        }
      }
    }
  }

  lemma SawGrows(s1: set<(string, string)>, s2: set<(string, string)>, headers: Headers)
    requires s1 <= s2 && Saw(s1, headers)
    ensures Saw(s2, headers)
  {
  }

  // ---------------------------------------------------------------------
  // `_get_current_channel_async`: `re.search(r"channels/(?:@me|\d+)/(\d{17,20})", url)`
  // ---------------------------------------------------------------------

  /** `(?:@me|\d+)/` matches at `q`, its `/` at `slash`. */
  ghost predicate GroupMatches(s: string, q: nat, slash: nat) {
    && slash < |s|
    && ((slash == q + 3 && OccursAt(s, "@me", q)) || (q < slash && AllDigits(s[q..slash])))
    && s[slash] == '/'
  }

  /** The greedy `(\d{17,20})` right after `slash` matches `id`. */
  ghost predicate IdMatchesAfter(s: string, slash: nat, id: string) {
    && 17 <= |id| <= 20 && AllDigits(id) && OccursAt(s, id, slash + 1)
    && (|id| < 20 && slash + 1 + |id| < |s| ==> !IsDigit(s[slash + 1 + |id|]))
  }

  /** The regex matches at `p` with group 1 equal to `id`, the slash before it at `slash`. */
  ghost predicate ChannelMatchesAt(s: string, p: nat, slash: nat, id: string) {
    OccursAt(s, "channels/", p) && GroupMatches(s, p + 9, slash) && IdMatchesAfter(s, slash, id)
  }

  /** The position of the `/` after `(?:@me|\d+)` starting at `q`, when that group matches. */
  function GroupEnd(s: string, q: nat): nat
    requires q <= |s|
  {
    if OccursAt(s, "@me", q) then q + 3 else SkipDigits(s, q, |s|)
  }

  /** `(\d{17,20})` after the slash at `slash`. */
  function IdAfterSlash(s: string, slash: nat): Option<string>
    requires slash < |s|
  {
    var e := SkipDigits(s, slash + 1, 20);
    if e - (slash + 1) < 17 then None else Some(s[slash + 1..e])
  }

  /** `(?:@me|\d+)/(\d{17,20})` from `q`. */
  function ChannelTail(s: string, q: nat): Option<string>
    requires q <= |s|
  {
    var slash := GroupEnd(s, q);
    if slash == q || slash >= |s| || s[slash] != '/' then None else IdAfterSlash(s, slash)
  }

  /** The regex tried at `p`. */
  function ChannelAt(s: string, p: nat): Option<string> {
    if OccursAt(s, "channels/", p) then ChannelTail(s, p + 9) else None
  }

  /** The channel id in a page URL: the group of the leftmost match. */
  function ChannelFromUrl(url: string): Option<string> {
    FirstMatch(url, ChannelAt, 0)
  }

  lemma IdAfterSlashSpec(s: string, slash: nat, id: string)
    requires slash < |s|
    ensures IdAfterSlash(s, slash) == Some(id) <==> IdMatchesAfter(s, slash, id)
  {
    if IdMatchesAfter(s, slash, id) {
      assert s[slash + 1..slash + 1 + |id|] == id;
      SkipDigitsAt(s, slash + 1, 20, slash + 1 + |id|);
    }
  }

  lemma GroupEndSpec(s: string, q: nat)
    requires q <= |s|
    ensures (GroupEnd(s, q) == q + 3 && OccursAt(s, "@me", q)) || AllDigits(s[q..GroupEnd(s, q)])
  {
  }

  lemma GroupEndAt(s: string, q: nat, slash: nat)
    requires GroupMatches(s, q, slash)
    ensures GroupEnd(s, q) == slash
  {
    assert OccursAt(s, "@me", q) ==> s[q] == "@me"[0];
    assert q < slash && AllDigits(s[q..slash]) ==> IsDigit(s[q..slash][0]);
    if !OccursAt(s, "@me", q) {
      SkipDigitsAt(s, q, |s|, slash);
    }
  }

  lemma ChannelTailSpec(s: string, q: nat, id: string)
    requires q <= |s|
    ensures ChannelTail(s, q) == Some(id) <==> exists slash :: GroupMatches(s, q, slash) && IdMatchesAfter(s, slash, id)
  {
    var slash := GroupEnd(s, q);
    GroupEndSpec(s, q);
    if ChannelTail(s, q) == Some(id) {
      IdAfterSlashSpec(s, slash, id);
      assert GroupMatches(s, q, slash);
    }
    forall slash' | GroupMatches(s, q, slash') && IdMatchesAfter(s, slash', id) ensures ChannelTail(s, q) == Some(id) {
      GroupEndAt(s, q, slash');
      IdAfterSlashSpec(s, slash', id);
    }
  }

  /** `ChannelAt` finds `id` at `p` exactly when the regex matches there with that group. */
  lemma ChannelAtSpec(s: string, p: nat, id: string)
    ensures ChannelAt(s, p) == Some(id) <==> exists slash :: ChannelMatchesAt(s, p, slash, id)
  {
    if OccursAt(s, "channels/", p) {
      ChannelTailSpec(s, p + 9, id);
      if ChannelAt(s, p) == Some(id) {
        var slash :| GroupMatches(s, p + 9, slash) && IdMatchesAfter(s, slash, id);
        assert ChannelMatchesAt(s, p, slash, id);
      }
    }
  }

  /**
   * The detected id is all digits and 17 to 20 long, and sits right after
   * `channels/`, then `@me` or a digit run, then `/`, at the leftmost place
   * where that pattern occurs; there is none exactly when the pattern occurs
   * nowhere.
   */
  lemma ChannelFromUrlSpec(url: string)
    ensures ChannelFromUrl(url).Some? ==>
      var id := ChannelFromUrl(url).value;
      17 <= |id| <= 20 && AllDigits(id) &&
      exists p, slash :: ChannelMatchesAt(url, p, slash, id) &&
        forall q, slash', id' :: q < p && ChannelMatchesAt(url, q, slash', id') ==> false
    ensures ChannelFromUrl(url).None? <==> forall p, slash, id :: !ChannelMatchesAt(url, p, slash, id)
  {
    forall p: nat, slash: nat, id | ChannelMatchesAt(url, p, slash, id) ensures ChannelAt(url, p) == Some(id) {
      ChannelAtSpec(url, p, id);
    }
    var r := ChannelFromUrl(url);
    if r.Some? {
      var p :| 0 <= p <= |url| && ChannelAt(url, p) == r && forall q :: 0 <= q < p ==> ChannelAt(url, q).None?;
      ChannelAtSpec(url, p, r.value);
    }
  }

  /** What `_get_current_channel_async` returns for the page (if one is open) at `currentUrl`. */
  function ChannelResult(pageOpen: bool, currentUrl: string): (r: Value)
    ensures !pageOpen ==> r == VNone
    ensures pageOpen && ChannelFromUrl(currentUrl).None? ==> r == VNone
    ensures pageOpen && ChannelFromUrl(currentUrl).Some? ==>
      r == VTuple([VStr("Detected Channel"), VStr(ChannelFromUrl(currentUrl).value)])
  {
    if !pageOpen then VNone
    else
      match ChannelFromUrl(currentUrl)
      case None => VNone
      case Some(id) => VTuple([VStr("Detected Channel"), VStr(id)])
  }

  // ---------------------------------------------------------------------
  // The sniffer object
  // ---------------------------------------------------------------------

  class AuthHeaderSniffer {
    var url: string
    var headless: bool
    var seen: set<(string, string)>
    /** The `on_found` calls made so far, in order. */
    var found: seq<Finding>
    var pageOpen: bool
    var loopActive: bool

    ghost predicate Valid()
      reads this
    {
      Deduped(seen, found)
    }

    constructor (url: string, headless: bool)
      ensures this.url == NormalizeUrl(url) && this.headless == headless
      ensures seen == {} && found == [] && !pageOpen && !loopActive
      ensures Valid()
    {
      this.url := NormalizeUrl(url);
      this.headless := headless;
      seen := {};
      found := [];
      pageOpen := false;
      loopActive := false;
    }

    /** `_on_request`: reports a new authorization header once. */
    method OnRequest(reqUrl: string, headers: Headers)
      requires Valid()
      modifies this`seen, this`found
      ensures Sniffed(seen, found) == OnRequestStep(Sniffed(old(seen), old(found)), reqUrl, headers)
      ensures old(seen) <= seen
      ensures Valid()
    {
      OnRequestKeepsDeduped(Sniffed(seen, found), reqUrl, headers);
      var auth := ExtractAuth(headers);
      if auth.None? {
        return;
      }
      var (name, value) := auth.value;
      var key := Key(name, value);
      if key in seen {
        return;
      }
      seen := seen + {key};
      found := found + [Finding(reqUrl, name, value)];
    }

    /** What `start` records about itself: the running loop and the open page. */
    method Start()
      modifies this`loopActive, this`pageOpen
      ensures loopActive && pageOpen
    {
      loopActive := true;
      pageOpen := true;
    }

    /** `_get_current_channel_async`, with the page's current URL as a parameter. */
    method GetCurrentChannelAsync(currentUrl: string) returns (r: Value)
      ensures r == ChannelResult(pageOpen, currentUrl)
    {
      if !pageOpen {
        return VNone;
      }
      var id := ChannelFromUrl(currentUrl);
      r := if id.Some? then VTuple([VStr("Detected Channel"), VStr(id.value)]) else VNone;
    }

    /**
     * `get_current_channel`: None while the loop is inactive; otherwise the
     * channel result, or None when the dispatched call did not answer
     * within its timeout or raised.
     */
    method GetCurrentChannel(currentUrl: string, answered: bool) returns (r: Value)
      ensures !loopActive || !answered ==> r == VNone
      ensures loopActive && answered ==> r == ChannelResult(pageOpen, currentUrl)
    {
      if !loopActive {
        return VNone;
      }
      if !answered {
        return VNone;
      }
      r := GetCurrentChannelAsync(currentUrl);
    }
  }
}
