/**
 * `get_messages.py`: `FetchRunner` recovers a request from a pasted browser
 * `fetch('url', {...})` command (or takes the URL and headers it is given),
 * sends it, and returns the decoded JSON of a 200 response.
 * `ast.literal_eval`, `json.loads` and `requests.request` are parameters.
 */
module GetMessages {
  import opened Wrappers
  import opened Text
  import opened PyValue
  import opened Http
  import opened JsCleanup

  // ---------------------------------------------------------------------
  // `re.search(r"fetch\(['\"](.*?)['\"]", content).group(1)`
  // ---------------------------------------------------------------------

  predicate IsQuote(c: char) {
    c == '\'' || c == '"'
  }

  /** A character the lazy group `.*?` may take: anything but a newline. */
  predicate InUrl(c: char) {
    !IsQuote(c) && c != '\n'
  }

  /** The regex matches at `p` with group 1 equal to `u`. */
  ghost predicate UrlMatchesAt(s: string, p: nat, u: string) {
    && p + 7 + |u| < |s|
    && s[p..p + 6] == "fetch(" && IsQuote(s[p + 6])
    && s[p + 7..p + 7 + |u|] == u
    && (forall m :: 0 <= m < |u| ==> InUrl(u[m]))
    && IsQuote(s[p + 7 + |u|])
  }

  /** `(.*?)['\"]` from `start`, having checked `s[start..j]` already. */
  function LazyToQuote(s: string, start: nat, j: nat): Option<string>
    requires start <= j <= |s|
    decreases |s| - j
  {
    if j == |s| then None
    else if IsQuote(s[j]) then Some(s[start..j])
    else if s[j] == '\n' then None
    else LazyToQuote(s, start, j + 1)
  }

  /** The regex tried at position `p`. */
  function UrlAt(s: string, p: nat): Option<string> {
    if p + 7 <= |s| && s[p..p + 6] == "fetch(" && IsQuote(s[p + 6]) then LazyToQuote(s, p + 7, p + 7)
    else None
  }

  /** The URL of a fetch command: the leftmost match. */
  function ExtractUrl(content: string): Option<string> {
    FirstMatch(content, UrlAt, 0)
  }

  lemma {:induction false} LazyToQuoteSpec(s: string, start: nat, j: nat, u: string)
    requires start <= j <= |s|
    requires forall m :: start <= m < j ==> InUrl(s[m])
    ensures LazyToQuote(s, start, j) == Some(u) <==>
      && j <= start + |u| < |s|
      && s[start..start + |u|] == u
      && (forall m :: 0 <= m < |u| ==> InUrl(u[m]))
      && IsQuote(s[start + |u|])
    decreases |s| - j
  {
    if j < |s| && !IsQuote(s[j]) && s[j] != '\n' {
      LazyToQuoteSpec(s, start, j + 1, u);
      if start + |u| == j && start + |u| < |s| && s[start..start + |u|] == u {
        assert !IsQuote(s[start + |u|]);
      }
    } else if j < |s| && IsQuote(s[j]) {
      if LazyToQuote(s, start, j) == Some(u) {
        assert |u| == j - start;
        assert forall m :: 0 <= m < |u| ==> u[m] == s[start + m];
      } else if j <= start + |u| < |s| && s[start..start + |u|] == u && IsQuote(s[start + |u|]) {
        if start + |u| > j {
          assert u[j - start] == s[j];
        }
      }
    } else if j < |s| {
      if j <= start + |u| < |s| && s[start..start + |u|] == u && (forall m :: 0 <= m < |u| ==> InUrl(u[m])) && IsQuote(s[start + |u|]) {
        if start + |u| > j {
          assert u[j - start] == s[j];
        }
      }
    }
  }

  /** The regex matches at `p` exactly when `UrlAt` finds that URL there. */
  lemma UrlAtSpec(s: string, p: nat, u: string)
    ensures UrlAt(s, p) == Some(u) <==> UrlMatchesAt(s, p, u)
  {
    if p + 7 <= |s| && s[p..p + 6] == "fetch(" && IsQuote(s[p + 6]) {
      LazyToQuoteSpec(s, p + 7, p + 7, u);
    }
  }

  /**
   * The extracted URL is the group of the leftmost match; there is none
   * exactly when the pattern matches nowhere.
   */
  lemma ExtractUrlSpec(content: string)
    ensures ExtractUrl(content).Some? ==>
      exists p :: UrlMatchesAt(content, p, ExtractUrl(content).value)
        && forall q, u :: q < p && UrlMatchesAt(content, q, u) ==> false
    ensures ExtractUrl(content).None? <==> forall p, u :: !UrlMatchesAt(content, p, u)
  {
    var r := ExtractUrl(content);
    forall p: nat, u | UrlMatchesAt(content, p, u) ensures UrlAt(content, p) == Some(u) { UrlAtSpec(content, p, u); }
    forall p: nat, u | UrlAt(content, p) == Some(u) ensures UrlMatchesAt(content, p, u) { UrlAtSpec(content, p, u); }
    if r.Some? {
      var p :| 0 <= p <= |content| && UrlAt(content, p) == r && forall q :: 0 <= q < p ==> UrlAt(content, q).None?;
      assert UrlMatchesAt(content, p, r.value);
    }
  }

  // ---------------------------------------------------------------------
  // `_parse_fetch_command`
  // ---------------------------------------------------------------------

  /** The options used when a fetch command has no options object: `{'method': 'GET', 'headers': {}}`. */
  const PlainGet: Value := VDict([(VStr("method"), VStr("GET")), (VStr("headers"), EmptyDict)])

  /** How far `_parse_fetch_command` gets on a text. */
  datatype FetchParse =
    | NoUrl                                    // no URL: fails before touching the options
    | WithUrl(url: string, config: ConfigParse)

  function ParseFetch(content: string, eval: string -> Option<Value>): FetchParse {
    match ExtractUrl(content)
    case None => NoUrl
    case Some(u) => WithUrl(u, ParseConfig(content, eval))
  }

  /** `_parse_fetch_command`'s boolean result. */
  predicate ParseSucceeded(p: FetchParse) {
    p.WithUrl? && !p.config.BadConfig?
  }

  /** The URL field after `_parse_fetch_command`: set as soon as a URL is found, even if the options then fail. */
  function UrlAfter(p: FetchParse, url: Option<string>): Option<string> {
    if p.WithUrl? then Some(p.url) else url
  }

  /** The options field after `_parse_fetch_command`. */
  function OptionsAfter(p: FetchParse, options: Value): Value {
    match p
    case NoUrl => options
    case WithUrl(_, NoConfig) => PlainGet
    case WithUrl(_, BadConfig) => options
    case WithUrl(_, Config(v)) => v
  }

  // ---------------------------------------------------------------------
  // `_execute_request`
  // ---------------------------------------------------------------------

  /** The arguments of the `requests.request` call. */
  datatype Request = Request(verb: Value, url: Option<string>, headers: Value, data: Value, json: Value)

  /** `options.get(key)` on dict entries, `None` standing in for Python's None default. */
  function Entry(entries: seq<(Value, Value)>, key: string): Option<Value> {
    Lookup(entries, VStr(key))
  }

  /**
   * The request `_execute_request` sends. `None` when the options are not a
   * dict: `.get` then raises outside any handler.
   */
  function BuildRequest(options: Value, url: Option<string>, loads: string -> Option<Value>): (r: Option<Request>)
    ensures r.Some? <==> options.VDict?
    ensures r.Some? ==> r.value.url == url
    ensures r.Some? && Entry(options.entries, "method").None? ==> r.value.verb == VStr("GET")
    ensures r.Some? && Entry(options.entries, "method").Some? ==> r.value.verb == Entry(options.entries, "method").value
    ensures r.Some? && Entry(options.entries, "headers").None? ==> r.value.headers == EmptyDict
    ensures r.Some? && Entry(options.entries, "headers").Some? ==> r.value.headers == Entry(options.entries, "headers").value
    ensures r.Some? ==>
      var body := Entry(options.entries, "body").GetOr(VNone);
      if body.VStr? && loads(body.s).Some? then r.value.json == loads(body.s).value && r.value.data == VNone
      else r.value.json == VNone && r.value.data == body
  {
    match options
    case VDict(entries) =>
      var verb := Get(options, "method", VStr("GET")).value;
      var headers := Get(options, "headers", EmptyDict).value;
      var bodyRaw := Get(options, "body", VNone).value;
      var decoded := if bodyRaw.VStr? then loads(bodyRaw.s) else None;
      var json := decoded.GetOr(VNone);
      var data := if decoded.Some? then VNone else bodyRaw;
      Some(Request(verb, url, headers, data, json))
    case _ => None
  }

  /** The value `_execute_request` returns for a response: its JSON on status 200, else None. */
  function Interpret(resp: Response, loads: string -> Option<Value>): (v: Value)
    ensures !(resp.Answered? && resp.status == 200) ==> v == VNone
    ensures resp.Answered? && resp.status == 200 ==> v == loads(resp.text).GetOr(VNone)
  {
    match resp
    case Answered(status, text) => if status == 200 then loads(text).GetOr(VNone) else VNone
    case Raised => VNone
  }

  /** What `run` ends with: the value it returns, or an exception that escapes it. */
  datatype RunOutcome = Returned(value: Value) | Escaped

  /** `_execute_request`: the outcome and the request sent, if one was. */
  function Execute(options: Value, url: Option<string>, loads: string -> Option<Value>, send: Request -> Response): (Option<Request>, RunOutcome) {
    match BuildRequest(options, url, loads)
    case None => (None, Escaped)
    case Some(req) => (Some(req), Returned(Interpret(send(req), loads)))
  }

  // ---------------------------------------------------------------------
  // `run`, as a function of the runner's fields
  // ---------------------------------------------------------------------

  /** `run` has to parse the fetch command when the URL or the headers are missing. */
  predicate MustParse(url: Option<string>, headers: Value) {
    !TruthyText(url) || !Truthy(headers)
  }

  /** The request sent (if any) and the outcome of `run`. */
  function RunSpec(fetchContent: Option<string>, url: Option<string>, headers: Value, options: Value,
                   eval: string -> Option<Value>, loads: string -> Option<Value>, send: Request -> Response)
    : (Option<Request>, RunOutcome)
  {
    if !MustParse(url, headers) then Execute(options, url, loads, send)
    else if !TruthyText(fetchContent) then (None, Returned(VNone))
    else
      var p := ParseFetch(fetchContent.value, eval);
      if !ParseSucceeded(p) then (None, Returned(VNone))
      else Execute(OptionsAfter(p, options), UrlAfter(p, url), loads, send)
  }

  /** The options the constructor starts from. */
  function InitialOptions(headers: Value): Value {
    if Truthy(headers) then VDict([(VStr("headers"), headers)]) else EmptyDict
  }

  class FetchRunner {
    var fetchContent: Option<string>
    var url: Option<string>
    var headers: Value
    var options: Value

    constructor (fetchContent: Option<string>, url: Option<string>, headers: Value)
      ensures this.fetchContent == fetchContent && this.url == url && this.headers == headers
      ensures options == InitialOptions(headers)
    {
      this.fetchContent := fetchContent;
      this.url := url;
      this.headers := headers;
      options := InitialOptions(headers);
    }

    /** `_parse_fetch_command`: sets the URL, then the options, and says whether both went well. */
    method ParseFetchCommand(content: string, eval: string -> Option<Value>) returns (ok: bool)
      modifies this`url, this`options
      ensures ok == ParseSucceeded(ParseFetch(content, eval))
      ensures url == UrlAfter(ParseFetch(content, eval), old(url))
      ensures options == OptionsAfter(ParseFetch(content, eval), old(options))
    {
      var found := ExtractUrl(content);
      if found.None? {
        return false;
      }
      url := found;
      var config := ParseConfig(content, eval);
      match config
      case NoConfig =>
        options := PlainGet;
        ok := true;
      case BadConfig =>
        ok := false;
      case Config(v) =>
        options := v;
        ok := true;
    }

    /** `_execute_request`: builds and sends the request from the current options. */
    method ExecuteRequest(loads: string -> Option<Value>, send: Request -> Response) returns (sent: Option<Request>, o: RunOutcome)
      ensures (sent, o) == Execute(options, url, loads, send)
    {
      var req := BuildRequest(options, url, loads);
      if req.None? {
        return None, Escaped;
      }
      sent := req;
      var resp := send(req.value);
      o := Returned(Interpret(resp, loads));
    }

    /** `run`. */
    method Run(eval: string -> Option<Value>, loads: string -> Option<Value>, send: Request -> Response)
      returns (sent: Option<Request>, o: RunOutcome)
      modifies this`url, this`options
      ensures (sent, o) == RunSpec(old(fetchContent), old(url), old(headers), old(options), eval, loads, send)
      ensures MustParse(old(url), old(headers)) && TruthyText(fetchContent) ==>
        url == UrlAfter(ParseFetch(fetchContent.value, eval), old(url)) &&
        options == OptionsAfter(ParseFetch(fetchContent.value, eval), old(options))
      ensures !(MustParse(old(url), old(headers)) && TruthyText(fetchContent)) ==> url == old(url) && options == old(options)
    {
      if MustParse(url, headers) {
        if !TruthyText(fetchContent) {
          return None, Returned(VNone);
        }
        var ok := ParseFetchCommand(fetchContent.value, eval);
        if !ok {
          return None, Returned(VNone);
        }
      }
      sent, o := ExecuteRequest(loads, send);
    }
  }

  // ---------------------------------------------------------------------
  // Properties
  // ---------------------------------------------------------------------

  /** With the URL or the headers missing and no fetch text, `run` returns None and sends nothing. */
  lemma RunWithoutContent(fc: Option<string>, url: Option<string>, headers: Value, options: Value,
                          eval: string -> Option<Value>, loads: string -> Option<Value>, send: Request -> Response)
    requires MustParse(url, headers) && !TruthyText(fc)
    ensures RunSpec(fc, url, headers, options, eval, loads, send) == (None, Returned(VNone))
  {
  }

  /** When parsing is needed and fails, `run` returns None and sends nothing. */
  lemma RunParseFailure(fc: string, url: Option<string>, headers: Value, options: Value,
                        eval: string -> Option<Value>, loads: string -> Option<Value>, send: Request -> Response)
    requires MustParse(url, headers) && fc != []
    requires ExtractUrl(fc).None? || ParseConfig(fc, eval).BadConfig?
    ensures RunSpec(Some(fc), url, headers, options, eval, loads, send) == (None, Returned(VNone))
  {
  }

  /**
   * With both a URL and headers given, the fetch text is never parsed: the
   * outcome does not depend on it or on the literal evaluator.
   */
  lemma RunGivenIgnoresFetch(fc1: Option<string>, fc2: Option<string>, url: Option<string>, headers: Value, options: Value,
                             eval1: string -> Option<Value>, eval2: string -> Option<Value>,
                             loads: string -> Option<Value>, send: Request -> Response)
    requires TruthyText(url) && Truthy(headers)
    ensures RunSpec(fc1, url, headers, options, eval1, loads, send) == RunSpec(fc2, url, headers, options, eval2, loads, send)
  {
  }

  /** `run` yields a value other than None only from a 200 response to the request it sent. */
  lemma RunResultNeeds200(fc: Option<string>, url: Option<string>, headers: Value, options: Value,
                          eval: string -> Option<Value>, loads: string -> Option<Value>, send: Request -> Response)
    requires RunSpec(fc, url, headers, options, eval, loads, send).1.Returned?
    requires RunSpec(fc, url, headers, options, eval, loads, send).1.value != VNone
    ensures var (sent, o) := RunSpec(fc, url, headers, options, eval, loads, send);
      sent.Some? && send(sent.value).Answered? && send(sent.value).status == 200 &&
      loads(send(sent.value).text) == Some(o.value)
  {
  }

  /**
   * A runner built with a URL and truthy headers only (as the auto mode
   * builds it) sends a GET to that URL with exactly those headers and no body.
   */
  lemma GivenRunnerSendsGet(url: string, headers: Value, fc: Option<string>,
                            eval: string -> Option<Value>, loads: string -> Option<Value>, send: Request -> Response)
    requires url != [] && Truthy(headers)
    ensures RunSpec(fc, Some(url), headers, InitialOptions(headers), eval, loads, send).0 ==
      Some(Request(VStr("GET"), Some(url), headers, VNone, VNone))
  {
  }

  /** The options of a fetch command without an options object make a plain GET. */
  lemma PlainGetRequest(url: Option<string>, loads: string -> Option<Value>)
    ensures BuildRequest(PlainGet, url, loads) == Some(Request(VStr("GET"), url, EmptyDict, VNone, VNone))
  {
    assert |"method"| != |"headers"| && |"method"| != |"body"| && |"headers"| != |"body"|;
    assert PlainGet.entries[1..] == [(VStr("headers"), EmptyDict)];
    assert Lookup([(VStr("headers"), EmptyDict)], VStr("headers")) == Some(EmptyDict);
    assert Lookup([(VStr("headers"), EmptyDict)], VStr("body")) == Lookup([], VStr("body"));
    assert Entry(PlainGet.entries, "method") == Some(VStr("GET"));
    assert Entry(PlainGet.entries, "headers") == Some(EmptyDict);
    assert Entry(PlainGet.entries, "body") == None;
  }

  /** A fetch command without an options object sends a plain GET with empty headers and no body. */
  lemma NoConfigSendsPlainGet(fc: string, url: Option<string>, headers: Value, options: Value,
                              eval: string -> Option<Value>, loads: string -> Option<Value>, send: Request -> Response)
    requires MustParse(url, headers) && fc != []
    requires ExtractUrl(fc).Some? && ('{' !in fc || '}' !in fc)
    ensures RunSpec(Some(fc), url, headers, options, eval, loads, send).0 ==
      Some(Request(VStr("GET"), ExtractUrl(fc), EmptyDict, VNone, VNone))
  {
    assert ParseFetch(fc, eval) == WithUrl(ExtractUrl(fc).value, NoConfig);
    PlainGetRequest(ExtractUrl(fc), loads);
  }
}
