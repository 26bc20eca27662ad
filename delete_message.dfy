/**
 * `delete_message.py`: `MessageDeleter` takes the fetched messages (a list,
 * a list of pages, or a dict with a `messages` entry), flattens them, and
 * sends one DELETE per message that names its id and channel, using headers
 * it was given or recovered from a fetch command. `ast.literal_eval`, the
 * `repr` of containers and `requests.delete` are parameters.
 */
module DeleteMessage {
  import opened Wrappers
  import opened Text
  import opened PyValue
  import opened Http
  import opened JsCleanup
  import GetMessages

  // ---------------------------------------------------------------------
  // `_parse_fetch_headers`
  // ---------------------------------------------------------------------

  /**
   * The headers `_parse_fetch_headers` recovers, or `None` where it returns
   * False: no fetch text, no braces, the evaluator raised, or the options are
   * not a dict (so `.get` raised inside the handler).
   */
  function HeadersFrom(fetchContent: Option<string>, eval: string -> Option<Value>): (r: Option<Value>)
    ensures r.Some? <==> TruthyText(fetchContent) && ParseConfig(fetchContent.value, eval).Config?
                         && ParseConfig(fetchContent.value, eval).options.VDict?
    ensures r.Some? ==> r == Get(ParseConfig(fetchContent.value, eval).options, "headers", EmptyDict)
  {
    if !TruthyText(fetchContent) then None
    else
      match ParseConfig(fetchContent.value, eval)
      case Config(options) => Get(options, "headers", EmptyDict)
      case _ => None
  }

  // ---------------------------------------------------------------------
  // `_load_messages_from_memory`
  // ---------------------------------------------------------------------

  /**
   * What the loop iterates: the `messages` entry of a dict (default `[]`),
   * a list itself, nothing otherwise; `None` where the entry is not
   * iterable and the loop raises TypeError.
   */
  function MessageSource(raw: Value): (r: Option<seq<Value>>)
    ensures raw.VList? ==> r == Some(raw.items)
    ensures !raw.VList? && !raw.VDict? ==> r == Some([])
    ensures raw.VDict? ==> r == Iterate(Get(raw, "messages", EmptyList).value)
  {
    match raw
    case VDict(_) => Iterate(Get(raw, "messages", EmptyList).value)
    case VList(items) => Some(items)
    case _ => Some([])
  }

  /** What one item contributes: a list is spliced in, anything else (a tuple too) is kept whole. */
  function Piece(item: Value): seq<Value> {
    if item.VList? then item.items else [item]
  }

  /** The flattened message list the loop builds. */
  function FlattenItems(items: seq<Value>): seq<Value> {
    if items == [] then []
    else FlattenItems(items[..|items| - 1]) + Piece(items[|items| - 1])
  }

  /** Flattening distributes over concatenation. */
  lemma {:induction false} FlattenAppend(a: seq<Value>, b: seq<Value>)
    ensures FlattenItems(a + b) == FlattenItems(a) + FlattenItems(b)
    decreases |b|
  {
    if b == [] {
      assert a + b == a;
    } else {
      var b' := b[..|b| - 1];
      assert (a + b)[..|a + b| - 1] == a + b';
      FlattenAppend(a, b');
    }
  }

  /** An element is in the flattened list exactly when it is a piece of some item. */
  lemma {:induction false} FlattenMembers(items: seq<Value>, x: Value)
    ensures x in FlattenItems(items) <==> exists i :: 0 <= i < |items| && x in Piece(items[i])
  {
    if items != [] {
      var init := items[..|items| - 1];
      FlattenMembers(init, x);
      assert forall i :: 0 <= i < |init| ==> init[i] == items[i];
      if x in Piece(items[|items| - 1]) {
        assert x in FlattenItems(items);
      }
    }
  }

  /** A list with no nested lists is kept as it is. */
  lemma {:induction false} FlattenFlat(items: seq<Value>)
    requires forall i :: 0 <= i < |items| ==> !items[i].VList?
    ensures FlattenItems(items) == items
  {
    if items != [] {
      var init := items[..|items| - 1];
      FlattenFlat(init);
      assert init + [items[|items| - 1]] == items;
    }
  }

  /** The lengths of the nested lists plus one per other item. */
  function PieceCount(items: seq<Value>): nat {
    if items == [] then 0 else PieceCount(items[..|items| - 1]) + |Piece(items[|items| - 1])|
  }

  /** The flattened list is as long as the spliced lists together plus one per other item. */
  lemma {:induction false} FlattenLength(items: seq<Value>)
    ensures |FlattenItems(items)| == PieceCount(items)
  {
    if items != [] {
      FlattenLength(items[..|items| - 1]);
    }
  }

  // ---------------------------------------------------------------------
  // `_process_deletions`
  // ---------------------------------------------------------------------

  /** How the program reacts to a DELETE's status code. */
  datatype StatusClass = Success | RateLimited | Failed

  function Classify(status: int): (c: StatusClass)
    ensures c == Success <==> status == 200 || status == 204
    ensures c == RateLimited <==> status == 429
  {
    if status == 200 || status == 204 then Success
    else if status == 429 then RateLimited
    else Failed
  }

  /** What happened to one item of the list. */
  datatype ItemOutcome =
    | NotADict                                  // `msg.get` raised; reported, loop goes on
    | Skipped                                   // id or channel id missing or falsy
    | ContentError(url: string)                 // `content[:50]` raised before the request
    | SendError(url: string)                    // `requests.delete` raised
    | Deleted(url: string, status: StatusClass) // a response came back

  const ChannelsEndpoint := "https://discord.com/api/v9/channels/"

  /** The DELETE endpoint of a message. */
  function DeleteUrl(channel: Value, id: Value, display: Value -> string): string {
    ChannelsEndpoint + (Str(channel, display) + ("/messages/" + Str(id, display)))
  }

  /** `content[:50]` works on strings, lists and tuples only. */
  predicate Sliceable(v: Value) {
    v.VStr? || v.VList? || v.VTuple?
  }

  /** The body of the loop for one item. */
  function ProcessItem(msg: Value, headers: Value, display: Value -> string, del: (string, Value) -> Response): ItemOutcome {
    if !msg.VDict? then NotADict
    else
      var id := Get(msg, "id", VNone).value;
      var channel := Get(msg, "channel_id", VNone).value;
      var content := Get(msg, "content", VStr("[No Content]")).value;
      if !Truthy(id) || !Truthy(channel) then Skipped
      else
        var url := DeleteUrl(channel, id, display);
        if !Sliceable(content) then ContentError(url)
        else
          match del(url, headers)
          case Raised => SendError(url)
          case Answered(status, _) => Deleted(url, Classify(status))
  }

  /** A DELETE is sent for an item. */
  predicate Sent(o: ItemOutcome) {
    o.SendError? || o.Deleted?
  }

  /** The entry `key` of a dict item, Python's None when absent. */
  function Field(msg: Value, key: string): Value
    requires msg.VDict?
  {
    Lookup(msg.entries, VStr(key)).GetOr(VNone)
  }

  /**
   * A DELETE is sent for exactly the dict items with a truthy id and channel
   * id whose content (default "[No Content]") can be sliced, and it goes to
   * that message's endpoint with the deleter's headers.
   */
  lemma ProcessItemSends(msg: Value, headers: Value, display: Value -> string, del: (string, Value) -> Response)
    ensures Sent(ProcessItem(msg, headers, display, del)) <==>
      && msg.VDict? && Truthy(Field(msg, "id")) && Truthy(Field(msg, "channel_id"))
      && Sliceable(Lookup(msg.entries, VStr("content")).GetOr(VStr("[No Content]")))
    ensures Sent(ProcessItem(msg, headers, display, del)) ==>
      ProcessItem(msg, headers, display, del).url == DeleteUrl(Field(msg, "channel_id"), Field(msg, "id"), display)
    ensures ProcessItem(msg, headers, display, del).Deleted? ==>
      var resp := del(DeleteUrl(Field(msg, "channel_id"), Field(msg, "id"), display), headers);
      resp.Answered? && ProcessItem(msg, headers, display, del).status == Classify(resp.status)
  {
  }

  /** `Find` locates the first slash right after a slash-free prefix. */
  lemma FirstSlash(c: string, rest: string)
    requires '/' !in c && rest != [] && rest[0] == '/'
    ensures Find(c + rest, '/') == Some(|c|)
  {
    assert (c + rest)[|c|] == '/';
    assert forall k :: 0 <= k < |c| ==> (c + rest)[k] == c[k];
  }

  /** A slash-free channel id ends where "/messages/" begins. */
  lemma SplitAtMessages(c1: string, m1: string, c2: string, m2: string)
    requires '/' !in c1 && '/' !in c2
    requires c1 + ("/messages/" + m1) == c2 + ("/messages/" + m2)
    ensures c1 == c2 && m1 == m2
  {
    var t := c1 + ("/messages/" + m1);
    FirstSlash(c1, "/messages/" + m1);
    FirstSlash(c2, "/messages/" + m2);
    assert c1 == t[..|c1|] && c2 == t[..|c2|];
    assert m1 == t[|c1| + 10..] && m2 == t[|c2| + 10..];
  }

  /**
   * Distinct messages get distinct endpoints: for string ids without a
   * slash in the channel id, the URL determines both ids.
   */
  lemma DeleteUrlInjective(c1: string, m1: string, c2: string, m2: string, display: Value -> string)
    requires '/' !in c1 && '/' !in c2
    requires DeleteUrl(VStr(c1), VStr(m1), display) == DeleteUrl(VStr(c2), VStr(m2), display)
    ensures c1 == c2 && m1 == m2
  {
    var t1 := c1 + ("/messages/" + m1);
    var t2 := c2 + ("/messages/" + m2);
    var n := |ChannelsEndpoint|;
    assert forall k :: 0 <= k < |t1| ==> t1[k] == (ChannelsEndpoint + t1)[n + k];
    assert forall k :: 0 <= k < |t2| ==> t2[k] == (ChannelsEndpoint + t2)[n + k];
    assert t1 == t2;
    SplitAtMessages(c1, m1, c2, m2);
  }

  // ---------------------------------------------------------------------
  // `run`, as a function of the deleter's fields
  // ---------------------------------------------------------------------

  /** The headers `run` ends up with: recovered from the fetch text only when none were given. */
  function HeadersAfter(headers: Value, fetchContent: Option<string>, eval: string -> Option<Value>): Value {
    if !Truthy(headers) && TruthyText(fetchContent) then HeadersFrom(fetchContent, eval).GetOr(headers)
    else headers
  }

  /** The list `_load_messages_from_memory` leaves, `None` where it raised. */
  function LoadedMessages(raw: Value, current: seq<Value>): Option<seq<Value>> {
    if !Truthy(raw) then Some(current)
    else
      match MessageSource(raw)
      case None => None
      case Some(items) => Some(FlattenItems(items))
  }

  /** The outcome of each item, in order. */
  function ProcessAll(msgs: seq<Value>, headers: Value, display: Value -> string, del: (string, Value) -> Response)
    : (r: seq<ItemOutcome>)
    ensures |r| == |msgs|
    ensures forall i :: 0 <= i < |msgs| ==> r[i] == ProcessItem(msgs[i], headers, display, del)
  {
    seq(|msgs|, i requires 0 <= i < |msgs| => ProcessItem(msgs[i], headers, display, del))
  }

  /** How `run` ends. */
  datatype DeleteRun =
    | NoHeaders                       // "No authentication headers found."
    | LoadRaised                      // the message list was not iterable
    | Finished(outcomes: seq<ItemOutcome>)

  function RunSpec(raw: Value, fetchContent: Option<string>, headers: Value, current: seq<Value>,
                   eval: string -> Option<Value>, display: Value -> string, del: (string, Value) -> Response): DeleteRun
  {
    var h := HeadersAfter(headers, fetchContent, eval);
    if !Truthy(h) then NoHeaders
    else
      match LoadedMessages(raw, current)
      case None => LoadRaised
      case Some(msgs) => Finished(ProcessAll(msgs, h, display, del))
  }

  class MessageDeleter {
    var rawData: Value
    var fetchContent: Option<string>
    var headers: Value
    var messagesToDelete: seq<Value>

    constructor (messagesData: Value, fetchContent: Option<string>, headers: Value)
      ensures rawData == messagesData && this.fetchContent == fetchContent
      ensures this.headers == (if Truthy(headers) then headers else EmptyDict)
      ensures messagesToDelete == []
    {
      rawData := messagesData;
      this.fetchContent := fetchContent;
      this.headers := if Truthy(headers) then headers else EmptyDict;
      messagesToDelete := [];
    }

    /** `_parse_fetch_headers`: replaces the headers only when it returns True. */
    method ParseFetchHeaders(eval: string -> Option<Value>) returns (ok: bool)
      modifies this`headers
      ensures ok <==> HeadersFrom(fetchContent, eval).Some?
      ensures headers == HeadersFrom(fetchContent, eval).GetOr(old(headers))
    {
      if !TruthyText(fetchContent) {
        return false;
      }
      var config := ParseConfig(fetchContent.value, eval);
      if !config.Config? {
        return false;
      }
      var h := Get(config.options, "headers", EmptyDict);
      if h.None? {
        return false;
      }
      headers := h.value;
      ok := true;
    }

    /** `_load_messages_from_memory`; `ok` is false where the loop raised. */
    method LoadMessagesFromMemory() returns (ok: bool)
      modifies this`messagesToDelete
      ensures ok <==> LoadedMessages(rawData, old(messagesToDelete)).Some?
      ensures ok ==> messagesToDelete == LoadedMessages(rawData, old(messagesToDelete)).value
      ensures !ok ==> messagesToDelete == []
    {
      if !Truthy(rawData) {
        return true;
      }
      var source := MessageSource(rawData);
      messagesToDelete := [];
      if source.None? {
        return false;
      }
      var items := source.value;
      for i := 0 to |items|
        invariant messagesToDelete == FlattenItems(items[..i])
      {
        assert items[..i + 1][..i] == items[..i];
        if items[i].VList? {
          messagesToDelete := messagesToDelete + items[i].items;
        } else {
          messagesToDelete := messagesToDelete + [items[i]];
        }
      }
      assert items[..|items|] == items;
      ok := true;
    }

    /** `_process_deletions`: every item is handled, one failure does not stop the rest. */
    method ProcessDeletions(display: Value -> string, del: (string, Value) -> Response) returns (outcomes: seq<ItemOutcome>)
      ensures |outcomes| == |messagesToDelete|
      ensures forall i :: 0 <= i < |outcomes| ==> outcomes[i] == ProcessItem(messagesToDelete[i], headers, display, del)
    {
      outcomes := [];
      for i := 0 to |messagesToDelete|
        invariant |outcomes| == i
        invariant forall k :: 0 <= k < i ==> outcomes[k] == ProcessItem(messagesToDelete[k], headers, display, del)
      {
        var msg := messagesToDelete[i];
        var o: ItemOutcome;
        if !msg.VDict? {
          o := NotADict;
        } else {
          var id := Get(msg, "id", VNone).value;
          var channel := Get(msg, "channel_id", VNone).value;
          var content := Get(msg, "content", VStr("[No Content]")).value;
          if !Truthy(id) || !Truthy(channel) {
            o := Skipped;
          } else {
            var url := DeleteUrl(channel, id, display);
            if !Sliceable(content) {
              o := ContentError(url);
            } else {
              var resp := del(url, headers);
              o := if resp.Raised? then SendError(url) else Deleted(url, Classify(resp.status));
            }
          }
        }
        outcomes := outcomes + [o];
      }
    }

    method Run(eval: string -> Option<Value>, display: Value -> string, del: (string, Value) -> Response) returns (r: DeleteRun)
      modifies this`headers, this`messagesToDelete
      ensures r == RunSpec(rawData, fetchContent, old(headers), old(messagesToDelete), eval, display, del)
      ensures headers == HeadersAfter(old(headers), fetchContent, eval)
      ensures r.NoHeaders? ==> messagesToDelete == old(messagesToDelete)
      ensures r.LoadRaised? ==> messagesToDelete == []
      ensures r.Finished? ==> messagesToDelete == LoadedMessages(rawData, old(messagesToDelete)).value
    {
      if !Truthy(headers) && TruthyText(fetchContent) {
        var _ := ParseFetchHeaders(eval);
      }
      if !Truthy(headers) {
        return NoHeaders;
      }
      var ok := LoadMessagesFromMemory();
      if !ok {
        return LoadRaised;
      }
      var outcomes := ProcessDeletions(display, del);
      r := Finished(outcomes);
    }
  }

  // ---------------------------------------------------------------------
  // Properties of `run`
  // ---------------------------------------------------------------------

  /** Given headers are never replaced by the fetch text. */
  lemma GivenHeadersKept(headers: Value, fetchContent: Option<string>, eval: string -> Option<Value>)
    requires Truthy(headers)
    ensures HeadersAfter(headers, fetchContent, eval) == headers
  {
  }

  /**
   * The deleter recovers from a fetch command the same headers the fetch
   * runner would send: the two scripts cut, clean and evaluate the options
   * object identically.
   */
  lemma HeadersAgreeWithFetchRunner(fc: string, eval: string -> Option<Value>, loads: string -> Option<Value>)
    requires fc != []
    requires GetMessages.ParseFetch(fc, eval).WithUrl?
    requires GetMessages.ParseFetch(fc, eval).config.Config?
    requires GetMessages.ParseFetch(fc, eval).config.options.VDict?
    ensures var p := GetMessages.ParseFetch(fc, eval);
      var req := GetMessages.BuildRequest(GetMessages.OptionsAfter(p, EmptyDict), GetMessages.UrlAfter(p, None), loads);
      req.Some? && HeadersFrom(Some(fc), eval) == Some(req.value.headers)
  {
  }

  /**
   * A run that gets past the header check sends every DELETE with the final
   * headers, to the endpoint of the message it handles, one item at a time in
   * list order.
   */
  lemma RunSendsWithHeaders(raw: Value, fc: Option<string>, headers: Value, current: seq<Value>,
                            eval: string -> Option<Value>, display: Value -> string, del: (string, Value) -> Response)
    requires RunSpec(raw, fc, headers, current, eval, display, del).Finished?
    ensures var h := HeadersAfter(headers, fc, eval);
      var msgs := LoadedMessages(raw, current).value;
      var out := RunSpec(raw, fc, headers, current, eval, display, del).outcomes;
      Truthy(h) && |out| == |msgs| &&
      forall i :: 0 <= i < |out| ==> out[i] == ProcessItem(msgs[i], h, display, del)
  {
  }

  /** Without any truthy headers, nothing is loaded and nothing is deleted. */
  lemma NoHeadersNoRequests(raw: Value, fc: Option<string>, headers: Value, current: seq<Value>,
                            eval: string -> Option<Value>, display: Value -> string, del: (string, Value) -> Response)
    requires !Truthy(headers)
    requires HeadersFrom(fc, eval).None? || !Truthy(HeadersFrom(fc, eval).value)
    ensures RunSpec(raw, fc, headers, current, eval, display, del) == NoHeaders
  {
  }
}
