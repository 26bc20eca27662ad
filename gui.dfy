/**
 * `gui.py`: the controller behind the window. `start_process` checks that
 * there is something to work with (sniffed credentials or a pasted fetch
 * command) and `run_logic_loop` alternates fetching a batch of messages and
 * deleting it until a fetch comes back empty. Widgets, threads and the log
 * redirection are not modelled; the network each batch sees, the page's
 * channel, and Python's `repr` of containers are parameters.
 */
module Gui {
  import opened Wrappers
  import opened Text
  import opened PyValue
  import opened Http
  import GetMessages
  import DeleteMessage
  import AutoFetchServer

  // ---------------------------------------------------------------------
  // Validation and mode selection
  // ---------------------------------------------------------------------

  /** The request whose authorization header `on_find` keeps. */
  const UsersMeEndpoint := "https://discord.com/api/v9/users/@me"

  /** The page the sniffer opens. */
  const SnifferStartPage := "https://discord.com/channels/@me"

  /** Auto mode: a captured token and a detected channel. */
  predicate HasAuto(auth: Value, channel: Value) {
    Truthy(auth) && Truthy(channel)
  }

  /** Manual mode: a non-empty pasted text mentioning `fetch`. */
  predicate HasManual(content: string) {
    content != [] && Contains(content, "fetch")
  }

  /** How the loop gets its messages and headers. */
  datatype Mode =
    | Dynamic(url: string, headers: Value)   // built from the sniffed token and channel
    | Manual(content: string)                // everything parsed from the fetch text

  /** The channel id of a selection: element `[1]` of a list or tuple, the value itself otherwise; `None` for a too-short sequence (IndexError). */
  function ChannelId(selection: Value): (r: Option<Value>)
    ensures selection.VList? ==> (r.Some? <==> |selection.items| >= 2) && (r.Some? ==> r.value == selection.items[1])
    ensures selection.VTuple? ==> (r.Some? <==> |selection.elems| >= 2) && (r.Some? ==> r.value == selection.elems[1])
    ensures !selection.VList? && !selection.VTuple? ==> r == Some(selection)
  {
    match selection
    case VList(items) => if |items| >= 2 then Some(items[1]) else None
    case VTuple(elems) => if |elems| >= 2 then Some(elems[1]) else None
    case _ => Some(selection)
  }

  /** The message-list endpoint of a channel, 100 messages at a time. */
  function DynamicUrl(channel: Value, display: Value -> string): string {
    "https://discord.com/api/v9/channels/" + Str(channel, display) + "/messages?limit=100"
  }

  /** The headers of auto mode: the token alone. */
  function DynamicHeaders(auth: Value): Value {
    VDict([(VStr("authorization"), auth)])
  }

  /**
   * The mode `run_logic_loop` picks; `None` where unwrapping the channel
   * raises (that ends the loop before the first batch).
   */
  function SelectMode(auth: Value, channel: Value, content: string, display: Value -> string): (r: Option<Mode>)
    ensures HasAuto(auth, channel) ==> (r.Some? <==> ChannelId(channel).Some?) && (r.Some? ==> r.value.Dynamic?)
    ensures !HasAuto(auth, channel) ==> r == Some(Manual(content))
  {
    if HasAuto(auth, channel) then
      match ChannelId(channel)
      case None => None
      case Some(c) => Some(Dynamic(DynamicUrl(c, display), DynamicHeaders(auth)))
    else Some(Manual(content))
  }

  /**
   * The number of messages in a fetch result: a list's length, the length of
   * a dict's `messages` entry (default empty), 0 for anything else; `None`
   * where `len` raises.
   */
  function MessageCount(messages: Value): Option<nat> {
    match messages
    case VList(items) => Some(|items|)
    case VDict(_) => Len(Get(messages, "messages", EmptyList).value)
    case _ => Some(0)
  }

  /** The count in each case: a list, a dict with or without `messages`, anything else. */
  lemma MessageCountSpec(messages: Value)
    ensures messages.VList? ==> MessageCount(messages) == Some(|messages.items|)
    ensures messages.VDict? && Lookup(messages.entries, VStr("messages")).None? ==> MessageCount(messages) == Some(0)
    ensures messages.VDict? && Lookup(messages.entries, VStr("messages")).Some? ==>
      MessageCount(messages) == Len(Lookup(messages.entries, VStr("messages")).value)
    ensures !messages.VList? && !messages.VDict? ==> MessageCount(messages) == Some(0)
    ensures MessageCount(messages).None? ==> messages.VDict?
  {
  }

  // ---------------------------------------------------------------------
  // One batch
  // ---------------------------------------------------------------------

  /** The outside world the loop talks to, per batch number. */
  datatype Env = Env(
    eval: string -> Option<Value>,                   // ast.literal_eval
    loads: string -> Option<Value>,                  // json.loads
    display: Value -> string,                        // repr of containers
    fetchNet: nat -> GetMessages.Request -> Response, // requests.request in batch n
    deleteNet: nat -> (string, Value) -> Response)   // requests.delete in batch n

  /** `FetchRunner(...)` as the loop builds it, then `run()`. */
  function FetchBatch(mode: Mode, env: Env, batch: nat): (Option<GetMessages.Request>, GetMessages.RunOutcome) {
    match mode
    case Dynamic(url, headers) =>
      GetMessages.RunSpec(None, Some(url), headers, GetMessages.InitialOptions(headers), env.eval, env.loads, env.fetchNet(batch))
    case Manual(content) =>
      GetMessages.RunSpec(Some(content), None, VNone, GetMessages.InitialOptions(VNone), env.eval, env.loads, env.fetchNet(batch))
  }

  /** `MessageDeleter(...)` as the loop builds it, then `run()`. */
  function DeleteBatch(mode: Mode, env: Env, batch: nat, messages: Value): DeleteMessage.DeleteRun {
    match mode
    case Dynamic(_, headers) =>
      DeleteMessage.RunSpec(messages, None, if Truthy(headers) then headers else EmptyDict, [], env.eval, env.display, env.deleteNet(batch))
    case Manual(content) =>
      DeleteMessage.RunSpec(messages, Some(content), EmptyDict, [], env.eval, env.display, env.deleteNet(batch))
  }

  /**
   * The two calls a batch makes, as the loop sees them: `FetchRunner(...).run()`
   * and `MessageDeleter(...).run()` for a mode and a batch number.
   */
  datatype Services = Services(
    fetch: (Mode, nat) -> GetMessages.RunOutcome,
    delete: (Mode, nat, Value) -> DeleteMessage.DeleteRun)

  /** The services the program actually uses: the fetch runner and the deleter, talking to `env`. */
  function Wired(env: Env): Services {
    Services((m: Mode, b: nat) => FetchBatch(m, env, b).1, (m: Mode, b: nat, v: Value) => DeleteBatch(m, env, b, v))
  }

  /** A batch that found messages: how many, and what the deleter did. */
  datatype BatchLog = BatchLog(count: nat, deletion: DeleteMessage.DeleteRun)

  /** How the loop stopped. */
  datatype LoopEnd =
    | Clean        // a fetch came back with no messages
    | LoopError    // an exception reached the loop's handler
    | Unfinished   // the bound on batches was reached

  datatype LoopResult = LoopResult(end: LoopEnd, batches: seq<BatchLog>, lastBatch: nat)

  /** What one batch does: stop with an end, or go on after logging. */
  datatype BatchStep = Stop(end: LoopEnd) | Continue(log: BatchLog)

  function BatchOnce(mode: Mode, svc: Services, batch: nat): BatchStep {
    match svc.fetch(mode, batch)
    case Escaped => Stop(LoopError)
    case Returned(messages) =>
      match MessageCount(messages)
      case None => Stop(LoopError)
      case Some(count) =>
        if count == 0 then Stop(Clean)
        else
          var deletion := svc.delete(mode, batch, messages);
          if deletion.LoadRaised? then Stop(LoopError) else Continue(BatchLog(count, deletion))
  }

  /** The loop from batch `batch` on, at most `fuel` more batches. */
  function LoopSpec(mode: Mode, svc: Services, batch: nat, fuel: nat): LoopResult
    decreases fuel
  {
    if fuel == 0 then LoopResult(Unfinished, [], batch)
    else
      match BatchOnce(mode, svc, batch)
      case Stop(end) => LoopResult(end, [], batch)
      case Continue(log) =>
        var rest := LoopSpec(mode, svc, batch + 1, fuel - 1);
        LoopResult(rest.end, [log] + rest.batches, rest.lastBatch)
  }

  /** The batches `logged` so far followed by the rest of the loop. */
  function Join(logged: seq<BatchLog>, rest: LoopResult): LoopResult {
    LoopResult(rest.end, logged + rest.batches, rest.lastBatch)
  }

  /** One more batch that went on moves from the rest of the loop into what has been logged. */
  lemma LoopSpecContinue(m: Mode, svc: Services, logged: seq<BatchLog>, batch: nat, fuel: nat)
    requires fuel > 0 && BatchOnce(m, svc, batch).Continue?
    ensures Join(logged, LoopSpec(m, svc, batch, fuel)) ==
      Join(logged + [BatchOnce(m, svc, batch).log], LoopSpec(m, svc, batch + 1, fuel - 1))
  {
    var rest := LoopSpec(m, svc, batch + 1, fuel - 1);
    var log := BatchOnce(m, svc, batch).log;
    assert logged + ([log] + rest.batches) == (logged + [log]) + rest.batches;
  }

  /** The `while True` of `run_logic_loop` in a fixed mode, for at most `fuel` batches, counting from batch 1. */
  method RunBatches(m: Mode, svc: Services, fuel: nat) returns (r: LoopResult)
    ensures r == LoopSpec(m, svc, 1, fuel)
  {
    var batch: nat := 1;
    var logs: seq<BatchLog> := [];
    var end := Unfinished;
    var done := false;
    assert [] + LoopSpec(m, svc, 1, fuel).batches == LoopSpec(m, svc, 1, fuel).batches;
    while !done && |logs| < fuel
      invariant batch == 1 + |logs| <= 1 + fuel
      invariant !done ==> end == Unfinished && LoopSpec(m, svc, 1, fuel) == Join(logs, LoopSpec(m, svc, batch, fuel - |logs|))
      invariant done ==> LoopSpec(m, svc, 1, fuel) == LoopResult(end, logs, batch)
      decreases fuel - |logs|, if done then 0 else 1
    {
      var fetched := svc.fetch(m, batch);
      var count := if fetched.Returned? then MessageCount(fetched.value) else None;
      if count.None? {
        end := LoopError;
        done := true;
      } else if count.value == 0 {
        end := Clean;
        done := true;
      } else {
        var deletion := svc.delete(m, batch, fetched.value);
        if deletion.LoadRaised? {
          end := LoopError;
          done := true;
        } else {
          LoopSpecContinue(m, svc, logs, batch, fuel - |logs|);
          logs := logs + [BatchLog(count.value, deletion)];
          batch := batch + 1;
        }
      }
    }
    if !done {
      assert logs + [] == logs;
    }
    return LoopResult(end, logs, batch);
  }

  // ---------------------------------------------------------------------
  // The application object
  // ---------------------------------------------------------------------

  class App {
    var running: bool
    var authValue: Value
    var autoSelectedChannel: Value
    /** `self.ahs` is set: the sniffer was launched. */
    var hasSniffer: bool

    constructor ()
      ensures !running && authValue == VNone && autoSelectedChannel == VNone && !hasSniffer
    {
      running := false;
      authValue := VNone;
      autoSelectedChannel := VNone;
      hasSniffer := false;
    }

    /** `start_webbrowser_tool` up to launching the sniffer: the sniffer object exists from then on. */
    method LaunchSniffer() returns (sniffer: AutoFetchServer.AuthHeaderSniffer)
      modifies this`hasSniffer
      ensures hasSniffer
      ensures fresh(sniffer) && sniffer.url == SnifferStartPage && sniffer.Valid()
    {
      sniffer := new AutoFetchServer.AuthHeaderSniffer(SnifferStartPage, false);
      assert SnifferStartPage[..8] == "https://";
      hasSniffer := true;
    }

    /** `on_find`: keeps the authorization header of the request to the current-user endpoint. */
    method OnFind(requestUrl: string, headerName: string, headerValue: string)
      modifies this`authValue
      ensures requestUrl == UsersMeEndpoint && Lower(headerName) == "authorization" ==> authValue == VStr(headerValue)
      ensures !(requestUrl == UsersMeEndpoint && Lower(headerName) == "authorization") ==> authValue == old(authValue)
    {
      if requestUrl == UsersMeEndpoint && Lower(headerName) == "authorization" {
        authValue := VStr(headerValue);
      }
    }

    /**
     * `start_process` with the text box holding `text` and (when the sniffer
     * runs) `pageChannel` from `get_current_channel()`. `started` says
     * whether the loop is launched, `content` is what it is given.
     */
    method StartProcess(text: string, pageChannel: Value) returns (started: bool, content: string)
      modifies this`running, this`autoSelectedChannel
      ensures old(running) ==> !started && running && autoSelectedChannel == old(autoSelectedChannel)
      ensures !old(running) ==> autoSelectedChannel == (if hasSniffer then pageChannel else old(autoSelectedChannel))
      ensures !old(running) ==> content == Strip(text)
      ensures started <==> !old(running) && (HasAuto(authValue, autoSelectedChannel) || HasManual(content))
      ensures running == (old(running) || started)
    {
      if running {
        return false, [];
      }
      if hasSniffer {
        autoSelectedChannel := pageChannel;
      }
      content := Strip(text);
      var hasAuto := HasAuto(authValue, autoSelectedChannel);
      var hasManual := HasManual(content);
      started := hasAuto || hasManual;
      if started {
        running := true;
      }
    }

    /**
     * `run_logic_loop` with the given services, stopping after at most `fuel`
     * batches. `running` is false afterwards, however it ended.
     */
    method RunLogicLoop(content: string, svc: Services, display: Value -> string, fuel: nat) returns (r: LoopResult)
      modifies this`running
      ensures SelectMode(authValue, autoSelectedChannel, content, display).None? ==> r == LoopResult(LoopError, [], 1)
      ensures SelectMode(authValue, autoSelectedChannel, content, display).Some? ==>
        r == LoopSpec(SelectMode(authValue, autoSelectedChannel, content, display).value, svc, 1, fuel)
      ensures !running
    {
      var mode := SelectMode(authValue, autoSelectedChannel, content, display);
      if mode.None? {
        running := false;
        return LoopResult(LoopError, [], 1);
      }
      r := RunBatches(mode.value, svc, fuel);
      running := false;
    }
  }

  // ---------------------------------------------------------------------
  // Properties
  // ---------------------------------------------------------------------

  /**
   * The loop's trace: every logged batch is a step that went on, the batch
   * counter goes up by one per logged batch, the loop ends cleanly or with an
   * error exactly at the step that says so, and stops unfinished only when
   * the bound ran out.
   */
  lemma {:induction false} LoopTrace(mode: Mode, svc: Services, batch: nat, fuel: nat)
    ensures var r := LoopSpec(mode, svc, batch, fuel);
      && r.lastBatch == batch + |r.batches|
      && |r.batches| <= fuel
      && (forall k :: 0 <= k < |r.batches| ==> BatchOnce(mode, svc, batch + k) == Continue(r.batches[k]))
      && (|r.batches| < fuel ==> BatchOnce(mode, svc, r.lastBatch) == Stop(r.end))
      && (|r.batches| == fuel ==> r.end == Unfinished)
    decreases fuel
  {
    if fuel > 0 && BatchOnce(mode, svc, batch).Continue? {
      LoopTrace(mode, svc, batch + 1, fuel - 1);
      var r := LoopSpec(mode, svc, batch, fuel);
      var rest := LoopSpec(mode, svc, batch + 1, fuel - 1);
      assert r.batches == [BatchOnce(mode, svc, batch).log] + rest.batches;
      forall k | 0 <= k < |r.batches| ensures BatchOnce(mode, svc, batch + k) == Continue(r.batches[k]) {
        if k > 0 {
          assert r.batches[k] == rest.batches[k - 1];
          assert batch + 1 + (k - 1) == batch + k;
        }
      }
    }
  }

  /**
   * A batch goes on exactly when its fetch returned a positive number of
   * messages and the deleter did not raise on them; then it logs that count
   * and the deleter's run on exactly what was fetched. The loop ends cleanly
   * exactly at a fetch that found nothing.
   */
  lemma BatchStepSpec(mode: Mode, svc: Services, batch: nat)
    ensures var fetched := svc.fetch(mode, batch);
      (BatchOnce(mode, svc, batch).Continue? <==>
         fetched.Returned? && MessageCount(fetched.value).Some? && MessageCount(fetched.value).value > 0
         && !svc.delete(mode, batch, fetched.value).LoadRaised?)
      && (BatchOnce(mode, svc, batch).Continue? ==>
            BatchOnce(mode, svc, batch).log == BatchLog(MessageCount(fetched.value).value, svc.delete(mode, batch, fetched.value)))
      && (BatchOnce(mode, svc, batch) == Stop(Clean) <==> fetched.Returned? && MessageCount(fetched.value) == Some(0))
  {
  }

  /**
   * The loop as a whole: each batch `b` before the last one was logged, with
   * the positive count of what its fetch returned. The loop ends cleanly
   * exactly when, before the bound ran out, a fetch returned something whose
   * count is 0.
   */
  lemma LoopCounts(mode: Mode, svc: Services, fuel: nat)
    ensures var r := LoopSpec(mode, svc, 1, fuel);
      && r.lastBatch == 1 + |r.batches|
      && (forall b: nat :: 1 <= b < r.lastBatch ==>
            svc.fetch(mode, b).Returned? && r.batches[b - 1].count > 0
            && MessageCount(svc.fetch(mode, b).value) == Some(r.batches[b - 1].count))
      && (r.end == Clean <==>
            |r.batches| < fuel && svc.fetch(mode, r.lastBatch).Returned?
            && MessageCount(svc.fetch(mode, r.lastBatch).value) == Some(0))
  {
    var r := LoopSpec(mode, svc, 1, fuel);
    LoopTrace(mode, svc, 1, fuel);
    LoggedBatches(mode, svc, r.batches);
    BatchStepSpec(mode, svc, r.lastBatch);
  }

  /**
   * Every batch the loop logs comes from a fetch that returned, and records
   * the deleter's run, in that batch, on exactly what the fetch returned.
   */
  lemma LoopDeletions(mode: Mode, svc: Services, fuel: nat)
    ensures var r := LoopSpec(mode, svc, 1, fuel);
      forall b: nat :: 1 <= b <= |r.batches| ==>
        svc.fetch(mode, b).Returned?
        && r.batches[b - 1].deletion == svc.delete(mode, b, svc.fetch(mode, b).value)
        && !r.batches[b - 1].deletion.LoadRaised?
  {
    LoopTrace(mode, svc, 1, fuel);
    LoggedBatches(mode, svc, LoopSpec(mode, svc, 1, fuel).batches);
  }

  /**
   * Batches logged one after the other from batch 1 each hold the positive
   * count of their fetch and the deleter's run on it.
   */
  lemma LoggedBatches(mode: Mode, svc: Services, logs: seq<BatchLog>)
    requires forall k :: 0 <= k < |logs| ==> BatchOnce(mode, svc, 1 + k) == Continue(logs[k])
    ensures forall b: nat :: 1 <= b <= |logs| ==>
      svc.fetch(mode, b).Returned?
      && logs[b - 1].count > 0 && MessageCount(svc.fetch(mode, b).value) == Some(logs[b - 1].count)
      && logs[b - 1].deletion == svc.delete(mode, b, svc.fetch(mode, b).value)
      && !logs[b - 1].deletion.LoadRaised?
  {
    forall b: nat | 1 <= b <= |logs|
      ensures svc.fetch(mode, b).Returned?
        && logs[b - 1].count > 0 && MessageCount(svc.fetch(mode, b).value) == Some(logs[b - 1].count)
        && logs[b - 1].deletion == svc.delete(mode, b, svc.fetch(mode, b).value)
        && !logs[b - 1].deletion.LoadRaised?
    {
      assert BatchOnce(mode, svc, 1 + (b - 1)) == Continue(logs[b - 1]);
      BatchContinued(mode, svc, b);
    }
  }

  /** A batch that went on fetched something, and its log holds the deleter's run on it. */
  lemma BatchContinued(mode: Mode, svc: Services, batch: nat)
    requires BatchOnce(mode, svc, batch).Continue?
    ensures svc.fetch(mode, batch).Returned?
    ensures BatchOnce(mode, svc, batch).log.count > 0
    ensures MessageCount(svc.fetch(mode, batch).value) == Some(BatchOnce(mode, svc, batch).log.count)
    ensures BatchOnce(mode, svc, batch).log.deletion == svc.delete(mode, batch, svc.fetch(mode, batch).value)
    ensures !BatchOnce(mode, svc, batch).log.deletion.LoadRaised?
  {
  }

  /** The same for the program's own fetch runner and deleter. */
  lemma WiredLoop(mode: Mode, env: Env, fuel: nat)
    ensures var r := LoopSpec(mode, Wired(env), 1, fuel);
      forall b: nat :: 1 <= b <= |r.batches| ==>
        FetchBatch(mode, env, b).1.Returned?
        && r.batches[b - 1].deletion == DeleteBatch(mode, env, b, FetchBatch(mode, env, b).1.value)
  {
    var svc := Wired(env);
    LoopDeletions(mode, svc, fuel);
    forall b: nat ensures svc.fetch(mode, b) == FetchBatch(mode, env, b).1 { }
    forall b: nat, v: Value ensures svc.delete(mode, b, v) == DeleteBatch(mode, env, b, v) { }
  }

  /** With credentials captured, the loop runs in auto mode whatever the text box holds. */
  lemma AutoModeWins(auth: Value, channel: Value, content1: string, content2: string, display: Value -> string)
    requires HasAuto(auth, channel) && ChannelId(channel).Some?
    ensures SelectMode(auth, channel, content1, display) == SelectMode(auth, channel, content2, display)
    ensures SelectMode(auth, channel, content1, display) ==
      Some(Dynamic(DynamicUrl(ChannelId(channel).value, display), DynamicHeaders(auth)))
  {
  }

  /** In auto mode every batch issues a plain GET to the channel's endpoint with the token as the only header. */
  lemma DynamicFetchRequest(url: string, auth: Value, env: Env, batch: nat)
    requires url != []
    ensures FetchBatch(Dynamic(url, DynamicHeaders(auth)), env, batch).0 ==
      Some(GetMessages.Request(VStr("GET"), Some(url), DynamicHeaders(auth), VNone, VNone))
  {
    GetMessages.GivenRunnerSendsGet(url, DynamicHeaders(auth), None, env.eval, env.loads, env.fetchNet(batch));
  }

  /** In auto mode the deleter uses exactly the token header, never anything parsed. */
  lemma DynamicDeleteHeaders(url: string, auth: Value, env: Env, batch: nat, messages: Value)
    ensures var d := DeleteBatch(Dynamic(url, DynamicHeaders(auth)), env, batch, messages);
      d.Finished? ==> forall i :: 0 <= i < |d.outcomes| ==>
        d.outcomes[i] == DeleteMessage.ProcessItem(
          DeleteMessage.LoadedMessages(messages, []).value[i], DynamicHeaders(auth), env.display, env.deleteNet(batch))
  {
    var h := DynamicHeaders(auth);
    assert DeleteMessage.HeadersAfter(h, None, env.eval) == h;
  }

  /**
   * A channel read off a page URL by the sniffer unwraps to its id, and the
   * auto-mode endpoint then names that id.
   */
  lemma SniffedChannelUrl(pageUrl: string, display: Value -> string)
    requires AutoFetchServer.ChannelFromUrl(pageUrl).Some?
    ensures var id := AutoFetchServer.ChannelFromUrl(pageUrl).value;
      var sel := AutoFetchServer.ChannelResult(true, pageUrl);
      Truthy(sel) && ChannelId(sel) == Some(VStr(id)) &&
      DynamicUrl(ChannelId(sel).value, display) == "https://discord.com/api/v9/channels/" + id + "/messages?limit=100"
  {
  }

  /**
   * A positive count means the deleter sees that many raw items before
   * flattening: the list itself, or the dict's `messages` entry.
   */
  lemma CountMatchesDeleterSource(messages: Value)
    requires MessageCount(messages).Some? && MessageCount(messages).value > 0
    ensures DeleteMessage.MessageSource(messages).Some?
    ensures |DeleteMessage.MessageSource(messages).value| == MessageCount(messages).value
  {
  }

  /** A run that starts without credentials works from a text that mentions `fetch`. */
  lemma StartedHasMode(auth: Value, channel: Value, content: string, display: Value -> string)
    requires HasAuto(auth, channel) || HasManual(content)
    requires !HasAuto(auth, channel)
    ensures SelectMode(auth, channel, content, display) == Some(Manual(content))
    ensures Contains(content, "fetch")
  {
  }
}
