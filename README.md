# DMD — a verified model of the Discord message cleaner's core

DMD deletes a user's messages in a Discord channel, one batch at a time.
A batch is fetched with the request the user copied from the browser (a
pasted `fetch('url', {...})` command), or with a token and channel captured
by a small browser sniffer. Every message in the batch is then deleted.
This project models the logic under the network, browser and window glue,
and proves what it does:

- `text.dfy`, `pyvalue.dfy`, `http.dfy`, `wrappers.dfy`: the Python
  vocabulary the program relies on. This covers `str.strip`, `str.lower`,
  `find`/`rfind`, truthiness, and `dict.get` on a Python value. A response
  is either a status with a body or an exception.
- `js_cleanup.dfy`: the steps both `get_messages.py` and
  `delete_message.py` use to turn the options object of a fetch command
  into a Python literal.
  1. Cut the text from the first `{` to the last `}`.
  2. Replace the whole words `null`/`true`/`false`.
  3. Quote a bare key at the start of a line.
  4. Evaluate the result.

  The regular expressions are written as scanners over the original text.
- `get_messages.dfy`: `FetchRunner`. It covers the URL regex, the brace
  slice, option defaulting, moving a JSON body into the JSON payload, and
  "only a 200 gives a result". The class keeps the runner's fields and
  updates `url`/`options` in place, as `_parse_fetch_command` does.
- `delete_message.dfy`: `MessageDeleter`. It covers header precedence, the
  one-level flattening loop that builds `messages_to_delete`, the per-item
  skip rule, the DELETE URL, and status classification.
- `autofetchserver.dfy`: the sniffer helpers. These are `extract_auth`,
  scheme normalisation, the `_seen` set that makes `on_found` fire at most
  once per (lower-cased name, value), and the channel-id regex on the page
  URL.
- `gui.dfy`: the controller. `start_process` validation, mode selection,
  channel-id unwrapping and message counting are modelled here. So is the
  fetch→delete batch loop, as a `while` loop over two abstract services.
  `Wired` connects those services to the fetch runner and the deleter
  above, and `WiredLoop` states what the loop then does with them.

Outside effects are parameters. `ast.literal_eval` and `json.loads` are
partial functions, with `None` where they raise. Each HTTP call is a
function from request to `Response`. `repr` of a container is a `display`
function. The browser's current URL and whether the background loop
answered are plain arguments.

All statements are verified by Dafny.

## Model

| member | source | states |
|---|---|---|
| Text.Lower | js_control_tools/autofetchserver.py:13 | lower-casing keeps the length and maps every character through the (ASCII) lower-case map |
| Text.StripSpec | gui.py:109 | `strip()` yields a contiguous middle part of the text with only whitespace cut on either side, and the result neither starts nor ends with whitespace |
| Text.StripEmpty | js_control_tools/autofetchserver.py:13 | `v.strip()` is empty exactly when `v` is all whitespace |
| Text.Find | get_messages.py:34 | the first index of the character, or none exactly when it is absent |
| Text.RFind | get_messages.py:35 | the last index of the character, or none exactly when it is absent |
| Text.FirstMatch | get_messages.py:27 | `re.search` takes the leftmost position where the pattern matches, and finds nothing exactly when no position matches |
| PyValue.Lookup | get_messages.py:62-64 | a dict lookup finds the value of the first entry with the key, and finds nothing exactly when no entry has that key |
| PyValue.Get | get_messages.py:62-64 | `.get` succeeds exactly on a dict and raises (AttributeError) on anything else |
| PyValue.GetSpec | get_messages.py:62-64 | on a dict, `.get` gives the value of the first entry with the key, or the default when no entry has it |
| PyValue.Iterate | delete_message.py:76 | iterating succeeds exactly when `len` does and yields that many items: a list's, tuple's or set's items, a string's one-character strings, a dict's keys |
| PyValue.Str | delete_message.py:98 | an f-string shows a string as itself, and an integer as canonical decimal digits that denote it, with a `-` in front when it is negative |
| Text.NatToStringSpec | delete_message.py:98 | `str(n)` of a natural number is canonical decimal text (no leading zero) whose digits denote `n` |
| Text.NatToStringInjective | delete_message.py:98 | distinct numbers have distinct decimal texts |
| JsCleanup.ReplaceWordSpec | get_messages.py:45-47 | `re.sub(r'\bw\b', rep)` keeps the length, puts `rep` at every whole-word occurrence and leaves every other character unchanged |
| JsCleanup.ReplaceWordAbsent | get_messages.py:45-47 | with no whole-word occurrence the text is unchanged |
| JsCleanup.KeyMatchSpec | get_messages.py:50 | a key match is a line start, whitespace, an identifier that ends before a non-word character, whitespace, then a colon |
| JsCleanup.KeyMatchAt | get_messages.py:50 | at any line start, not only the first, whitespace, an identifier, whitespace and a colon are matched with exactly those spans |
| JsCleanup.KeyMatchIff | get_messages.py:50 | the key pattern matches at a position with given spans exactly when the text there has that layout |
| JsCleanup.QuoteKeysCopyAt | get_messages.py:50 | at a position where the text has no key layout, the character is copied and the rewrite goes on at the next one |
| JsCleanup.QuoteKeysAtLine | get_messages.py:50 | on any line of a multi-line text laid out as whitespace, identifier, whitespace, colon, the key is replaced by `"identifier":` and the rewrite continues after the colon |
| JsCleanup.QuoteKeysEssential | get_messages.py:50 | the text before and after quoting keys is equal once quotes and whitespace are removed |
| JsCleanup.QuoteKeysNoMatch | get_messages.py:50 | quoting keys leaves the text unchanged when no key pattern matches |
| JsCleanup.QuoteKeyLine | get_messages.py:50 | an indented line `key : rest` becomes `"key":rest` |
| JsCleanup.QuoteFirstLine | get_messages.py:50 | a key matched on a one-line text is rewritten to `"key":` followed by the rest of the text |
| JsCleanup.ConfigSlice | get_messages.py:34-42 | there is no slice exactly when a brace is missing; otherwise the slice runs from the first `{` to the last `}`, and it is empty exactly when no `{` precedes a `}` |
| JsCleanup.ParseConfig | get_messages.py:34-58 | the options object is missing exactly when a brace is missing, is bad exactly when the evaluator raises on the cleaned slice, and is otherwise the evaluator's value |
| GetMessages.ExtractUrlSpec | get_messages.py:27-31 | the URL is the lazy match between `fetch(` and a quote and the next quote, at the leftmost position where one exists; there is none exactly when no position matches |
| GetMessages.UrlAtSpec | get_messages.py:27 | the scanner at a position succeeds with `u` exactly when the regex matches there with group `u` |
| GetMessages.BuildRequest | get_messages.py:62-72 | a request is built exactly for dict options. The method defaults to GET and the headers to `{}`. A string body that decodes moves to the JSON payload with empty data; otherwise the body stays as data with no JSON |
| GetMessages.Interpret | get_messages.py:84-94 | only a 200 answer yields its decoded JSON (None if it does not decode); every other status yields None |
| GetMessages.FetchRunner.constructor | get_messages.py:7-11 | the fields are the arguments, and the options are `{'headers': h}` only for truthy headers |
| GetMessages.FetchRunner.ParseFetchCommand | get_messages.py:24-58 | success and the new `url`/`options` follow ParseFetch: no URL leaves the state unchanged, no braces gives the plain GET options, and a bad literal keeps the old options |
| GetMessages.FetchRunner.ExecuteRequest | get_messages.py:60-98 | the request sent and the result are those of the option defaulting and the response rule |
| GetMessages.FetchRunner.Run | get_messages.py:13-22 | the result is RunSpec of the initial fields; the fetch text is parsed, and the fields change, only when the URL or headers are missing and fetch text exists |
| GetMessages.RunWithoutContent | get_messages.py:15-18 | having to parse with no fetch text returns None and sends no request |
| GetMessages.RunParseFailure | get_messages.py:19-20 | a fetch text without a URL, or with an options object the evaluator rejects, returns None and sends no request |
| GetMessages.RunGivenIgnoresFetch | get_messages.py:15 | with a URL and truthy headers given, the fetch text and the evaluator do not matter |
| GetMessages.RunResultNeeds200 | get_messages.py:86-94 | a non-None result means a request was sent and answered with 200 |
| GetMessages.GivenRunnerSendsGet | get_messages.py:13-22 | a runner built with a URL and truthy headers sends GET to that URL with those headers and no body |
| GetMessages.PlainGetRequest | get_messages.py:62-66 | the no-config options give a GET with `{}` headers and no body |
| GetMessages.NoConfigSendsPlainGet | get_messages.py:37-40 | a fetch text with a URL but a missing brace sends a plain GET to that URL |
| DeleteMessage.HeadersFrom | delete_message.py:30-57 | header parsing succeeds exactly for non-empty fetch text whose options object evaluates to a dict, and then yields its `headers` entry, defaulting to `{}` |
| DeleteMessage.MessageSource | delete_message.py:67-72 | a dict gives its `messages` entry (default empty), a list gives itself, anything else gives nothing |
| DeleteMessage.FlattenAppend | delete_message.py:76-80 | flattening distributes over concatenation, so items keep their order |
| DeleteMessage.FlattenMembers | delete_message.py:76-80 | a value is in the flattened list exactly when it is a non-list item or an element of a list item |
| DeleteMessage.FlattenFlat | delete_message.py:76-80 | a list with no nested lists flattens to itself |
| DeleteMessage.FlattenLength | delete_message.py:76-80 | the flattened length is the sum of the lengths of the list items plus the number of other items |
| DeleteMessage.Classify | delete_message.py:104-110 | 200 and 204 are success, 429 is rate-limited, every other status is failure |
| DeleteMessage.ProcessItemSends | delete_message.py:88-110 | a DELETE is sent exactly for dict items with a truthy id and channel id, and a content that can be sliced; it goes to `.../channels/{channel_id}/messages/{id}` and its status is classified |
| DeleteMessage.DeleteUrlInjective | delete_message.py:98 | distinct (channel, message) ids without `/` give distinct DELETE URLs |
| DeleteMessage.ProcessAll | delete_message.py:88-118 | every item gets its own outcome, in order, whatever happened to earlier items |
| DeleteMessage.MessageDeleter.constructor | delete_message.py:10-14 | headers are `headers or {}` and the list to delete starts empty |
| DeleteMessage.MessageDeleter.ParseFetchHeaders | delete_message.py:30-57 | succeeds exactly when HeadersFrom does and then sets the headers to its value; otherwise the headers are unchanged |
| DeleteMessage.MessageDeleter.LoadMessagesFromMemory | delete_message.py:59-82 | falsy data leaves the list alone; otherwise the list is the one-level flattening of the message source, or the call raises where that source cannot be iterated |
| DeleteMessage.MessageDeleter.ProcessDeletions | delete_message.py:84-118 | one outcome per listed message, each that item's outcome, the state untouched |
| DeleteMessage.MessageDeleter.Run | delete_message.py:16-28 | the result is RunSpec of the initial fields, the headers end up as HeadersAfter, and the message list is unchanged without headers, `[]` after a raise, and the loaded list after a finished run |
| DeleteMessage.GivenHeadersKept | delete_message.py:13-21 | truthy headers given at construction are never replaced by parsed ones |
| DeleteMessage.HeadersAgreeWithFetchRunner | delete_message.py:45-53 | for the same fetch text, the deleter's headers are exactly the headers the fetch runner sends |
| DeleteMessage.RunSendsWithHeaders | delete_message.py:23-28 | a run past the header check handles every loaded item in order with the final, truthy headers |
| DeleteMessage.NoHeadersNoRequests | delete_message.py:23-25 | without truthy headers from either source nothing is loaded and nothing is deleted |
| AutoFetchServer.FirstWhereSpec | js_control_tools/autofetchserver.py:12-15 | a first-match loop returns the first element satisfying the test, or nothing exactly when none does |
| AutoFetchServer.ExtractAuthSpec | js_control_tools/autofetchserver.py:11-15 | `extract_auth` returns the first auth header, with its original name and unstripped value, or None exactly when there is none |
| AutoFetchServer.AuthHeaderIff | js_control_tools/autofetchserver.py:8-13 | a header counts exactly when its lower-cased name is `authorization` or `proxy-authorization` and its value is not all whitespace |
| AutoFetchServer.NormalizeUrl | js_control_tools/autofetchserver.py:33-36 | the URL gets `https://` in front exactly when it has no `http://`/`https://` scheme, so it always has one |
| AutoFetchServer.NormalizeUrlIdempotent | js_control_tools/autofetchserver.py:33-36 | normalising twice is normalising once |
| AutoFetchServer.OnRequestStep | js_control_tools/autofetchserver.py:52-68 | `_seen` only grows, a request without an auth header changes nothing, and afterwards its auth key is in `_seen` |
| AutoFetchServer.OnRequestKeepsDeduped | js_control_tools/autofetchserver.py:60-68 | each (lower-cased name, value) key is reported at most once, and the reported keys are exactly `_seen` |
| AutoFetchServer.SniffReportsOnce | js_control_tools/autofetchserver.py:60-68 | over any sequence of requests, `on_found` fires at most once per key |
| AutoFetchServer.SniffSeesAll | js_control_tools/autofetchserver.py:55-66 | after any sequence of requests, every auth key they carried is in `_seen` |
| AutoFetchServer.ChannelAtSpec | js_control_tools/autofetchserver.py:136 | the scanner at a position succeeds exactly when `channels/(?:@me\|\d+)/(\d{17,20})` matches there |
| AutoFetchServer.ChannelFromUrlSpec | js_control_tools/autofetchserver.py:136-145 | the channel id is 17 to 20 digits taken from the leftmost match, and there is none exactly when the regex matches nowhere |
| AutoFetchServer.ChannelResult | js_control_tools/autofetchserver.py:129-145 | no page or no match gives None; a match gives `("Detected Channel", id)` |
| AutoFetchServer.AuthHeaderSniffer.constructor | js_control_tools/autofetchserver.py:26-47 | the URL is normalised, `_seen` is empty, no page and no loop |
| AutoFetchServer.AuthHeaderSniffer.OnRequest | js_control_tools/autofetchserver.py:52-68 | the new `_seen` and findings are one OnRequestStep, `_seen` only grows, and each key is reported once |
| AutoFetchServer.AuthHeaderSniffer.Start | js_control_tools/autofetchserver.py:73-93 | after start the loop is active and the page is open |
| AutoFetchServer.AuthHeaderSniffer.GetCurrentChannelAsync | js_control_tools/autofetchserver.py:124-145 | the channel detected on the current page |
| AutoFetchServer.AuthHeaderSniffer.GetCurrentChannel | js_control_tools/autofetchserver.py:153-175 | None when the loop is not active or the background call fails; otherwise the channel detected on the page |
| Gui.ChannelId | gui.py:137 | a list or tuple selection gives its element `[1]` (raising when too short), anything else gives itself |
| Gui.SelectMode | gui.py:133-143 | auto mode exactly when both the token and the channel are truthy, and only if the channel unwraps; manual mode otherwise |
| Gui.AutoModeWins | gui.py:133-140 | with credentials the text box does not matter: the URL is `https://discord.com/api/v9/channels/{chan}/messages?limit=100` and the headers hold only `authorization` |
| Gui.DynamicFetchRequest | gui.py:139-149 | in auto mode every batch sends a plain GET to the channel endpoint with the token as the only header |
| Gui.DynamicDeleteHeaders | gui.py:168 | in auto mode the deleter sends every DELETE with exactly the token header |
| Gui.SniffedChannelUrl | gui.py:137-139 | a channel detected by the sniffer unwraps to its id, and the endpoint names that id |
| Gui.MessageCountSpec | gui.py:156-157 | a list counts its items; a dict counts its `messages` entry (0 without one, none where `len` raises); anything else counts 0; only a dict can make the count raise |
| Gui.CountMatchesDeleterSource | gui.py:156-157 | a positive count is the number of raw items the deleter starts from |
| Gui.StartedHasMode | gui.py:112-115 | a run that starts without credentials works from a text that mentions `fetch` |
| Gui.BatchStepSpec | gui.py:153-173 | a batch goes on exactly when its fetch gave a positive count and the deleter did not raise, and then it logs that count; it ends cleanly exactly at a count of 0 |
| Gui.LoopTrace | gui.py:144-173 | the batch counter goes up by one per logged batch; every logged batch is one that went on; the loop stops at the batch that says so, or when the bound runs out |
| Gui.LoopDeletions | gui.py:153-171 | every logged batch comes from a fetch that returned, and holds the deleter's run, in that batch, on exactly what was fetched, which did not raise |
| Gui.WiredLoop | gui.py:144-171 | over the program's fetch runner and deleter, each logged batch's deletion is the deleter built for that batch and mode, run on that batch's fetch result |
| Gui.LoopCounts | gui.py:144-173 | each batch before the last was logged with the positive count of its fetch, and the loop ends cleanly exactly when a fetch counted 0 |
| Gui.LoopSpecContinue | gui.py:171-173 | a batch that went on moves from the rest of the loop into the logged batches |
| Gui.RunBatches | gui.py:144-174 | the `while` loop computes exactly the loop specification LoopSpec |
| Gui.App.constructor | gui.py:30-37 | no sniffer, no token, no channel, not running |
| Gui.App.LaunchSniffer | gui.py:99 | the sniffer opens `https://discord.com/channels/@me` |
| Gui.App.OnFind | gui.py:93-95 | the token is kept exactly from the authorization header of the `users/@me` request |
| Gui.App.StartProcess | gui.py:102-123 | nothing happens while running; otherwise the channel is refreshed from the sniffer, and a run starts exactly when auto or manual input is present |
| Gui.App.RunLogicLoop | gui.py:125-181 | an unwrapping error ends the run before any batch; otherwise the result is the loop specification in the selected mode, and `running` is false afterwards either way |

## Left out

- Text.IsSpace covers Python's whitespace. `\w`, `\d`, `[a-zA-Z_]` and `str.lower()` are modelled on ASCII; non-ASCII letters and digits, and Unicode case mapping, are out.
- Python equality between different types (`1 == True`) and dict key hashing are reduced to structural equality on `Value`. Floats and bytes are not values of the model. A Python dict has distinct keys; a `Value` dict with a repeated key is looked up at its first entry.
- `ast.literal_eval` and `json.loads` are partial functions given as parameters, not re-implemented.
- `requests.request`, `requests.delete` and the response's `.json()` are parameters that return a status and a text.
- Playwright is not modelled: launching, navigating, event dispatch and `stop`. AuthHeaderSniffer.Start only records that the loop and page exist, and the page's current URL is an argument.
- Threads and the asyncio hand-over in `get_current_channel` are not modelled. AuthHeaderSniffer.GetCurrentChannel takes whether the background call answered in time as an argument.
- The unreachable `raise RuntimeError` after the `try` in `get_current_channel` is not modelled.
- `time.sleep` and `random.uniform` are pacing only and are not modelled. Neither is the rate-limit extra sleep, which is visible only as the `RateLimited` class.
- Printing, the log queue, `TextRedirector`, `update_logs`, message boxes and widget updates are not modelled.
- `repr` of lists, dicts and other containers in f-strings is the `display` parameter. Strings and integers are shown as Python shows them.
- Gui.RunLogicLoop: `while True` is bounded by a `fuel` number of batches, and a run that reaches the bound ends as `Unfinished`; the unbounded loop is not modelled. This matters whenever deletions fail and leave the same messages to be fetched again, as with a 403 on other users' messages, a 429 (which is not retried) or items without an id: the source then loops indefinitely.
- Gui.RunLogicLoop: an exception escaping `FetchRunner.run` or `MessageDeleter.run` is modelled as the loop's error end. Python exceptions that the modelled code cannot raise (memory, interrupts) are out.
