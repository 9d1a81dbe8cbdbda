# Portrayal plugin: a verified model of its history fetch and argument handling

The plugin answers the group command `画像 @member [rounds]`. It reads the
member's recent group messages through the OneBot `get_group_msg_history` call,
asks a language model for a personality portrait, and replies with an image.
This project models the parts of `main.py` that are logic rather than glue, and
proves properties of them:

- **ContextBuilder** (`_build_user_context`): keeps the messages whose sender is
  the target, joins their `"text"` segments with no separator, strips the result,
  drops empty results, and emits `{role: "user", content}` turns in page order.
- **HistoryFetcher** (`get_msg_contexts`): pages backwards through the history
  (cursor `message_seq`, 0 first). Each request is tried at most three times,
  sleeping 1 and then 2 seconds between failed attempts. The loop stops on a
  missing or empty page, on a first message without `message_id`, on reaching
  the target turn count, or once the round counter reaches the round budget.
  The history RPC is an oracle: a script of outcomes (`Fail` or `Page(messages)`)
  consumed one call at a time. A call past the end of the script fails. Sleeps
  are recorded as a ghost list of delays. `GetMsgContexts` is the imperative loop.
  Its contract equates its results with the recursive specification `Fetch`.
  The module `FetchProperties` proves what every run of `Fetch` records.
- **Command**: the round budget is the last `" "`-separated token of the message
  when it is all digits, else the configured `max_query_rounds` (default 10),
  clamped to [0, 200].
- **Profile** (`get_nickname` and the pronoun of `get_llm_respond`): the name is
  the group card, else the nickname, else `群友`; the gender is `sex`, else
  `unknown`; a failed lookup gives `("群友", "unknown")`; the pronoun is `他`
  exactly for `male`, otherwise `她`.
- **Text**, **Config**, **Wrappers**: `strip`, `split(" ")`, `isdigit`, `int(...)`
  over ASCII; the configuration keys with their defaults (500 turns, page size
  200, 10 rounds); an `Option` type.

The round budget is checked with `>=` after a round is counted, so a budget of
0 still runs one round.

## Model

| member | source | states |
|---|---|---|
| ContextBuilder.BuildUserContext | main.py:18-36 | the turns of a page are never more than its messages |
| ContextBuilder.JoinText | main.py:29-30 | the `"".join` of the text segments; its contract is in `JoinTextSingle`, `JoinTextAppend` and `JoinTextWithoutText` |
| ContextBuilder.Content | main.py:29-30 | the stripped joined text of a message; `StripIsTrimmedSlice` and `StripEmptyIffAllSpace` describe it |
| ContextBuilder.Kept | main.py:25-33 | a message is kept when its sender is the target and its content is non-empty; `BuildIsOrderedSelection`, `NoTextNotKept` and `BlankTextNotKept` state what that selects |
| ContextBuilder.BuildIsOrderedSelection | main.py:23-34 | the turns are exactly the kept messages (sender is the target, stripped text non-empty), in page order: strictly increasing positions, every kept message listed, turn k built from message k |
| ContextBuilder.KeptPositionsSound | main.py:23-34 | the listed positions are increasing, inside the page, and all hold kept messages |
| ContextBuilder.KeptPositionsComplete | main.py:23-34 | every kept message's position is listed |
| ContextBuilder.BuildFollowsKeptPositions | main.py:29-34 | turn k has role "user" and the stripped joined text of the k-th kept message |
| ContextBuilder.BuildShape | main.py:33-34 | every turn has role "user" and non-empty content that is already stripped |
| ContextBuilder.BuildAllKept | main.py:23-34 | a page whose messages are all kept yields one turn per message |
| ContextBuilder.BuildAppend | main.py:23-36 | building distributes over concatenation of pages, so output order follows input order |
| ContextBuilder.DroppedMessageContributesNothing | main.py:25-26 | a message that is not kept leaves the result unchanged wherever it stands |
| ContextBuilder.KeptMessageContributesItsTurn | main.py:25-34 | a target message with visible text adds exactly one turn with its stripped joined text, in place |
| ContextBuilder.NoTextNotKept | main.py:29-33 | a message with no "text" segment contributes nothing |
| ContextBuilder.BlankTextNotKept | main.py:30-33 | a message whose joined text is only whitespace contributes nothing |
| ContextBuilder.JoinTextAppend | main.py:29-30 | text segments are joined in order with no separator |
| ContextBuilder.JoinTextSingle | main.py:29-30 | a single text segment joins to its own text |
| ContextBuilder.JoinTextWithoutText | main.py:29 | non-text segments add no text |
| Text.StripIsTrimmedSlice | main.py:30 | `strip()` returns the slice of `s` that starts after its leading whitespace: everything cut off on either side is whitespace, and the result neither starts nor ends with whitespace |
| Text.Strip | main.py:30 | `str.strip()` over ASCII whitespace; its contract is in `StripIsTrimmedSlice`, `StripIdempotent` and `StripEmptyIffAllSpace` |
| Text.StripEmptyIffAllSpace | main.py:30-33 | the stripped text is empty exactly when the text is all whitespace |
| Text.StripIdempotent | main.py:30 | stripping a stripped text changes nothing |
| HistoryFetcher.Retry | main.py:67-84 | one to three calls; earlier calls failed; a page is the answer of the last call; no page only after three failures; the sleeps are `1 * 2**attempt` before each retry and none after the last attempt |
| HistoryFetcher.FetchLoop | main.py:57-104 | the loop of `get_msg_contexts` from a loop-head state; `FetchLoopKeepsCoherent` and `FetchLoopAnswered` carry its contract |
| HistoryFetcher.Fetch | main.py:45-106 | a whole fetch from cursor 0 with the configured target and page size; `FetchTrace` and `FetchPagesComeFromOracle` carry its contract |
| HistoryFetcher.Tried | main.py:58-84 | the state after one request and its retry block; `TriedCoherent` carries its contract |
| HistoryFetcher.Consume | main.py:93-102 | the state after consuming a usable page; `ConsumedCoherent` carries its contract |
| HistoryFetcher.Backoff | main.py:78 | the sleep after failed attempt `a` is `1 * 2**a` seconds; `Retry` and `RetryAllFail` state the schedule this gives: [1, 2] and no sleep after the third failure |
| HistoryFetcher.Usable | main.py:86-97 | a page is consumed only when it is present, non-empty and its first message has a `message_id`; `StopsOnUnusablePage` states that any other answer ends the loop |
| HistoryFetcher.RetryAllFail | main.py:75-83 | three failures give no page, three calls, and sleeps of exactly [1, 2] |
| HistoryFetcher.RetryStopsAtFirstAnswer | main.py:71-74 | k failures then an answer: that page, k + 1 calls, the first k backoffs |
| HistoryFetcher.RequestPage | main.py:65-84 | the imperative retry block returns the page and call count of `Retry`, and its ghost sleeps are `Retry`'s |
| HistoryFetcher.GetMsgContexts | main.py:38-106 | the imperative loop returns the turns and the round count of `Fetch`, and its ghost trace is `Fetch`'s whole final state |
| FetchProperties.FetchTrace | main.py:45-106 | the turns are `_build_user_context` of each consumed page, in order; one round per page, at most max(budget, 1); request 0 has cursor 0 and request j the first `message_id` of page j-1; each request took 1-3 calls with the configured page size; the sleeps are each request's backoff, in order; the loop stopped because the last request got no usable page (that request is then the one unconsumed request, and it made exactly the calls of `Retry` from its first call), the target count was reached, or, after at least one round, the budget `max(budget, 1)` was reached; every request was sent while fewer than the target count of turns had been gathered and, after the first, within the budget (`SentUnderGuard`); every consumed request made exactly the calls of its retry block, which returned that page (`RetriesReplayed`) |
| FetchProperties.FetchLoopReplays | main.py:57-104 | from a loop-head state whose requests so far were all sent under the `while` guard and replayed, so is every request of the run: none is sent once the target count is reached or, after the first, at or past the budget, and each consumed request's call count and page are those of `Retry` from its first call |
| FetchProperties.TriedReplayed | main.py:57-84 | a request sent while the guard holds, with the calls of its retry block, keeps every request guarded and replayed |
| FetchProperties.ConsumedReplayed | main.py:86-101 | consuming the page that the retry block returned keeps every request guarded and replayed |
| FetchProperties.FetchLoopKeepsCoherent | main.py:57-104 | from any coherent loop-head state the loop ends coherent, within the round cap, for one of the three stop reasons, the budget one only after at least one round (`max(budget, 1)`); an unconsumed last request is one whose retry block got no usable page |
| FetchProperties.TriedCoherent | main.py:58-84 | sending a request records its cursor, page size, calls and sleeps |
| FetchProperties.ConsumedCoherent | main.py:93-102 | consuming a page moves the cursor to its first `message_id`, appends its turns and counts one round |
| FetchProperties.FetchPagesComeFromOracle | main.py:71-72 | every consumed page is the RPC's answer to the last call of its round's request |
| FetchProperties.FetchLoopAnswered | main.py:57-104 | the loop keeps every consumed page tied to the call that answered it |
| FetchProperties.NoRoundsWithoutTarget | main.py:50-57 | with a target count of 0 or less, no request is sent and nothing is returned |
| FetchProperties.ZeroBudgetStillRunsOneRound | main.py:102-104 | with a budget of 0 and a usable first page, exactly one round runs |
| FetchProperties.StopsOnUnusablePage | main.py:86-97 | a request with no page, an empty page or a first message without `message_id` ends the loop with no new round, turn or cursor |
| FetchProperties.PermanentFailure | main.py:54-89 | an RPC that always raises gives no turns, 0 rounds, 3 calls and sleeps [1, 2] |
| FetchProperties.ThreeAnsweredRounds | main.py:57-104 | with a budget of at least 3, three answered pages whose turns reach the target only with the third give 3 rounds, the three pages' turns in order, and no sleep |
| FetchProperties.ThreeFullPages | main.py:50-104 | with a budget of at least 3, three pages of 200 kept messages and a target of 500 give 3 rounds and 600 turns |
| FetchProperties.AnsweredRoundContinues | main.py:57-104 | a first call answered with a usable page below the budget leads to the next round after one call and no sleep |
| FetchProperties.AnsweredRoundReachesTarget | main.py:57-104 | a first call answered with a usable page whose turns reach the target count ends the loop in that round |
| Command.TargetQueryRounds | main.py:176-179 | the effective round budget lies in [0, 200] |
| Command.RequestedRounds | main.py:176-178 | the budget before clamping; `TrailingNumberIsUsed`, `NonNumericTokenUsesDefault` and `TrailingSpaceUsesDefault` carry its contract |
| Config.TargetCount | main.py:50 | `max_msg_count`, default 500; its contract is in `EntriesOrDefaults` |
| Config.PageSize | main.py:51 | `per_msg_count`, default 200; its contract is in `EntriesOrDefaults` |
| Config.DefaultRounds | main.py:178 | `max_query_rounds`, default 10; its contract is in `EntriesOrDefaults` |
| Config.EntriesOrDefaults | main.py:50-51 | each entry is the configured value when set, else 500 turns, page size 200 and 10 rounds |
| Command.Clamp | main.py:179 | values in [0, 200] are kept, smaller ones become 0, larger ones 200 |
| Command.TrailingNumberIsUsed | main.py:176-179 | a number after the last space is the budget, capped at 200, whatever precedes it |
| Command.NonNumericTokenUsesDefault | main.py:178 | a last token that is not all digits gives the configured default, clamped |
| Command.TrailingSpaceUsesDefault | main.py:176-178 | a message ending in a space has an empty last token and gives the default |
| Command.UnconfiguredDefaultIsTen | main.py:178 | without a configured value or a number, the budget is 10 |
| Text.SplitJoinRoundTrip | main.py:176 | joining the pieces of `split(" ")` with " " gives the message back |
| Text.SplitOnSpace | main.py:176 | `str.split(" ")`, empty pieces included; its contract is in `SplitJoinRoundTrip` and `SplitPiecesHaveNoSpace` |
| Text.SplitPiecesHaveNoSpace | main.py:176 | no piece of `split(" ")` contains a space, so together with `SplitJoinRoundTrip` the pieces are exactly the text between spaces |
| Text.LastToken | main.py:177 | `msg_parts[-1]`; its contract is in `LastTokenIsTail` |
| Text.IsDigits | main.py:178 | `str.isdigit()` over ASCII: non-empty and all `0`-`9`; `ShowDecimal` produces such strings and `NonNumericTokenUsesDefault` covers the others |
| Text.ParseDecimal | main.py:178 | `int()` of a digit string; its contract is in `ParseShowRoundTrip` and `LeadingZeroIgnored` |
| Text.LastTokenIsTail | main.py:176-177 | the last piece is the space-free tail after the last space, or the whole message |
| Text.ParseShowRoundTrip | main.py:178 | `int` of the decimal digits of n is n |
| Text.LeadingZeroIgnored | main.py:178 | leading zeros do not change the parsed value |
| Profile.NicknameResolution | main.py:147-157 | the name is the first non-empty of card and nickname, else "群友", and never empty; gender is `sex` when present, else "unknown"; a failed lookup gives ("群友", "unknown") |
| Profile.GetNickname | main.py:147-157 | the `(nickname, gender)` pair with its fallbacks; its contract is in `NicknameResolution`, `CardPreferred` and `FallbackPronoun` |
| Profile.FirstTruthy | main.py:153 | Python's `a or b or default`: the first truthy candidate wins; the default comes only when none is truthy |
| Profile.CardPreferred | main.py:153 | a non-empty card always wins over the nickname |
| Profile.Pronoun | main.py:119 | the pronoun is "他" exactly when the gender is "male", and "她" exactly otherwise |
| Profile.FallbackPronoun | main.py:119 | a failed lookup or a missing `sex` leads to "她" |

## Left out

- The language-model call of `get_llm_respond` (main.py:108-134): a call into the host framework; only the pronoun choice is modelled.
- `get_at_id` (main.py:137-145): it depends on the framework's message-component types.
- The command's replies, the platform check, `text_to_image` and the exception handler (main.py:164-170, 181-209): framework I/O.
- `asyncio.sleep` and logging: sleeps are recorded as whole-second delay values; the source sleeps 1.0 and 2.0 seconds.
- The request's `group_id` and `reverseOrder` fields: they are the same for every request of a run, so a recorded request holds only its cursor, its page size and its call count.
- A record whose sender is the target but which has no `"message"` key, or a segment of such a record without `"type"`, or a text segment of it without `data.text`: the source raises out of `get_msg_contexts` there (records of other senders are skipped before their segments are read); the model takes every record's segments as given.
- Behaviour `main.py` does not have is not modelled: it adds no timestamp prefix to turns, makes no second "stranger info" lookup, classifies no error messages, and does not retry the language-model call.
- `int(target_id)` failing: the target is taken as an integer.
- Non-ASCII behaviour of `str.isdigit` and `str.strip`: whitespace is the ASCII subset of Python's whitespace, digits are `0`-`9`.
- Configuration values and `message_id`s of other types than integers.
- TrailingNumberIsUsed: the interpreter's limit on the digits `int()` accepts (`sys.int_max_str_digits`, 4300 by default since Python 3.11) is not modelled; a last token longer than that makes `int(end_parm)` raise outside any handler, while the model's budget is 200.
- The RPC oracle is a finite script; a call past its end fails like a raised exception.
