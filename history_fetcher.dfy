/**
 * `get_msg_contexts`: pages backwards through the group history, retrying a
 * failed request up to three times with exponential backoff, and collects the
 * target member's turns until enough turns or enough rounds are gathered.
 *
 * The history RPC is an oracle: a script of outcomes consumed one call at a
 * time; a call past the end of the script fails. Sleeps are recorded as delays.
 */
module HistoryFetcher {
  import opened Wrappers
  import opened ContextBuilder
  import opened Config

  const MaxRetries: nat := 3
  const BaseDelay: nat := 1

  /** What one `get_group_msg_history` call does: raise, or answer with a list of messages. */
  datatype Outcome = Fail | Page(messages: seq<RawMessage>)

  /** The outcome of RPC call number `k` (counting from 0). */
  function CallAt(oracle: seq<Outcome>, k: nat): (o: Outcome)
  {
    if k < |oracle| then oracle[k] else Fail
  }

  /** The outcome of attempt `k` of the retry block whose first call is RPC call `pos`. */
  function AttemptAt(oracle: seq<Outcome>, pos: nat, k: nat): (o: Outcome)
  {
    CallAt(oracle, pos + k)
  }

  function Pow2(n: nat): (p: nat)
    ensures p >= 1
  {
    if n == 0 then 1 else 2 * Pow2(n - 1)
  }

  /** The sleep after failed attempt `attempt` (0-based): `BASE_DELAY * 2 ** attempt`. */
  function Backoff(attempt: nat): (seconds: nat)
  {
    BaseDelay * Pow2(attempt)
  }

  /** The sleeps that precede attempts 1 .. n-1: `[Backoff(0), .., Backoff(n - 2)]`. */
  predicate IsBackoffSchedule(delays: seq<nat>, n: nat)
  {
    |delays| + 1 == n && forall i :: 0 <= i < |delays| ==> delays[i] == Backoff(i)
  }

  /**
   * The result of one retry block: the page it got (None when every attempt
   * raised), how many RPC calls it made, and the sleeps between them.
   */
  datatype Retrieval = Retrieval(page: Option<seq<RawMessage>>, tries: nat, delays: seq<nat>)

  /**
   * Attempts `attempt`, `attempt + 1`, ... of the retry block whose first call is
   * RPC call `pos`. The first answer ends the block; a failure sleeps and tries
   * again unless it was the last attempt, after which nothing more is slept.
   */
  function Retry(oracle: seq<Outcome>, pos: nat, attempt: nat): (r: Retrieval)
    requires attempt < MaxRetries
    decreases MaxRetries - attempt
    ensures attempt < r.tries <= MaxRetries
    ensures forall k :: attempt <= k < r.tries - 1 ==> AttemptAt(oracle, pos, k) == Fail
    ensures r.page.Some? ==> AttemptAt(oracle, pos, r.tries - 1) == Page(r.page.value)
    ensures r.page.None? ==> r.tries == MaxRetries && AttemptAt(oracle, pos, MaxRetries - 1) == Fail
    ensures |r.delays| == r.tries - 1 - attempt
    ensures forall i :: 0 <= i < |r.delays| ==> r.delays[i] == Backoff(attempt + i)
  {
    match CallAt(oracle, pos + attempt)
    case Page(msgs) => Retrieval(Some(msgs), attempt + 1, [])
    case Fail =>
      if attempt < MaxRetries - 1 then
        var rest := Retry(oracle, pos, attempt + 1);
        Retrieval(rest.page, rest.tries, [Backoff(attempt)] + rest.delays)
      else
        Retrieval(None, attempt + 1, [])
  }

  /** Three failures in a row: no page, three calls, and sleeps of 1 then 2 and no third. */
  lemma RetryAllFail(oracle: seq<Outcome>, pos: nat)
    requires forall k :: 0 <= k < MaxRetries ==> AttemptAt(oracle, pos, k) == Fail
    ensures Retry(oracle, pos, 0) == Retrieval(None, 3, [1, 2])
  {
    var r := Retry(oracle, pos, 0);
    assert r.delays[0] == 1 && r.delays[1] == 2;
  }

  /** The first answer stops the retrying: `k` failures then an answer make `k + 1` calls. */
  lemma RetryStopsAtFirstAnswer(oracle: seq<Outcome>, pos: nat, k: nat, msgs: seq<RawMessage>)
    requires k < MaxRetries
    requires forall j :: 0 <= j < k ==> AttemptAt(oracle, pos, j) == Fail
    requires AttemptAt(oracle, pos, k) == Page(msgs)
    ensures Retry(oracle, pos, 0).page == Some(msgs)
    ensures Retry(oracle, pos, 0).tries == k + 1
    ensures IsBackoffSchedule(Retry(oracle, pos, 0).delays, k + 1)
  {
    var r := Retry(oracle, pos, 0);
    assert AttemptAt(oracle, pos, r.tries - 1) != Fail || r.tries - 1 > k;
  }

  /** A retry block's page can be consumed: it is present, non-empty, and its first message has a `message_id`. */
  predicate Usable(page: Option<seq<RawMessage>>)
  {
    page.Some? && page.value != [] && page.value[0].messageId.Some?
  }

  /** One history request as sent: its cursor (`message_seq`), its page size, and how many calls it took. */
  datatype Request = Request(cursor: int, count: int, tries: nat)

  /**
   * The loop's state: the turns so far, the round counter, the cursor and the
   * number of RPC calls made, plus a record of the requests, the pages consumed
   * and the sleeps.
   */
  datatype FetchState = FetchState(
    contexts: seq<Turn>, rounds: nat, cursor: int, calls: nat,
    requests: seq<Request>, pages: seq<seq<RawMessage>>, delays: seq<nat>)

  const Start := FetchState([], 0, 0, 0, [], [], [])

  /** The state after sending a request with the current cursor and running its retry block. */
  function Tried(st: FetchState, r: Retrieval, perCount: int): (next: FetchState)
  {
    st.(calls := st.calls + r.tries,
        requests := st.requests + [Request(st.cursor, perCount, r.tries)],
        delays := st.delays + r.delays)
  }

  /** The state after consuming a usable page: new cursor, its turns appended, one more round. */
  function Consume(st: FetchState, page: seq<RawMessage>, target: int): (next: FetchState)
    requires Usable(Some(page))
  {
    st.(cursor := page[0].messageId.value,
        contexts := st.contexts + BuildUserContext(page, target),
        rounds := st.rounds + 1,
        pages := st.pages + [page])
  }

  /** One round always runs, so the loop makes at most `max(maxRounds, 1)` rounds. */
  function RoundCap(maxRounds: int): (cap: nat)
  {
    if maxRounds < 1 then 1 else maxRounds
  }

  /** The rest of the loop from state `st`, up to and including the state it returns. */
  function FetchLoop(oracle: seq<Outcome>, target: int, maxRounds: int, targetCount: int, perCount: int,
                     st: FetchState): (f: FetchState)
    requires st.rounds < RoundCap(maxRounds)
    decreases RoundCap(maxRounds) - st.rounds
  {
    if |st.contexts| >= targetCount then st
    else
      var r := Retry(oracle, st.calls, 0);
      var tried := Tried(st, r, perCount);
      if !Usable(r.page) then tried
      else
        var next := Consume(tried, r.page.value, target);
        if next.rounds >= maxRounds then next
        else FetchLoop(oracle, target, maxRounds, targetCount, perCount, next)
  }

  /** A round whose request gets no usable page is the loop's last. */
  lemma FetchLoopStops(oracle: seq<Outcome>, target: int, maxRounds: int, targetCount: int, perCount: int,
                       st: FetchState)
    requires st.rounds < RoundCap(maxRounds) && |st.contexts| < targetCount
    requires !Usable(Retry(oracle, st.calls, 0).page)
    ensures FetchLoop(oracle, target, maxRounds, targetCount, perCount, st)
      == Tried(st, Retry(oracle, st.calls, 0), perCount)
  {
  }

  /** A round whose request gets a usable page consumes it, then stops on the budget or goes on. */
  lemma FetchLoopConsumes(oracle: seq<Outcome>, target: int, maxRounds: int, targetCount: int, perCount: int,
                          st: FetchState)
    requires st.rounds < RoundCap(maxRounds) && |st.contexts| < targetCount
    requires Usable(Retry(oracle, st.calls, 0).page)
    ensures var r := Retry(oracle, st.calls, 0);
      var next := Consume(Tried(st, r, perCount), r.page.value, target);
      FetchLoop(oracle, target, maxRounds, targetCount, perCount, st)
        == if next.rounds >= maxRounds then next
           else FetchLoop(oracle, target, maxRounds, targetCount, perCount, next)
  {
  }

  /** The whole fetch for a configuration, a target member and a round budget. */
  function Fetch(oracle: seq<Outcome>, conf: Config, target: int, maxRounds: int): (f: FetchState)
  {
    FetchLoop(oracle, target, maxRounds, TargetCount(conf), PageSize(conf), Start)
  }

  /**
   * The retry block of `get_msg_contexts` for the request whose first RPC call is
   * call number `pos`: up to three calls, sleeping `Backoff(attempt)` after each
   * failed attempt but the last. It returns the page (None when every call
   * raised), the number of calls it made and, as a ghost, the sleeps.
   */
  method RequestPage(oracle: seq<Outcome>, pos: nat)
    returns (roundMessages: Option<seq<RawMessage>>, tries: nat, ghost slept: seq<nat>)
    ensures roundMessages == Retry(oracle, pos, 0).page && tries == Retry(oracle, pos, 0).tries
    ensures slept == Retry(oracle, pos, 0).delays
  {
    roundMessages := None;
    slept := [];
    var attempt := 0;
    while attempt < MaxRetries
      invariant 0 <= attempt <= MaxRetries
      invariant roundMessages == None
      invariant forall k :: 0 <= k < attempt ==> AttemptAt(oracle, pos, k) == Fail
      invariant |slept| == (if attempt < MaxRetries then attempt else MaxRetries - 1)
      invariant forall i :: 0 <= i < |slept| ==> slept[i] == Backoff(i)
    {
      var outcome := CallAt(oracle, pos + attempt);
      assert outcome == AttemptAt(oracle, pos, attempt);
      if outcome.Page? {
        roundMessages := Some(outcome.messages);
        break;
      }
      if attempt < MaxRetries - 1 {
        slept := slept + [Backoff(attempt)];
      }
      attempt := attempt + 1;
    }
    tries := if roundMessages.Some? then attempt + 1 else attempt;
    ghost var r := Retry(oracle, pos, 0);
    assert r.tries == tries && r.page == roundMessages by {
      var last := AttemptAt(oracle, pos, r.tries - 1);
      var here := AttemptAt(oracle, pos, if attempt < MaxRetries then attempt else 0);
    }
    assert r.delays == slept;
  }

  /**
   * The imperative loop of `get_msg_contexts`. It returns the collected turns and
   * the number of rounds, which are those of `Fetch`; the ghost `trace` is the
   * final state of `Fetch`, which the lemmas below describe.
   */
  method GetMsgContexts(oracle: seq<Outcome>, conf: Config, target: int, maxQueryRounds: int)
    returns (contexts: seq<Turn>, queryRounds: nat, ghost trace: FetchState)
    ensures contexts == Fetch(oracle, conf, target, maxQueryRounds).contexts
    ensures queryRounds == Fetch(oracle, conf, target, maxQueryRounds).rounds
    ensures trace == Fetch(oracle, conf, target, maxQueryRounds)
  {
    var targetCount := TargetCount(conf);
    var perCount := PageSize(conf);
    queryRounds := 0;
    var messageSeq := 0;
    contexts := [];
    var calls: nat := 0;
    ghost var requests: seq<Request> := [];
    ghost var pages: seq<seq<RawMessage>> := [];
    ghost var delays: seq<nat> := [];

    while |contexts| < targetCount
      invariant queryRounds < RoundCap(maxQueryRounds)
      invariant Fetch(oracle, conf, target, maxQueryRounds)
        == FetchLoop(oracle, target, maxQueryRounds, targetCount, perCount,
                     FetchState(contexts, queryRounds, messageSeq, calls, requests, pages, delays))
      decreases RoundCap(maxQueryRounds) - queryRounds
    {
      ghost var before := FetchState(contexts, queryRounds, messageSeq, calls, requests, pages, delays);
      var roundMessages, tries, slept := RequestPage(oracle, calls);
      calls := calls + tries;
      requests := requests + [Request(messageSeq, perCount, tries)];
      delays := delays + slept;
      ghost var tried := FetchState(contexts, queryRounds, messageSeq, calls, requests, pages, delays);
      assert tried == Tried(before, Retry(oracle, before.calls, 0), perCount);
      if roundMessages.None? || roundMessages.value == [] {
        FetchLoopStops(oracle, target, maxQueryRounds, targetCount, perCount, before);
        break;
      }
      var first := roundMessages.value[0];
      if first.messageId.None? {
        FetchLoopStops(oracle, target, maxQueryRounds, targetCount, perCount, before);
        break;
      }
      FetchLoopConsumes(oracle, target, maxQueryRounds, targetCount, perCount, before);
      messageSeq := first.messageId.value;
      contexts := contexts + BuildUserContext(roundMessages.value, target);
      pages := pages + [roundMessages.value];
      queryRounds := queryRounds + 1;
      assert FetchState(contexts, queryRounds, messageSeq, calls, requests, pages, delays)
        == Consume(tried, roundMessages.value, target);
      if queryRounds >= maxQueryRounds {
        break;
      }
    }
    trace := FetchState(contexts, queryRounds, messageSeq, calls, requests, pages, delays);
  }
}

/** What every run of the fetch loop records, and the properties proved of it. */
module FetchProperties {
  import opened Wrappers
  import opened ContextBuilder
  import opened Config
  import opened HistoryFetcher

  /** The turns of a series of pages, page after page. */
  function Gather(pages: seq<seq<RawMessage>>, target: int): (turns: seq<Turn>)
  {
    if pages == [] then []
    else Gather(pages[..|pages| - 1], target) + BuildUserContext(pages[|pages| - 1], target)
  }

  /** Every consumed page is non-empty and starts with a message that has a `message_id`. */
  predicate PagesUsable(pages: seq<seq<RawMessage>>)
  {
    forall j :: 0 <= j < |pages| ==> Usable(Some(pages[j]))
  }

  /** The cursor sent in round `j`: 0 in the first round, then the first `message_id` of the page before. */
  function CursorOf(pages: seq<seq<RawMessage>>, j: nat): (cursor: int)
    requires PagesUsable(pages) && j <= |pages|
  {
    if j == 0 then 0 else pages[j - 1][0].messageId.value
  }

  /** The sleeps before attempts 1 .. n-1 of one request. */
  function BackoffList(n: nat): (delays: seq<nat>)
  {
    if n <= 1 then [] else BackoffList(n - 1) + [Backoff(n - 2)]
  }

  lemma {:induction false} BackoffListIsSchedule(d: seq<nat>, n: nat)
    requires IsBackoffSchedule(d, n)
    ensures d == BackoffList(n)
  {
    if n > 1 {
      BackoffListIsSchedule(d[..|d| - 1], n - 1);
    }
  }

  /** The RPC calls made by a series of requests. */
  function TotalTries(reqs: seq<Request>): (calls: nat)
  {
    if reqs == [] then 0 else TotalTries(reqs[..|reqs| - 1]) + reqs[|reqs| - 1].tries
  }

  /** The sleeps of a series of requests, request after request. */
  function Schedule(reqs: seq<Request>): (delays: seq<nat>)
  {
    if reqs == [] then [] else Schedule(reqs[..|reqs| - 1]) + BackoffList(reqs[|reqs| - 1].tries)
  }

  /** Each request took one to three calls, asked for `perCount` messages, and carried the round's cursor. */
  predicate RequestsWellFormed(reqs: seq<Request>, pages: seq<seq<RawMessage>>, perCount: int)
    requires PagesUsable(pages)
  {
    |pages| <= |reqs| <= |pages| + 1 &&
    forall j :: 0 <= j < |reqs| ==>
      1 <= reqs[j].tries <= MaxRetries && reqs[j].count == perCount && reqs[j].cursor == CursorOf(pages, j)
  }

  /**
   * The while guard held before each of the first `n` requests: fewer than
   * `targetCount` turns had been gathered from the pages before it, and every
   * request after the first was sent within the round budget.
   */
  predicate SentUnderGuard(n: nat, pages: seq<seq<RawMessage>>, target: int, targetCount: int, maxRounds: int)
  {
    forall j :: 0 <= j < n && j <= |pages| ==>
      |Gather(pages[..j], target)| < targetCount && (j == 0 || j < maxRounds)
  }

  /** Each consumed request made exactly the calls of its retry block, and that block returned its page. */
  predicate RetriesReplayed(oracle: seq<Outcome>, reqs: seq<Request>, pages: seq<seq<RawMessage>>)
  {
    forall j :: 0 <= j < |reqs| && j < |pages| ==>
      reqs[j].tries == Retry(oracle, TotalTries(reqs[..j]), 0).tries &&
      Retry(oracle, TotalTries(reqs[..j]), 0).page == Some(pages[j])
  }

  /**
   * The invariant of the fetch loop: one round per consumed page, the turns are
   * the turns of those pages in order, each request took at most three calls and
   * carried the right cursor, the cursor is ready for the next round, and the
   * calls and sleeps are those of the requests.
   */
  predicate Coherent(st: FetchState, target: int, perCount: int)
  {
    PagesUsable(st.pages) &&
    |st.pages| == st.rounds &&
    st.contexts == Gather(st.pages, target) &&
    RequestsWellFormed(st.requests, st.pages, perCount) &&
    st.cursor == CursorOf(st.pages, |st.pages|) &&
    st.calls == TotalTries(st.requests) &&
    st.delays == Schedule(st.requests)
  }

  /** Sending a request and running its retry block keeps the invariant, with one request more than rounds. */
  lemma TriedCoherent(st: FetchState, target: int, perCount: int, r: Retrieval)
    requires Coherent(st, target, perCount) && |st.requests| == st.rounds
    requires 1 <= r.tries <= MaxRetries && IsBackoffSchedule(r.delays, r.tries)
    ensures Coherent(Tried(st, r, perCount), target, perCount)
    ensures |Tried(st, r, perCount).requests| == st.rounds + 1
  {
    BackoffListIsSchedule(r.delays, r.tries);
    var reqs := st.requests + [Request(st.cursor, perCount, r.tries)];
    assert reqs[..|reqs| - 1] == st.requests;
    forall j | 0 <= j < |reqs|
      ensures 1 <= reqs[j].tries <= MaxRetries && reqs[j].count == perCount && reqs[j].cursor == CursorOf(st.pages, j)
    {
      if j < |st.requests| {
        assert reqs[j] == st.requests[j];
      }
    }
  }

  /** Consuming a usable page after such a request restores the invariant with one more round. */
  lemma ConsumedCoherent(st: FetchState, target: int, perCount: int, page: seq<RawMessage>)
    requires Coherent(st, target, perCount) && |st.requests| == st.rounds + 1
    requires Usable(Some(page))
    ensures Coherent(Consume(st, page, target), target, perCount)
    ensures |Consume(st, page, target).requests| == Consume(st, page, target).rounds
  {
    var pages := st.pages + [page];
    assert pages[..|pages| - 1] == st.pages;
    assert PagesUsable(pages) by {
      forall j | 0 <= j < |pages| ensures Usable(Some(pages[j])) {
        if j < |st.pages| {
          assert pages[j] == st.pages[j];
        }
      }
    }
    forall j | 0 <= j < |st.requests| ensures st.requests[j].cursor == CursorOf(pages, j) {
      assert st.requests[j].cursor == CursorOf(st.pages, j);
      if 0 < j {
        assert pages[j - 1] == st.pages[j - 1];
      }
    }
  }

  /** A request sent while the guard holds extends the guarded requests by one. */
  lemma GuardExtendRequests(pages: seq<seq<RawMessage>>, target: int, targetCount: int, maxRounds: int)
    requires SentUnderGuard(|pages|, pages, target, targetCount, maxRounds)
    requires |Gather(pages, target)| < targetCount && (|pages| == 0 || |pages| < maxRounds)
    ensures SentUnderGuard(|pages| + 1, pages, target, targetCount, maxRounds)
  {
    assert pages[..|pages|] == pages;
  }

  /** Consuming a page leaves the guard of every earlier request as it was. */
  lemma GuardExtendPages(n: nat, pages: seq<seq<RawMessage>>, page: seq<RawMessage>,
                         target: int, targetCount: int, maxRounds: int)
    requires n <= |pages| + 1 && SentUnderGuard(n, pages, target, targetCount, maxRounds)
    ensures SentUnderGuard(n, pages + [page], target, targetCount, maxRounds)
  {
    forall j | 0 <= j < n ensures (pages + [page])[..j] == pages[..j] {
    }
  }

  /** A request appended beyond the consumed pages leaves every earlier request replayed. */
  lemma ReplayExtendRequests(oracle: seq<Outcome>, reqs: seq<Request>, pages: seq<seq<RawMessage>>, req: Request)
    requires RetriesReplayed(oracle, reqs, pages) && |pages| <= |reqs|
    ensures RetriesReplayed(oracle, reqs + [req], pages)
  {
    var reqs' := reqs + [req];
    forall j | 0 <= j < |pages| ensures reqs'[..j] == reqs[..j] && reqs'[j] == reqs[j] {
    }
  }

  /** A page appended with the request whose retry block returned it keeps every request replayed. */
  lemma ReplayExtendPages(oracle: seq<Outcome>, reqs: seq<Request>, pages: seq<seq<RawMessage>>, page: seq<RawMessage>)
    requires |pages| + 1 == |reqs| && RetriesReplayed(oracle, reqs[..|pages|], pages)
    requires reqs[|pages|].tries == Retry(oracle, TotalTries(reqs[..|pages|]), 0).tries
    requires Retry(oracle, TotalTries(reqs[..|pages|]), 0).page == Some(page)
    ensures RetriesReplayed(oracle, reqs, pages + [page])
  {
    var n := |pages|;
    var pages' := pages + [page];
    forall j | 0 <= j < |reqs| && j < |pages'|
      ensures reqs[j].tries == Retry(oracle, TotalTries(reqs[..j]), 0).tries
      ensures Retry(oracle, TotalTries(reqs[..j]), 0).page == Some(pages'[j])
    {
      if j < n {
        assert reqs[..n][..j] == reqs[..j] && reqs[..n][j] == reqs[j];
      }
    }
  }

  /** Every request of `st` was sent under the guard and replayed. */
  predicate Replayed(oracle: seq<Outcome>, st: FetchState, target: int, targetCount: int, maxRounds: int)
  {
    SentUnderGuard(|st.requests|, st.pages, target, targetCount, maxRounds) &&
    RetriesReplayed(oracle, st.requests, st.pages)
  }

  /** A request sent while the guard holds keeps the run replayed. */
  lemma TriedReplayed(oracle: seq<Outcome>, st: FetchState, target: int, targetCount: int, maxRounds: int,
                      perCount: int)
    requires st.rounds < RoundCap(maxRounds) && |st.pages| == st.rounds == |st.requests|
    requires |Gather(st.pages, target)| < targetCount
    requires Replayed(oracle, st, target, targetCount, maxRounds)
    ensures Replayed(oracle, Tried(st, Retry(oracle, st.calls, 0), perCount), target, targetCount, maxRounds)
  {
    GuardExtendRequests(st.pages, target, targetCount, maxRounds);
    ReplayExtendRequests(oracle, st.requests, st.pages, Request(st.cursor, perCount, Retry(oracle, st.calls, 0).tries));
  }

  /** Consuming the page that the retry block returned keeps the run replayed. */
  lemma ConsumedReplayed(oracle: seq<Outcome>, st: FetchState, target: int, targetCount: int, maxRounds: int,
                         perCount: int)
    requires |st.pages| == |st.requests| && st.calls == TotalTries(st.requests)
    requires Usable(Retry(oracle, st.calls, 0).page)
    requires Replayed(oracle, st, target, targetCount, maxRounds)
    requires Replayed(oracle, Tried(st, Retry(oracle, st.calls, 0), perCount), target, targetCount, maxRounds)
    ensures var r := Retry(oracle, st.calls, 0);
      Replayed(oracle, Consume(Tried(st, r, perCount), r.page.value, target), target, targetCount, maxRounds)
  {
    var r := Retry(oracle, st.calls, 0);
    var reqs := st.requests + [Request(st.cursor, perCount, r.tries)];
    GuardExtendPages(|reqs|, st.pages, r.page.value, target, targetCount, maxRounds);
    assert reqs[..|st.pages|] == st.requests;
    ReplayExtendPages(oracle, reqs, st.pages, r.page.value);
  }

  /**
   * From a replayed loop-head state the whole run is replayed: the loop sends a
   * request only while its guard holds, and records exactly what the request's
   * retry block did.
   */
  lemma {:induction false} FetchLoopReplays(oracle: seq<Outcome>, target: int, maxRounds: int,
                                            targetCount: int, perCount: int, st: FetchState)
    requires st.rounds < RoundCap(maxRounds)
    requires Coherent(st, target, perCount) && |st.requests| == st.rounds
    requires Replayed(oracle, st, target, targetCount, maxRounds)
    ensures Replayed(oracle, FetchLoop(oracle, target, maxRounds, targetCount, perCount, st),
                     target, targetCount, maxRounds)
    decreases RoundCap(maxRounds) - st.rounds
  {
    if |st.contexts| < targetCount {
      var r := Retry(oracle, st.calls, 0);
      var tried := Tried(st, r, perCount);
      TriedReplayed(oracle, st, target, targetCount, maxRounds, perCount);
      if Usable(r.page) {
        var next := Consume(tried, r.page.value, target);
        TriedCoherent(st, target, perCount, r);
        ConsumedCoherent(tried, target, perCount, r.page.value);
        ConsumedReplayed(oracle, st, target, targetCount, maxRounds, perCount);
        FetchLoopConsumes(oracle, target, maxRounds, targetCount, perCount, st);
        if next.rounds < maxRounds {
          FetchLoopReplays(oracle, target, maxRounds, targetCount, perCount, next);
        }
      } else {
        FetchLoopStops(oracle, target, maxRounds, targetCount, perCount, st);
      }
    }
  }

  /**
   * From any coherent loop-head state, the loop ends in a coherent state whose
   * round count is at most `max(maxRounds, 1)`, and it ends for one of the
   * source's reasons: a request got no usable page (one request more than
   * rounds), enough turns were gathered, or after at least one round the round
   * budget was reached.
   */
  lemma {:induction false} FetchLoopKeepsCoherent(oracle: seq<Outcome>, target: int, maxRounds: int,
                                                  targetCount: int, perCount: int, st: FetchState)
    requires st.rounds < RoundCap(maxRounds)
    requires Coherent(st, target, perCount) && |st.requests| == st.rounds
    ensures Coherent(FetchLoop(oracle, target, maxRounds, targetCount, perCount, st), target, perCount)
    ensures st.rounds <= FetchLoop(oracle, target, maxRounds, targetCount, perCount, st).rounds <= RoundCap(maxRounds)
    ensures var f := FetchLoop(oracle, target, maxRounds, targetCount, perCount, st);
      |f.requests| == f.rounds + 1 || |f.contexts| >= targetCount || f.rounds >= RoundCap(maxRounds)
    ensures var f := FetchLoop(oracle, target, maxRounds, targetCount, perCount, st);
      |f.requests| == f.rounds + 1 ==>
        f.requests[f.rounds].tries == Retry(oracle, TotalTries(f.requests[..f.rounds]), 0).tries &&
        !Usable(Retry(oracle, TotalTries(f.requests[..f.rounds]), 0).page)
    decreases RoundCap(maxRounds) - st.rounds
  {
    if |st.contexts| < targetCount {
      var r := Retry(oracle, st.calls, 0);
      var tried := Tried(st, r, perCount);
      TriedCoherent(st, target, perCount, r);
      if Usable(r.page) {
        var next := Consume(tried, r.page.value, target);
        ConsumedCoherent(tried, target, perCount, r.page.value);
        FetchLoopConsumes(oracle, target, maxRounds, targetCount, perCount, st);
        if next.rounds < maxRounds {
          FetchLoopKeepsCoherent(oracle, target, maxRounds, targetCount, perCount, next);
        }
      } else {
        FetchLoopStops(oracle, target, maxRounds, targetCount, perCount, st);
        assert tried.requests[..st.rounds] == st.requests;
      }
    }
  }

  /**
   * What a whole fetch returns: the turns are `_build_user_context` of each
   * consumed page, in order; one round per consumed page, at most
   * `max(maxRounds, 1)` of them; the first request has cursor 0 and each later one
   * the first `message_id` of the page before; every request took one to three
   * calls; the sleeps are each request's backoff schedule, request after request;
   * every request was sent while fewer than the target count of turns had been
   * gathered and, after the first, within the budget; and every consumed request
   * made exactly the calls of its retry block, which returned that page.
   */
  lemma FetchTrace(oracle: seq<Outcome>, conf: Config, target: int, maxRounds: int)
    ensures Coherent(Fetch(oracle, conf, target, maxRounds), target, PageSize(conf))
    ensures Fetch(oracle, conf, target, maxRounds).rounds <= RoundCap(maxRounds)
    ensures var f := Fetch(oracle, conf, target, maxRounds);
      |f.requests| == f.rounds + 1 || |f.contexts| >= TargetCount(conf) || f.rounds >= RoundCap(maxRounds)
    ensures var f := Fetch(oracle, conf, target, maxRounds);
      |f.requests| == f.rounds + 1 ==>
        f.requests[f.rounds].tries == Retry(oracle, TotalTries(f.requests[..f.rounds]), 0).tries &&
        !Usable(Retry(oracle, TotalTries(f.requests[..f.rounds]), 0).page)
    ensures Replayed(oracle, Fetch(oracle, conf, target, maxRounds), target, TargetCount(conf), maxRounds)
  {
    assert Coherent(Start, target, PageSize(conf));
    FetchLoopKeepsCoherent(oracle, target, maxRounds, TargetCount(conf), PageSize(conf), Start);
    FetchLoopReplays(oracle, target, maxRounds, TargetCount(conf), PageSize(conf), Start);
  }

  /** Each consumed page is the answer to the last RPC call of its round's request. */
  predicate Answered(oracle: seq<Outcome>, st: FetchState)
  {
    AnsweredBy(oracle, st.requests, st.pages)
  }

  /** Page `j` is the oracle's answer to the last call of request `j`. */
  predicate AnsweredBy(oracle: seq<Outcome>, reqs: seq<Request>, pages: seq<seq<RawMessage>>)
  {
    forall j :: 0 <= j < |pages| && j < |reqs| && reqs[j].tries >= 1 ==>
      AttemptAt(oracle, TotalTries(reqs[..j]), reqs[j].tries - 1) == Page(pages[j])
  }

  /** A request appended beyond the consumed pages leaves every earlier page answered. */
  lemma AnsweredExtendRequests(oracle: seq<Outcome>, reqs: seq<Request>, pages: seq<seq<RawMessage>>, req: Request)
    requires AnsweredBy(oracle, reqs, pages) && |pages| <= |reqs|
    ensures AnsweredBy(oracle, reqs + [req], pages)
  {
    var reqs' := reqs + [req];
    forall j | 0 <= j < |pages| ensures reqs'[..j] == reqs[..j] && reqs'[j] == reqs[j] {
    }
  }

  /** A page appended with the request that got it as its answer keeps every page answered. */
  lemma AnsweredExtendPages(oracle: seq<Outcome>, reqs: seq<Request>, pages: seq<seq<RawMessage>>, page: seq<RawMessage>)
    requires |pages| + 1 == |reqs| && AnsweredBy(oracle, reqs[..|pages|], pages)
    requires reqs[|pages|].tries >= 1
    requires AttemptAt(oracle, TotalTries(reqs[..|pages|]), reqs[|pages|].tries - 1) == Page(page)
    ensures AnsweredBy(oracle, reqs, pages + [page])
  {
    var n := |pages|;
    var pages' := pages + [page];
    forall j | 0 <= j < |pages'| && j < |reqs| && reqs[j].tries >= 1
      ensures AttemptAt(oracle, TotalTries(reqs[..j]), reqs[j].tries - 1) == Page(pages'[j])
    {
      if j < n {
        assert reqs[..n][..j] == reqs[..j] && reqs[..n][j] == reqs[j];
      }
    }
  }

  lemma TriedAnswered(oracle: seq<Outcome>, st: FetchState, perCount: int, r: Retrieval)
    requires Answered(oracle, st) && |st.pages| <= |st.requests|
    ensures Answered(oracle, Tried(st, r, perCount))
  {
    AnsweredExtendRequests(oracle, st.requests, st.pages, Request(st.cursor, perCount, r.tries));
  }

  lemma ConsumedAnswered(oracle: seq<Outcome>, st: FetchState, target: int, perCount: int)
    requires |st.pages| == |st.requests| && st.calls == TotalTries(st.requests)
    requires Answered(oracle, st)
    requires Usable(Retry(oracle, st.calls, 0).page)
    ensures Answered(oracle, Consume(Tried(st, Retry(oracle, st.calls, 0), perCount), Retry(oracle, st.calls, 0).page.value, target))
  {
    var r := Retry(oracle, st.calls, 0);
    var reqs := st.requests + [Request(st.cursor, perCount, r.tries)];
    assert reqs[..|st.pages|] == st.requests;
    AnsweredExtendPages(oracle, reqs, st.pages, r.page.value);
  }

  /** Every page a fetch consumes is the oracle's answer to the last call of that round's request. */
  lemma {:induction false} FetchLoopAnswered(oracle: seq<Outcome>, target: int, maxRounds: int,
                                             targetCount: int, perCount: int, st: FetchState)
    requires st.rounds < RoundCap(maxRounds)
    requires Coherent(st, target, perCount) && |st.requests| == st.rounds
    requires Answered(oracle, st)
    ensures Answered(oracle, FetchLoop(oracle, target, maxRounds, targetCount, perCount, st))
    decreases RoundCap(maxRounds) - st.rounds
  {
    if |st.contexts| < targetCount {
      var r := Retry(oracle, st.calls, 0);
      var tried := Tried(st, r, perCount);
      TriedAnswered(oracle, st, perCount, r);
      TriedCoherent(st, target, perCount, r);
      if Usable(r.page) {
        var next := Consume(tried, r.page.value, target);
        ConsumedCoherent(tried, target, perCount, r.page.value);
        ConsumedAnswered(oracle, st, target, perCount);
        if next.rounds < maxRounds {
          FetchLoopAnswered(oracle, target, maxRounds, targetCount, perCount, next);
        }
      }
    }
  }

  /** The pages of a whole fetch are answers of the history RPC, one per round, in order. */
  lemma FetchPagesComeFromOracle(oracle: seq<Outcome>, conf: Config, target: int, maxRounds: int)
    ensures Answered(oracle, Fetch(oracle, conf, target, maxRounds))
  {
    assert Coherent(Start, target, PageSize(conf));
    FetchLoopAnswered(oracle, target, maxRounds, TargetCount(conf), PageSize(conf), Start);
  }

  /** A round whose first call is answered with a usable page, below the budget, moves on to the next round. */
  lemma AnsweredRoundContinues(oracle: seq<Outcome>, target: int, maxRounds: int, targetCount: int,
                               perCount: int, st: FetchState, p: seq<RawMessage>)
    requires st.rounds + 1 < maxRounds && |st.contexts| < targetCount
    requires AttemptAt(oracle, st.calls, 0) == Page(p) && Usable(Some(p))
    ensures Retry(oracle, st.calls, 0) == Retrieval(Some(p), 1, [])
    ensures FetchLoop(oracle, target, maxRounds, targetCount, perCount, st)
      == FetchLoop(oracle, target, maxRounds, targetCount, perCount,
                   Consume(Tried(st, Retrieval(Some(p), 1, []), perCount), p, target))
  {
  }

  /** A round whose first call is answered with a usable page that reaches the target count is the last. */
  lemma AnsweredRoundReachesTarget(oracle: seq<Outcome>, target: int, maxRounds: int, targetCount: int,
                                   perCount: int, st: FetchState, p: seq<RawMessage>)
    requires st.rounds < RoundCap(maxRounds) && |st.contexts| < targetCount
    requires targetCount <= |st.contexts| + |BuildUserContext(p, target)|
    requires AttemptAt(oracle, st.calls, 0) == Page(p) && Usable(Some(p))
    ensures FetchLoop(oracle, target, maxRounds, targetCount, perCount, st)
      == Consume(Tried(st, Retrieval(Some(p), 1, []), perCount), p, target)
  {
    var next := Consume(Tried(st, Retrieval(Some(p), 1, []), perCount), p, target);
    if next.rounds < maxRounds {
      assert FetchLoop(oracle, target, maxRounds, targetCount, perCount, next) == next;
    }
  }


  /**
   * Three answered pages in a row whose turns reach the target only with the third:
   * the fetch runs exactly three rounds, consumes the three pages, sleeps never,
   * and returns the turns of the three pages in order.
   */
  lemma ThreeAnsweredRounds(oracle: seq<Outcome>, p1: seq<RawMessage>, p2: seq<RawMessage>, p3: seq<RawMessage>,
                            conf: Config, target: int, maxRounds: int)
    requires oracle == [Page(p1), Page(p2), Page(p3)]
    requires Usable(Some(p1)) && Usable(Some(p2)) && Usable(Some(p3))
    requires TargetCount(conf) > |BuildUserContext(p1, target)| + |BuildUserContext(p2, target)|
    requires TargetCount(conf) <= |BuildUserContext(p1, target)| + |BuildUserContext(p2, target)| + |BuildUserContext(p3, target)|
    requires maxRounds >= 3
    ensures var f := Fetch(oracle, conf, target, maxRounds);
      f.rounds == 3 && f.pages == [p1, p2, p3] && f.delays == [] &&
      f.contexts == BuildUserContext(p1, target) + BuildUserContext(p2, target) + BuildUserContext(p3, target)
  {
    var tc, pc := TargetCount(conf), PageSize(conf);
    var b1, b2, b3 := BuildUserContext(p1, target), BuildUserContext(p2, target), BuildUserContext(p3, target);
    assert AttemptAt(oracle, 0, 0) == Page(p1);
    AnsweredRoundContinues(oracle, target, maxRounds, tc, pc, Start, p1);
    var s1 := Consume(Tried(Start, Retrieval(Some(p1), 1, []), pc), p1, target);
    assert s1.contexts == b1 && s1.calls == 1 && s1.pages == [p1] && s1.delays == [];
    assert AttemptAt(oracle, 1, 0) == Page(p2);
    AnsweredRoundContinues(oracle, target, maxRounds, tc, pc, s1, p2);
    var s2 := Consume(Tried(s1, Retrieval(Some(p2), 1, []), pc), p2, target);
    assert s2.contexts == b1 + b2 && s2.calls == 2 && s2.pages == [p1, p2] && s2.delays == [];
    assert AttemptAt(oracle, 2, 0) == Page(p3);
    AnsweredRoundReachesTarget(oracle, target, maxRounds, tc, pc, s2, p3);
    var s3 := Consume(Tried(s2, Retrieval(Some(p3), 1, []), pc), p3, target);
    assert s3.contexts == b1 + b2 + b3 && s3.rounds == 3 && s3.pages == [p1, p2, p3] && s3.delays == [];
  }


  /**
   * Three answered pages of 200 messages, all from the target and all with text,
   * a target of 500 turns and a budget of at least 3 rounds: the fetch stops after
   * the third page with 600 turns, because 400 < 500 <= 600.
   */
  lemma ThreeFullPages(p1: seq<RawMessage>, p2: seq<RawMessage>, p3: seq<RawMessage>,
                       conf: Config, target: int, maxRounds: int)
    requires |p1| == 200 && |p2| == 200 && |p3| == 200
    requires forall k :: 0 <= k < 200 ==> Kept(p1[k], target) && Kept(p2[k], target) && Kept(p3[k], target)
    requires p1[0].messageId.Some? && p2[0].messageId.Some? && p3[0].messageId.Some?
    requires TargetCount(conf) == 500 && maxRounds >= 3
    ensures var f := Fetch([Page(p1), Page(p2), Page(p3)], conf, target, maxRounds);
      f.rounds == 3 && |f.contexts| == 600 && f.pages == [p1, p2, p3] && f.delays == []
  {
    BuildAllKept(p1, target);
    BuildAllKept(p2, target);
    BuildAllKept(p3, target);
    ThreeAnsweredRounds([Page(p1), Page(p2), Page(p3)], p1, p2, p3, conf, target, maxRounds);
  }

  /** When no turns are wanted, the loop body never runs: no request, no round, no turn. */
  lemma NoRoundsWithoutTarget(oracle: seq<Outcome>, conf: Config, target: int, maxRounds: int)
    requires TargetCount(conf) <= 0
    ensures Fetch(oracle, conf, target, maxRounds) == Start
  {
  }

  /** With a budget of 0 rounds one round still runs, because the budget is checked after the round. */
  lemma ZeroBudgetStillRunsOneRound(oracle: seq<Outcome>, conf: Config, target: int)
    requires TargetCount(conf) > 0
    requires Usable(Retry(oracle, 0, 0).page)
    ensures Fetch(oracle, conf, target, 0).rounds == 1
    ensures Fetch(oracle, conf, target, 0).pages == [Retry(oracle, 0, 0).page.value]
  {
  }

  /**
   * A request that gets no usable page (every attempt raised, the page is empty,
   * or its first message has no `message_id`) ends the loop with no new round and
   * no new turn.
   */
  lemma StopsOnUnusablePage(oracle: seq<Outcome>, target: int, maxRounds: int, targetCount: int,
                            perCount: int, st: FetchState)
    requires st.rounds < RoundCap(maxRounds)
    requires |st.contexts| < targetCount
    requires !Usable(Retry(oracle, st.calls, 0).page)
    ensures var f := FetchLoop(oracle, target, maxRounds, targetCount, perCount, st);
      f.rounds == st.rounds && f.contexts == st.contexts && f.pages == st.pages &&
      f.cursor == st.cursor && |f.requests| == |st.requests| + 1
  {
  }

  /** A history RPC that always raises: no turns, no rounds, three calls and sleeps of 1 and 2. */
  lemma PermanentFailure(oracle: seq<Outcome>, conf: Config, target: int, maxRounds: int)
    requires TargetCount(conf) > 0
    requires forall k :: 0 <= k < MaxRetries ==> CallAt(oracle, k) == Fail
    ensures var f := Fetch(oracle, conf, target, maxRounds);
      f.contexts == [] && f.rounds == 0 && f.calls == 3 && f.delays == [1, 2] &&
      f.requests == [Request(0, PageSize(conf), 3)]
  {
    forall k | 0 <= k < MaxRetries ensures AttemptAt(oracle, 0, k) == Fail {
      assert AttemptAt(oracle, 0, k) == CallAt(oracle, k);
    }
    RetryAllFail(oracle, 0);
  }
}
