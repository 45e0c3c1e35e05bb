/**
 * Resuming a stream from `Last-Event-ID` (src/exec_rest_api/handlers/streams.py):
 * a bounded replay up to the current head, then the live subscription that was
 * opened before it.
 */
module Replay {
  import opened Wrappers

  datatype BlockAnswer = Found | Null | Raises

  /** What an event written to the client says about blocks. */
  datatype Written = BlockEvent(number: int) | GapEvent(first: int, last: int)

  /** What `eth_getBlockByNumber` answers for each number during the replay. */
  type BlockOracle = int -> BlockAnswer

  /** The blocks a replay of [lo, hi] writes: up to the first failing call, without the null ones. */
  function Replayed(answers: BlockOracle, lo: int, hi: int): seq<Written>
    decreases hi - lo
  {
    if lo > hi || answers(lo) == Raises then []
    else (if answers(lo) == Found then [BlockEvent(lo)] else []) + Replayed(answers, lo + 1, hi)
  }

  function ReplayFrames(last: Option<int>, head: Option<int>, window: int, answers: BlockOracle): seq<Written> {
    if last.None? || head.None? || last.value >= head.value then []
    else if head.value - last.value > window then [GapEvent(last.value + 1, head.value)]
    else Replayed(answers, last.value + 1, head.value)
  }

  lemma {:induction false} ReplayedSplit(answers: BlockOracle, lo: int, n: int, hi: int)
    requires lo <= n <= hi + 1 && forall k :: lo <= k < n ==> answers(k) != Raises
    ensures Replayed(answers, lo, hi) == Replayed(answers, lo, n - 1) + Replayed(answers, n, hi)
    decreases n - lo
  {
    if lo < n {
      ReplayedSplit(answers, lo + 1, n, hi);
    }
  }

  /** `_replay_blocks`; `last` is the parsed id and `head` the answer to `eth_blockNumber`, if any. */
  method ReplayBlocks(last: Option<int>, head: Option<int>, window: int, answers: BlockOracle)
    returns (written: seq<Written>)
    ensures written == ReplayFrames(last, head, window, answers)
  {
    written := [];
    if last.None? || head.None? || last.value >= head.value {
      return;
    }
    var missed := head.value - last.value;
    if missed > window {
      return [GapEvent(last.value + 1, head.value)];
    }
    var lo, hi := last.value + 1, head.value;
    for n := lo to hi + 1
      invariant forall k :: lo <= k < n ==> answers(k) != Raises
      invariant written == Replayed(answers, lo, n - 1)
    {
      ReplayedSplit(answers, lo, n, hi);
      ReplayedSplit(answers, lo, n, n);
      match answers(n) {
        case Raises => return;
        case Null =>
        case Found => written := written + [BlockEvent(n)];
      }
      assert Replayed(answers, n, n) == if answers(n) == Found then [BlockEvent(n)] else [];
    }
  }

  // ---------------------------------------------------------------------
  // Coverage
  // ---------------------------------------------------------------------

  predicate Covers(w: Written, k: int) {
    match w
    case BlockEvent(n) => n == k
    case GapEvent(first, last) => first <= k <= last
  }

  ghost predicate Covered(ws: seq<Written>, k: int) {
    exists i :: 0 <= i < |ws| && Covers(ws[i], k)
  }

  /** The live events of a subscription opened at head `since`, once the head is `now`. */
  function Live(since: int, now: int): seq<Written>
    decreases now - since
  {
    if now <= since then [] else Live(since, now - 1) + [BlockEvent(now)]
  }

  lemma CoveredConcat(a: seq<Written>, b: seq<Written>, k: int)
    ensures Covered(a + b, k) <==> Covered(a, k) || Covered(b, k)
  {
    var c := a + b;
    if i :| 0 <= i < |a| && Covers(a[i], k) { assert Covers(c[i], k); }
    if i :| 0 <= i < |b| && Covers(b[i], k) { assert Covers(c[|a| + i], k); }
    if i :| 0 <= i < |c| && Covers(c[i], k) {
      if i < |a| { assert Covers(a[i], k); } else { assert Covers(b[i - |a|], k); }
    }
  }

  lemma {:induction false} LiveCovers(since: int, now: int, k: int)
    ensures Covered(Live(since, now), k) <==> since < k <= now
    decreases now - since
  {
    if now > since {
      LiveCovers(since, now - 1, k);
      CoveredConcat(Live(since, now - 1), [BlockEvent(now)], k);
      assert Covered([BlockEvent(now)], k) <==> k == now by {
        assert Covers([BlockEvent(now)][0], k) <==> k == now;
      }
    }
  }

  /** No call up to and including block k's failed, and k's block exists. */
  ghost predicate Reaches(answers: BlockOracle, lo: int, k: int) {
    (forall j :: lo <= j <= k ==> answers(j) != Raises) && answers(k) == Found
  }

  lemma {:induction false} ReplayedCovers(answers: BlockOracle, lo: int, hi: int, k: int)
    ensures Covered(Replayed(answers, lo, hi), k) <==> lo <= k <= hi && Reaches(answers, lo, k)
    decreases hi - lo
  {
    if lo <= hi && answers(lo) != Raises {
      ReplayedCovers(answers, lo + 1, hi, k);
      var first := if answers(lo) == Found then [BlockEvent(lo)] else [];
      CoveredConcat(first, Replayed(answers, lo + 1, hi), k);
      assert Covered(first, k) <==> k == lo && answers(lo) == Found by {
        if answers(lo) == Found { assert Covers(first[0], k) <==> k == lo; }
      }
    }
  }

  /**
   * Exactly which missed blocks a resuming client learns of, whatever the
   * order of subscribing (at head `since`) and asking for the head (answered
   * with `head`): those after `since` come live, those a gap event spans, and
   * those the replay reaches.
   */
  lemma ResumeCoversExactly(
    last: int, head: Option<int>, window: int, answers: BlockOracle, since: int, now: int, k: int)
    requires last < k <= now && (head.Some? ==> head.value <= now)
    ensures
      Covered(ReplayFrames(Some(last), head, window, answers) + Live(since, now), k) <==>
      || k > since
      || (head.Some? && k <= head.value && (head.value - last > window || Reaches(answers, last + 1, k)))
  {
    var replay := ReplayFrames(Some(last), head, window, answers);
    CoveredConcat(replay, Live(since, now), k);
    LiveCovers(since, now, k);
    if head.Some? && last < head.value {
      if head.value - last > window {
        assert Covers(replay[0], k) <==> last + 1 <= k <= head.value;
      } else {
        ReplayedCovers(answers, last + 1, head.value, k);
      }
    }
  }

  /** The head at successive moments, on a chain that only grows. */
  ghost predicate Grows(heads: seq<int>) {
    forall i, j :: 0 <= i <= j < |heads| ==> heads[i] <= heads[j]
  }

  /** What a client resuming after block `last` is told by the moment `observed`. */
  function Resumed(
    last: int, heads: seq<int>, subscribed: nat, asked: nat, observed: nat, window: int, answers: BlockOracle)
    : seq<Written>
    requires subscribed < |heads| && asked < |heads| && observed < |heads|
  {
    ReplayFrames(Some(last), Some(heads[asked]), window, answers) + Live(heads[subscribed], heads[observed])
  }

  /**
   * The handler subscribes before it asks for the head.  On a growing chain,
   * if no replay call fails or finds nothing, every block after the client's
   * last one is then covered.
   */
  lemma NoHole(
    last: int, heads: seq<int>, subscribed: nat, asked: nat, observed: nat, window: int, answers: BlockOracle, k: int)
    requires Grows(heads) && subscribed <= asked <= observed < |heads|
    requires last < k <= heads[observed]
    requires forall j :: last < j <= heads[asked] ==> answers(j) == Found
    ensures Covered(Resumed(last, heads, subscribed, asked, observed, window, answers), k)
  {
    ResumeCoversExactly(last, Some(heads[asked]), window, answers, heads[subscribed], heads[observed], k);
  }

  /** Asking for the head before subscribing would lose exactly the blocks that arrive in between. */
  lemma OrderMatters(
    last: int, heads: seq<int>, asked: nat, subscribed: nat, observed: nat, window: int, answers: BlockOracle, k: int)
    requires Grows(heads) && asked <= subscribed <= observed < |heads|
    requires last <= heads[asked] && last < k <= heads[observed]
    requires forall j :: last < j <= heads[asked] ==> answers(j) == Found
    ensures Covered(Resumed(last, heads, subscribed, asked, observed, window, answers), k)
       <==> !(heads[asked] < k <= heads[subscribed])
  {
    ResumeCoversExactly(last, Some(heads[asked]), window, answers, heads[subscribed], heads[observed], k);
  }

  lemma {:induction false} ReplayedLength(answers: BlockOracle, lo: int, hi: int)
    ensures |Replayed(answers, lo, hi)| <= if lo <= hi then hi - lo + 1 else 0
    decreases hi - lo
  {
    if lo <= hi && answers(lo) != Raises {
      ReplayedLength(answers, lo + 1, hi);
    }
  }

  /** A replay writes at most `window` blocks, or one gap. */
  lemma {:induction false} ReplayBounded(last: int, head: int, window: int, answers: BlockOracle)
    ensures |ReplayFrames(Some(last), Some(head), window, answers)| <= if window > 1 then window else 1
  {
    if last < head && head - last <= window {
      ReplayedLength(answers, last + 1, head);
    }
  }

  // ---------------------------------------------------------------------
  // Logs
  // ---------------------------------------------------------------------

  datatype LogId = LogId(block: int, index: int)

  datatype LogWritten = LogEvent(id: LogId) | LogGap(first: int, last: int)

  predicate After(a: LogId, b: LogId) {
    a.block > b.block || (a.block == b.block && a.index > b.index)
  }

  function InBlocks(logs: seq<LogId>, lo: int, hi: int): seq<LogWritten> {
    if logs == [] then []
    else (if lo <= logs[0].block <= hi then [LogEvent(logs[0])] else []) + InBlocks(logs[1..], lo, hi)
  }

  /**
   * What `_replay_logs` writes after id `last`: `head` is the answer to
   * `eth_blockNumber`, if any, `logs` are the matching logs of the chain, and
   * `fetchRaises` says whether `eth_getLogs` fails.  Only the block part of
   * the id is used, and the replay starts at the block after it.
   */
  function ReplayLogFrames(
    last: LogId, head: Option<int>, window: int, logs: seq<LogId>, fetchRaises: bool): seq<LogWritten>
  {
    if head.None? || last.block >= head.value then []
    else if head.value - last.block > window then [LogGap(last.block + 1, head.value)]
    else if fetchRaises then []
    else InBlocks(logs, last.block + 1, head.value)
  }

  predicate CoversLog(w: LogWritten, l: LogId) {
    match w
    case LogEvent(id) => id == l
    case LogGap(first, last) => first <= l.block <= last
  }

  ghost predicate LogCovered(ws: seq<LogWritten>, l: LogId) {
    exists i :: 0 <= i < |ws| && CoversLog(ws[i], l)
  }

  lemma InBlocksHas(logs: seq<LogId>, lo: int, hi: int, l: LogId)
    ensures LogEvent(l) in InBlocks(logs, lo, hi) <==> l in logs && lo <= l.block <= hi
    ensures forall w :: w in InBlocks(logs, lo, hi) ==> w.LogEvent?
  {
  }

  /** In the order of (block, log index), each once. */
  ghost predicate LogsIncrease(logs: seq<LogId>) {
    forall i, j :: 0 <= i < j < |logs| ==> After(logs[j], logs[i])
  }

  ghost predicate EventsIncrease(ws: seq<LogWritten>) {
    && (forall i :: 0 <= i < |ws| ==> ws[i].LogEvent?)
    && (forall i, j :: 0 <= i < j < |ws| ==> After(ws[j].id, ws[i].id))
  }

  /**
   * The logs of a block range are written in order and once each; with
   * `InBlocksHas` this says exactly which sequence it is.
   */
  lemma {:induction false} InBlocksIncrease(logs: seq<LogId>, lo: int, hi: int)
    requires LogsIncrease(logs)
    ensures EventsIncrease(InBlocks(logs, lo, hi))
  {
    if logs != [] {
      var rest := InBlocks(logs[1..], lo, hi);
      assert LogsIncrease(logs[1..]);
      InBlocksIncrease(logs[1..], lo, hi);
      forall j | 0 <= j < |rest| ensures After(rest[j].id, logs[0]) {
        InBlocksHas(logs[1..], lo, hi, rest[j].id);
        assert rest[j] in rest;
        var i :| 0 <= i < |logs[1..]| && logs[1..][i] == rest[j].id;
        assert logs[i + 1] == rest[j].id;
      }
    }
  }

  lemma LogCoveredConcat(a: seq<LogWritten>, b: seq<LogWritten>, l: LogId)
    ensures LogCovered(a + b, l) <==> LogCovered(a, l) || LogCovered(b, l)
  {
    var c := a + b;
    if i :| 0 <= i < |a| && CoversLog(a[i], l) { assert CoversLog(c[i], l); }
    if i :| 0 <= i < |b| && CoversLog(b[i], l) { assert CoversLog(c[|a| + i], l); }
    if i :| 0 <= i < |c| && CoversLog(c[i], l) {
      if i < |a| { assert CoversLog(a[i], l); } else { assert CoversLog(b[i - |a|], l); }
    }
  }

  /** Logs written one by one cover exactly themselves. */
  lemma InBlocksCovers(logs: seq<LogId>, lo: int, hi: int, l: LogId)
    requires l in logs
    ensures LogCovered(InBlocks(logs, lo, hi), l) <==> lo <= l.block <= hi
  {
    var ws := InBlocks(logs, lo, hi);
    InBlocksHas(logs, lo, hi, l);
    if lo <= l.block <= hi {
      var i :| 0 <= i < |ws| && ws[i] == LogEvent(l);
      assert CoversLog(ws[i], l);
    } else {
      forall i | 0 <= i < |ws| ensures !CoversLog(ws[i], l) {
        assert ws[i] in ws;
      }
    }
  }

  /**
   * Exactly which logs after its id a resuming client learns of, whether or
   * not the calls of the replay fail: those after the subscription (at head
   * `since`) come live; of the others, those of blocks after the id's own, up
   * to the head, that a gap spans or the fetch delivers.  The log index of the
   * id is discarded, so the rest of its own block is never replayed.
   */
  lemma LogsAfterIdCoveredExactly(
    last: LogId, head: Option<int>, window: int, logs: seq<LogId>, fetchRaises: bool, since: int, now: int, l: LogId)
    requires l in logs && After(l, last) && l.block <= now && (head.Some? ==> head.value <= now)
    ensures
      LogCovered(ReplayLogFrames(last, head, window, logs, fetchRaises) + InBlocks(logs, since + 1, now), l) <==>
      || l.block > since
      || (head.Some? && last.block < l.block <= head.value && (head.value - last.block > window || !fetchRaises))
  {
    var replay, live := ReplayLogFrames(last, head, window, logs, fetchRaises), InBlocks(logs, since + 1, now);
    LogCoveredConcat(replay, live, l);
    InBlocksCovers(logs, since + 1, now, l);
    if head.Some? && last.block < head.value {
      if head.value - last.block > window {
        assert CoversLog(replay[0], l) <==> last.block < l.block <= head.value;
      } else if !fetchRaises {
        InBlocksCovers(logs, last.block + 1, head.value, l);
      }
    }
  }

  /**
   * With a subscription that precedes the head query and no failing call,
   * what is missed is exactly the rest of the id's own block, if that block
   * came before the subscription.
   */
  lemma LogsMissedInOwnBlock(
    last: LogId, head: int, window: int, logs: seq<LogId>, since: int, now: int, l: LogId)
    requires l in logs && After(l, last) && l.block <= now && since <= head <= now
    ensures
      LogCovered(ReplayLogFrames(last, Some(head), window, logs, false) + InBlocks(logs, since + 1, now), l)
      <==> !(l.block == last.block && l.block <= since)
  {
    LogsAfterIdCoveredExactly(last, Some(head), window, logs, false, since, now, l);
  }

  lemma {:induction false} InBlocksSnoc(logs: seq<LogId>, l: LogId, lo: int, hi: int)
    ensures InBlocks(logs + [l], lo, hi)
         == InBlocks(logs, lo, hi) + (if lo <= l.block <= hi then [LogEvent(l)] else [])
  {
    if logs == [] {
      assert logs + [l] == [l] && [l][1..] == [];
    } else {
      assert (logs + [l])[1..] == logs[1..] + [l];
      InBlocksSnoc(logs[1..], l, lo, hi);
    }
  }

  /** `_replay_logs` */
  method ReplayLogs(last: Option<LogId>, head: Option<int>, window: int, logs: seq<LogId>, fetchRaises: bool)
    returns (written: seq<LogWritten>)
    ensures written == if last.None? then [] else ReplayLogFrames(last.value, head, window, logs, fetchRaises)
  {
    written := [];
    if last.None? || head.None? || last.value.block >= head.value {
      return;
    }
    if head.value - last.value.block > window {
      return [LogGap(last.value.block + 1, head.value)];
    }
    if fetchRaises {
      return;
    }
    var lo, hi := last.value.block + 1, head.value;
    for i := 0 to |logs|
      invariant written == InBlocks(logs[..i], lo, hi)
    {
      InBlocksSnoc(logs[..i], logs[i], lo, hi);
      assert logs[..i + 1] == logs[..i] + [logs[i]];
      if lo <= logs[i].block <= hi {
        written := written + [LogEvent(logs[i])];
      }
    }
    assert logs[..|logs|] == logs;
  }
}
