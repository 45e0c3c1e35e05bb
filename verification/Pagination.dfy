/**
 * The adaptive chunk loop behind `/logs` (src/exec_rest_api/pagination.py).
 *
 * The upstream is an oracle: `answers(k, lo, hi)` is what the k-th
 * `eth_getLogs` call of one fetch gets back for blocks [lo, hi].  Quantifying
 * over all such functions covers every pattern of refusals, including one
 * that answers the same range differently at different times.
 */
module Pagination {
  import opened Wrappers
  import opened Strings

  const DEFAULT_CHUNK_SIZE: int := 5000
  const MIN_CHUNK_SIZE: int := 1

  /** One log entry, its hex quantities already read as numbers. */
  datatype Log = Log(block: nat, index: nat, payload: string)

  /** `next` carries (block to resume fromBlock, last log index emitted on it). */
  datatype PaginationResult = PaginationResult(items: seq<Log>, next: Option<nat>, lastLogIndex: int)

  datatype Answer =
    | Served
    | RpcError(code: int, message: string)
    | TransportError

  type Oracle = (nat, int, int) -> Answer

  datatype FetchError =
    | Raised(answer: Answer)
    | NegativeQuantity

  datatype Query = Query(lo: int, hi: int)

  const TOO_LARGE_PATTERNS: seq<string> := ["query returned more than", "exceed maximum block range"]

  predicate MentionsAny(message: string, patterns: seq<string>) {
    patterns != [] && (Contains(message, patterns[0]) || MentionsAny(message, patterns[1..]))
  }

  predicate IsTooLarge(a: Answer) {
    a.RpcError? && a.code == -32000 && MentionsAny(Lower(a.message), TOO_LARGE_PATTERNS)
  }

  /** Error code -32000 whose message, in any case, has one of the two texts. */
  ghost predicate SaysTooLarge(a: Answer) {
    && a.RpcError? && a.code == -32000
    && (Mentions(a.message, "query returned more than") || Mentions(a.message, "exceed maximum block range"))
  }

  lemma TooLargeExactly(a: Answer)
    ensures IsTooLarge(a) <==> SaysTooLarge(a)
  {
    if a.RpcError? {
      MentionsExactly(a.message, "query returned more than");
      MentionsExactly(a.message, "exceed maximum block range");
      var m := Lower(a.message);
      assert TOO_LARGE_PATTERNS[1..] == ["exceed maximum block range"];
      assert TOO_LARGE_PATTERNS[1..][1..] == [];
      assert MentionsAny(m, TOO_LARGE_PATTERNS)
          == (Contains(m, "query returned more than") || MentionsAny(m, TOO_LARGE_PATTERNS[1..]));
      assert MentionsAny(m, ["exceed maximum block range"]) == Contains(m, "exceed maximum block range");
    }
  }

  // ---------------------------------------------------------------------
  // What one page should be
  // ---------------------------------------------------------------------

  predicate Before(a: Log, b: Log) {
    a.block < b.block || (a.block == b.block && a.index < b.index)
  }

  /** Strictly increasing by (block, index), as `eth_getLogs` delivers. */
  ghost predicate Ordered(logs: seq<Log>) {
    forall i, j :: 0 <= i < j < |logs| ==> Before(logs[i], logs[j])
  }

  predicate Wanted(l: Log, lo: int, hi: int, skipBlock: int, skipIndex: int) {
    lo <= l.block <= hi && !(l.block == skipBlock && l.index <= skipIndex)
  }

  /** The logs of [lo, hi] left after dropping those of `skipBlock` up to `skipIndex`. */
  function Unseen(logs: seq<Log>, lo: int, hi: int, skipBlock: int, skipIndex: int): seq<Log> {
    if logs == [] then []
    else
      (if Wanted(logs[0], lo, hi, skipBlock, skipIndex) then [logs[0]] else [])
      + Unseen(logs[1..], lo, hi, skipBlock, skipIndex)
  }

  /** The answer of `eth_getLogs` on [lo, hi]. */
  function Window(logs: seq<Log>, lo: int, hi: int): seq<Log> {
    Unseen(logs, lo, hi, -1, -1)
  }

  function SkipBlock(fromBlock: int, skip: int): int {
    if skip >= 0 then fromBlock else -1
  }

  /** The page a caller is promised: the first `limit` unseen logs and where they stop. */
  function Page(logs: seq<Log>, fromBlock: int, toBlock: int, limit: int, skip: int): PaginationResult {
    var rest := Unseen(logs, fromBlock, toBlock, SkipBlock(fromBlock, skip), skip);
    if limit < 1 then PaginationResult([], None, -1)
    else if |rest| < limit then PaginationResult(rest, None, -1)
    else PaginationResult(rest[..limit], Some(rest[limit - 1].block), rest[limit - 1].index)
  }

  // ---------------------------------------------------------------------
  // Laws of Unseen
  // ---------------------------------------------------------------------

  lemma OrderedTail(logs: seq<Log>)
    requires Ordered(logs) && logs != []
    ensures Ordered(logs[1..])
  {
  }

  lemma UnseenOnlyWanted(logs: seq<Log>, lo: int, hi: int, b: int, i: int)
    ensures forall l :: l in Unseen(logs, lo, hi, b, i) <==> l in logs && Wanted(l, lo, hi, b, i)
  {
    if logs != [] {
      UnseenOnlyWanted(logs[1..], lo, hi, b, i);
      assert logs == [logs[0]] + logs[1..];
    }
  }

  lemma {:induction false} UnseenOrdered(logs: seq<Log>, lo: int, hi: int, b: int, i: int)
    requires Ordered(logs)
    ensures Ordered(Unseen(logs, lo, hi, b, i))
  {
    if logs != [] {
      OrderedTail(logs);
      UnseenOrdered(logs[1..], lo, hi, b, i);
      UnseenOnlyWanted(logs[1..], lo, hi, b, i);
      var tail := Unseen(logs[1..], lo, hi, b, i);
      forall k | 0 <= k < |tail| ensures Before(logs[0], tail[k]) {
        assert tail[k] in logs[1..];
        var j :| 0 <= j < |logs[1..]| && logs[1..][j] == tail[k];
        assert logs[j + 1] == tail[k];
      }
    }
  }

  /** A range that lies wholly before the logs selects nothing. */
  lemma UnseenBeyond(logs: seq<Log>, lo: int, hi: int, b: int, i: int)
    requires forall l :: l in logs ==> hi < l.block
    ensures Unseen(logs, lo, hi, b, i) == []
  {
  }

  /** Consecutive ranges of an ordered list concatenate. */
  lemma {:induction false} UnseenSplit(logs: seq<Log>, lo: int, mid: int, hi: int, b: int, i: int)
    requires Ordered(logs) && lo <= mid + 1 && mid <= hi
    ensures Unseen(logs, lo, mid, b, i) + Unseen(logs, mid + 1, hi, b, i) == Unseen(logs, lo, hi, b, i)
  {
    if logs != [] {
      OrderedTail(logs);
      UnseenSplit(logs[1..], lo, mid, hi, b, i);
      var low, high := Unseen(logs[1..], lo, mid, b, i), Unseen(logs[1..], mid + 1, hi, b, i);
      assert ([logs[0]] + low) + high == [logs[0]] + (low + high);
      if mid < logs[0].block {
        forall l | l in logs[1..] ensures mid < l.block {
          var j :| 0 <= j < |logs[1..]| && logs[1..][j] == l;
          assert Before(logs[0], logs[j + 1]);
        }
        UnseenBeyond(logs[1..], lo, mid, b, i);
      }
    }
  }

  /** Past the resume block the skip window is inert. */
  lemma UnseenPastSkip(logs: seq<Log>, lo: int, hi: int, b: int, i: int)
    requires b < lo
    ensures Unseen(logs, lo, hi, b, i) == Unseen(logs, lo, hi, -1, i)
  {
  }

  // ---------------------------------------------------------------------
  // The chunk-size potential
  // ---------------------------------------------------------------------

  function Log2(n: int): nat
    requires n >= 1
  {
    if n == 1 then 0 else 1 + Log2(n / 2)
  }

  lemma Log2Monotone(m: int, n: int)
    requires 1 <= m <= n
    ensures Log2(m) <= Log2(n)
  {
    if m > 1 {
      Log2Monotone(m / 2, n / 2);
    }
  }

  lemma Log2Double(n: int)
    requires n >= 1
    ensures Log2(2 * n) == Log2(n) + 1
  {
    assert 2 * n / 2 == n;
  }

  function Halve(chunk: int): int {
    if chunk / 2 > MIN_CHUNK_SIZE then chunk / 2 else MIN_CHUNK_SIZE
  }

  function Grow(chunk: int): int {
    var doubled := if chunk * 2 > MIN_CHUNK_SIZE then chunk * 2 else MIN_CHUNK_SIZE;
    if doubled < DEFAULT_CHUNK_SIZE then doubled else DEFAULT_CHUNK_SIZE
  }

  /** Halving lowers the potential by exactly one; growing raises it by at most one. */
  lemma ChunkPotential(chunk: int)
    requires MIN_CHUNK_SIZE <= chunk <= DEFAULT_CHUNK_SIZE
    ensures MIN_CHUNK_SIZE <= Grow(chunk) <= DEFAULT_CHUNK_SIZE
    ensures Log2(Grow(chunk)) <= Log2(chunk) + 1
    ensures chunk > MIN_CHUNK_SIZE ==> MIN_CHUNK_SIZE <= Halve(chunk) < chunk
    ensures chunk > MIN_CHUNK_SIZE ==> Log2(Halve(chunk)) == Log2(chunk) - 1
  {
    Log2Double(chunk);
    Log2Monotone(Grow(chunk), 2 * chunk);
  }

  lemma Log2Quarter(n: int)
    requires n >= 4
    ensures Log2(n) == Log2(n / 4) + 2
  {
    assert Log2(n) == 1 + Log2(n / 2) == 2 + Log2(n / 2 / 2);
  }

  lemma FullChunkPotential()
    ensures Log2(DEFAULT_CHUNK_SIZE) == 12
  {
    Log2Quarter(5000);
    Log2Quarter(1250);
    Log2Quarter(312);
    Log2Quarter(78);
    Log2Quarter(19);
    Log2Quarter(4);
  }

  // ---------------------------------------------------------------------
  // The loop
  // ---------------------------------------------------------------------

  predicate Recoverable(a: Answer) {
    a.Served? || IsTooLarge(a)
  }

  function AnswerTo(answers: Oracle, calls: seq<Query>, k: nat): Answer
    requires k < |calls|
  {
    answers(k, calls[k].lo, calls[k].hi)
  }

  predicate InRange(q: Query, fromBlock: int, toBlock: int) {
    fromBlock <= q.lo <= q.hi <= toBlock && q.hi - q.lo < DEFAULT_CHUNK_SIZE
  }

  predicate SoundAt(calls: seq<Query>, answers: Oracle, fromBlock: int, toBlock: int, k: nat)
    requires k < |calls|
  {
    InRange(calls[k], fromBlock, toBlock) && Recoverable(AnswerTo(answers, calls, k))
  }

  /** Every call stays inside the range and within the chunk cap, and met a recoverable answer. */
  ghost predicate Sound(calls: seq<Query>, answers: Oracle, fromBlock: int, toBlock: int) {
    forall k: nat :: k < |calls| ==> SoundAt(calls, answers, fromBlock, toBlock, k)
  }

  /**
   * The fetch gave up on answer `a` to its last call.  A "too large" answer is
   * only given up on when the refused query was a single block.
   */
  ghost predicate GaveUpOn(calls: seq<Query>, answers: Oracle, fromBlock: int, toBlock: int, a: Answer) {
    && calls != []
    && Sound(calls[..|calls| - 1], answers, fromBlock, toBlock)
    && InRange(calls[|calls| - 1], fromBlock, toBlock)
    && a == AnswerTo(answers, calls, |calls| - 1)
    && !a.Served?
    && (IsTooLarge(a) ==> calls[|calls| - 1].lo == calls[|calls| - 1].hi)
  }

  predicate Tolerable(answers: Oracle, k: nat, lo: int, hi: int) {
    answers(k, lo, hi).Served? || (IsTooLarge(answers(k, lo, hi)) && lo < hi)
  }

  /** The oracle never refuses a single block and never fails otherwise. */
  ghost predicate OnlyRefusesRanges(answers: Oracle) {
    forall k: nat, lo: int, hi: int :: Tolerable(answers, k, lo, hi)
  }

  /** A fetch gives up only on an answer to a one-block query, or on a failure that is not about size. */
  lemma GivesUpOnlyWhenUnavoidable(
    calls: seq<Query>, answers: Oracle, fromBlock: int, toBlock: int, a: Answer)
    ensures GaveUpOn(calls, answers, fromBlock, toBlock, a) ==>
      exists k: nat, lo: int, hi: int ::
        a == answers(k, lo, hi) && !a.Served? && (IsTooLarge(a) ==> lo == hi) && fromBlock <= lo <= hi <= toBlock
    ensures GaveUpOn(calls, answers, fromBlock, toBlock, a) ==> !OnlyRefusesRanges(answers)
  {
    if GaveUpOn(calls, answers, fromBlock, toBlock, a) {
      var k := |calls| - 1;
      assert a == answers(k, calls[k].lo, calls[k].hi) && !Tolerable(answers, k, calls[k].lo, calls[k].hi);
    }
  }

  ghost predicate Harmless(answers: Oracle, k: nat, lo: int, hi: int) {
    answers(k, lo, hi).Served? || (lo < hi && SaysTooLarge(answers(k, lo, hi)))
  }

  /** Whatever is asked is served, or is several blocks and refused with code -32000 and one of the two texts. */
  ghost predicate OnlyHarmless(answers: Oracle) {
    forall k: nat, lo: int, hi: int :: Harmless(answers, k, lo, hi)
  }

  lemma HarmlessIsTolerable(answers: Oracle)
    requires OnlyHarmless(answers)
    ensures OnlyRefusesRanges(answers)
  {
    forall k: nat, lo: int, hi: int ensures Tolerable(answers, k, lo, hi) {
      assert Harmless(answers, k, lo, hi);
      TooLargeExactly(answers(k, lo, hi));
    }
  }

  /** Another code, or neither text. */
  ghost predicate Fatal(a: Answer) {
    !a.Served? && !SaysTooLarge(a)
  }

  /** A fatal answer is the answer to the last call, and what the fetch raises. */
  ghost predicate EndsAtFatal(calls: seq<Query>, answers: Oracle, r: Result<PaginationResult, FetchError>) {
    forall k: nat :: k < |calls| && Fatal(AnswerTo(answers, calls, k)) ==>
      k == |calls| - 1 && r == Err(Raised(AnswerTo(answers, calls, k)))
  }

  lemma SoundHasNoFatal(calls: seq<Query>, answers: Oracle, fromBlock: int, toBlock: int, k: nat)
    requires Sound(calls, answers, fromBlock, toBlock) && k < |calls|
    ensures !Fatal(AnswerTo(answers, calls, k))
  {
    assert SoundAt(calls, answers, fromBlock, toBlock, k);
    TooLargeExactly(AnswerTo(answers, calls, k));
  }

  lemma EarlierNotFatal(calls: seq<Query>, answers: Oracle, fromBlock: int, toBlock: int, k: nat)
    requires calls != [] && k < |calls| - 1 && Sound(calls[..|calls| - 1], answers, fromBlock, toBlock)
    ensures !Fatal(AnswerTo(answers, calls, k))
  {
    SoundHasNoFatal(calls[..|calls| - 1], answers, fromBlock, toBlock, k);
  }

  lemma FatalEnds(
    calls: seq<Query>, answers: Oracle, fromBlock: int, toBlock: int, r: Result<PaginationResult, FetchError>)
    requires
      || Sound(calls, answers, fromBlock, toBlock)
      || (r.Err? && r.error.Raised? && GaveUpOn(calls, answers, fromBlock, toBlock, r.error.answer))
    ensures EndsAtFatal(calls, answers, r)
  {
    forall k: nat | k < |calls| && Fatal(AnswerTo(answers, calls, k))
      ensures k == |calls| - 1 && r == Err(Raised(AnswerTo(answers, calls, k)))
    {
      if Sound(calls, answers, fromBlock, toBlock) {
        SoundHasNoFatal(calls, answers, fromBlock, toBlock, k);
      } else if k < |calls| - 1 {
        EarlierNotFatal(calls, answers, fromBlock, toBlock, k);
      }
    }
  }

  lemma WhenGivenUp(calls: seq<Query>, answers: Oracle, fromBlock: int, toBlock: int, a: Answer)
    requires GaveUpOn(calls, answers, fromBlock, toBlock, a)
    ensures !OnlyHarmless(answers)
  {
    GivesUpOnlyWhenUnavoidable(calls, answers, fromBlock, toBlock, a);
    if OnlyHarmless(answers) {
      HarmlessIsTolerable(answers);
    }
  }

  /** Recording one more call. */
  lemma CallRecorded(earlier: seq<Query>, answers: Oracle, q: Query, fromBlock: int, toBlock: int)
    requires Sound(earlier, answers, fromBlock, toBlock) && InRange(q, fromBlock, toBlock)
    ensures
      var a := answers(|earlier|, q.lo, q.hi);
      && (Recoverable(a) ==> Sound(earlier + [q], answers, fromBlock, toBlock))
      && (!a.Served? && (IsTooLarge(a) ==> q.lo == q.hi) ==>
            GaveUpOn(earlier + [q], answers, fromBlock, toBlock, a))
  {
    var calls := earlier + [q];
    assert calls[..|earlier|] == earlier;
    if Recoverable(answers(|earlier|, q.lo, q.hi)) {
      forall k: nat | k < |calls| ensures SoundAt(calls, answers, fromBlock, toBlock, k) {
        if k < |earlier| {
          assert SoundAt(earlier, answers, fromBlock, toBlock, k) && calls[k] == earlier[k];
        }
      }
    }
  }

  function Kept(page: seq<Log>, skipBlock: int, skipIndex: int): seq<Log> {
    if page == [] then []
    else
      (if page[0].block == skipBlock && page[0].index <= skipIndex then [] else [page[0]])
      + Kept(page[1..], skipBlock, skipIndex)
  }

  lemma {:induction false} KeptConcat(a: seq<Log>, b: seq<Log>, skipBlock: int, skipIndex: int)
    ensures Kept(a + b, skipBlock, skipIndex) == Kept(a, skipBlock, skipIndex) + Kept(b, skipBlock, skipIndex)
  {
    if a == [] {
      assert a + b == b;
    } else {
      var first := if a[0].block == skipBlock && a[0].index <= skipIndex then [] else [a[0]];
      KeptConcat(a[1..], b, skipBlock, skipIndex);
      assert (a + b)[0] == a[0] && (a + b)[1..] == a[1..] + b;
      assert Kept(a + b, skipBlock, skipIndex) == first + Kept(a[1..] + b, skipBlock, skipIndex);
      assert Kept(a, skipBlock, skipIndex) == first + Kept(a[1..], skipBlock, skipIndex);
    }
  }

  lemma KeptSnoc(page: seq<Log>, k: nat, skipBlock: int, skipIndex: int)
    requires k < |page|
    ensures Kept(page[..k + 1], skipBlock, skipIndex)
         == Kept(page[..k], skipBlock, skipIndex)
            + (if page[k].block == skipBlock && page[k].index <= skipIndex then [] else [page[k]])
    ensures Kept(page[..k + 1], skipBlock, skipIndex) <= Kept(page, skipBlock, skipIndex)
  {
    assert page[..k + 1] == page[..k] + [page[k]];
    KeptConcat(page[..k], [page[k]], skipBlock, skipIndex);
    assert page == page[..k + 1] + page[k + 1..];
    KeptConcat(page[..k + 1], page[k + 1..], skipBlock, skipIndex);
  }

  /** Dropping the skip window from a served window selects the unseen logs. */
  lemma KeptOfWindow(logs: seq<Log>, lo: int, hi: int, b: int, i: int)
    ensures Kept(Window(logs, lo, hi), b, i) == Unseen(logs, lo, hi, b, i)
  {
    if logs != [] {
      KeptOfWindow(logs[1..], lo, hi, b, i);
      if Wanted(logs[0], lo, hi, -1, -1) {
        assert Window(logs, lo, hi) == [logs[0]] + Window(logs[1..], lo, hi);
        assert Window(logs, lo, hi)[1..] == Window(logs[1..], lo, hi);
      } else {
        assert Window(logs, lo, hi) == Window(logs[1..], lo, hi);
      }
    }
  }

  /** The loop over `page` either kept all of it below `limit` or stopped at the log that reached it. */
  predicate Taken(items: seq<Log>, page: seq<Log>, skipBlock: int, skipIndex: int, limit: int,
                  taken: seq<Log>, stoppedAt: Option<Log>)
  {
    match stoppedAt
    case None => taken == items + Kept(page, skipBlock, skipIndex) && |taken| < limit
    case Some(log) =>
      && |taken| == limit >= 1
      && taken <= items + Kept(page, skipBlock, skipIndex)
      && taken[limit - 1] == log
  }

  /** The loop over one served page: collect until `limit`, dropping the skip window. */
  method TakePage(items: seq<Log>, page: seq<Log>, skipBlock: int, skipIndex: int, limit: int)
    returns (taken: seq<Log>, stoppedAt: Option<Log>)
    requires |items| < limit
    ensures Taken(items, page, skipBlock, skipIndex, limit, taken, stoppedAt)
  {
    taken := items;
    for k := 0 to |page|
      invariant taken == items + Kept(page[..k], skipBlock, skipIndex)
      invariant |taken| < limit
    {
      KeptSnoc(page, k, skipBlock, skipIndex);
      var log := page[k];
      if !(log.block == skipBlock && log.index <= skipIndex) {
        taken := taken + [log];
        if |taken| >= limit {
          return taken, Some(log);
        }
      }
    }
    assert page[..|page|] == page;
    return taken, None;
  }

  /** A whole window appended to what was collected before it. */
  lemma {:induction false} WindowStep(logs: seq<Log>, fromBlock: int, toBlock: int, cur: int, end: int, skip: int)
    requires Ordered(logs) && fromBlock <= cur <= end <= toBlock && 0 <= cur
    ensures
      var b := SkipBlock(fromBlock, skip);
      var swb := if cur == fromBlock then b else -1;
      && Unseen(logs, fromBlock, cur - 1, b, skip) + Unseen(logs, cur, end, swb, skip)
         == Unseen(logs, fromBlock, end, b, skip)
      && Unseen(logs, fromBlock, end, b, skip) <= Unseen(logs, fromBlock, toBlock, b, skip)
  {
    var b := SkipBlock(fromBlock, skip);
    if cur != fromBlock {
      UnseenPastSkip(logs, cur, end, b, skip);
    }
    UnseenSplit(logs, fromBlock, cur - 1, end, b, skip);
    UnseenSplit(logs, fromBlock, end, toBlock, b, skip);
  }

  lemma UnseenEmptyRange(logs: seq<Log>, lo: int, hi: int, b: int, i: int)
    requires hi < lo
    ensures Unseen(logs, lo, hi, b, i) == []
  {
  }

  /** What `TakePage` promises about the window [cur, end] continues what was collected before it. */
  lemma {:induction false} WindowTaken(
    logs: seq<Log>, fromBlock: int, toBlock: int, cur: int, end: int, skip: int, limit: int,
    items: seq<Log>, taken: seq<Log>, stoppedAt: Option<Log>)
    requires Ordered(logs) && fromBlock <= cur <= end <= toBlock && 0 <= cur && limit >= 1
    requires items == Unseen(logs, fromBlock, cur - 1, SkipBlock(fromBlock, skip), skip)
    requires Taken(items, Window(logs, cur, end),
                   if cur == fromBlock then SkipBlock(fromBlock, skip) else -1, skip, limit, taken, stoppedAt)
    ensures stoppedAt.None? ==>
      taken == Unseen(logs, fromBlock, end, SkipBlock(fromBlock, skip), skip)
    ensures stoppedAt.Some? ==>
      PaginationResult(taken, Some(stoppedAt.value.block), stoppedAt.value.index)
      == Page(logs, fromBlock, toBlock, limit, skip)
  {
    KeptOfWindow(logs, cur, end, if cur == fromBlock then SkipBlock(fromBlock, skip) else -1, skip);
    WindowStep(logs, fromBlock, toBlock, cur, end, skip);
  }

  /** A loop that runs to the end of the range has the last page. */
  lemma RangeDone(logs: seq<Log>, fromBlock: int, toBlock: int, cur: int, skip: int, limit: int, items: seq<Log>)
    requires fromBlock <= cur && (if fromBlock <= toBlock then cur <= toBlock + 1 else cur == fromBlock)
    requires items == Unseen(logs, fromBlock, cur - 1, SkipBlock(fromBlock, skip), skip)
    requires if limit < 1 then items == [] else |items| < limit
    requires limit >= 1 ==> toBlock < cur
    ensures PaginationResult(items, None, -1) == Page(logs, fromBlock, toBlock, limit, skip)
  {
    if fromBlock > toBlock {
      UnseenEmptyRange(logs, fromBlock, toBlock, SkipBlock(fromBlock, skip), skip);
      UnseenEmptyRange(logs, fromBlock, cur - 1, SkipBlock(fromBlock, skip), skip);
    }
  }

  /** How many calls the upstream served. */
  function ServedCount(calls: seq<Query>, answers: Oracle): nat {
    if calls == [] then 0
    else
      ServedCount(calls[..|calls| - 1], answers)
      + (if AnswerTo(answers, calls, |calls| - 1).Served? then 1 else 0)
  }

  lemma ServedSnoc(calls: seq<Query>, answers: Oracle, q: Query)
    ensures ServedCount(calls + [q], answers)
         == ServedCount(calls, answers) + (if answers(|calls|, q.lo, q.hi).Served? then 1 else 0)
  {
    assert (calls + [q])[..|calls|] == calls;
  }

  /** The chunk size after these calls: it starts at 5000, doubles when served, and halves when refused. */
  function ChunkAfter(calls: seq<Query>, answers: Oracle): int {
    if calls == [] then 5000
    else
      var k := |calls| - 1;
      var size := ChunkAfter(calls[..k], answers);
      if AnswerTo(answers, calls, k).Served? then (if 2 * size < 5000 then 2 * size else 5000)
      else if size / 2 > 1 then size / 2 else 1
  }

  /** The position after these calls: past the last one served. */
  function PositionAfter(calls: seq<Query>, answers: Oracle, fromBlock: int): int {
    if calls == [] then fromBlock
    else
      var k := |calls| - 1;
      if AnswerTo(answers, calls, k).Served? then calls[k].hi + 1 else calls[k].lo
  }

  ghost predicate ScheduledAt(calls: seq<Query>, answers: Oracle, fromBlock: int, toBlock: int, k: nat)
    requires k < |calls|
  {
    var lo, size := PositionAfter(calls[..k], answers, fromBlock), ChunkAfter(calls[..k], answers);
    calls[k] == Query(lo, if lo + size - 1 < toBlock then lo + size - 1 else toBlock)
  }

  /** Every call is the one that the answers to the calls before it lead to. */
  ghost predicate Scheduled(calls: seq<Query>, answers: Oracle, fromBlock: int, toBlock: int) {
    forall k: nat :: k < |calls| ==> ScheduledAt(calls, answers, fromBlock, toBlock, k)
  }

  lemma EarlierScheduled(calls: seq<Query>, answers: Oracle, fromBlock: int, toBlock: int, q: Query, k: nat)
    requires Scheduled(calls, answers, fromBlock, toBlock) && k < |calls|
    ensures ScheduledAt(calls + [q], answers, fromBlock, toBlock, k)
  {
    assert (calls + [q])[..k] == calls[..k] && (calls + [q])[k] == calls[k];
    assert ScheduledAt(calls, answers, fromBlock, toBlock, k);
  }

  lemma ScheduledSnoc(calls: seq<Query>, answers: Oracle, fromBlock: int, toBlock: int, q: Query)
    requires Scheduled(calls, answers, fromBlock, toBlock)
    requires
      var lo, size := PositionAfter(calls, answers, fromBlock), ChunkAfter(calls, answers);
      q == Query(lo, if lo + size - 1 < toBlock then lo + size - 1 else toBlock)
    ensures Scheduled(calls + [q], answers, fromBlock, toBlock)
  {
    var longer := calls + [q];
    assert longer[..|calls|] == calls && longer[|calls|] == q;
    forall k: nat | k < |longer| ensures ScheduledAt(longer, answers, fromBlock, toBlock, k) {
      if k < |calls| {
        EarlierScheduled(calls, answers, fromBlock, toBlock, q, k);
      }
    }
  }

  lemma AfterSnoc(calls: seq<Query>, answers: Oracle, fromBlock: int, q: Query)
    ensures
      var a, size := answers(|calls|, q.lo, q.hi), ChunkAfter(calls, answers);
      && PositionAfter(calls + [q], answers, fromBlock) == (if a.Served? then q.hi + 1 else q.lo)
      && ChunkAfter(calls + [q], answers)
         == (if a.Served? then (if 2 * size < 5000 then 2 * size else 5000) else if size / 2 > 1 then size / 2 else 1)
  {
    assert (calls + [q])[..|calls|] == calls;
  }

  function CallBound(fromBlock: int, toBlock: int): int {
    if fromBlock <= toBlock then 2 * (toBlock - fromBlock + 1) + 12 else 0
  }

  /** The loop's account: the calls so far are sound, and paid for by the chunks served. */
  ghost predicate Paid(calls: seq<Query>, answers: Oracle, fromBlock: int, toBlock: int, cur: int, chunk: int) {
    && chunk >= 1 && Sound(calls, answers, fromBlock, toBlock)
    && |calls| + Log2(chunk) <= 12 + 2 * ServedCount(calls, answers)
    && ServedCount(calls, answers) <= cur - fromBlock
  }

  /** Refusals are paid for by the chunks served: 12 halvings to begin with, one more for each. */
  ghost predicate Affordable(calls: seq<Query>, answers: Oracle, fromBlock: int, toBlock: int, failed: bool) {
    && |calls| <= 2 * ServedCount(calls, answers) + 12 + (if failed then 1 else 0)
    && |calls| <= CallBound(fromBlock, toBlock)
  }

  lemma PaidAfforded(calls: seq<Query>, answers: Oracle, fromBlock: int, toBlock: int, cur: int, chunk: int)
    requires Paid(calls, answers, fromBlock, toBlock, cur, chunk)
    requires if fromBlock <= toBlock then cur <= toBlock + 1 else calls == []
    ensures Affordable(calls, answers, fromBlock, toBlock, false)
  {
  }

  /** A refused range costs one call and one halving. */
  lemma PaidRefused(
    calls: seq<Query>, answers: Oracle, fromBlock: int, toBlock: int, cur: int, chunk: int, q: Query)
    requires Paid(calls, answers, fromBlock, toBlock, cur, chunk) && InRange(q, fromBlock, toBlock)
    requires MIN_CHUNK_SIZE < chunk <= DEFAULT_CHUNK_SIZE && IsTooLarge(answers(|calls|, q.lo, q.hi))
    ensures Paid(calls + [q], answers, fromBlock, toBlock, cur, Halve(chunk))
  {
    ChunkPotential(chunk);
    CallRecorded(calls, answers, q, fromBlock, toBlock);
    ServedSnoc(calls, answers, q);
  }

  /** A served chunk pays for its own call and for one halving. */
  lemma PaidServed(
    calls: seq<Query>, answers: Oracle, fromBlock: int, toBlock: int, cur: int, chunk: int, q: Query)
    requires Paid(calls, answers, fromBlock, toBlock, cur, chunk) && InRange(q, fromBlock, toBlock)
    requires MIN_CHUNK_SIZE <= chunk <= DEFAULT_CHUNK_SIZE && answers(|calls|, q.lo, q.hi).Served? && cur <= q.hi
    ensures Paid(calls + [q], answers, fromBlock, toBlock, q.hi + 1, Grow(chunk))
  {
    ChunkPotential(chunk);
    CallRecorded(calls, answers, q, fromBlock, toBlock);
    ServedSnoc(calls, answers, q);
  }

  /** The call failed for good; nothing pays for it. */
  lemma PaidFailed(
    calls: seq<Query>, answers: Oracle, fromBlock: int, toBlock: int, cur: int, chunk: int, q: Query)
    requires Paid(calls, answers, fromBlock, toBlock, cur, chunk) && InRange(q, fromBlock, toBlock)
    requires cur <= toBlock
    requires !answers(|calls|, q.lo, q.hi).Served? && (IsTooLarge(answers(|calls|, q.lo, q.hi)) ==> q.lo == q.hi)
    ensures GaveUpOn(calls + [q], answers, fromBlock, toBlock, answers(|calls|, q.lo, q.hi))
    ensures Affordable(calls + [q], answers, fromBlock, toBlock, true)
  {
    CallRecorded(calls, answers, q, fromBlock, toBlock);
    ServedSnoc(calls, answers, q);
  }

  /** The range of the next call. */
  function QueryAt(cur: int, chunk: int, toBlock: int): Query {
    Query(cur, if cur + chunk - 1 < toBlock then cur + chunk - 1 else toBlock)
  }

  /** A claim about the calls so far, the position and the chunk size. */
  type Claim = (seq<Query>, int, int) -> bool

  /** One call keeps the claim, whether it is served or refused as too large. */
  ghost predicate KeptAt(claim: Claim, answers: Oracle, toBlock: int, calls: seq<Query>, cur: int, chunk: int) {
    claim(calls, cur, chunk) && cur <= toBlock && MIN_CHUNK_SIZE <= chunk <= DEFAULT_CHUNK_SIZE ==>
      var q := QueryAt(cur, chunk, toBlock);
      var a := answers(|calls|, q.lo, q.hi);
      && (a.Served? ==> claim(calls + [q], q.hi + 1, Grow(chunk)))
      && (IsTooLarge(a) && chunk > MIN_CHUNK_SIZE ==> claim(calls + [q], cur, Halve(chunk)))
  }

  ghost predicate KeptByCalls(claim: Claim, answers: Oracle, toBlock: int) {
    forall calls: seq<Query>, cur: int, chunk: int :: KeptAt(claim, answers, toBlock, calls, cur, chunk)
  }

  lemma KeptByNext(
    claim: Claim, answers: Oracle, toBlock: int, calls: seq<Query>, cur: int, chunk: int, end: int)
    requires KeptByCalls(claim, answers, toBlock) && claim(calls, cur, chunk)
    requires cur <= toBlock && MIN_CHUNK_SIZE <= chunk <= DEFAULT_CHUNK_SIZE
    requires QueryAt(cur, chunk, toBlock) == Query(cur, end)
    ensures
      var a := answers(|calls|, cur, end);
      && (a.Served? ==> claim(calls + [Query(cur, end)], end + 1, Grow(chunk)))
      && (IsTooLarge(a) && chunk > MIN_CHUNK_SIZE ==> claim(calls + [Query(cur, end)], cur, Halve(chunk)))
  {
    assert KeptAt(claim, answers, toBlock, calls, cur, chunk);
  }

  /** The account of the loop as a claim that every call keeps. */
  ghost function Account(answers: Oracle, fromBlock: int, toBlock: int): Claim {
    (calls: seq<Query>, cur: int, chunk: int) =>
      && fromBlock <= cur && Paid(calls, answers, fromBlock, toBlock, cur, chunk)
      && Scheduled(calls, answers, fromBlock, toBlock)
      && cur == PositionAfter(calls, answers, fromBlock) && chunk == ChunkAfter(calls, answers)
  }

  lemma AccountStarts(answers: Oracle, fromBlock: int, toBlock: int)
    ensures Account(answers, fromBlock, toBlock)([], fromBlock, DEFAULT_CHUNK_SIZE)
  {
    FullChunkPotential();
    assert Paid([], answers, fromBlock, toBlock, fromBlock, DEFAULT_CHUNK_SIZE);
  }

  lemma AccountKeptAt(
    answers: Oracle, fromBlock: int, toBlock: int, calls: seq<Query>, cur: int, chunk: int)
    ensures KeptAt(Account(answers, fromBlock, toBlock), answers, toBlock, calls, cur, chunk)
  {
    var q := QueryAt(cur, chunk, toBlock);
    var a := answers(|calls|, q.lo, q.hi);
    if Account(answers, fromBlock, toBlock)(calls, cur, chunk) && cur <= toBlock
      && MIN_CHUNK_SIZE <= chunk <= DEFAULT_CHUNK_SIZE
    {
      ScheduledSnoc(calls, answers, fromBlock, toBlock, q);
      AfterSnoc(calls, answers, fromBlock, q);
      if a.Served? {
        PaidServed(calls, answers, fromBlock, toBlock, cur, chunk, q);
      } else if IsTooLarge(a) && chunk > MIN_CHUNK_SIZE {
        PaidRefused(calls, answers, fromBlock, toBlock, cur, chunk, q);
      }
    }
  }

  lemma AccountKept(answers: Oracle, fromBlock: int, toBlock: int)
    ensures Account(answers, fromBlock, toBlock)([], fromBlock, DEFAULT_CHUNK_SIZE)
    ensures KeptByCalls(Account(answers, fromBlock, toBlock), answers, toBlock)
  {
    AccountStarts(answers, fromBlock, toBlock);
    forall calls: seq<Query>, cur: int, chunk: int
      ensures KeptAt(Account(answers, fromBlock, toBlock), answers, toBlock, calls, cur, chunk)
    {
      AccountKeptAt(answers, fromBlock, toBlock, calls, cur, chunk);
    }
  }

  /** One served chunk: the page goes on, or is complete. */
  method TakeChunk(
    logs: seq<Log>, fromBlock: int, toBlock: int, cur: int, end: int, skipWindowBlock: int, skip: int, limit: int,
    items: seq<Log>)
    returns (taken: seq<Log>, stoppedAt: Option<Log>)
    requires Ordered(logs) && fromBlock <= cur <= end <= toBlock && 0 <= cur && |items| < limit
    requires items == Unseen(logs, fromBlock, cur - 1, SkipBlock(fromBlock, skip), skip)
    requires skipWindowBlock == if cur == fromBlock then SkipBlock(fromBlock, skip) else -1
    ensures stoppedAt.None? ==>
      taken == Unseen(logs, fromBlock, end, SkipBlock(fromBlock, skip), skip) && |taken| < limit
    ensures stoppedAt.Some? ==>
      PaginationResult(taken, Some(stoppedAt.value.block), stoppedAt.value.index)
      == Page(logs, fromBlock, toBlock, limit, skip)
  {
    taken, stoppedAt := TakePage(items, Window(logs, cur, end), skipWindowBlock, skip, limit);
    WindowTaken(logs, fromBlock, toBlock, cur, end, skip, limit, items, taken, stoppedAt);
  }

  /**
   * The chunk loop.  Besides what it returns, it keeps any claim that every
   * call keeps; `calls` leaves out a call on which it gives up.
   */
  method ScanChunks(
    logs: seq<Log>, answers: Oracle, fromBlock: int, toBlock: int, limit: int, skip: int, ghost claim: Claim)
    returns (r: Result<PaginationResult, FetchError>, ghost calls: seq<Query>, ghost at: int, ghost size: int)
    requires Ordered(logs) && claim([], fromBlock, DEFAULT_CHUNK_SIZE) && KeptByCalls(claim, answers, toBlock)
    ensures r.Ok? ==> r.value == Page(logs, fromBlock, toBlock, limit, skip)
    ensures (r.Err? && r.error.NegativeQuantity?) <==> (fromBlock < 0 && fromBlock <= toBlock && limit >= 1)
    ensures claim(calls, at, size) && MIN_CHUNK_SIZE <= size <= DEFAULT_CHUNK_SIZE
    ensures if fromBlock <= toBlock then at <= toBlock + 1 else calls == []
    ensures r.Err? && r.error.Raised? ==>
      var q := QueryAt(at, size, toBlock);
      && at <= toBlock && r.error.answer == answers(|calls|, q.lo, q.hi) && !r.error.answer.Served?
      && (IsTooLarge(r.error.answer) ==> size == MIN_CHUNK_SIZE)
  {
    calls := [];
    var items: seq<Log> := [];
    var cur, chunk, made := fromBlock, DEFAULT_CHUNK_SIZE, 0;
    var skipWindowBlock := SkipBlock(fromBlock, skip);
    ghost var b := skipWindowBlock;
    UnseenEmptyRange(logs, fromBlock, fromBlock - 1, b, skip);
    while cur <= toBlock && |items| < limit
      invariant fromBlock <= cur
      invariant if fromBlock <= toBlock then cur <= toBlock + 1 else cur == fromBlock && calls == []
      invariant MIN_CHUNK_SIZE <= chunk <= DEFAULT_CHUNK_SIZE
      invariant items == Unseen(logs, fromBlock, cur - 1, b, skip)
      invariant if limit < 1 then cur == fromBlock && items == [] else |items| < limit
      invariant skipWindowBlock == (if cur == fromBlock then b else -1)
      invariant fromBlock < 0 ==> cur == fromBlock
      invariant made == |calls| && claim(calls, cur, chunk)
      decreases toBlock + 1 - cur, chunk
    {
      var end := if cur + chunk - 1 < toBlock then cur + chunk - 1 else toBlock;
      if cur < 0 {
        return Err(NegativeQuantity), calls, cur, chunk;
      }
      var answer := answers(made, cur, end);
      KeptByNext(claim, answers, toBlock, calls, cur, chunk, end);
      if !answer.Served? {
        if IsTooLarge(answer) && chunk > MIN_CHUNK_SIZE {
          calls, made := calls + [Query(cur, end)], made + 1;
          chunk := Halve(chunk);
          continue;
        }
        return Err(Raised(answer)), calls, cur, chunk;
      }
      calls, made := calls + [Query(cur, end)], made + 1;
      var taken, stoppedAt :=
        TakeChunk(logs, fromBlock, toBlock, cur, end, skipWindowBlock, skip, limit, items);
      items := taken;
      if stoppedAt.Some? {
        r := Ok(PaginationResult(items, Some(stoppedAt.value.block), stoppedAt.value.index));
        return r, calls, end + 1, Grow(chunk);
      }
      cur := end + 1;
      skipWindowBlock := -1;
      chunk := Grow(chunk);
    }
    RangeDone(logs, fromBlock, toBlock, cur, skip, limit, items);
    return Ok(PaginationResult(items, None, -1)), calls, cur, chunk;
  }

  /** `fetch_logs_paginated` */
  method FetchLogsPaginated(
    logs: seq<Log>, answers: Oracle, fromBlock: int, toBlock: int, limit: int, skip: int)
    returns (r: Result<PaginationResult, FetchError>, ghost calls: seq<Query>)
    requires Ordered(logs)
    ensures r.Ok? ==> r.value == Page(logs, fromBlock, toBlock, limit, skip)
    ensures r.Ok? ==> Sound(calls, answers, fromBlock, toBlock)
    ensures r.Err? && r.error.Raised? ==> GaveUpOn(calls, answers, fromBlock, toBlock, r.error.answer)
    ensures OnlyHarmless(answers) && 0 <= fromBlock ==> r.Ok?
    ensures EndsAtFatal(calls, answers, r) && Scheduled(calls, answers, fromBlock, toBlock)
    ensures (r.Err? && r.error.NegativeQuantity?) <==> (fromBlock < 0 && fromBlock <= toBlock && limit >= 1)
    ensures Affordable(calls, answers, fromBlock, toBlock, r.Err?)
  {
    ghost var at, size;
    AccountKept(answers, fromBlock, toBlock);
    r, calls, at, size :=
      ScanChunks(logs, answers, fromBlock, toBlock, limit, skip, Account(answers, fromBlock, toBlock));
    PaidAfforded(calls, answers, fromBlock, toBlock, at, size);
    if r.Err? && r.error.Raised? {
      ghost var q := QueryAt(at, size, toBlock);
      ScheduledSnoc(calls, answers, fromBlock, toBlock, q);
      PaidFailed(calls, answers, fromBlock, toBlock, at, size, q);
      calls := calls + [q];
      WhenGivenUp(calls, answers, fromBlock, toBlock, r.error.answer);
    }
    FatalEnds(calls, answers, fromBlock, toBlock, r);
  }
}
