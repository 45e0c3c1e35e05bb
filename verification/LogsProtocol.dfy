/**
 * The `/logs` request handler and whole multi-request runs over a chain that
 * may reorganize between requests (src/exec_rest_api/handlers/logs.py).
 */
module LogsProtocol {
  import opened Counting
  import opened Wrappers
  import opened Strings
  import opened JsonText
  import opened CursorCodec
  import opened Pagination

  // ---------------------------------------------------------------------
  // The chain behind the upstream
  // ---------------------------------------------------------------------

  datatype LogEntry = LogEntry(index: nat, payload: string)

  /** A block; its number is its position in the chain. */
  datatype Block = Block(hash: string, parent: string, logs: seq<LogEntry>)

  type Filter = seq<Member>
  type Matcher = (Filter, string) -> bool

  ghost predicate IndexesIncrease(logs: seq<LogEntry>) {
    forall i, j :: 0 <= i < j < |logs| ==> logs[i].index < logs[j].index
  }

  ghost predicate ValidChain(chain: seq<Block>) {
    && (forall n :: 0 < n < |chain| ==> Lower(chain[n].parent) == Lower(chain[n - 1].hash))
    && (forall n :: 0 <= n < |chain| ==> IndexesIncrease(chain[n].logs))
  }

  function BlockLogs(n: nat, logs: seq<LogEntry>, filter: Filter, matches: Matcher): seq<Log> {
    if logs == [] then []
    else
      BlockLogs(n, logs[..|logs| - 1], filter, matches)
      + var l := logs[|logs| - 1]; if matches(filter, l.payload) then [Log(n, l.index, l.payload)] else []
  }

  /** Every log of the chain the filter matches, in (block, index) order. */
  function Matching(chain: seq<Block>, filter: Filter, matches: Matcher): seq<Log> {
    if chain == [] then []
    else
      var n := |chain| - 1;
      Matching(chain[..n], filter, matches) + BlockLogs(n, chain[n].logs, filter, matches)
  }

  /** Within one run, a block hash (compared case-insensitively) identifies a block. */
  ghost predicate HashesIdentify(a: seq<Block>, b: seq<Block>) {
    forall i, j :: 0 <= i < |a| && 0 <= j < |b| && Lower(a[i].hash) == Lower(b[j].hash) ==> a[i] == b[j]
  }

  /** Equal hashes at one height mean equal history up to that height. */
  lemma {:induction false} SameHashSameHistory(a: seq<Block>, b: seq<Block>, n: nat)
    requires ValidChain(a) && ValidChain(b) && HashesIdentify(a, b)
    requires n < |a| && n < |b| && Lower(a[n].hash) == Lower(b[n].hash)
    ensures a[..n + 1] == b[..n + 1]
  {
    assert a[n] == b[n];
    if n > 0 {
      SameHashSameHistory(a, b, n - 1);
      assert a[..n + 1] == a[..n] + [a[n]] && b[..n + 1] == b[..n] + [b[n]];
    }
  }

  lemma {:induction false} BlockLogsOrdered(n: nat, logs: seq<LogEntry>, filter: Filter, matches: Matcher)
    requires IndexesIncrease(logs)
    ensures Ordered(BlockLogs(n, logs, filter, matches))
    ensures forall l :: l in BlockLogs(n, logs, filter, matches) ==>
      l.block == n && logs != [] && l.index <= logs[|logs| - 1].index
  {
    if logs != [] {
      var p := logs[..|logs| - 1];
      BlockLogsOrdered(n, p, filter, matches);
      var before := BlockLogs(n, p, filter, matches);
      assert forall i :: 0 <= i < |before| ==> before[i] in before;
    }
  }

  lemma {:induction false} MatchingOrdered(chain: seq<Block>, filter: Filter, matches: Matcher)
    requires ValidChain(chain)
    ensures Ordered(Matching(chain, filter, matches))
    ensures forall l :: l in Matching(chain, filter, matches) ==> l.block < |chain|
  {
    if chain != [] {
      var n := |chain| - 1;
      MatchingOrdered(chain[..n], filter, matches);
      BlockLogsOrdered(n, chain[n].logs, filter, matches);
      var before, last := Matching(chain[..n], filter, matches), BlockLogs(n, chain[n].logs, filter, matches);
      assert forall i :: 0 <= i < |before| ==> before[i] in before;
      assert forall i :: 0 <= i < |last| ==> last[i] in last;
    }
  }

  // ---------------------------------------------------------------------
  // Positions in the ordered list
  // ---------------------------------------------------------------------

  predicate AtOrBefore(l: Log, block: int, index: int) {
    l.block < block || (l.block == block && l.index <= index)
  }

  /** The logs from `fromBlock` up to and including position (block, index). */
  function Seen(logs: seq<Log>, fromBlock: int, block: int, index: int): seq<Log> {
    if logs == [] then []
    else
      (if fromBlock <= logs[0].block && AtOrBefore(logs[0], block, index) then [logs[0]] else [])
      + Seen(logs[1..], fromBlock, block, index)
  }

  lemma SeenNone(logs: seq<Log>, fromBlock: int, block: int, index: int)
    requires forall l :: l in logs ==> !AtOrBefore(l, block, index)
    ensures Seen(logs, fromBlock, block, index) == []
  {
  }

  /** What was seen and what is left make up the window. */
  lemma {:induction false} SeenThenUnseen(logs: seq<Log>, fromBlock: int, toBlock: int, block: int, index: int)
    requires Ordered(logs) && fromBlock <= block <= toBlock
    ensures Seen(logs, fromBlock, block, index) + Unseen(logs, block, toBlock, block, index)
         == Window(logs, fromBlock, toBlock)
  {
    if logs != [] {
      OrderedTail(logs);
      SeenThenUnseen(logs[1..], fromBlock, toBlock, block, index);
      var seen, left := Seen(logs[1..], fromBlock, block, index), Unseen(logs[1..], block, toBlock, block, index);
      assert ([logs[0]] + seen) + left == [logs[0]] + (seen + left);
      if !AtOrBefore(logs[0], block, index) {
        forall l | l in logs[1..] ensures !AtOrBefore(l, block, index) {
          var j :| 0 <= j < |logs[1..]| && logs[1..][j] == l;
          assert Before(logs[0], logs[j + 1]);
        }
        SeenNone(logs[1..], fromBlock, block, index);
      }
    }
  }

  lemma {:induction false} SeenAppend(xs: seq<Log>, ys: seq<Log>, fromBlock: int, block: int, index: int)
    ensures Seen(xs + ys, fromBlock, block, index)
         == Seen(xs, fromBlock, block, index) + Seen(ys, fromBlock, block, index)
  {
    if xs == [] {
      assert xs + ys == ys;
    } else {
      assert (xs + ys)[1..] == xs[1..] + ys;
      SeenAppend(xs[1..], ys, fromBlock, block, index);
    }
  }

  lemma MatchingSnoc(chain: seq<Block>, n: nat, filter: Filter, matches: Matcher)
    requires n < |chain|
    ensures Matching(chain[..n + 1], filter, matches)
         == Matching(chain[..n], filter, matches) + BlockLogs(n, chain[n].logs, filter, matches)
  {
    assert chain[..n + 1][..n] == chain[..n];
  }

  /** Only blocks up to the position matter to what was seen. */
  lemma {:induction false} SeenOfHistory(
    chain: seq<Block>, n: nat, filter: Filter, matches: Matcher, fromBlock: int, block: nat, index: int)
    requires ValidChain(chain) && block < n <= |chain|
    ensures Seen(Matching(chain[..n], filter, matches), fromBlock, block, index)
         == Seen(Matching(chain[..block + 1], filter, matches), fromBlock, block, index)
  {
    if block + 1 < n {
      var before := Matching(chain[..n - 1], filter, matches);
      var last := BlockLogs(n - 1, chain[n - 1].logs, filter, matches);
      SeenOfHistory(chain, n - 1, filter, matches, fromBlock, block, index);
      MatchingSnoc(chain, n - 1, filter, matches);
      BlockLogsOrdered(n - 1, chain[n - 1].logs, filter, matches);
      SeenAppend(before, last, fromBlock, block, index);
      SeenNone(last, fromBlock, block, index);
      assert Seen(before, fromBlock, block, index) + [] == Seen(before, fromBlock, block, index);
    }
  }

  lemma SeenOnly(logs: seq<Log>, fromBlock: int, block: int, index: int)
    ensures forall l :: l in Seen(logs, fromBlock, block, index) ==> AtOrBefore(l, block, index)
  {
  }

  /** A window cut after one of its logs is what was seen up to that log. */
  lemma {:induction false} WindowPrefix(logs: seq<Log>, fromBlock: int, toBlock: int, k: nat)
    requires Ordered(logs) && k < |Window(logs, fromBlock, toBlock)|
    ensures
      var w := Window(logs, fromBlock, toBlock);
      && fromBlock <= w[k].block <= toBlock
      && w[..k + 1] == Seen(logs, fromBlock, w[k].block, w[k].index)
  {
    var w := Window(logs, fromBlock, toBlock);
    UnseenOnlyWanted(logs, fromBlock, toBlock, -1, -1);
    assert w[k] in w;
    var b, i := w[k].block, w[k].index;
    UnseenOrdered(logs, fromBlock, toBlock, -1, -1);
    SeenThenUnseen(logs, fromBlock, toBlock, b, i);
    var left := Unseen(logs, b, toBlock, b, i);
    var seen := Seen(logs, fromBlock, b, i);
    assert w == seen + left;
    UnseenOnlyWanted(logs, b, toBlock, b, i);
    SeenOnly(logs, fromBlock, b, i);
    assert forall j :: 0 <= j < |seen| ==> w[j] == seen[j] && w[j] in seen;
    assert forall j :: |seen| <= j < |w| ==> w[j] == left[j - |seen|] && w[j] in left;
    assert k < |seen|;
    assert k + 1 < |w| ==> Before(w[k], w[k + 1]);
    assert |seen| == k + 1;
  }

  // ---------------------------------------------------------------------
  // One request
  // ---------------------------------------------------------------------

  datatype Config = Config(defaultPageSize: int, maxPageSize: int)

  datatype LimitParam = Absent | Malformed | Given(n: int)

  /** What a fresh request's parameters come to before the range is compared. */
  datatype Intake =
    | Accepted(fromBlock: nat, toBlock: nat, filter: Filter)
    | Rejected
    | ResolutionRaised

  datatype Target = Fresh(intake: Intake) | Resume(cursor: string)

  datatype Response =
    | LogPage(items: seq<Log>, next: Option<string>)
    | BadRequest
    | ChainReorged
    | UpstreamFailure

  /** The upstream as one request meets it: a chain that stands still, and its refusals and failures. */
  datatype Env = Env(chain: seq<Block>, answers: Oracle, verifyRaises: bool, boundaryRaises: bool)

  datatype Header = Found(hash: string) | Missing | Raises

  /** `eth_getBlockByNumber` */
  function ReadHeader(chain: seq<Block>, n: int, raises: bool): Header {
    if raises || n < 0 then Raises
    else if n < |chain| then Found(chain[n].hash)
    else Missing
  }

  function PageLimit(config: Config, limit: LimitParam): Option<int> {
    match limit
    case Malformed => None
    case Absent => Some(Min(config.defaultPageSize, config.maxPageSize))
    case Given(n) => if n < 1 then None else Some(Min(n, config.maxPageSize))
  }

  /** The page and its `Link`, once the logs are fetched. */
  function WithLink(env: Env, page: PaginationResult, toBlock: int, filter: Filter): Response {
    match page.next
    case None => LogPage(page.items, None)
    case Some(n) =>
      match ReadHeader(env.chain, n, env.boundaryRaises)
      case Raises => UpstreamFailure
      case Missing => LogPage(page.items, None)
      case Found(hash) =>
        LogPage(page.items, Some(EncodeCursor(Cursor(n, page.lastLogIndex, toBlock, Lower(hash), filter))))
  }

  ghost predicate FetchFails(env: Env, fromBlock: int, toBlock: int) {
    || fromBlock < 0
    || exists calls, a :: GaveUpOn(calls, env.answers, fromBlock, toBlock, a)
  }

  ghost predicate Fetched(
    env: Env, matches: Matcher, filter: Filter, fromBlock: int, toBlock: int, limit: int, skip: int, resp: Response)
  {
    var logs := Matching(env.chain, filter, matches);
    || (resp == UpstreamFailure && FetchFails(env, fromBlock, toBlock))
    || resp == WithLink(env, Page(logs, fromBlock, toBlock, limit, skip), toBlock, filter)
  }

  /** Which responses a request may get. */
  ghost predicate Answers(
    config: Config, limit: LimitParam, target: Target, env: Env, matches: Matcher, resp: Response)
  {
    match PageLimit(config, limit)
    case None => resp == BadRequest
    case Some(n) =>
      match target
      case Resume(text) =>
        (match DecodeCursor(text)
         case Err(_) => resp == BadRequest
         case Ok(c) =>
           match ReadHeader(env.chain, c.nextFromBlock, env.verifyRaises)
           case Raises => resp == UpstreamFailure
           case Missing => resp == ChainReorged
           case Found(hash) =>
             if Lower(hash) != Lower(c.boundaryBlockHash) then resp == ChainReorged
             else Fetched(env, matches, c.filter, c.nextFromBlock, c.toBlock, n, c.lastLogIndex, resp))
      case Fresh(Rejected) => resp == BadRequest
      case Fresh(ResolutionRaised) => resp == UpstreamFailure
      case Fresh(Accepted(fromBlock, toBlock, filter)) =>
        if fromBlock > toBlock then resp == BadRequest
        else Fetched(env, matches, filter, fromBlock, toBlock, n, -1, resp)
  }

  /** The target alone is reason enough to answer 400. */
  predicate BadTarget(target: Target) {
    match target
    case Resume(text) => DecodeCursor(text).Err?
    case Fresh(Rejected) => true
    case Fresh(ResolutionRaised) => false
    case Fresh(Accepted(fromBlock, toBlock, _)) => fromBlock > toBlock
  }

  /**
   * What the page size settings and the `limit` parameter mean for any
   * response: a page holds at most the maximum, and at most what was asked for
   * or else the default; one with a `Link` holds exactly the smaller of the
   * two; and only a malformed limit or one below 1 is a reason for a 400.
   */
  lemma LimitsRespected(
    config: Config, limit: LimitParam, target: Target, env: Env, matches: Matcher, resp: Response)
    requires Answers(config, limit, target, env, matches, resp)
    ensures resp.LogPage? && resp.items != [] ==> |resp.items| <= config.maxPageSize
    ensures resp.LogPage? && resp.items != [] && limit.Absent? ==> |resp.items| <= config.defaultPageSize
    ensures resp.LogPage? && limit.Given? ==> |resp.items| <= limit.n
    ensures resp.LogPage? && resp.next.Some? ==>
      var asked := if limit.Given? then limit.n else config.defaultPageSize;
      |resp.items| == if asked <= config.maxPageSize then asked else config.maxPageSize
    ensures resp == BadRequest <==> limit.Malformed? || (limit.Given? && limit.n < 1) || BadTarget(target)
  {
  }

  lemma {:induction false} BlockLogsExactly(n: nat, logs: seq<LogEntry>, filter: Filter, matches: Matcher, l: Log)
    ensures l in BlockLogs(n, logs, filter, matches) <==>
      l.block == n && LogEntry(l.index, l.payload) in logs && matches(filter, l.payload)
  {
    if logs != [] {
      var k := |logs| - 1;
      BlockLogsExactly(n, logs[..k], filter, matches, l);
      assert logs == logs[..k] + [logs[k]];
    }
  }

  /** The upstream's list: exactly the chain's logs that the filter matches, under their block and index. */
  lemma {:induction false} MatchingExactly(chain: seq<Block>, filter: Filter, matches: Matcher, l: Log)
    ensures l in Matching(chain, filter, matches) <==>
      l.block < |chain| && LogEntry(l.index, l.payload) in chain[l.block].logs && matches(filter, l.payload)
  {
    if chain != [] {
      var n := |chain| - 1;
      MatchingExactly(chain[..n], filter, matches, l);
      BlockLogsExactly(n, chain[n].logs, filter, matches, l);
    }
  }

  /** `_verify_cursor_boundary`: the early answer, if the boundary is not canonical any more. */
  method VerifyCursorBoundary(env: Env, c: Cursor) returns (early: Option<Response>)
    ensures early.None? <==>
      && 0 <= c.nextFromBlock < |env.chain| && !env.verifyRaises
      && Lower(env.chain[c.nextFromBlock].hash) == Lower(c.boundaryBlockHash)
    ensures early.Some? ==>
      early.value == if env.verifyRaises || c.nextFromBlock < 0 then UpstreamFailure else ChainReorged
  {
    match ReadHeader(env.chain, c.nextFromBlock, env.verifyRaises) {
      case Raises => return Some(UpstreamFailure);
      case Missing => return Some(ChainReorged);
      case Found(hash) =>
        if Lower(hash) != Lower(c.boundaryBlockHash) {
          return Some(ChainReorged);
        }
        return None;
    }
  }

  /** `get_logs` and `post_logs_search`, which differ only in how a fresh request is taken in. */
  method HandleLogs(config: Config, limitParam: LimitParam, target: Target, env: Env, matches: Matcher)
    returns (resp: Response)
    requires ValidChain(env.chain)
    ensures Answers(config, limitParam, target, env, matches, resp)
  {
    var requested := config.defaultPageSize;
    if limitParam.Malformed? || (limitParam.Given? && limitParam.n < 1) {
      return BadRequest;
    }
    if limitParam.Given? {
      requested := limitParam.n;
    }
    var limit := Min(requested, config.maxPageSize);
    var filter, fromBlock, toBlock, skip: int;
    if target.Resume? {
      var decoded := DecodeCursor(target.cursor);
      if decoded.Err? {
        return BadRequest;
      }
      var c := decoded.value;
      var early := VerifyCursorBoundary(env, c);
      if early.Some? {
        return early.value;
      }
      filter, fromBlock, toBlock, skip := c.filter, c.nextFromBlock, c.toBlock, c.lastLogIndex;
    } else {
      if target.intake.Rejected? {
        return BadRequest;
      }
      if target.intake.ResolutionRaised? {
        return UpstreamFailure;
      }
      filter, fromBlock, toBlock, skip := target.intake.filter, target.intake.fromBlock, target.intake.toBlock, -1;
      if fromBlock > toBlock {
        return BadRequest;
      }
    }
    MatchingOrdered(env.chain, filter, matches);
    var fetched, calls :=
      FetchLogsPaginated(Matching(env.chain, filter, matches), env.answers, fromBlock, toBlock, limit, skip);
    if fetched.Err? {
      return UpstreamFailure;
    }
    return WithLink(env, fetched.value, toBlock, filter);
  }
}
