/**
 * Following `Link` cursors: what a client gets out of a whole sequence of
 * `/logs` requests while the chain changes between them.
 */
module LogsRuns {
  import opened Wrappers
  import opened Strings
  import opened JsonText
  import opened CursorCodec
  import opened Pagination
  import opened LogsProtocol

  datatype Exchange = Exchange(limit: LimitParam, env: Env, resp: Response)

  predicate Continues(x: Exchange) {
    x.resp.LogPage? && x.resp.next.Some?
  }

  /** The request that exchange k of a run makes. */
  function TargetOf(intake: Intake, xs: seq<Exchange>, k: nat): Target
    requires k < |xs| && (k > 0 ==> Continues(xs[k - 1]))
  {
    if k == 0 then Fresh(intake) else Resume(xs[k - 1].resp.next.value)
  }

  /** Each exchange but the first follows the cursor of the one before, and each is a proper one. */
  ghost predicate Follows(intake: Intake, xs: seq<Exchange>, proper: (Target, Exchange) -> bool) {
    && xs != []
    && (forall k :: 0 <= k < |xs| - 1 ==> Continues(xs[k]))
    && (forall k :: 0 <= k < |xs| ==> proper(TargetOf(intake, xs, k), xs[k]))
  }

  /** The exchanges in which the handler answers its request. */
  ghost function Answered(config: Config, matches: Matcher): (Target, Exchange) -> bool {
    (target: Target, x: Exchange) => Answers(config, x.limit, target, x.env, matches, x.resp)
  }

  ghost predicate IsRun(config: Config, intake: Intake, matches: Matcher, xs: seq<Exchange>) {
    Follows(intake, xs, Answered(config, matches))
  }

  /** Chains are well formed and hashes identify blocks across the whole run. */
  ghost predicate ConsistentChains(xs: seq<Exchange>) {
    && (forall k :: 0 <= k < |xs| ==> ValidChain(xs[k].env.chain))
    && (forall k, m :: 0 <= k < |xs| && 0 <= m < |xs| ==> HashesIdentify(xs[k].env.chain, xs[m].env.chain))
  }

  function Last(xs: seq<Exchange>): Exchange
    requires xs != []
  {
    xs[|xs| - 1]
  }

  /** All items the client has received. */
  function Delivered(xs: seq<Exchange>): seq<Log> {
    if xs == [] then []
    else Delivered(xs[..|xs| - 1]) + (if Last(xs).resp.LogPage? then Last(xs).resp.items else [])
  }

  /** What the client should have received in the end, on the chain of the last request. */
  function Due(xs: seq<Exchange>, intake: Intake, matches: Matcher): seq<Log>
    requires xs != [] && intake.Accepted?
  {
    Window(Matching(Last(xs).env.chain, intake.filter, matches), intake.fromBlock, intake.toBlock)
  }

  /** The request's effective page size is at least 1. */
  ghost predicate Positive(config: Config, x: Exchange) {
    PageLimit(config, x.limit).Some? && PageLimit(config, x.limit).value >= 1
  }

  // ---------------------------------------------------------------------
  // One step
  // ---------------------------------------------------------------------

  /** The cursor a continuing exchange hands out: a position inside the range on its own chain. */
  ghost predicate HandsOut(x: Exchange, c: Cursor, intake: Intake, matches: Matcher)
    requires intake.Accepted?
  {
    && Continues(x)
    && x.resp.next.value == EncodeCursor(c)
    && c.filter == intake.filter && c.toBlock == intake.toBlock
    && intake.fromBlock <= c.nextFromBlock <= intake.toBlock
    && c.nextFromBlock < |x.env.chain|
    && c.boundaryBlockHash == Lower(x.env.chain[c.nextFromBlock].hash)
    && 0 <= c.lastLogIndex
  }

  /** A page of the logs left after position (block, index) extends what was seen before it. */
  lemma {:induction false} PageExtendsSeen(
    logs: seq<Log>, fromBlock: int, toBlock: int, block: int, index: int, limit: int)
    requires Ordered(logs) && fromBlock <= block <= toBlock && limit >= 1 && 0 <= index
    ensures
      var page := Page(logs, block, toBlock, limit, index);
      var sofar := Seen(logs, fromBlock, block, index) + page.items;
      && (page.next == None ==> sofar == Window(logs, fromBlock, toBlock))
      && (page.next.Some? ==>
            && fromBlock <= page.next.value <= toBlock && 0 <= page.lastLogIndex
            && sofar == Seen(logs, fromBlock, page.next.value, page.lastLogIndex)
            && page.items != [] && page.items[|page.items| - 1] in logs
            && page.items[|page.items| - 1].block == page.next.value)
  {
    var before, rest := Seen(logs, fromBlock, block, index), Unseen(logs, block, toBlock, block, index);
    SeenThenUnseen(logs, fromBlock, toBlock, block, index);
    UnseenOnlyWanted(logs, block, toBlock, block, index);
    var w := Window(logs, fromBlock, toBlock);
    if |rest| >= limit {
      var k := |before| + limit - 1;
      WindowPrefix(logs, fromBlock, toBlock, k);
      assert w[..k + 1] == before + rest[..limit];
      assert w[k] == rest[limit - 1];
      assert rest[limit - 1] in rest;
    }
  }

  lemma FirstPage(logs: seq<Log>, fromBlock: nat, toBlock: nat, limit: int)
    requires Ordered(logs) && fromBlock <= toBlock && limit >= 1
    ensures
      var page := Page(logs, fromBlock, toBlock, limit, -1);
      && (page.next == None ==> page.items == Window(logs, fromBlock, toBlock))
      && (page.next.Some? ==>
            && fromBlock <= page.next.value <= toBlock && 0 <= page.lastLogIndex
            && page.items == Seen(logs, fromBlock, page.next.value, page.lastLogIndex)
            && page.items != [] && page.items[|page.items| - 1] in logs
            && page.items[|page.items| - 1].block == page.next.value)
  {
    var w := Window(logs, fromBlock, toBlock);
    UnseenOnlyWanted(logs, fromBlock, toBlock, -1, -1);
    if |w| >= limit {
      WindowPrefix(logs, fromBlock, toBlock, limit - 1);
      assert w[limit - 1] in w;
    }
  }

  /** The prefix of the run's log list that exchange x and its predecessors account for. */
  ghost predicate Accounts(x: Exchange, sofar: seq<Log>, intake: Intake, matches: Matcher)
    requires intake.Accepted?
  {
    var logs := Matching(x.env.chain, intake.filter, matches);
    && (x.resp.LogPage? && x.resp.next.None? ==> sofar == Window(logs, intake.fromBlock, intake.toBlock))
    && (x.resp.LogPage? && x.resp.next.Some? ==>
          exists c ::
            && HandsOut(x, c, intake, matches)
            && sofar == Seen(logs, intake.fromBlock, c.nextFromBlock, c.lastLogIndex))
  }

  /** What follows once a page of the right logs is fetched: shared by first and resumed requests. */
  lemma PageAccounts(
    x: Exchange, intake: Intake, matches: Matcher, page: PaginationResult, before: seq<Log>)
    requires intake.Accepted? && ValidChain(x.env.chain)
    requires x.resp == WithLink(x.env, page, intake.toBlock, intake.filter)
    requires
      var logs := Matching(x.env.chain, intake.filter, matches);
      && (page.next == None ==> before + page.items == Window(logs, intake.fromBlock, intake.toBlock))
      && (page.next.Some? ==>
            && intake.fromBlock <= page.next.value <= intake.toBlock && 0 <= page.lastLogIndex
            && before + page.items == Seen(logs, intake.fromBlock, page.next.value, page.lastLogIndex)
            && page.items != [] && page.items[|page.items| - 1] in logs
            && page.items[|page.items| - 1].block == page.next.value)
    ensures x.resp.LogPage? ==>
      x.resp.items == page.items && Accounts(x, before + x.resp.items, intake, matches)
  {
    MatchingOrdered(x.env.chain, intake.filter, matches);
    if x.resp.LogPage? && page.next.Some? {
      var n := page.next.value;
      assert n < |x.env.chain|;
      var c := Cursor(n, page.lastLogIndex, intake.toBlock, Lower(x.env.chain[n].hash), intake.filter);
      assert HandsOut(x, c, intake, matches);
    }
  }

  /** A first request that gets a page gets the first page. */
  lemma FirstAnswer(config: Config, intake: Intake, matches: Matcher, x: Exchange)
    requires intake.Accepted? && x.resp.LogPage?
    requires Answers(config, x.limit, Fresh(intake), x.env, matches, x.resp)
    ensures PageLimit(config, x.limit).Some? && intake.fromBlock <= intake.toBlock
    ensures
      var logs := Matching(x.env.chain, intake.filter, matches);
      var page := Page(logs, intake.fromBlock, intake.toBlock, PageLimit(config, x.limit).value, -1);
      x.resp == WithLink(x.env, page, intake.toBlock, intake.filter)
  {
  }

  lemma FirstPageAccounts(intake: Intake, matches: Matcher, x: Exchange, limit: int)
    requires intake.Accepted? && intake.fromBlock <= intake.toBlock && limit >= 1 && ValidChain(x.env.chain)
    requires
      var logs := Matching(x.env.chain, intake.filter, matches);
      var page := Page(logs, intake.fromBlock, intake.toBlock, limit, -1);
      x.resp == WithLink(x.env, page, intake.toBlock, intake.filter)
    ensures x.resp.LogPage? ==> Accounts(x, x.resp.items, intake, matches)
  {
    var logs := Matching(x.env.chain, intake.filter, matches);
    MatchingOrdered(x.env.chain, intake.filter, matches);
    FirstPage(logs, intake.fromBlock, intake.toBlock, limit);
    var page := Page(logs, intake.fromBlock, intake.toBlock, limit, -1);
    assert [] + page.items == page.items;
    PageAccounts(x, intake, matches, page, []);
    if x.resp.LogPage? {
      assert [] + x.resp.items == x.resp.items;
    }
  }

  lemma FirstAccounts(config: Config, intake: Intake, matches: Matcher, x: Exchange)
    requires Positive(config, x) && intake.Accepted? && ValidChain(x.env.chain)
    requires Answers(config, x.limit, Fresh(intake), x.env, matches, x.resp)
    ensures x.resp.LogPage? ==> Accounts(x, x.resp.items, intake, matches)
  {
    if x.resp.LogPage? {
      FirstAnswer(config, intake, matches, x);
      FirstPageAccounts(intake, matches, x, PageLimit(config, x.limit).value);
    }
  }

  /** A resumed request that gets a page found its boundary block. */
  lemma ResumedBoundary(config: Config, matches: Matcher, text: string, c: Cursor, x: Exchange)
    requires DecodeCursor(text) == Ok(c) && x.resp.LogPage?
    requires Answers(config, x.limit, Resume(text), x.env, matches, x.resp)
    ensures 0 <= c.nextFromBlock < |x.env.chain|
    ensures Lower(x.env.chain[c.nextFromBlock].hash) == Lower(c.boundaryBlockHash)
  {
  }

  lemma BoundaryHistory(a: seq<Block>, b: seq<Block>, n: nat, hash: string)
    requires ValidChain(a) && ValidChain(b) && HashesIdentify(a, b) && n < |a| && n < |b|
    requires hash == Lower(a[n].hash) && Lower(b[n].hash) == Lower(hash)
    ensures a[..n + 1] == b[..n + 1]
  {
    LowerIdempotent(a[n].hash);
    SameHashSameHistory(a, b, n);
  }

  /** A resumed request that answers with a page saw the history the cursor was issued on. */
  lemma ResumedSameHistory(
    config: Config, intake: Intake, matches: Matcher, issuer: Exchange, c: Cursor, x: Exchange)
    requires intake.Accepted? && WellFormed(Obj(intake.filter))
    requires HandsOut(issuer, c, intake, matches)
    requires ValidChain(issuer.env.chain) && ValidChain(x.env.chain)
    requires HashesIdentify(issuer.env.chain, x.env.chain)
    requires Answers(config, x.limit, Resume(issuer.resp.next.value), x.env, matches, x.resp)
    ensures DecodeCursor(issuer.resp.next.value) == Ok(c)
    ensures x.resp.LogPage? ==>
      && c.nextFromBlock < |x.env.chain|
      && issuer.env.chain[..c.nextFromBlock + 1] == x.env.chain[..c.nextFromBlock + 1]
  {
    var text := issuer.resp.next.value;
    CursorRoundTrip(c);
    assert DecodeCursor(text) == Ok(c);
    if x.resp.LogPage? {
      ResumedBoundary(config, matches, text, c, x);
      BoundaryHistory(issuer.env.chain, x.env.chain, c.nextFromBlock, c.boundaryBlockHash);
    }
  }

  lemma ResumedFrom(
    config: Config, intake: Intake, matches: Matcher, c: Cursor, x: Exchange, before: seq<Log>)
    requires Positive(config, x) && intake.Accepted? && ValidChain(x.env.chain)
    requires c.filter == intake.filter && c.toBlock == intake.toBlock && 0 <= c.lastLogIndex
    requires intake.fromBlock <= c.nextFromBlock <= intake.toBlock
    requires before == Seen(Matching(x.env.chain, intake.filter, matches),
                            intake.fromBlock, c.nextFromBlock, c.lastLogIndex)
    requires Fetched(x.env, matches, c.filter, c.nextFromBlock, c.toBlock,
                     PageLimit(config, x.limit).value, c.lastLogIndex, x.resp)
    ensures x.resp.LogPage? ==> Accounts(x, before + x.resp.items, intake, matches)
  {
    if x.resp.LogPage? {
      var logs := Matching(x.env.chain, intake.filter, matches);
      var n, i, limit := c.nextFromBlock, c.lastLogIndex, PageLimit(config, x.limit).value;
      MatchingOrdered(x.env.chain, intake.filter, matches);
      PageExtendsSeen(logs, intake.fromBlock, intake.toBlock, n, i, limit);
      PageAccounts(x, intake, matches, Page(logs, n, intake.toBlock, limit, i), before);
    }
  }

  lemma SeenSameHistory(
    a: seq<Block>, b: seq<Block>, filter: Filter, matches: Matcher, fromBlock: int, n: nat, index: int)
    requires ValidChain(a) && ValidChain(b) && n < |a| && n < |b| && a[..n + 1] == b[..n + 1]
    ensures Seen(Matching(a, filter, matches), fromBlock, n, index)
         == Seen(Matching(b, filter, matches), fromBlock, n, index)
  {
    SeenOfHistory(a, |a|, filter, matches, fromBlock, n, index);
    SeenOfHistory(b, |b|, filter, matches, fromBlock, n, index);
    assert a[..|a|] == a && b[..|b|] == b;
  }

  lemma ResumedAccounts(
    config: Config, intake: Intake, matches: Matcher, issuer: Exchange, before: seq<Log>, x: Exchange)
    requires Positive(config, x) && intake.Accepted? && WellFormed(Obj(intake.filter))
    requires Continues(issuer) && Accounts(issuer, before, intake, matches)
    requires ValidChain(issuer.env.chain) && ValidChain(x.env.chain)
    requires HashesIdentify(issuer.env.chain, x.env.chain)
    requires Answers(config, x.limit, Resume(issuer.resp.next.value), x.env, matches, x.resp)
    ensures x.resp.LogPage? ==> Accounts(x, before + x.resp.items, intake, matches)
  {
    var earlier := Matching(issuer.env.chain, intake.filter, matches);
    var c :| HandsOut(issuer, c, intake, matches)
          && before == Seen(earlier, intake.fromBlock, c.nextFromBlock, c.lastLogIndex);
    ResumedSameHistory(config, intake, matches, issuer, c, x);
    if x.resp.LogPage? {
      SeenSameHistory(issuer.env.chain, x.env.chain, intake.filter, matches,
                      intake.fromBlock, c.nextFromBlock, c.lastLogIndex);
      ResumedFrom(config, intake, matches, c, x, before);
    }
  }

  // ---------------------------------------------------------------------
  // Whole runs
  // ---------------------------------------------------------------------

  lemma RunPrefix(intake: Intake, xs: seq<Exchange>, proper: (Target, Exchange) -> bool)
    requires Follows(intake, xs, proper) && |xs| > 1
    ensures
      var p := xs[..|xs| - 1];
      Follows(intake, p, proper) && Last(p) == xs[|xs| - 2] && Continues(Last(p))
  {
    var p := xs[..|xs| - 1];
    forall k | 0 <= k < |p| - 1 ensures Continues(p[k]) {
      assert p[k] == xs[k];
    }
    forall k | 0 <= k < |p| ensures proper(TargetOf(intake, p, k), p[k]) {
      assert p[k] == xs[k] && (k > 0 ==> p[k - 1] == xs[k - 1]);
      assert proper(TargetOf(intake, xs, k), xs[k]);
    }
  }

  lemma ConsistentPrefix(xs: seq<Exchange>)
    requires ConsistentChains(xs) && xs != []
    ensures ConsistentChains(xs[..|xs| - 1])
  {
  }

  /** The request that comes after the exchanges of xs. */
  function NextTarget(intake: Intake, xs: seq<Exchange>): Target
    requires xs == [] || Continues(Last(xs))
  {
    if xs == [] then Fresh(intake) else Resume(Last(xs).resp.next.value)
  }

  /** The last exchange of a run answers the request after the others. */
  lemma LastAnswers(config: Config, intake: Intake, matches: Matcher, xs: seq<Exchange>)
    requires IsRun(config, intake, matches, xs)
    ensures xs[..|xs| - 1] == [] || Continues(Last(xs[..|xs| - 1]))
    ensures
      var x, target := Last(xs), NextTarget(intake, xs[..|xs| - 1]);
      Answers(config, x.limit, target, x.env, matches, x.resp)
  {
    var n := |xs| - 1;
    assert TargetOf(intake, xs, n) == NextTarget(intake, xs[..n]);
    assert Answered(config, matches)(TargetOf(intake, xs, n), xs[n]);
  }

  lemma DeliveredOne(xs: seq<Exchange>)
    requires |xs| == 1 && Last(xs).resp.LogPage?
    ensures Delivered(xs) == Last(xs).resp.items
  {
    assert xs[..0] == [];
    assert [] + Last(xs).resp.items == Last(xs).resp.items;
  }

  /** A request that gets a page had a valid limit; a page with a `Link` had room for an item. */
  lemma PageMeansLimit(config: Config, target: Target, matches: Matcher, x: Exchange)
    requires Answers(config, x.limit, target, x.env, matches, x.resp) && x.resp.LogPage?
    ensures PageLimit(config, x.limit).Some?
    ensures Continues(x) ==> Positive(config, x)
    ensures !Positive(config, x) ==> x.resp == LogPage([], None)
  {
  }

  lemma DeliveredSnoc(xs: seq<Exchange>)
    requires xs != [] && Last(xs).resp.LogPage?
    ensures Delivered(xs) == Delivered(xs[..|xs| - 1]) + Last(xs).resp.items
  {
  }

  lemma LastTwoConsistent(xs: seq<Exchange>)
    requires ConsistentChains(xs) && |xs| > 1
    ensures ValidChain(xs[|xs| - 2].env.chain) && ValidChain(Last(xs).env.chain)
    ensures HashesIdentify(xs[|xs| - 2].env.chain, Last(xs).env.chain)
  {
  }

  lemma {:induction false} RunAccounts(config: Config, intake: Intake, matches: Matcher, xs: seq<Exchange>)
    requires intake.Accepted? && WellFormed(Obj(intake.filter))
    requires IsRun(config, intake, matches, xs) && ConsistentChains(xs)
    requires Last(xs).resp.LogPage? && Positive(config, Last(xs))
    ensures Accounts(Last(xs), Delivered(xs), intake, matches)
    decreases |xs|, 1
  {
    LastAnswers(config, intake, matches, xs);
    if |xs| == 1 {
      FirstAccounts(config, intake, matches, Last(xs));
      DeliveredOne(xs);
    } else {
      EarlierAccounts(config, intake, matches, xs);
      LastTwoConsistent(xs);
      DeliveredSnoc(xs);
      var p := xs[..|xs| - 1];
      ResumedAccounts(config, intake, matches, xs[|xs| - 2], Delivered(p), Last(xs));
    }
  }

  /** The exchanges before the last one, all of which continue, account for what they delivered. */
  lemma {:induction false} EarlierAccounts(config: Config, intake: Intake, matches: Matcher, xs: seq<Exchange>)
    requires intake.Accepted? && WellFormed(Obj(intake.filter)) && |xs| > 1
    requires IsRun(config, intake, matches, xs) && ConsistentChains(xs)
    ensures
      var p := xs[..|xs| - 1];
      && IsRun(config, intake, matches, p) && Last(p) == xs[|xs| - 2] && Continues(Last(p))
      && Accounts(Last(p), Delivered(p), intake, matches)
    decreases |xs|, 0
  {
    var p := xs[..|xs| - 1];
    RunPrefix(intake, xs, Answered(config, matches));
    ConsistentPrefix(xs);
    LastAnswers(config, intake, matches, p);
    PageMeansLimit(config, NextTarget(intake, p[..|p| - 1]), matches, Last(p));
    RunAccounts(config, intake, matches, p);
  }

  lemma LastMeansLimit(config: Config, intake: Intake, matches: Matcher, xs: seq<Exchange>)
    requires IsRun(config, intake, matches, xs) && Last(xs).resp.LogPage?
    ensures PageLimit(config, Last(xs).limit).Some?
    ensures Continues(Last(xs)) ==> Positive(config, Last(xs))
    ensures !Positive(config, Last(xs)) ==> Last(xs).resp == LogPage([], None)
  {
    LastAnswers(config, intake, matches, xs);
    PageMeansLimit(config, NextTarget(intake, xs[..|xs| - 1]), matches, Last(xs));
  }

  lemma PositiveDelivers(config: Config, intake: Intake, matches: Matcher, xs: seq<Exchange>)
    requires intake.Accepted? && WellFormed(Obj(intake.filter))
    requires IsRun(config, intake, matches, xs) && ConsistentChains(xs)
    requires Last(xs).resp.LogPage? && Positive(config, Last(xs))
    ensures Delivered(xs) <= Due(xs, intake, matches)
    ensures Last(xs).resp.next == None ==> Delivered(xs) == Due(xs, intake, matches)
  {
    var x := Last(xs);
    var logs := Matching(x.env.chain, intake.filter, matches);
    RunAccounts(config, intake, matches, xs);
    MatchingOrdered(x.env.chain, intake.filter, matches);
    if x.resp.next.Some? {
      var c :| HandsOut(x, c, intake, matches)
            && Delivered(xs) == Seen(logs, intake.fromBlock, c.nextFromBlock, c.lastLogIndex);
      SeenThenUnseen(logs, intake.fromBlock, intake.toBlock, c.nextFromBlock, c.lastLogIndex);
    }
  }

  /** What was seen on one chain up to block n is a prefix of what a chain of the same history holds. */
  lemma SeenIsPrefix(
    a: seq<Block>, b: seq<Block>, filter: Filter, matches: Matcher, fromBlock: int, toBlock: int, n: nat, index: int)
    requires ValidChain(a) && ValidChain(b) && n < |a| && n < |b| && a[..n + 1] == b[..n + 1]
    requires fromBlock <= n <= toBlock
    ensures Seen(Matching(a, filter, matches), fromBlock, n, index)
         <= Window(Matching(b, filter, matches), fromBlock, toBlock)
  {
    SeenSameHistory(a, b, filter, matches, fromBlock, n, index);
    MatchingOrdered(b, filter, matches);
    SeenThenUnseen(Matching(b, filter, matches), fromBlock, toBlock, n, index);
  }

  /** What was delivered before a resumed request gets a page is a prefix of what its own chain holds. */
  lemma ResumedPrefix(
    config: Config, intake: Intake, matches: Matcher, issuer: Exchange, before: seq<Log>, x: Exchange)
    requires intake.Accepted? && WellFormed(Obj(intake.filter)) && x.resp.LogPage?
    requires Continues(issuer) && Accounts(issuer, before, intake, matches)
    requires ValidChain(issuer.env.chain) && ValidChain(x.env.chain)
    requires HashesIdentify(issuer.env.chain, x.env.chain)
    requires Answers(config, x.limit, Resume(issuer.resp.next.value), x.env, matches, x.resp)
    ensures before <= Window(Matching(x.env.chain, intake.filter, matches), intake.fromBlock, intake.toBlock)
  {
    var earlier := Matching(issuer.env.chain, intake.filter, matches);
    var c :| HandsOut(issuer, c, intake, matches)
          && before == Seen(earlier, intake.fromBlock, c.nextFromBlock, c.lastLogIndex);
    ResumedSameHistory(config, intake, matches, issuer, c, x);
    SeenIsPrefix(issuer.env.chain, x.env.chain, intake.filter, matches,
                 intake.fromBlock, intake.toBlock, c.nextFromBlock, c.lastLogIndex);
  }

  /** A page of no items, as an effective page size below 1 gives, leaves what was delivered a prefix. */
  lemma EmptyDelivers(config: Config, intake: Intake, matches: Matcher, xs: seq<Exchange>)
    requires intake.Accepted? && WellFormed(Obj(intake.filter))
    requires IsRun(config, intake, matches, xs) && ConsistentChains(xs)
    requires Last(xs).resp == LogPage([], None)
    ensures Delivered(xs) == Delivered(xs[..|xs| - 1]) <= Due(xs, intake, matches)
  {
    var p, x := xs[..|xs| - 1], Last(xs);
    DeliveredSnoc(xs);
    if p != [] {
      EarlierAccounts(config, intake, matches, xs);
      LastTwoConsistent(xs);
      LastAnswers(config, intake, matches, xs);
      ResumedPrefix(config, intake, matches, Last(p), Delivered(p), x);
    }
  }

  lemma PrefixOrdered(a: seq<Log>, b: seq<Log>)
    requires a <= b && Ordered(b)
    ensures Ordered(a)
  {
    assert forall i :: 0 <= i < |a| ==> a[i] == b[i];
  }

  /**
   * Reorg-safe paging.  A client that follows cursors while the chain changes
   * arbitrarily between requests has, after any page, received a prefix of
   * the matching logs of the chain the last request saw, in order and once
   * each.  Nothing is assumed of the configured page sizes.
   */
  lemma RunDelivers(config: Config, intake: Intake, matches: Matcher, xs: seq<Exchange>)
    requires intake.Accepted? && WellFormed(Obj(intake.filter))
    requires IsRun(config, intake, matches, xs) && ConsistentChains(xs)
    requires Last(xs).resp.LogPage?
    ensures Delivered(xs) <= Due(xs, intake, matches)
    ensures Ordered(Delivered(xs))
    ensures Last(xs).resp.next == None && Positive(config, Last(xs)) ==> Delivered(xs) == Due(xs, intake, matches)
  {
    LastMeansLimit(config, intake, matches, xs);
    if Positive(config, Last(xs)) {
      PositiveDelivers(config, intake, matches, xs);
    } else {
      EmptyDelivers(config, intake, matches, xs);
    }
    var chain := Last(xs).env.chain;
    MatchingOrdered(chain, intake.filter, matches);
    UnseenOrdered(Matching(chain, intake.filter, matches), intake.fromBlock, intake.toBlock, -1, -1);
    PrefixOrdered(Delivered(xs), Due(xs, intake, matches));
  }

  /**
   * A page without `Link` says that the client has everything.  Over all runs
   * that is right if and only if the effective page size of the last request
   * is at least 1 or nothing was left to deliver before it.
   */
  lemma LinklessRunIsComplete(config: Config, intake: Intake, matches: Matcher, xs: seq<Exchange>)
    requires intake.Accepted? && WellFormed(Obj(intake.filter))
    requires IsRun(config, intake, matches, xs) && ConsistentChains(xs)
    requires Last(xs).resp.LogPage? && Last(xs).resp.next == None
    ensures PageLimit(config, Last(xs).limit).Some?
    ensures Delivered(xs) == Due(xs, intake, matches) <==>
      PageLimit(config, Last(xs).limit).value >= 1 || Delivered(xs[..|xs| - 1]) == Due(xs, intake, matches)
  {
    LastMeansLimit(config, intake, matches, xs);
    if Positive(config, Last(xs)) {
      PositiveDelivers(config, intake, matches, xs);
    } else {
      EmptyDelivers(config, intake, matches, xs);
    }
  }

  /**
   * The 409 is exact.  Where the boundary can be read and the limit is valid,
   * a resumed request answers `chain-reorged` if and only if the history up
   * to the boundary block is not the one the cursor was issued on.
   */
  lemma ReorgDetectedExactly(
    config: Config, intake: Intake, matches: Matcher, issuer: Exchange, c: Cursor, x: Exchange)
    requires intake.Accepted? && WellFormed(Obj(intake.filter))
    requires HandsOut(issuer, c, intake, matches)
    requires ValidChain(issuer.env.chain) && ValidChain(x.env.chain)
    requires HashesIdentify(issuer.env.chain, x.env.chain)
    requires Answers(config, x.limit, Resume(issuer.resp.next.value), x.env, matches, x.resp)
    requires PageLimit(config, x.limit).Some? && !x.env.verifyRaises
    ensures x.resp == ChainReorged <==>
      !(&& c.nextFromBlock < |x.env.chain|
        && issuer.env.chain[..c.nextFromBlock + 1] == x.env.chain[..c.nextFromBlock + 1])
  {
    var n := c.nextFromBlock;
    CursorRoundTrip(c);
    LowerIdempotent(issuer.env.chain[n].hash);
    if n < |x.env.chain| {
      if Lower(issuer.env.chain[n].hash) == Lower(x.env.chain[n].hash) {
        SameHashSameHistory(issuer.env.chain, x.env.chain, n);
      } else {
        assert issuer.env.chain[..n + 1][n] != x.env.chain[..n + 1][n];
      }
    }
  }

  /** The upstream refuses only ranges of several blocks, and no call fails. */
  ghost predicate Healthy(env: Env) {
    OnlyRefusesRanges(env.answers) && !env.verifyRaises && !env.boundaryRaises
  }

  lemma HealthyFetch(
    env: Env, matches: Matcher, filter: Filter, fromBlock: int, toBlock: int, limit: int, skip: int, resp: Response)
    requires Healthy(env) && 0 <= fromBlock
    requires Fetched(env, matches, filter, fromBlock, toBlock, limit, skip, resp)
    ensures resp.LogPage?
  {
    forall calls, a ensures !GaveUpOn(calls, env.answers, fromBlock, toBlock, a) {
      GivesUpOnlyWhenUnavoidable(calls, env.answers, fromBlock, toBlock, a);
    }
  }

  /** Nothing but a refusal of one block or a failed call stops a first request. */
  lemma HealthyRequestsComplete(
    config: Config, limit: LimitParam, intake: Intake, env: Env, matches: Matcher, resp: Response)
    requires intake.Accepted? && intake.fromBlock <= intake.toBlock && PageLimit(config, limit).Some?
    requires Healthy(env)
    requires Answers(config, limit, Fresh(intake), env, matches, resp)
    ensures resp.LogPage?
  {
    var n := PageLimit(config, limit).value;
    HealthyFetch(env, matches, intake.filter, intake.fromBlock, intake.toBlock, n, -1, resp);
  }

  /**
   * Nothing but those and a reorganization stops a resumed request: on a chain
   * with the history the cursor was issued on it gets a page.
   */
  lemma HealthyResumesComplete(
    config: Config, intake: Intake, matches: Matcher, issuer: Exchange, c: Cursor, x: Exchange)
    requires intake.Accepted? && WellFormed(Obj(intake.filter))
    requires HandsOut(issuer, c, intake, matches)
    requires Healthy(x.env) && PageLimit(config, x.limit).Some?
    requires c.nextFromBlock < |x.env.chain|
    requires issuer.env.chain[..c.nextFromBlock + 1] == x.env.chain[..c.nextFromBlock + 1]
    requires Answers(config, x.limit, Resume(issuer.resp.next.value), x.env, matches, x.resp)
    ensures x.resp.LogPage?
  {
    var n := c.nextFromBlock;
    CursorRoundTrip(c);
    LowerIdempotent(issuer.env.chain[n].hash);
    assert issuer.env.chain[..n + 1][n] == x.env.chain[..n + 1][n];
    HealthyFetch(x.env, matches, c.filter, n, c.toBlock, PageLimit(config, x.limit).value, c.lastLogIndex, x.resp);
  }

  // ---------------------------------------------------------------------
  // Runs can always go on
  // ---------------------------------------------------------------------

  function SmoothPage(
    env: Env, matches: Matcher, filter: Filter, fromBlock: int, toBlock: int, limit: int, skip: int): Response
  {
    WithLink(env, Page(Matching(env.chain, filter, matches), fromBlock, toBlock, limit, skip), toBlock, filter)
  }

  /** The answer to a request whose fetch meets no failure. */
  function Smooth(config: Config, limit: LimitParam, target: Target, env: Env, matches: Matcher): Response {
    match PageLimit(config, limit)
    case None => BadRequest
    case Some(n) =>
      match target
      case Resume(text) =>
        (match DecodeCursor(text)
         case Err(_) => BadRequest
         case Ok(c) =>
           match ReadHeader(env.chain, c.nextFromBlock, env.verifyRaises)
           case Raises => UpstreamFailure
           case Missing => ChainReorged
           case Found(hash) =>
             if Lower(hash) != Lower(c.boundaryBlockHash) then ChainReorged
             else SmoothPage(env, matches, c.filter, c.nextFromBlock, c.toBlock, n, c.lastLogIndex))
      case Fresh(Rejected) => BadRequest
      case Fresh(ResolutionRaised) => UpstreamFailure
      case Fresh(Accepted(fromBlock, toBlock, filter)) =>
        if fromBlock > toBlock then BadRequest
        else SmoothPage(env, matches, filter, fromBlock, toBlock, n, -1)
  }

  lemma SmoothAnswers(config: Config, limit: LimitParam, target: Target, env: Env, matches: Matcher)
    ensures Answers(config, limit, target, env, matches, Smooth(config, limit, target, env, matches))
  {
  }

  lemma TargetsSnoc(intake: Intake, xs: seq<Exchange>, x: Exchange)
    requires forall k :: 0 <= k < |xs| ==> Continues(xs[k])
    ensures forall k :: 0 <= k < |xs| ==> Continues((xs + [x])[k])
    ensures forall k :: 0 <= k < |xs| ==> TargetOf(intake, xs + [x], k) == TargetOf(intake, xs, k)
    ensures TargetOf(intake, xs + [x], |xs|) == NextTarget(intake, xs)
  {
    var ys := xs + [x];
    assert forall k :: 0 <= k < |xs| ==> ys[k] == xs[k];
  }

  /** One more proper exchange continues a run. */
  lemma FollowsSnoc(intake: Intake, xs: seq<Exchange>, x: Exchange, proper: (Target, Exchange) -> bool)
    requires xs == [] || (Follows(intake, xs, proper) && Continues(Last(xs)))
    requires proper(NextTarget(intake, xs), x)
    ensures Follows(intake, xs + [x], proper)
  {
    TargetsSnoc(intake, xs, x);
    var ys := xs + [x];
    forall k | 0 <= k < |ys| ensures proper(TargetOf(intake, ys, k), ys[k]) {
      if k < |xs| {
        assert ys[k] == xs[k] && proper(TargetOf(intake, xs, k), xs[k]);
      } else {
        assert k == |xs| && ys[k] == x;
      }
    }
  }

  /**
   * Any chain may be the one the first request meets, and any other chain the
   * one the next request meets: the runs the theorems speak of exist for every
   * history of reorganizations.
   */
  lemma RunsGoOn(
    config: Config, intake: Intake, matches: Matcher, xs: seq<Exchange>, limit: LimitParam, env: Env)
    requires xs == [] || (IsRun(config, intake, matches, xs) && Continues(Last(xs)))
    ensures
      var resp := Smooth(config, limit, NextTarget(intake, xs), env, matches);
      IsRun(config, intake, matches, xs + [Exchange(limit, env, resp)])
  {
    var target := NextTarget(intake, xs);
    SmoothAnswers(config, limit, target, env, matches);
    var x := Exchange(limit, env, Smooth(config, limit, target, env, matches));
    assert Answered(config, matches)(target, x);
    FollowsSnoc(intake, xs, x, Answered(config, matches));
  }

  // ---------------------------------------------------------------------
  // A page without a Link and the configured page size
  // ---------------------------------------------------------------------

  /**
   * The configured page sizes are not validated: with an effective size below
   * 1 a page carries no items and no `Link`.  The end-of-results signal of a first request is
   * right exactly when the limit is at least 1 or nothing matches.
   */
  lemma LinklessPageIsComplete(
    config: Config, limit: LimitParam, intake: Intake, env: Env, matches: Matcher, resp: Response)
    requires intake.Accepted? && intake.fromBlock <= intake.toBlock && ValidChain(env.chain)
    requires Answers(config, limit, Fresh(intake), env, matches, resp)
    requires resp.LogPage? && resp.next == None
    ensures
      var all := Window(Matching(env.chain, intake.filter, matches), intake.fromBlock, intake.toBlock);
      resp.items == all <==> PageLimit(config, limit).value >= 1 || all == []
  {
    var logs := Matching(env.chain, intake.filter, matches);
    MatchingOrdered(env.chain, intake.filter, matches);
    var n := PageLimit(config, limit).value;
    if n >= 1 {
      FirstPage(logs, intake.fromBlock, intake.toBlock, n);
    }
  }

  /** A configuration and a chain on which the first page wrongly signals the end. */
  lemma ZeroMaxPageSizeHidesLogs(matches: Matcher)
    requires matches([], "log")
    ensures
      var env := Env([Block("0x01", "0x00", [LogEntry(0, "log")])], (_, _, _) => Served, false, false);
      && Answers(Config(1000, 0), Absent, Fresh(Accepted(0, 0, [])), env, matches, LogPage([], None))
      && Window(Matching(env.chain, [], matches), 0, 0) == [Log(0, 0, "log")]
  {
    var chain := [Block("0x01", "0x00", [LogEntry(0, "log")])];
    assert chain[..0] == [];
    assert BlockLogs(0, [LogEntry(0, "log")][..0], [], matches) == [];
    assert BlockLogs(0, [LogEntry(0, "log")], [], matches) == [] + [Log(0, 0, "log")];
    var l := Log(0, 0, "log");
    assert Matching(chain, [], matches) == [] + [l] == [l];
    assert Window([l], 0, 0) == [l] + Window([l][1..], 0, 0);
  }

  const TWO_LOGS: seq<Block> := [Block("0x01", "0x00", [LogEntry(0, "log"), LogEntry(1, "log")])]
  const FIRST_LOG: Log := Log(0, 0, "log")
  const SECOND_LOG: Log := Log(0, 1, "log")

  lemma TwoLogsMatch(matches: Matcher)
    requires matches([], "log")
    ensures Matching(TWO_LOGS, [], matches) == [FIRST_LOG, SECOND_LOG]
    ensures Window([FIRST_LOG, SECOND_LOG], 0, 0) == [FIRST_LOG, SECOND_LOG]
  {
    var entries := [LogEntry(0, "log"), LogEntry(1, "log")];
    assert TWO_LOGS[..0] == [] && entries[..1] == [LogEntry(0, "log")] && entries[..1][..0] == [];
    assert BlockLogs(0, entries[..1], [], matches) == [] + [FIRST_LOG];
    assert BlockLogs(0, entries, [], matches) == [FIRST_LOG] + [SECOND_LOG];
    assert Matching(TWO_LOGS, [], matches) == [] + [FIRST_LOG, SECOND_LOG];
    assert [FIRST_LOG, SECOND_LOG][1..] == [SECOND_LOG] && [SECOND_LOG][1..] == [];
    assert Window([SECOND_LOG], 0, 0) == [SECOND_LOG] + Window([], 0, 0);
    assert Window([FIRST_LOG, SECOND_LOG], 0, 0) == [FIRST_LOG] + Window([SECOND_LOG], 0, 0);
  }

  const CALM: Env := Env(TWO_LOGS, (_, _, _) => Served, false, false)
  const FIRST_CURSOR: Cursor := Cursor(0, 0, 0, Lower("0x01"), [])

  lemma FirstOfTwo(matches: Matcher)
    requires matches([], "log")
    ensures Smooth(Config(0, 1000), Given(1), Fresh(Accepted(0, 0, [])), CALM, matches)
         == LogPage([FIRST_LOG], Some(EncodeCursor(FIRST_CURSOR)))
  {
    TwoLogsMatch(matches);
    assert Page([FIRST_LOG, SECOND_LOG], 0, 0, 1, -1) == PaginationResult([FIRST_LOG], Some(0), 0);
  }

  lemma NoneOfTheRest(matches: Matcher)
    ensures Smooth(Config(0, 1000), Absent, Resume(EncodeCursor(FIRST_CURSOR)), CALM, matches) == LogPage([], None)
  {
    CursorRoundTrip(FIRST_CURSOR);
    LowerIdempotent("0x01");
  }

  lemma DeliveredTwo(x: Exchange, y: Exchange)
    requires x.resp.LogPage? && y.resp == LogPage([], None)
    ensures Delivered([x, y]) == x.resp.items
  {
    assert [x, y][..1] == [x];
    DeliveredOne([x]);
    assert Delivered([x, y]) == Delivered([x]) + [];
  }

  lemma TwoRequests(matches: Matcher) returns (xs: seq<Exchange>)
    requires matches([], "log")
    ensures IsRun(Config(0, 1000), Accepted(0, 0, []), matches, xs) && |xs| == 2
    ensures xs[0] == Exchange(Given(1), CALM, LogPage([FIRST_LOG], Some(EncodeCursor(FIRST_CURSOR))))
    ensures xs[1] == Exchange(Absent, CALM, LogPage([], None))
  {
    var config, intake := Config(0, 1000), Accepted(0, 0, []);
    FirstOfTwo(matches);
    NoneOfTheRest(matches);
    RunsGoOn(config, intake, matches, [], Given(1), CALM);
    var x := Exchange(Given(1), CALM, LogPage([FIRST_LOG], Some(EncodeCursor(FIRST_CURSOR))));
    assert [] + [x] == [x];
    RunsGoOn(config, intake, matches, [x], Absent, CALM);
    xs := [x] + [Exchange(Absent, CALM, LogPage([], None))];
  }

  lemma CalmConsistent(xs: seq<Exchange>)
    requires forall k :: 0 <= k < |xs| ==> xs[k].env == CALM
    ensures ConsistentChains(xs)
  {
    assert TWO_LOGS[0].logs == [LogEntry(0, "log"), LogEntry(1, "log")];
  }

  /**
   * A `Link` carries no limit, so the request that follows it falls back to
   * the default page size.  With a default below 1 that request hides the
   * rest: a run of two requests that ends with a log undelivered.
   */
  lemma ZeroDefaultPageSizeHidesLogs(matches: Matcher) returns (xs: seq<Exchange>)
    requires matches([], "log")
    ensures IsRun(Config(0, 1000), Accepted(0, 0, []), matches, xs) && ConsistentChains(xs) && |xs| == 2
    ensures xs[0].limit == Given(1) && xs[1].limit == Absent && xs[1].resp == LogPage([], None)
    ensures Delivered(xs) == [FIRST_LOG] && Due(xs, Accepted(0, 0, []), matches) == [FIRST_LOG, SECOND_LOG]
  {
    TwoLogsMatch(matches);
    xs := TwoRequests(matches);
    DeliveredTwo(xs[0], xs[1]);
    assert xs == [xs[0], xs[1]];
    CalmConsistent(xs);
  }
}
