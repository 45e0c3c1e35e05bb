/**
 * Paging over a chain that stands still: every request gets a page, and the
 * number of requests is exact.
 */
module StillChain {
  import opened Counting
  import opened Wrappers
  import opened JsonText
  import opened CursorCodec
  import opened Pagination
  import opened LogsProtocol
  import opened LogsRuns

  ghost predicate StandsAt(config: Config, x: Exchange, chain: seq<Block>, limit: int) {
    x.env.chain == chain && PageLimit(config, x.limit) == Some(limit) && Healthy(x.env)
  }

  /** Every request meets this chain and a healthy upstream, and asks for this page size. */
  ghost predicate StandsStill(config: Config, xs: seq<Exchange>, chain: seq<Block>, limit: int) {
    forall k :: 0 <= k < |xs| ==> StandsAt(config, xs[k], chain, limit)
  }

  /** What the theorems below ask of a run and its surroundings. */
  ghost predicate StillRun(
    config: Config, intake: Intake, matches: Matcher, xs: seq<Exchange>, chain: seq<Block>, limit: int)
  {
    && limit >= 1 && intake.Accepted? && intake.fromBlock <= intake.toBlock && WellFormed(Obj(intake.filter))
    && ValidChain(chain) && HashesIdentify(chain, chain)
    && IsRun(config, intake, matches, xs) && StandsStill(config, xs, chain, limit)
  }

  lemma StillConsistent(
    config: Config, intake: Intake, matches: Matcher, xs: seq<Exchange>, chain: seq<Block>, limit: int)
    requires StillRun(config, intake, matches, xs, chain, limit)
    ensures limit >= 1 && ConsistentChains(xs)
    ensures Due(xs, intake, matches)
         == Window(Matching(chain, intake.filter, matches), intake.fromBlock, intake.toBlock)
  {
    assert StandsAt(config, xs[0], chain, limit);
  }

  lemma ContinuedPage(
    config: Config, intake: Intake, matches: Matcher, issuer: Exchange, before: seq<Log>, x: Exchange)
    requires intake.Accepted? && WellFormed(Obj(intake.filter))
    requires Continues(issuer) && Accounts(issuer, before, intake, matches)
    requires issuer.env.chain == x.env.chain && Healthy(x.env) && PageLimit(config, x.limit).Some?
    requires Answers(config, x.limit, Resume(issuer.resp.next.value), x.env, matches, x.resp)
    ensures x.resp.LogPage?
  {
    var c :| HandsOut(issuer, c, intake, matches);
    HealthyResumesComplete(config, intake, matches, issuer, c, x);
  }

  lemma StillPage(
    config: Config, intake: Intake, matches: Matcher, xs: seq<Exchange>, chain: seq<Block>, limit: int)
    requires StillRun(config, intake, matches, xs, chain, limit)
    ensures Last(xs).resp.LogPage?
  {
    var x := Last(xs);
    StillConsistent(config, intake, matches, xs, chain, limit);
    LastAnswers(config, intake, matches, xs);
    assert StandsAt(config, x, chain, limit);
    if |xs| == 1 {
      HealthyRequestsComplete(config, x.limit, intake, x.env, matches, x.resp);
    } else {
      var p := xs[..|xs| - 1];
      EarlierAccounts(config, intake, matches, xs);
      assert StandsAt(config, xs[|xs| - 2], chain, limit);
      ContinuedPage(config, intake, matches, Last(p), Delivered(p), x);
    }
  }

  lemma AllPages(xs: seq<Exchange>)
    requires xs != [] && Last(xs).resp.LogPage?
    requires forall k :: 0 <= k < |xs| - 1 ==> Continues(xs[k])
    ensures forall k :: 0 <= k < |xs| ==> xs[k].resp.LogPage?
  {
    forall k | 0 <= k < |xs| ensures xs[k].resp.LogPage? {
      assert k < |xs| - 1 ==> Continues(xs[k]);
    }
  }

  /** Every request of such a run gets a page. */
  lemma StillPages(
    config: Config, intake: Intake, matches: Matcher, xs: seq<Exchange>, chain: seq<Block>, limit: int)
    requires StillRun(config, intake, matches, xs, chain, limit)
    ensures forall k :: 0 <= k < |xs| ==> xs[k].resp.LogPage?
  {
    StillPage(config, intake, matches, xs, chain, limit);
    AllPages(xs);
  }

  /** A page with a `Link` is full; one without is not. */
  lemma PageFullness(
    env: Env, matches: Matcher, filter: Filter, fromBlock: int, toBlock: int, limit: int, skip: int, resp: Response)
    requires ValidChain(env.chain) && limit >= 1 && resp.LogPage?
    requires Fetched(env, matches, filter, fromBlock, toBlock, limit, skip, resp)
    ensures resp.next.Some? ==> |resp.items| == limit
    ensures resp.next.None? ==> |resp.items| < limit
  {
    var logs := Matching(env.chain, filter, matches);
    MatchingOrdered(env.chain, filter, matches);
    UnseenOnlyWanted(logs, fromBlock, toBlock, SkipBlock(fromBlock, skip), skip);
    var rest := Unseen(logs, fromBlock, toBlock, SkipBlock(fromBlock, skip), skip);
    assert |rest| >= limit ==> rest[limit - 1] in rest;
  }

  lemma AnswerFullness(config: Config, x: Exchange, target: Target, matches: Matcher, limit: int)
    requires ValidChain(x.env.chain) && limit >= 1 && PageLimit(config, x.limit) == Some(limit)
    requires Answers(config, x.limit, target, x.env, matches, x.resp) && x.resp.LogPage?
    ensures if Continues(x) then |x.resp.items| == limit else |x.resp.items| < limit
  {
    match target
    case Resume(text) =>
      var c := DecodeCursor(text).value;
      PageFullness(x.env, matches, c.filter, c.nextFromBlock, c.toBlock, limit, c.lastLogIndex, x.resp);
    case Fresh(Accepted(fromBlock, toBlock, filter)) =>
      PageFullness(x.env, matches, filter, fromBlock, toBlock, limit, -1, x.resp);
    case _ =>
  }

  /** Every page but the last is full. */
  ghost predicate FullPages(xs: seq<Exchange>, limit: int) {
    forall k :: 0 <= k < |xs| - 1 ==> xs[k].resp.LogPage? && |xs[k].resp.items| == limit
  }

  lemma RunFullPages(
    config: Config, intake: Intake, matches: Matcher, xs: seq<Exchange>, chain: seq<Block>, limit: int)
    requires StillRun(config, intake, matches, xs, chain, limit)
    ensures FullPages(xs, limit) && Last(xs).resp.LogPage?
    ensures if Continues(Last(xs)) then |Last(xs).resp.items| == limit else |Last(xs).resp.items| < limit
  {
    StillConsistent(config, intake, matches, xs, chain, limit);
    StillPages(config, intake, matches, xs, chain, limit);
    forall k | 0 <= k < |xs|
      ensures if Continues(xs[k]) then |xs[k].resp.items| == limit else |xs[k].resp.items| < limit
    {
      assert StandsAt(config, xs[k], chain, limit);
      assert Answered(config, matches)(TargetOf(intake, xs, k), xs[k]);
      AnswerFullness(config, xs[k], TargetOf(intake, xs, k), matches, limit);
    }
  }

  lemma {:induction false} DeliveredCount(xs: seq<Exchange>, limit: nat)
    requires xs != [] && FullPages(xs, limit) && Last(xs).resp.LogPage?
    ensures |Delivered(xs)| == Multiple(|xs| - 1, limit) + |Last(xs).resp.items|
  {
    var p := xs[..|xs| - 1];
    assert |Delivered(xs)| == |Delivered(p)| + |Last(xs).resp.items|;
    if p != [] {
      DeliveredCount(p, limit);
    }
  }

  /** m pages, all but the last full, out of n items. */
  lemma PagesNeeded(m: nat, limit: int, n: nat, last: nat, more: bool)
    requires m >= 1 && limit >= 1 && Multiple(m - 1, limit) + last <= n
    requires if more then last == limit else last < limit && Multiple(m - 1, limit) + last == n
    ensures m <= n / limit + 1 && (!more <==> m == n / limit + 1)
  {
    WholeMultiples(m - 1, limit, n);
    WholeMultiples(m, limit, n);
  }

  lemma PrefixShorter(a: seq<Log>, b: seq<Log>)
    requires a <= b
    ensures |a| <= |b|
  {
  }

  lemma StillCount(
    config: Config, intake: Intake, matches: Matcher, xs: seq<Exchange>, chain: seq<Block>, limit: int, n: nat)
    requires StillRun(config, intake, matches, xs, chain, limit)
    requires n == |Window(Matching(chain, intake.filter, matches), intake.fromBlock, intake.toBlock)|
    ensures xs != [] && limit >= 1 && Last(xs).resp.LogPage?
    ensures
      var last, got := |Last(xs).resp.items|, Multiple(|xs| - 1, limit) + |Last(xs).resp.items|;
      got <= n && (if Last(xs).resp.next.Some? then last == limit else last < limit && got == n)
  {
    StillConsistent(config, intake, matches, xs, chain, limit);
    RunFullPages(config, intake, matches, xs, chain, limit);
    RunDelivers(config, intake, matches, xs);
    DeliveredCount(xs, limit);
    PrefixShorter(Delivered(xs), Due(xs, intake, matches));
  }

  /**
   * On a chain that stands still, with page size `limit` and N matching logs,
   * a client that follows cursors makes N div `limit` + 1 requests: never
   * more, and the run has ended exactly when it has made that many.
   */
  lemma StableRunRequests(
    config: Config, intake: Intake, matches: Matcher, xs: seq<Exchange>, chain: seq<Block>, limit: int)
    requires StillRun(config, intake, matches, xs, chain, limit)
    ensures limit >= 1 && Last(xs).resp.LogPage?
    ensures
      var n := |Window(Matching(chain, intake.filter, matches), intake.fromBlock, intake.toBlock)|;
      && |xs| <= n / limit + 1
      && (Last(xs).resp.next == None <==> |xs| == n / limit + 1)
  {
    var n := |Window(Matching(chain, intake.filter, matches), intake.fromBlock, intake.toBlock)|;
    StillCount(config, intake, matches, xs, chain, limit, n);
    PagesNeeded(|xs|, limit, n, |Last(xs).resp.items|, Last(xs).resp.next.Some?);
  }

  lemma StandsSnoc(config: Config, xs: seq<Exchange>, x: Exchange, chain: seq<Block>, limit: int)
    requires StandsStill(config, xs, chain, limit) && StandsAt(config, x, chain, limit)
    ensures StandsStill(config, xs + [x], chain, limit)
  {
  }

  /**
   * Such a run exists from every start: repeating the same request limit, the
   * client gets all matching logs in exactly N div `limit` + 1 requests.
   */
  lemma {:induction false} StableRunExists(
    config: Config, intake: Intake, matches: Matcher, xs: seq<Exchange>, param: LimitParam, env: Env, limit: int)
    returns (ys: seq<Exchange>)
    requires limit >= 1 && intake.Accepted? && intake.fromBlock <= intake.toBlock
    requires WellFormed(Obj(intake.filter)) && ValidChain(env.chain) && HashesIdentify(env.chain, env.chain)
    requires PageLimit(config, param) == Some(limit) && Healthy(env)
    requires xs == [] || (StillRun(config, intake, matches, xs, env.chain, limit) && Continues(Last(xs)))
    ensures StillRun(config, intake, matches, ys, env.chain, limit) && xs <= ys
    ensures Last(ys).resp.LogPage? && Last(ys).resp.next == None
    ensures
      var all := Window(Matching(env.chain, intake.filter, matches), intake.fromBlock, intake.toBlock);
      limit >= 1 && |ys| == |all| / limit + 1 && Delivered(ys) == all
    decreases
      |Window(Matching(env.chain, intake.filter, matches), intake.fromBlock, intake.toBlock)| / limit + 1 - |xs|
  {
    var x := Exchange(param, env, Smooth(config, param, NextTarget(intake, xs), env, matches));
    RunsGoOn(config, intake, matches, xs, param, env);
    ys := xs + [x];
    StandsSnoc(config, xs, x, env.chain, limit);
    StableRunRequests(config, intake, matches, ys, env.chain, limit);
    if Continues(x) {
      ys := StableRunExists(config, intake, matches, ys, param, env, limit);
    } else {
      StillConsistent(config, intake, matches, ys, env.chain, limit);
      RunDelivers(config, intake, matches, ys);
    }
  }
}
