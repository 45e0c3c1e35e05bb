/**
 * A client that keeps resuming: each session replays after the last event id
 * the one before it left behind (src/exec_rest_api/handlers/streams.py), and
 * the id is what the client's `lastEventId` holds (section 9.2.6 of the WHATWG
 * HTML standard).
 */
module Sessions {
  import opened Wrappers
  import opened Numerals
  import opened JsonText
  import opened JsonRoundTrip
  import opened CursorCodec
  import opened Replay
  import opened Sse

  /**
   * One session: subscribed at head `since`, the head query answered `head`,
   * the chain grew up to `now`, and the client received the first `received`
   * of the frames before the connection was cut.
   */
  datatype Session = Session(since: int, head: Option<int>, answers: BlockOracle, now: int, received: nat)

  function Replaying(last: int, s: Session, window: int): seq<Written> {
    ReplayFrames(Some(last), s.head, window, s.answers)
  }

  function Frames(last: int, s: Session, window: int): seq<Written> {
    Replaying(last, s, window) + Live(s.since, s.now)
  }

  function Received(last: int, s: Session, window: int): seq<Written> {
    var frames := Frames(last, s, window);
    if s.received <= |frames| then frames[..s.received] else frames
  }

  /** The id after these frames: the number of the last block event, if there is one. */
  function IdAfter(last: int, ws: seq<Written>): int {
    if ws == [] then last
    else
      match ws[|ws| - 1]
      case BlockEvent(n) => n
      case GapEvent(_, _) => IdAfter(last, ws[..|ws| - 1])
  }

  // ---------------------------------------------------------------------
  // The id is the client's
  // ---------------------------------------------------------------------

  /** How the handler frames what it writes; a gap carries no id. */
  function FrameOf(w: Written, data: int -> Json): Frame {
    match w
    case BlockEvent(n) => Event("block", Some(ShowInt(n)), data(n))
    case GapEvent(first, last) => Event("gap", None, Obj([Member("from", Int(first)), Member("to", Int(last))]))
  }

  function FramesOf(ws: seq<Written>, data: int -> Json): seq<Frame> {
    if ws == [] then [] else FramesOf(ws[..|ws| - 1], data) + [FrameOf(ws[|ws| - 1], data)]
  }

  /** A client that looks up "from" and "to" in a gap's data learns the first and the last block of the gap. */
  lemma GapDataTells(c: Client, first: int, last: int, data: int -> Json)
    ensures
      var event := ApplyFrame(c, FrameOf(GapEvent(first, last), data)).events[|c.events|];
      var parsed := Loads(event.data);
      && event.kind == "gap" && parsed.Got? && parsed.value.Obj?
      && Lookup(parsed.value.members, "from") == Some(Int(first))
      && Lookup(parsed.value.members, "to") == Some(Int(last))
  {
    var members := [Member("from", Int(first)), Member("to", Int(last))];
    LoadsPrint(Obj(members));
    LookupFound(members, 0);
    LookupFound(members, 1);
  }

  /** A block's frame carries its number as id and its data as it is. */
  lemma BlockFrameTells(c: Client, n: int, data: int -> Json)
    requires WellFormed(data(n))
    ensures
      var event := ApplyFrame(c, FrameOf(BlockEvent(n), data)).events[|c.events|];
      event.kind == "block" && event.lastEventId == ShowInt(n) && Loads(event.data) == Got(data(n), "")
  {
    LoadsPrint(data(n));
  }

  lemma {:induction false} ApplySnoc(c: Client, fs: seq<Frame>, f: Frame)
    ensures ApplyAll(c, fs + [f]) == ApplyFrame(ApplyAll(c, fs), f)
    decreases |fs|
  {
    if fs == [] {
      assert fs + [f] == [f] && [f][1..] == [];
    } else {
      assert (fs + [f])[1..] == fs[1..] + [f];
      ApplySnoc(ApplyFrame(c, fs[0]), fs[1..], f);
    }
  }

  /** What a conforming client sends back as `Last-Event-ID` is the id in decimal. */
  lemma {:induction false} StickyId(c: Client, last: int, ws: seq<Written>, data: int -> Json)
    requires c.lastEventId == ShowInt(last)
    ensures ApplyAll(c, FramesOf(ws, data)).lastEventId == ShowInt(IdAfter(last, ws))
    decreases |ws|
  {
    if ws != [] {
      var n := |ws| - 1;
      StickyId(c, last, ws[..n], data);
      ApplySnoc(c, FramesOf(ws[..n], data), FrameOf(ws[n], data));
    }
  }

  /** Reading that text as a number gives the id back. */
  lemma IdReadsBack(n: nat)
    ensures AllDigits(ShowInt(n), Ten) && Parse(ShowInt(n), Ten) == n
  {
    ParseShow(n, Ten);
  }

  // ---------------------------------------------------------------------
  // One session
  // ---------------------------------------------------------------------

  /** The chain only grows: the client's block was on it before, and the head answered is not beyond it. */
  ghost predicate Grown(last: int, s: Session) {
    last <= s.since <= s.now && (s.head.Some? ==> s.head.value <= s.now)
  }

  /** Tells of nothing up to `last`, and numbers no block beyond `now`. */
  predicate Beyond(w: Written, last: int, now: int) {
    match w
    case BlockEvent(n) => last < n <= now
    case GapEvent(first, _) => last < first
  }

  ghost predicate Within(ws: seq<Written>, last: int, now: int) {
    forall i :: 0 <= i < |ws| ==> Beyond(ws[i], last, now)
  }

  lemma {:induction false} ReplayedWithin(answers: BlockOracle, lo: int, hi: int, last: int, now: int)
    requires last < lo && hi <= now
    ensures Within(Replayed(answers, lo, hi), last, now)
    decreases hi - lo
  {
    if lo <= hi && answers(lo) != Raises {
      ReplayedWithin(answers, lo + 1, hi, last, now);
    }
  }

  lemma {:induction false} LiveWithin(since: int, now: int, last: int, end: int)
    requires last <= since && now <= end
    ensures Within(Live(since, now), last, end)
    decreases now - since
  {
    if now > since {
      LiveWithin(since, now - 1, last, end);
    }
  }

  lemma ReceivedWithin(last: int, s: Session, window: int)
    requires Grown(last, s)
    ensures Within(Received(last, s, window), last, s.now)
  {
    if s.head.Some? {
      ReplayedWithin(s.answers, last + 1, s.head.value, last, s.now);
    }
    LiveWithin(s.since, s.now, last, s.now);
  }

  lemma {:induction false} IdBounds(last: int, ws: seq<Written>, now: int)
    requires Within(ws, last, now) && last <= now
    ensures last <= IdAfter(last, ws) <= now
    decreases |ws|
  {
    if ws != [] {
      assert Beyond(ws[|ws| - 1], last, now);
      IdBounds(last, ws[..|ws| - 1], now);
    }
  }

  /** A session never goes back before the id it resumes from. */
  lemma IdGrows(last: int, s: Session, window: int)
    requires Grown(last, s)
    ensures last <= IdAfter(last, Received(last, s, window)) <= s.now
  {
    ReceivedWithin(last, s, window);
    IdBounds(last, Received(last, s, window), s.now);
  }

  /** A block up to the id is never told again. */
  lemma OldNeverTold(last: int, s: Session, window: int, k: int)
    requires Grown(last, s) && k <= last
    ensures !Covered(Received(last, s, window), k)
  {
    var ws := Received(last, s, window);
    ReceivedWithin(last, s, window);
    forall i | 0 <= i < |ws| ensures !Covers(ws[i], k) {
      assert Beyond(ws[i], last, s.now);
    }
  }

  // Prefixes of a replay

  lemma {:induction false} IdOfConcat(last: int, a: seq<Written>, b: seq<Written>)
    ensures IdAfter(last, a + b) == IdAfter(IdAfter(last, a), b)
    decreases |b|
  {
    if b == [] {
      assert a + b == a;
    } else {
      var n := |b| - 1;
      assert (a + b)[..|a + b| - 1] == a + b[..n];
      IdOfConcat(last, a, b[..n]);
    }
  }

  /** Of a replay cut short, the blocks up to the last one received are covered if the replay reaches them. */
  lemma {:induction false} ReplayedPrefixCovers(answers: BlockOracle, lo: int, hi: int, m: nat, last: int, k: int)
    requires last < lo && m <= |Replayed(answers, lo, hi)|
    requires lo <= k <= IdAfter(last, Replayed(answers, lo, hi)[..m])
    ensures Covered(Replayed(answers, lo, hi)[..m], k) <==> Reaches(answers, lo, k)
    decreases hi - lo
  {
    var ws := Replayed(answers, lo, hi);
    var p := ws[..m];
    assert m == 0 ==> p == [] && IdAfter(last, p) == last;
    var first := if answers(lo) == Found then [BlockEvent(lo)] else [];
    var rest := Replayed(answers, lo + 1, hi);
    assert ws == first + rest;
    var tail := rest[..m - |first|];
    assert p == first + tail;
    CoveredConcat(first, tail, k);
    assert Covered(first, k) <==> k == lo && answers(lo) == Found by {
      if answers(lo) == Found { assert Covers(first[0], k) <==> k == lo; }
    }
    IdOfConcat(last, first, tail);
    if k == lo {
      ReplayedWithin(answers, lo + 1, hi, lo, hi);
      assert !Covered(tail, k) by {
        forall i | 0 <= i < |tail| ensures !Covers(tail[i], k) {
          assert tail[i] == rest[i] && Beyond(rest[i], lo, hi);
        }
      }
    } else {
      if answers(lo) == Found {
        assert first[..0] == [];
        assert IdAfter(last, first) == lo;
      }
      ReplayedPrefixCovers(answers, lo + 1, hi, m - |first|, IdAfter(last, first), k);
    }
  }

  lemma FullReplayCovers(last: int, s: Session, window: int, k: int)
    requires last < k
    ensures Covered(Replaying(last, s, window), k) <==>
      s.head.Some? && k <= s.head.value && (s.head.value - last > window || Reaches(s.answers, last + 1, k))
  {
    if s.head.Some? && last < s.head.value {
      if s.head.value - last > window {
        assert Covers(Replaying(last, s, window)[0], k) <==> k <= s.head.value;
      } else {
        ReplayedCovers(s.answers, last + 1, s.head.value, k);
      }
    }
  }

  lemma {:induction false} LivePrefix(since: int, now: int, j: nat)
    requires since <= now
    ensures |Live(since, now)| == now - since
    ensures j <= now - since ==> Live(since, now)[..j] == Live(since, since + j)
    decreases now - since
  {
    if since < now {
      LivePrefix(since, now - 1, j);
      if j < now - since {
        assert Live(since, now)[..j] == Live(since, now - 1)[..j];
      }
    }
  }

  // ---------------------------------------------------------------------
  // What a session tells of the blocks its id moves past
  // ---------------------------------------------------------------------

  ghost predicate Valid(last: int, s: Session, window: int) {
    Grown(last, s) && s.received <= |Frames(last, s, window)|
  }

  /** The cut came after the replay: live events were received, if there were any. */
  predicate PastReplay(last: int, s: Session, window: int) {
    s.received > |Replaying(last, s, window)|
  }

  /**
   * The block came live, or the head query was answered and the block lies up
   * to the head, in the gap or where the replay reaches it.
   */
  ghost predicate Tells(last: int, s: Session, window: int, k: int) {
    || (PastReplay(last, s, window) && k > s.since)
    || (s.head.Some? && k <= s.head.value && (s.head.value - last > window || Reaches(s.answers, last + 1, k)))
  }

  lemma GapKeepsId(last: int, w: Written)
    requires w.GapEvent?
    ensures IdAfter(last, [w]) == last
  {
    assert [w][..0] == [];
  }

  /** Cut within the replay, the id moves only if blocks are replayed, and not beyond the head. */
  lemma CutReplay(last: int, s: Session, window: int)
    requires Valid(last, s, window) && !PastReplay(last, s, window)
    requires last < IdAfter(last, Received(last, s, window))
    ensures s.head.Some? && last < s.head.value && s.head.value - last <= window
    ensures Received(last, s, window) == Replayed(s.answers, last + 1, s.head.value)[..s.received]
    ensures IdAfter(last, Received(last, s, window)) <= s.head.value
  {
    var ws := Received(last, s, window);
    assert ws == Replaying(last, s, window)[..s.received];
    assert s.head.Some?;
    var gap := GapEvent(last + 1, s.head.value);
    GapKeepsId(last, gap);
    assert Replaying(last, s, window) == [gap] ==> ws == [] || ws == [gap];
    ReplayedWithin(s.answers, last + 1, s.head.value, last, s.head.value);
    IdBounds(last, ws, s.head.value);
  }

  lemma PastReplayShape(last: int, s: Session, window: int) returns (end: int)
    requires Valid(last, s, window) && PastReplay(last, s, window)
    ensures s.since < end <= s.now
    ensures Received(last, s, window) == Replaying(last, s, window) + Live(s.since, end)
    ensures IdAfter(last, Received(last, s, window)) == end
  {
    var replay := Replaying(last, s, window);
    var j := s.received - |replay|;
    LivePrefix(s.since, s.now, j);
    end := s.since + j;
    assert Received(last, s, window) == replay + Live(s.since, s.now)[..j];
    var live := Live(s.since, end);
    IdOfConcat(last, replay, live);
    assert live[|live| - 1] == BlockEvent(end);
  }

  /** Of the blocks a session's id moves past, exactly these are told. */
  lemma SessionTellsExactly(last: int, s: Session, window: int, k: int)
    requires Valid(last, s, window) && last < k <= IdAfter(last, Received(last, s, window))
    ensures Covered(Received(last, s, window), k) <==> Tells(last, s, window, k)
  {
    if PastReplay(last, s, window) {
      var end := PastReplayShape(last, s, window);
      CoveredConcat(Replaying(last, s, window), Live(s.since, end), k);
      LiveCovers(s.since, end, k);
      FullReplayCovers(last, s, window, k);
    } else {
      CutReplay(last, s, window);
      ReplayedPrefixCovers(s.answers, last + 1, s.head.value, s.received, last, k);
    }
  }

  // ---------------------------------------------------------------------
  // Runs of sessions
  // ---------------------------------------------------------------------

  /** The id after these sessions. */
  function IdAt(start: int, ss: seq<Session>, window: int): int {
    if ss == [] then start
    else
      var last := IdAt(start, ss[..|ss| - 1], window);
      IdAfter(last, Received(last, ss[|ss| - 1], window))
  }

  /** Some session so far has told of block k. */
  ghost predicate Told(start: int, ss: seq<Session>, window: int, k: int) {
    ss != [] &&
    (var p := ss[..|ss| - 1];
     Told(start, p, window, k) || Covered(Received(IdAt(start, p, window), ss[|ss| - 1], window), k))
  }

  /** Each session resumes after the last one, on a chain that only grows. */
  ghost predicate Run(start: int, ss: seq<Session>, window: int) {
    ss == [] ||
    (var p, s := ss[..|ss| - 1], ss[|ss| - 1];
     && Run(start, p, window) && Valid(IdAt(start, p, window), s, window)
     && (if p == [] then start <= s.since else p[|p| - 1].now <= s.since))
  }

  /** The client has moved past block k without being told of it. */
  ghost predicate Lost(start: int, ss: seq<Session>, window: int, k: int) {
    start < k <= IdAt(start, ss, window) && !Told(start, ss, window, k)
  }

  /** Session i is the one whose id moved past k without telling of it. */
  ghost predicate LosesAt(start: int, ss: seq<Session>, window: int, k: int, i: nat)
    requires i < |ss|
  {
    var last := IdAt(start, ss[..i], window);
    && last < k <= IdAt(start, ss[..i + 1], window)
    && !Told(start, ss[..i], window, k) && !Tells(last, ss[i], window, k)
  }

  lemma PrefixOfPrefix<T>(xs: seq<T>, n: nat, i: nat)
    requires i <= n <= |xs|
    ensures xs[..n][..i] == xs[..i]
  {
  }

  lemma {:induction false} IdMonotone(start: int, ss: seq<Session>, window: int, i: nat)
    requires Run(start, ss, window) && i <= |ss|
    ensures start <= IdAt(start, ss[..i], window) <= IdAt(start, ss, window)
    decreases |ss|
  {
    if i == |ss| {
      assert ss[..i] == ss;
      if ss != [] {
        IdMonotone(start, ss[..|ss| - 1], window, 0);
        assert ss[..|ss| - 1][..0] == [];
        IdGrows(IdAt(start, ss[..|ss| - 1], window), ss[|ss| - 1], window);
      }
    } else {
      var n := |ss| - 1;
      PrefixOfPrefix(ss, n, i);
      IdMonotone(start, ss[..n], window, i);
      IdGrows(IdAt(start, ss[..n], window), ss[n], window);
    }
  }

  /** What is lost stays lost, however often the client resumes. */
  lemma LostForGood(start: int, ss: seq<Session>, window: int, k: int)
    requires ss != [] && Run(start, ss, window) && Lost(start, ss[..|ss| - 1], window, k)
    ensures Lost(start, ss, window, k)
  {
    var n := |ss| - 1;
    IdGrows(IdAt(start, ss[..n], window), ss[n], window);
    OldNeverTold(IdAt(start, ss[..n], window), ss[n], window, k);
  }

  lemma EarlierLoses(start: int, ss: seq<Session>, window: int, k: int, i: nat)
    requires i < |ss| - 1
    ensures LosesAt(start, ss[..|ss| - 1], window, k, i) <==> LosesAt(start, ss, window, k, i)
  {
    var n := |ss| - 1;
    PrefixOfPrefix(ss, n, i);
    PrefixOfPrefix(ss, n, i + 1);
    assert ss[..n][i] == ss[i];
  }

  /** One more session: lost before, or lost by it. */
  lemma LostStep(start: int, ss: seq<Session>, window: int, k: int)
    requires ss != [] && Run(start, ss, window)
    ensures Lost(start, ss, window, k)
       <==> Lost(start, ss[..|ss| - 1], window, k) || LosesAt(start, ss, window, k, |ss| - 1)
  {
    var n := |ss| - 1;
    var last := IdAt(start, ss[..n], window);
    assert ss[..n + 1] == ss;
    IdMonotone(start, ss[..n], window, 0);
    IdGrows(last, ss[n], window);
    if k <= last {
      OldNeverTold(last, ss[n], window, k);
    } else if k <= IdAt(start, ss, window) {
      SessionTellsExactly(last, ss[n], window, k);
    }
  }

  lemma {:induction false} LostHasSession(start: int, ss: seq<Session>, window: int, k: int) returns (i: nat)
    requires Run(start, ss, window) && Lost(start, ss, window, k)
    ensures i < |ss| && LosesAt(start, ss, window, k, i)
    decreases |ss|
  {
    var n := |ss| - 1;
    LostStep(start, ss, window, k);
    if LosesAt(start, ss, window, k, n) {
      i := n;
    } else {
      i := LostHasSession(start, ss[..n], window, k);
      EarlierLoses(start, ss, window, k, i);
    }
  }

  lemma {:induction false} SessionLoses(start: int, ss: seq<Session>, window: int, k: int, i: nat)
    requires Run(start, ss, window) && i < |ss| && LosesAt(start, ss, window, k, i)
    ensures Lost(start, ss, window, k)
    decreases |ss|
  {
    LostStep(start, ss, window, k);
    if i < |ss| - 1 {
      EarlierLoses(start, ss, window, k, i);
      SessionLoses(start, ss[..|ss| - 1], window, k, i);
    }
  }

  /**
   * Exactly which blocks a client that keeps resuming never learns of: those
   * that some session moved past, not told before, which did not come live and
   * which its replay did not reach, because the head query or a block call
   * failed, or a block was not found.
   */
  lemma LostExactly(start: int, ss: seq<Session>, window: int, k: int)
    requires Run(start, ss, window)
    ensures Lost(start, ss, window, k) <==> exists i: nat :: i < |ss| && LosesAt(start, ss, window, k, i)
  {
    if Lost(start, ss, window, k) {
      var i := LostHasSession(start, ss, window, k);
    }
    if i: nat :| i < |ss| && LosesAt(start, ss, window, k, i) {
      SessionLoses(start, ss, window, k, i);
    }
  }

  /** No call of the replay fails or finds nothing, and the subscription came before the head query. */
  ghost predicate Smooth(s: Session) {
    s.head.Some? && s.since <= s.head.value && forall n :: n <= s.head.value ==> s.answers(n) == Found
  }

  lemma {:induction false} RunPrefix(start: int, ss: seq<Session>, window: int, i: nat)
    requires Run(start, ss, window) && i <= |ss|
    ensures Run(start, ss[..i], window)
    decreases |ss|
  {
    if i == |ss| {
      assert ss[..i] == ss;
    } else {
      RunPrefix(start, ss[..|ss| - 1], window, i);
      PrefixOfPrefix(ss, |ss| - 1, i);
    }
  }

  lemma SmoothTells(start: int, ss: seq<Session>, window: int, k: int)
    requires ss != [] && Run(start, ss, window) && Smooth(ss[|ss| - 1])
    ensures
      var s, last := ss[|ss| - 1], IdAt(start, ss[..|ss| - 1], window);
      last < k <= IdAt(start, ss, window) ==> Tells(last, s, window, k)
  {
    var s, last := ss[|ss| - 1], IdAt(start, ss[..|ss| - 1], window);
    if last < k <= IdAt(start, ss, window) && !PastReplay(last, s, window) {
      CutReplay(last, s, window);
    }
  }

  lemma SmoothNeverLoses(start: int, ss: seq<Session>, window: int, k: int, i: nat)
    requires Run(start, ss, window) && i < |ss| && Smooth(ss[i])
    ensures !LosesAt(start, ss, window, k, i)
  {
    RunPrefix(start, ss, window, i + 1);
    SmoothTells(start, ss[..i + 1], window, k);
    PrefixOfPrefix(ss, i + 1, i);
  }

  /** If every session is smooth, nothing is ever lost, wherever the connections are cut. */
  lemma NothingLost(start: int, ss: seq<Session>, window: int, k: int)
    requires Run(start, ss, window) && forall i :: 0 <= i < |ss| ==> Smooth(ss[i])
    ensures !Lost(start, ss, window, k)
  {
    LostExactly(start, ss, window, k);
    forall i: nat | i < |ss| ensures !LosesAt(start, ss, window, k, i) {
      SmoothNeverLoses(start, ss, window, k, i);
    }
  }

  /**
   * A failing head query, then one live event: every block between the id and
   * the subscription is lost.
   */
  lemma FailedHeadLoses(start: int, s: Session, window: int, k: int)
    requires Valid(start, s, window) && s.head == None && s.received >= 1 && start < k <= s.since
    ensures Run(start, [s], window) && Lost(start, [s], window, k)
  {
    assert [s][..0] == [];
    var end := PastReplayShape(start, s, window);
    SessionTellsExactly(start, s, window, k);
  }
}
