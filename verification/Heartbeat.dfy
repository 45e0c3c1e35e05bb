/**
 * `stream_with_heartbeat` of src/exec_rest_api/sse.py: pass a source through
 * and fill its silences with comment frames.
 */
module Heartbeats {
  import opened Numerals
  import opened Sse

  /** How a source ends; `RaisesTimeout` is an `asyncio.TimeoutError` of its own. */
  datatype End = Finishes | Raises | RaisesTimeout

  /** What a completed `__anext__` came to. */
  datatype Completion = Chunk(f: Frame) | Ended(end: End)

  /** An asynchronous iterator: at most one `__anext__` may be outstanding. */
  class Source {
    const frames: seq<Frame>
    const end: End
    var pulled: nat
    var outstanding: bool

    constructor (frames: seq<Frame>, end: End)
      ensures this.frames == frames && this.end == end && pulled == 0 && !outstanding
    {
      this.frames, this.end, pulled, outstanding := frames, end, 0, false;
    }

    ghost predicate Valid()
      reads this
    {
      pulled <= |frames|
    }

    method StartNext()
      requires Valid() && !outstanding
      modifies this`outstanding
      ensures outstanding
    {
      outstanding := true;
    }

    /** The outstanding call completes: with the next frame, or at the end. */
    method Complete() returns (c: Completion)
      requires Valid() && outstanding
      modifies this
      ensures Valid() && !outstanding
      ensures old(pulled) < |frames| ==> c == Chunk(frames[old(pulled)]) && pulled == old(pulled) + 1
      ensures old(pulled) == |frames| ==> c == Ended(end) && pulled == old(pulled)
    {
      outstanding := false;
      if pulled < |frames| {
        c := Chunk(frames[pulled]);
        pulled := pulled + 1;
      } else {
        c := Ended(end);
      }
    }

    method Cancel()
      requires outstanding
      modifies this`outstanding
      ensures !outstanding
    {
      outstanding := false;
    }
  }

  /** What one wait on the outstanding call comes to, and the time when it is over. */
  datatype Tick = TimesOut(clock: nat) | Completes(clock: nat)

  datatype Output = Passed(f: Frame) | Ping(clock: nat)

  datatype Ending = SourceEnded | SourceRaised | ConsumerLeft

  function FrameOf(o: Output): Frame {
    match o
    case Passed(f) => f
    case Ping(clock) => Comment("ping " + Show(clock, Ten))
  }

  /** The frames on the wire. */
  function Wire(out: seq<Output>): seq<Frame> {
    if out == [] then [] else [FrameOf(out[0])] + Wire(out[1..])
  }

  /** The wire with the heartbeats erased. */
  function WithoutPings(out: seq<Output>): seq<Frame> {
    if out == [] then []
    else (if out[0].Passed? then [out[0].f] else []) + WithoutPings(out[1..])
  }

  /** How many calls of the source complete. */
  function Completions(schedule: seq<Tick>): nat {
    if schedule == [] then 0
    else Completions(schedule[..|schedule| - 1]) + (if schedule[|schedule| - 1].Completes? then 1 else 0)
  }

  lemma CompletionsMonotone(schedule: seq<Tick>, k: nat)
    requires k <= |schedule|
    ensures Completions(schedule[..k]) <= Completions(schedule)
  {
    if k < |schedule| {
      CompletionsMonotone(schedule[..|schedule| - 1], k);
      assert schedule[..|schedule| - 1][..k] == schedule[..k];
    } else {
      assert schedule[..k] == schedule;
    }
  }

  /** What the k-th wait adds to the output of a source of n frames: the next frame if one completes, else a ping. */
  predicate Fills(o: Output, schedule: seq<Tick>, k: nat, n: nat)
    requires k < |schedule|
  {
    if schedule[k].Completes? && Completions(schedule[..k]) < n then o.Passed? else o == Ping(schedule[k].clock)
  }

  lemma WithoutPingsSnoc(out: seq<Output>, o: Output)
    ensures WithoutPings(out + [o]) == WithoutPings(out) + (if o.Passed? then [o.f] else [])
  {
    if out != [] {
      WithoutPingsSnoc(out[1..], o);
      assert (out + [o])[1..] == out[1..] + [o];
    }
  }

  /**
   * In every schedule of timeouts and completions the output without its
   * heartbeats is the source so far, nothing lost, repeated or reordered, and
   * each silence gave one heartbeat in its place.  Starting a call needs the
   * previous one to have completed, so that at most one is ever outstanding
   * is checked at the call of `StartNext`.
   *
   * The stream ends with its source exactly when the source completes once
   * more than it has frames and does not end by raising a TimeoutError: such a
   * source is taken for silence, and heartbeats go on for ever.
   */
  method StreamWithHeartbeat(source: Source, schedule: seq<Tick>) returns (out: seq<Output>, ending: Ending)
    requires source.Valid() && source.pulled == 0 && !source.outstanding
    modifies source
    ensures source.Valid() && !source.outstanding
    ensures WithoutPings(out) == source.frames[..source.pulled]
    ensures |out| <= |schedule| && forall i :: 0 <= i < |out| ==> Fills(out[i], schedule, i, |source.frames|)
    ensures ending != ConsumerLeft <==> source.end != RaisesTimeout && Completions(schedule) > |source.frames|
    ensures ending != ConsumerLeft ==>
      WithoutPings(out) == source.frames && (ending == SourceRaised <==> source.end == Raises)
    ensures if ending == ConsumerLeft then |out| == |schedule| else |out| < |schedule| && schedule[|out|].Completes?
  {
    out := [];
    // Whether a call was started whose result is not yet passed on, and whether it is done.
    var nextTask, done := false, false;
    for i := 0 to |schedule|
      invariant source.Valid() && source.outstanding == (nextTask && !done)
      invariant done ==> nextTask && source.end == RaisesTimeout && source.pulled == |source.frames|
      invariant if done then Completions(schedule[..i]) > source.pulled else Completions(schedule[..i]) == source.pulled
      invariant WithoutPings(out) == source.frames[..source.pulled]
      invariant |out| == i && forall k :: 0 <= k < i ==> Fills(out[k], schedule, k, |source.frames|)
    {
      CompletionsMonotone(schedule, i + 1);
      assert schedule[..i + 1][..i] == schedule[..i];
      WithoutPingsSnoc(out, Ping(schedule[i].clock));
      if !nextTask {
        source.StartNext();
        nextTask := true;
      }
      if done || schedule[i].TimesOut? {
        out := out + [Ping(schedule[i].clock)];
        continue;
      }
      var completion := source.Complete();
      match completion {
        case Ended(Finishes) => return out, SourceEnded;
        case Ended(Raises) => return out, SourceRaised;
        case Ended(RaisesTimeout) =>
          done := true;
          out := out + [Ping(schedule[i].clock)];
        case Chunk(f) =>
          nextTask := false;
          WithoutPingsSnoc(out, Passed(f));
          out := out + [Passed(f)];
      }
    }
    assert schedule[..|schedule|] == schedule;
    if nextTask && !done {
      source.Cancel();
    }
    return out, ConsumerLeft;
  }

  /** A conforming client cannot tell the heartbeats were there. */
  lemma {:induction false} PingsInvisible(c: Client, out: seq<Output>)
    ensures ApplyAll(c, Wire(out)) == ApplyAll(c, WithoutPings(out))
    decreases |out|
  {
    if out != [] {
      var f := FrameOf(out[0]);
      PingsInvisible(ApplyFrame(c, f), out[1..]);
      assert Wire(out)[1..] == Wire(out[1..]);
      if out[0].Passed? {
        assert WithoutPings(out)[1..] == WithoutPings(out[1..]);
      } else {
        assert WithoutPings(out) == WithoutPings(out[1..]);
      }
    }
  }

  lemma WireClean(out: seq<Output>)
    requires forall i :: 0 <= i < |out| && out[i].Passed? ==> CleanFrame(out[i].f)
    ensures |Wire(out)| == |out| && forall i :: 0 <= i < |out| ==> CleanFrame(Wire(out)[i])
  {
  }

  /** End to end: the bytes of the interleaved stream are read as the source's events. */
  lemma ClientSeesSource(out: seq<Output>)
    requires forall i :: 0 <= i < |out| && out[i].Passed? ==> CleanFrame(out[i].f)
    ensures Interpret(FRESH, FormatAll(Wire(out))) == ApplyAll(FRESH, WithoutPings(out))
  {
    WireClean(out);
    ClientSeesFrames(FRESH, Wire(out));
    PingsInvisible(FRESH, out);
  }
}
