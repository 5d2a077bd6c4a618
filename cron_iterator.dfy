/**
 * The CronIterator class of time-mode.js: one pending candidate instant per
 * cron source, a scan that takes the earliest, a drain that fires every event
 * already due, and a single re-armable timer. Each method is proved against
 * the value-level merge in module Merge.
 *
 * The clock (`new Date()`) is the parameter `now`; the callback is modelled
 * by the sequence of (index, instant) pairs it would receive, in order.
 */
module TimeMode {
  import opened Optional
  import opened Merge
  import opened Seqs

  /** The error object time-mode.js throws; its code defaults to 500. */
  datatype Error = Error(message: string, code: int)

  /** What `next()` throws when no cron source is configured. */
  const NothingScheduled := Error("nothing scheduled", 500)

  /** The longest single wait `_run` arms, in milliseconds. */
  const MaxWait := 100000

  /** A pending `setTimeout` handle, with the delay it was armed for. */
  datatype Timer = Timer(delay: int)

  /**
   * The scan in `next()`: walk the candidates keeping the first strictly
   * smaller one, so the result is the first least candidate and its index.
   */
  method ScanEarliest(ctx: seq<int>) returns (best: nat, res: int)
    requires |ctx| > 0
    ensures IsFirstMin(ctx, best) && res == ctx[best]
    ensures best == ArgMin(ctx)
  {
    best, res := 0, ctx[0];
    var i := 0;
    while i < |ctx|
      invariant 0 <= i <= |ctx|
      invariant 0 <= best < |ctx| && res == ctx[best]
      invariant if i == 0 then best == 0 else best == ArgMinUpTo(ctx, i)
    {
      if ctx[i] < res {
        best := i;
        res := ctx[i];
      }
      i := i + 1;
    }
  }

  class CronIterator {
    var timer: Option<Timer>
    var intervals: seq<Source>
    var ctx: seq<int>
    var idx: int
    var when: int

    /** The iterator's merge state, without the timer. */
    ghost function Model(): Merger
      reads this
    {
      Merger(intervals, ctx, when, idx)
    }

    /** A new iterator has no timer; everything else waits for `reset`. */
    constructor ()
      ensures timer == None
    {
      timer := None;
    }

    /**
     * `next()`: throw "nothing scheduled" on an empty candidate list;
     * otherwise scan for the first least candidate, record it as
     * `when`/`idx`, and advance only that source.
     */
    method Next() returns (err: Option<Error>)
      requires Settled(Model())
      modifies this
      ensures Settled(Model())
      ensures err.Some? <==> |old(ctx)| == 0
      ensures err.Some? ==> err.value == NothingScheduled && unchanged(this)
      ensures err.None? ==> Model() == Step(old(Model())) && timer == old(timer)
      ensures err.None? ==> IsFirstMin(old(ctx), idx) && when == old(ctx)[idx]
      ensures err.None? ==>
                |ctx| == |old(ctx)| &&
                ctx[idx] == old(intervals)[idx].occ(old(intervals)[idx].cursor) &&
                forall i :: 0 <= i < |ctx| && i != idx ==> ctx[i] == old(ctx)[i]
      ensures err.None? && old(idx) >= 0 ==> Before(Event(old(idx), old(when)), Event(idx, when))
      ensures err.None? ==> forall i :: 0 <= i < |ctx| ==> Before(Event(idx, when), Event(i, ctx[i]))
    {
      if |ctx| == 0 {
        return Some(NothingScheduled);
      }
      ghost var m := Model();
      var best, res := ScanEarliest(ctx);
      when := res;
      idx := best;
      var (moved, t) := intervals[idx].Next();
      ctx := ctx[idx := t];
      intervals := intervals[idx := moved];
      err := None;
      StepKeepsSettled(m);
      StepTakesFirstMin(m);
      CandidatesAfterFrontier(Model());
    }

    /**
     * `_exec(cb)`: fire every event not after `now`, in merged order, and
     * return the delay to the first event not yet fired, which is positive.
     */
    method Exec(now: int) returns (t: int, fired: seq<Event>)
      requires Settled(Model()) && idx >= 0
      modifies this
      ensures fired == Drain(old(Model()), now).0 && Model() == Drain(old(Model()), now).1
      ensures t == when - now && t > 0
      ensures timer == old(timer)
    {
      ghost var start := Model();
      fired := [];
      while when - now <= 0
        invariant Settled(Model()) && idx >= 0 && timer == old(timer)
        invariant Drain(start, now).0 == fired + Drain(Model(), now).0
        invariant Drain(start, now).1 == Drain(Model(), now).1
        decreases if when <= now then now - when + 1 else 0, |ctx| - idx
      {
        ghost var m := Model();
        ghost var before := fired;
        DrainUnfold(m, now);
        fired := fired + [Event(idx, when)];
        var err := Next();
        assert Model() == Step(m);
        Assoc(before, [Frontier(m)], Drain(Model(), now).0);
      }
      DrainIdle(Model(), now);
      t := when - now;
    }

    /**
     * `_run(cb)`: drain, then arm the timer for the delay to the next event,
     * clamped to MaxWait.
     */
    method RunStep(now: int) returns (fired: seq<Event>, delay: int)
      requires Settled(Model()) && idx >= 0
      modifies this
      ensures fired == Drain(old(Model()), now).0 && Model() == Drain(old(Model()), now).1
      ensures delay == if when - now > MaxWait then MaxWait else when - now
      ensures 0 < delay <= MaxWait
      ensures timer == Some(Timer(delay))
    {
      var t;
      t, fired := Exec(now);
      if t > MaxWait {
        t := MaxWait;
      }
      delay := t;
      timer := Some(Timer(delay));
    }

    /**
     * `run(cb)`: take the first event with `next()` only right after a
     * reset (`idx == -1`), which throws when nothing is scheduled; then run
     * `_run` at clock reading `now`.
     */
    method Run(now: int) returns (err: Option<Error>, fired: seq<Event>, delay: int)
      requires Settled(Model())
      modifies this
      ensures err.Some? <==> old(idx) == -1 && |old(ctx)| == 0
      ensures err.Some? ==> err.value == NothingScheduled && unchanged(this)
      ensures err.None? ==>
                var primed := if old(idx) == -1 then Step(old(Model())) else old(Model());
                Settled(primed) && primed.idx >= 0 &&
                fired == Drain(primed, now).0 && Model() == Drain(primed, now).1 &&
                0 < delay <= MaxWait && timer == Some(Timer(delay))
    {
      fired, delay := [], 0;
      if idx == -1 {
        err := Next();
        if err.Some? {
          return;
        }
      }
      err := None;
      fired, delay := RunStep(now);
    }

    /**
     * `reset(intervals)`: cancel any pending timer, adopt the sources, and
     * prime one candidate per source with its first occurrence. An empty
     * list is accepted; the failure shows only at the next `next()`.
     */
    method Reset(sources: seq<Source>)
      requires forall i :: 0 <= i < |sources| ==> sources[i].Increasing() && sources[i].cursor == 0
      modifies this
      ensures timer == None && idx == -1 && when == old(when)
      ensures |ctx| == |intervals| == |sources|
      ensures forall i :: 0 <= i < |sources| ==>
                ctx[i] == sources[i].occ(0) && intervals[i] == Source(sources[i].occ, 1)
      ensures Settled(Model())
    {
      if timer.Some? {
        timer := None;
      }
      intervals := sources;
      ctx := [];
      idx := -1;
      var i := 0;
      while i < |sources|
        invariant 0 <= i <= |sources| && |intervals| == |sources| && |ctx| == i
        invariant timer == None && idx == -1 && when == old(when)
        invariant forall j :: 0 <= j < i ==> ctx[j] == sources[j].occ(0) && intervals[j] == Source(sources[j].occ, 1)
        invariant forall j :: i <= j < |sources| ==> intervals[j] == sources[j]
      {
        var (moved, t) := intervals[i].Next();
        intervals := intervals[i := moved];
        ctx := ctx + [t];
        i := i + 1;
      }
    }
  }
}
