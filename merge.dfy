/**
 * The merge that CronIterator (time-mode.js) performs over several cron
 * sources, stated on values: one candidate instant per source, the scan for
 * the earliest candidate, the step that consumes it, and the drain of every
 * event already due. The class in cron_iterator.dfy is proved against these
 * functions; the lemmas here say what the merged stream is.
 *
 * Instants are integer milliseconds.
 */
module Merge {

  /**
   * One parsed cron expression: its occurrences occ(0), occ(1), ... and how
   * many of them its iterator has produced so far (`cursor`).
   */
  datatype Source = Source(occ: nat -> int, cursor: nat) {

    /** The occurrences of a cron expression are strictly increasing. */
    ghost predicate Increasing() {
      forall j: nat, k: nat :: j < k ==> occ(j) < occ(k)
    }

    /** The iterator's `next()`: its next occurrence, and the iterator moved past it. */
    function Next(): (Source, int) {
      (Source(occ, cursor + 1), occ(cursor))
    }
  }

  /** A fired event: the index of its source and its instant, as handed to the callback. */
  datatype Event = Event(src: int, at: int)

  /** The order in which the merge emits events: by instant, then by source index. */
  predicate Before(a: Event, b: Event) {
    a.at < b.at || (a.at == b.at && a.src < b.src)
  }

  /** `i` is the first index holding the least candidate. */
  predicate IsFirstMin(ctx: seq<int>, i: int) {
    && 0 <= i < |ctx|
    && (forall j :: 0 <= j < |ctx| ==> ctx[i] <= ctx[j])
    && (forall j :: 0 <= j < i ==> ctx[i] < ctx[j])
  }

  /**
   * The scan in `next()` over the first `n` candidates: the comparison is
   * strict, so ties keep the lower index.
   */
  function ArgMinUpTo(ctx: seq<int>, n: nat): (i: nat)
    requires 0 < n <= |ctx|
    ensures i < n
    ensures forall j :: 0 <= j < n ==> ctx[i] <= ctx[j]
    ensures forall j :: 0 <= j < i ==> ctx[i] < ctx[j]
  {
    if n == 1 then 0
    else
      var j := ArgMinUpTo(ctx, n - 1);
      if ctx[n - 1] < ctx[j] then n - 1 else j
  }

  /** The index the scan in `next()` settles on: the first least candidate. */
  function ArgMin(ctx: seq<int>): (i: nat)
    requires |ctx| > 0
    ensures IsFirstMin(ctx, i)
  {
    ArgMinUpTo(ctx, |ctx|)
  }

  /**
   * The state of a CronIterator: its sources (`intervals`), one pending
   * candidate per source (`ctx`), and the last event taken (`when`, `idx`);
   * `idx == -1` means no event has been taken since the last reset.
   */
  datatype Merger = Merger(intervals: seq<Source>, ctx: seq<int>, when: int, idx: int)

  /** The last event taken from the merge. */
  function Frontier(m: Merger): Event {
    Event(m.idx, m.when)
  }

  /** Occurrence `k` of source `i`, as an event. */
  function Occurrence(m: Merger, i: int, k: nat): Event
    requires 0 <= i < |m.intervals|
  {
    Event(i, m.intervals[i].occ(k))
  }

  /** Every source is a cron sequence, and its candidate is the last occurrence its iterator produced. */
  ghost predicate WellFormed(m: Merger) {
    && |m.ctx| == |m.intervals|
    && forall i :: 0 <= i < |m.ctx| ==>
         && m.intervals[i].Increasing()
         && m.intervals[i].cursor >= 1
         && m.ctx[i] == m.intervals[i].occ(m.intervals[i].cursor - 1)
  }

  /**
   * The invariant of the merge. The frontier is an occurrence of its source
   * and splits all occurrences: those taken from the candidates so far
   * (occurrence k of source i with k + 1 < cursor) are exactly those not after
   * the frontier. Before the first step nothing has been taken.
   */
  ghost predicate Settled(m: Merger) {
    && WellFormed(m)
    && (m.idx == -1 || 0 <= m.idx < |m.ctx|)
    && (m.idx >= 0 ==>
          m.intervals[m.idx].cursor >= 2 &&
          m.when == m.intervals[m.idx].occ(m.intervals[m.idx].cursor - 2))
    && forall i, k: nat :: 0 <= i < |m.ctx| ==>
         (k + 1 < m.intervals[i].cursor <==>
          m.idx >= 0 && !Before(Frontier(m), Event(i, m.intervals[i].occ(k))))
  }

  /**
   * One `next()` on a non-empty iterator: take the first least candidate,
   * record it as `when`/`idx`, and replace that slot with its source's
   * following occurrence.
   */
  function Step(m: Merger): (r: Merger)
    requires 0 < |m.ctx| == |m.intervals|
    ensures |r.ctx| == |r.intervals| == |m.ctx| && 0 <= r.idx < |m.ctx|
  {
    var i := ArgMin(m.ctx);
    var (moved, t) := m.intervals[i].Next();
    Merger(m.intervals[i := moved], m.ctx[i := t], m.ctx[i], i)
  }

  /**
   * What one step does slot by slot: it takes the first least candidate,
   * replaces that slot with its source's following occurrence, and leaves
   * every other slot as it was.
   */
  lemma StepTakesFirstMin(m: Merger)
    requires 0 < |m.ctx| == |m.intervals|
    ensures var m' := Step(m);
      && IsFirstMin(m.ctx, m'.idx) && m'.when == m.ctx[m'.idx]
      && |m'.ctx| == |m.ctx|
      && m'.ctx[m'.idx] == m.intervals[m'.idx].occ(m.intervals[m'.idx].cursor)
      && forall i :: 0 <= i < |m.ctx| && i != m'.idx ==> m'.ctx[i] == m.ctx[i]
  {
  }

  /** Every candidate still pending comes strictly after the last event taken. */
  lemma CandidatesAfterFrontier(m: Merger)
    requires Settled(m) && m.idx >= 0
    ensures forall i :: 0 <= i < |m.ctx| ==> Before(Frontier(m), Event(i, m.ctx[i]))
  {
    forall i | 0 <= i < |m.ctx|
      ensures Before(Frontier(m), Event(i, m.ctx[i]))
    {
      var s := m.intervals[i];
      assert !(s.cursor - 1 + 1 < s.cursor);
    }
  }

  /** The event a step takes comes no later than any occurrence not yet taken. */
  lemma StepTakesEarliest(m: Merger, i: int, k: nat)
    requires WellFormed(m) && |m.ctx| > 0
    requires 0 <= i < |m.ctx| && k + 1 >= m.intervals[i].cursor
    ensures !Before(Occurrence(m, i, k), Frontier(Step(m)))
  {
    var s := m.intervals[i];
    if k + 1 > s.cursor {
      assert s.occ(s.cursor - 1) < s.occ(k);
    }
  }

  /** What a step does to slot `i`: the taken slot moves one occurrence on, any other stays. */
  lemma StepSlot(m: Merger, i: int)
    requires WellFormed(m) && 0 <= i < |m.ctx|
    ensures var j := ArgMin(m.ctx); var m' := Step(m);
      && |m'.ctx| == |m'.intervals| == |m.ctx|
      && m'.intervals[i] == (if i == j then Source(m.intervals[j].occ, m.intervals[j].cursor + 1) else m.intervals[i])
      && m'.intervals[i].Increasing() && m'.intervals[i].cursor >= 1
      && m'.ctx[i] == m'.intervals[i].occ(m'.intervals[i].cursor - 1)
  {
    var s := m.intervals[i];
    assert s.Increasing();
  }

  /** Every slot after a step, by StepSlot. */
  lemma StepSlots(m: Merger)
    requires WellFormed(m) && |m.ctx| > 0
    ensures var j := ArgMin(m.ctx); var m' := Step(m);
      forall i :: 0 <= i < |m.ctx| ==>
        && m'.intervals[i] == (if i == j then Source(m.intervals[j].occ, m.intervals[j].cursor + 1) else m.intervals[i])
        && m'.intervals[i].Increasing() && m'.intervals[i].cursor >= 1
        && m'.ctx[i] == m'.intervals[i].occ(m'.intervals[i].cursor - 1)
  {
    forall i | 0 <= i < |m.ctx|
      ensures var j := ArgMin(m.ctx); var m' := Step(m);
        && m'.intervals[i] == (if i == j then Source(m.intervals[j].occ, m.intervals[j].cursor + 1) else m.intervals[i])
        && m'.intervals[i].Increasing() && m'.intervals[i].cursor >= 1
        && m'.ctx[i] == m'.intervals[i].occ(m'.intervals[i].cursor - 1)
    {
      StepSlot(m, i);
    }
  }

  /** What a step changes: only the slot of the taken source, which moves one occurrence on. */
  lemma StepShape(m: Merger)
    requires WellFormed(m) && |m.ctx| > 0
    ensures var j := ArgMin(m.ctx); var m' := Step(m);
      && WellFormed(m')
      && m'.idx == j && m'.when == m.ctx[j]
      && m'.intervals[j] == Source(m.intervals[j].occ, m.intervals[j].cursor + 1)
      && forall i :: 0 <= i < |m.ctx| && i != j ==> m'.intervals[i] == m.intervals[i]
  {
    StepSlots(m);
  }

  /** A step moves one iterator on; it does not change any source's occurrences. */
  lemma StepKeepsOccurrences(m: Merger, i: int, k: nat)
    requires 0 < |m.ctx| == |m.intervals| && 0 <= i < |m.ctx|
    ensures Step(m).intervals[i].occ(k) == m.intervals[i].occ(k)
  {
    var j := ArgMin(m.ctx);
    if i == j {
      assert Step(m).intervals[i] == Source(m.intervals[j].occ, m.intervals[j].cursor + 1);
    }
  }

  /** Once something has been taken, a step takes an event strictly after it. */
  lemma StepAdvances(m: Merger)
    requires Settled(m) && |m.ctx| > 0 && m.idx >= 0
    ensures Before(Frontier(m), Frontier(Step(m)))
  {
    var j := ArgMin(m.ctx);
    var sj := m.intervals[j];
    assert Frontier(Step(m)) == Event(j, m.ctx[j]);
    assert m.ctx[j] == sj.occ(sj.cursor - 1);
    assert !(sj.cursor - 1 + 1 < sj.cursor);
  }

  /** After a step, occurrence k of source i has been taken exactly when it is not after the new frontier. */
  lemma StepSplits(m: Merger, i: int, k: nat)
    requires Settled(m) && |m.ctx| > 0 && 0 <= i < |m.ctx|
    ensures k + 1 < Step(m).intervals[i].cursor <==> !Before(Frontier(Step(m)), Occurrence(m, i, k))
  {
    var m' := Step(m);
    var j := ArgMin(m.ctx);
    StepShape(m);
    if m.idx >= 0 {
      StepAdvances(m);
    }
    var s := m.intervals[i];
    var e := Occurrence(m, i, k);
    if k + 1 < s.cursor {
      assert m.idx >= 0 && !Before(Frontier(m), e);
    } else if i != j || k + 1 == s.cursor {
      StepTakesEarliest(m, i, k);
    } else {
      assert s.occ(s.cursor - 1) < s.occ(k);
    }
  }

  /** A step keeps the invariant, and the event it takes comes strictly after the previous one. */
  lemma StepKeepsSettled(m: Merger)
    requires Settled(m) && |m.ctx| > 0
    ensures Settled(Step(m))
    ensures m.idx >= 0 ==> Before(Frontier(m), Frontier(Step(m)))
  {
    var m' := Step(m);
    StepShape(m);
    if m.idx >= 0 {
      StepAdvances(m);
    }
    forall i, k: nat | 0 <= i < |m'.ctx|
      ensures k + 1 < m'.intervals[i].cursor <==>
              m'.idx >= 0 && !Before(Frontier(m'), Event(i, m'.intervals[i].occ(k)))
    {
      StepSplits(m, i, k);
      assert m'.intervals[i].occ == m.intervals[i].occ;
    }
  }

  /**
   * The drain performed by `_exec` at clock reading `now`: while the taken
   * event is not after `now`, hand it to the callback and step. Yields the
   * events handed over, in order, and the final state, whose taken event is
   * in the future.
   */
  ghost function Drain(m: Merger, now: int): (r: (seq<Event>, Merger))
    requires Settled(m) && m.idx >= 0
    ensures Settled(r.1) && r.1.idx >= 0 && now < r.1.when
    decreases if m.when <= now then now - m.when + 1 else 0, |m.ctx| - m.idx
  {
    if now < m.when then ([], m)
    else
      StepKeepsSettled(m);
      var r' := Drain(Step(m), now);
      ([Frontier(m)] + r'.0, r'.1)
  }

  /** A drain whose pending event is in the future hands over nothing and changes nothing. */
  lemma DrainIdle(m: Merger, now: int)
    requires Settled(m) && m.idx >= 0 && now < m.when
    ensures Drain(m, now) == ([], m)
  {
  }

  /** One round of the drain: hand over the pending event, step, and drain on. */
  lemma DrainUnfold(m: Merger, now: int)
    requires Settled(m) && m.idx >= 0 && m.when <= now
    ensures |m.ctx| > 0 && Settled(Step(m)) && Step(m).idx >= 0
    ensures Before(Frontier(m), Frontier(Step(m)))
    ensures Drain(m, now) == ([Frontier(m)] + Drain(Step(m), now).0, Drain(Step(m), now).1)
  {
    StepKeepsSettled(m);
  }

  /**
   * The drain hands over events in strictly increasing order (by instant,
   * ties by ascending source index), none after `now`, none before the event
   * pending at the start, all before the event left pending at the end.
   */
  lemma {:induction false} DrainOrdered(m: Merger, now: int)
    requires Settled(m) && m.idx >= 0
    ensures forall a, b :: 0 <= a < b < |Drain(m, now).0| ==> Before(Drain(m, now).0[a], Drain(m, now).0[b])
    ensures forall e :: e in Drain(m, now).0 ==>
              e.at <= now && !Before(e, Frontier(m)) && Before(e, Frontier(Drain(m, now).1))
    decreases if m.when <= now then now - m.when + 1 else 0, |m.ctx| - m.idx
  {
    if m.when <= now {
      DrainUnfold(m, now);
      var m' := Step(m);
      DrainOrdered(m', now);
      OrderedCons(Frontier(m), Frontier(m'), Drain(m', now).0, Frontier(Drain(m', now).1), now);
    }
  }

  /** Putting an earlier event in front of an ordered run keeps it ordered and bounded. */
  lemma OrderedCons(f: Event, f': Event, rest: seq<Event>, last: Event, now: int)
    requires Before(f, f') && f.at <= now
    requires forall a, b :: 0 <= a < b < |rest| ==> Before(rest[a], rest[b])
    requires forall e :: e in rest ==> e.at <= now && !Before(e, f') && Before(e, last)
    requires rest == [] ==> Before(f, last)
    ensures var run := [f] + rest;
      && (forall a, b :: 0 <= a < b < |run| ==> Before(run[a], run[b]))
      && (forall e :: e in run ==> e.at <= now && !Before(e, f) && Before(e, last))
  {
    var run := [f] + rest;
    forall a, b | 0 <= a < b < |run| ensures Before(run[a], run[b]) {
      if a > 0 {
        assert run[a] == rest[a - 1] && run[b] == rest[b - 1];
      } else {
        assert run[b] in rest;
      }
    }
    if rest != [] {
      assert rest[0] in rest;
    }
  }

  /** Event `e` names a source of `m` and falls on one of its occurrences. */
  ghost predicate IsOccurrence(m: Merger, e: Event) {
    0 <= e.src < |m.intervals| && exists k: nat :: e.at == m.intervals[e.src].occ(k)
  }

  /** The pending event is an occurrence of its source. */
  lemma FrontierIsOccurrence(m: Merger)
    requires Settled(m) && m.idx >= 0
    ensures IsOccurrence(m, Frontier(m))
  {
    var s := m.intervals[m.idx];
    assert m.when == s.occ(s.cursor - 2);
  }

  /** A step leaves every source's occurrences as they were. */
  lemma StepKeepsIsOccurrence(m: Merger, e: Event)
    requires 0 < |m.ctx| == |m.intervals| && IsOccurrence(Step(m), e)
    ensures IsOccurrence(m, e)
  {
    var k: nat :| e.at == Step(m).intervals[e.src].occ(k);
    StepKeepsOccurrences(m, e.src, k);
  }

  /** Every event the drain hands over is an occurrence of the source it names. */
  lemma {:induction false} DrainGenuine(m: Merger, now: int)
    requires Settled(m) && m.idx >= 0
    ensures forall e :: e in Drain(m, now).0 ==> IsOccurrence(m, e)
    decreases if m.when <= now then now - m.when + 1 else 0, |m.ctx| - m.idx
  {
    if m.when <= now {
      DrainUnfold(m, now);
      var m' := Step(m);
      DrainGenuine(m', now);
      FrontierIsOccurrence(m);
      forall e | e in Drain(m', now).0
        ensures IsOccurrence(m, e)
      {
        StepKeepsIsOccurrence(m, e);
      }
    }
  }

  /**
   * Nothing is skipped: every occurrence not before the pending event and not
   * after `now` is handed over by the drain.
   */
  lemma {:induction false} DrainComplete(m: Merger, now: int, i: int, k: nat)
    requires Settled(m) && m.idx >= 0
    requires 0 <= i < |m.ctx| && m.intervals[i].occ(k) <= now
    requires !Before(Occurrence(m, i, k), Frontier(m))
    ensures Occurrence(m, i, k) in Drain(m, now).0
    decreases if m.when <= now then now - m.when + 1 else 0, |m.ctx| - m.idx
  {
    var e := Occurrence(m, i, k);
    if e != Frontier(m) {
      assert Before(Frontier(m), e);
      assert !(k + 1 < m.intervals[i].cursor);
      StepKeepsSettled(m);
      StepTakesEarliest(m, i, k);
      var m' := Step(m);
      assert m'.intervals[i].occ == m.intervals[i].occ;
      DrainComplete(m', now, i, k);
    }
  }

  /**
   * Catch-up: right after a reset, the first step and one drain hand over
   * every occurrence of every source whose instant is not after `now`.
   */
  lemma CatchUp(m: Merger, now: int, i: int, k: nat)
    requires Settled(m) && m.idx == -1 && 0 <= i < |m.ctx|
    requires m.intervals[i].occ(k) <= now
    ensures Settled(Step(m)) && Step(m).idx >= 0
    ensures Occurrence(m, i, k) in Drain(Step(m), now).0
  {
    StepKeepsSettled(m);
    assert !(0 + 1 < m.intervals[i].cursor) by {
      assert m.idx >= 0 || Occurrence(m, i, 0).at == m.intervals[i].occ(0);
    }
    StepTakesEarliest(m, i, k);
    StepKeepsOccurrences(m, i, k);
    DrainComplete(Step(m), now, i, k);
  }
}
