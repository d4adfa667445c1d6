/** The fixed-window rate limiter of activation: one counter row a window, and an occasional cleanup. */
module RateLimit {
  import opened Wrappers

  datatype Dimension = Source | Token

  /** A row's unique key: dimension, bucket key and window start, in milliseconds. */
  datatype Bucket = Bucket(dimension: Dimension, key: string, windowStart: int)

  const RETENTION_MS: int := 24 * 60 * 60 * 1000

  function Window(d: Dimension): (ms: int)
    ensures 0 < ms <= RETENTION_MS
  {
    match d
    case Source => 15 * 60 * 1000
    case Token => 60 * 60 * 1000
  }

  function Limit(d: Dimension): nat {
    match d
    case Source => 30
    case Token => 10
  }

  /** 30 requests a quarter of an hour from one source, 10 an hour on one token, kept for a day. */
  lemma PublishedLimits()
    ensures Limit(Source) == 30 && Window(Source) == 900_000
    ensures Limit(Token) == 10 && Window(Token) == 3_600_000
    ensures RETENTION_MS == 86_400_000
  {
  }

  function FloorToWindow(now: int, window: int): (start: int)
    requires window > 0
    ensures start <= now < start + window
  {
    now / window * window
  }

  function BucketOf(d: Dimension, key: string, now: int): Bucket {
    Bucket(d, key, FloorToWindow(now, Window(d)))
  }

  function Incremented(rows: map<Bucket, nat>, b: Bucket): map<Bucket, nat> {
    rows[b := if b in rows then rows[b] + 1 else 1]
  }

  function Cleaned(rows: map<Bucket, nat>, now: int): map<Bucket, nat> {
    map b | b in rows && b.windowStart >= now - RETENTION_MS :: rows[b]
  }

  class Limiter {
    var rows: map<Bucket, nat>

    constructor ()
      ensures rows == map[]
    {
      rows := map[];
    }

    /** Upsert and compare: the request that makes the count exceed the limit is the first refused. */
    method IncrementAndCheck(d: Dimension, key: string, now: int) returns (limited: bool)
      modifies this
      ensures rows == Incremented(old(rows), BucketOf(d, key, now))
      ensures limited <==> rows[BucketOf(d, key, now)] > Limit(d)
    {
      var b := BucketOf(d, key, now);
      if b in rows {
        rows := rows[b := rows[b] + 1];
      } else {
        rows := rows[b := 1];
      }
      limited := rows[b] > Limit(d);
    }

    method Cleanup(now: int)
      modifies this
      ensures rows == Cleaned(old(rows), now)
    {
      rows := map b | b in rows && b.windowStart >= now - RETENTION_MS :: rows[b];
    }
  }

  // ---------------------------------------------------------------- runs

  datatype Event = Arrive(dimension: Dimension, key: string, now: int) | Clean(now: int)

  datatype Entry = Entry(bucket: Bucket, now: int, admitted: bool)

  /** The table, every decision so far, and the latest instant before which some cleanup deleted. */
  datatype State = State(rows: map<Bucket, nat>, log: seq<Entry>, cutoff: Option<int>)

  const START := State(map[], [], None)

  function Later(cutoff: Option<int>, t: int): Option<int> {
    if cutoff.None? || cutoff.value < t then Some(t) else cutoff
  }

  function Step(s: State, e: Event): State {
    match e
    case Arrive(d, key, now) =>
      var b := BucketOf(d, key, now);
      var rows := Incremented(s.rows, b);
      State(rows, s.log + [Entry(b, now, rows[b] <= Limit(d))], s.cutoff)
    case Clean(now) => State(Cleaned(s.rows, now), s.log, Later(s.cutoff, now - RETENTION_MS))
  }

  function Run(events: seq<Event>): State {
    if events == [] then START else Step(Run(events[..|events| - 1]), events[|events| - 1])
  }

  /** No request falls in a window that some cleanup may already have deleted. */
  predicate InTime(s: State, e: Event) {
    e.Arrive? ==> s.cutoff.None? || BucketOf(e.dimension, e.key, e.now).windowStart >= s.cutoff.value
  }

  predicate Steady(events: seq<Event>) {
    events == [] || (Steady(events[..|events| - 1]) && InTime(Run(events[..|events| - 1]), events[|events| - 1]))
  }

  predicate NonDecreasing(events: seq<Event>) {
    forall i, j | 0 <= i < j < |events| :: events[i].now <= events[j].now
  }

  function Arrivals(log: seq<Entry>, b: Bucket): nat {
    if log == [] then 0 else Arrivals(log[..|log| - 1], b) + if log[|log| - 1].bucket == b then 1 else 0
  }

  function Admitted(log: seq<Entry>, b: Bucket): nat {
    if log == [] then 0
    else Admitted(log[..|log| - 1], b) + if log[|log| - 1].bucket == b && log[|log| - 1].admitted then 1 else 0
  }

  /** Requests of one bucket key admitted from `lo` on and before `hi`. */
  function AdmittedBetween(log: seq<Entry>, d: Dimension, key: string, lo: int, hi: int): nat {
    if log == [] then 0
    else
      var last := log[|log| - 1];
      AdmittedBetween(log[..|log| - 1], d, key, lo, hi)
      + if last.bucket.dimension == d && last.bucket.key == key && lo <= last.now < hi && last.admitted then 1 else 0
  }

  function Min(a: nat, b: nat): nat {
    if a < b then a else b
  }

  ghost predicate Exact(s: State) {
    forall b ::
      && Admitted(s.log, b) == Min(Arrivals(s.log, b), Limit(b.dimension))
      && (b in s.rows ==> s.rows[b] == Arrivals(s.log, b))
      && (b !in s.rows && Arrivals(s.log, b) > 0 ==> s.cutoff.Some? && b.windowStart < s.cutoff.value)
  }

  lemma LogOne(log: seq<Entry>, e: Entry, b: Bucket)
    ensures Arrivals(log + [e], b) == Arrivals(log, b) + if e.bucket == b then 1 else 0
    ensures Admitted(log + [e], b) == Admitted(log, b) + if e.bucket == b && e.admitted then 1 else 0
  {
    assert (log + [e])[..|log|] == log;
  }

  /** The row of the arrival's bucket is still there, or the bucket never had one. */
  predicate RowIsCurrent(s: State, e: Event) {
    e.Arrive? ==>
      var b := BucketOf(e.dimension, e.key, e.now);
      b in s.rows || Arrivals(s.log, b) == 0
  }

  /** What one arrival does to the counts of a bucket. */
  lemma ArrivalCounts(s: State, e: Event, b: Bucket)
    requires e.Arrive?
    ensures var s' := Step(s, e);
            var own := BucketOf(e.dimension, e.key, e.now);
            && own in s'.rows && s'.rows[own] == (if own in s.rows then s.rows[own] + 1 else 1)
            && (b != own ==> (b in s'.rows <==> b in s.rows) && (b in s.rows ==> s'.rows[b] == s.rows[b]))
            && Arrivals(s'.log, b) == Arrivals(s.log, b) + (if b == own then 1 else 0)
            && Admitted(s'.log, b) == Admitted(s.log, b) + (if b == own && s'.rows[own] <= Limit(b.dimension) then 1 else 0)
  {
    LogOne(s.log, Step(s, e).log[|s.log|], b);
  }

  lemma CleaningIsExact(s: State, now: int)
    requires Exact(s)
    ensures Exact(Step(s, Clean(now)))
  {
    hide Arrivals, Admitted;
  }

  /** Rows go on counting every arrival over a step exactly when the arrival's row was not deleted before. */
  lemma StepKeepsExactIff(s: State, e: Event)
    requires Exact(s)
    ensures Exact(Step(s, e)) <==> RowIsCurrent(s, e)
  {
    hide Step, BucketOf, Arrivals, Admitted, Limit;
    var s' := Step(s, e);
    if e.Clean? {
      CleaningIsExact(s, e.now);
    } else if RowIsCurrent(s, e) {
      forall b
        ensures Admitted(s'.log, b) == Min(Arrivals(s'.log, b), Limit(b.dimension))
        ensures b in s'.rows ==> s'.rows[b] == Arrivals(s'.log, b)
        ensures b !in s'.rows && Arrivals(s'.log, b) > 0 ==> s'.cutoff.Some? && b.windowStart < s'.cutoff.value
      {
        ArrivalCounts(s, e, b);
        ArrivalKeepsCutoff(s, e);
      }
    } else {
      ArrivalCounts(s, e, BucketOf(e.dimension, e.key, e.now));
    }
  }

  lemma ArrivalKeepsCutoff(s: State, e: Event)
    requires e.Arrive?
    ensures Step(s, e).cutoff == s.cutoff
  {
  }

  /** While no request falls behind a cleanup, every row that matters counts every arrival of its window. */
  lemma {:induction false} RunIsExact(events: seq<Event>)
    requires Steady(events)
    ensures Exact(Run(events))
  {
    if events != [] {
      RunIsExact(events[..|events| - 1]);
      StepKeepsExactIff(Run(events[..|events| - 1]), events[|events| - 1]);
    }
  }

  lemma {:induction false} CutoffIsPast(events: seq<Event>, t: int)
    requires forall i | 0 <= i < |events| :: events[i].now <= t
    ensures Run(events).cutoff.Some? ==> Run(events).cutoff.value <= t - RETENTION_MS
  {
    if events != [] {
      CutoffIsPast(events[..|events| - 1], t);
    }
  }

  /** With a clock that never runs backwards, cleanup only deletes rows that no request can reach any more. */
  lemma {:induction false} NonDecreasingIsSteady(events: seq<Event>)
    requires NonDecreasing(events)
    ensures Steady(events)
  {
    if events != [] {
      var n := |events| - 1;
      NonDecreasingIsSteady(events[..n]);
      CutoffIsPast(events[..n], events[n].now);
    }
  }

  // ---------------------------------------------------------------- exactly when the limit is kept

  /** The same over a run: all its states count exactly when no request comes back to a deleted row. */
  lemma {:induction false} RunStaysExactIff(events: seq<Event>)
    ensures (forall n | 0 <= n <= |events| :: Exact(Run(events[..n])))
            <==> forall n | 0 <= n < |events| :: RowIsCurrent(Run(events[..n]), events[n])
  {
    hide Run, Exact, RowIsCurrent;
    if events == [] {
      assert events[..0] == [];
      EmptyIsExact();
    } else {
      var last := |events| - 1;
      RunStaysExactIff(events[..last]);
      LastStep(events);
      forall n | 0 <= n <= last ensures events[..last][..n] == events[..n] {
      }
      assert events[..|events|] == events;
      if Exact(Run(events[..last])) {
        StepKeepsExactIff(Run(events[..last]), events[last]);
      }
    }
  }

  lemma EmptyIsExact()
    ensures Run([]) == START && Exact(Run([]))
  {
  }

  lemma LastStep(events: seq<Event>)
    requires events != []
    ensures Run(events) == Step(Run(events[..|events| - 1]), events[|events| - 1])
  {
  }

  /** Each bucket has admitted exactly the first `limit` arrivals of its window. */
  ghost predicate Kept(s: State) {
    forall b :: Admitted(s.log, b) == Min(Arrivals(s.log, b), Limit(b.dimension))
  }

  /** What holds however late requests come: rows may forget arrivals but never invent any. */
  ghost predicate Bounded(s: State) {
    forall b ::
      && Min(Arrivals(s.log, b), Limit(b.dimension)) <= Admitted(s.log, b) <= Arrivals(s.log, b)
      && (b in s.rows ==> s.rows[b] <= Arrivals(s.log, b))
  }

  /** The request finds its window not yet full, or its row showing that it is. */
  predicate SeesFullWindow(s: State, e: Event) {
    e.Arrive? ==>
      var b := BucketOf(e.dimension, e.key, e.now);
      Arrivals(s.log, b) >= Limit(e.dimension) ==> b in s.rows && s.rows[b] >= Limit(e.dimension)
  }

  lemma StepKeepsLimitIff(s: State, e: Event)
    requires Bounded(s)
    ensures Bounded(Step(s, e))
    ensures Kept(Step(s, e)) <==> Kept(s) && SeesFullWindow(s, e)
  {
    hide Arrivals, Admitted;
    var s' := Step(s, e);
    if e.Arrive? {
      hide Step, BucketOf, Limit;
      var own := BucketOf(e.dimension, e.key, e.now);
      BucketDimension(e);
      forall b
        ensures Min(Arrivals(s'.log, b), Limit(b.dimension)) <= Admitted(s'.log, b) <= Arrivals(s'.log, b)
        ensures b in s'.rows ==> s'.rows[b] <= Arrivals(s'.log, b)
        ensures Admitted(s'.log, b) == Min(Arrivals(s'.log, b), Limit(b.dimension)) <==>
                Admitted(s.log, b) == Min(Arrivals(s.log, b), Limit(b.dimension)) && (b == own ==> SeesFullWindow(s, e))
      {
        ArrivalCounts(s, e, b);
        LimitsArePositive(b.dimension);
      }
    }
  }

  lemma BucketDimension(e: Event)
    requires e.Arrive?
    ensures BucketOf(e.dimension, e.key, e.now).dimension == e.dimension
  {
  }

  lemma LimitsArePositive(d: Dimension)
    ensures Limit(d) >= 1
  {
  }

  /** The limit is kept by a run exactly when every request to a full window finds the row that shows it. */
  lemma {:induction false} AdmitsMinOfArrivalsAndLimitIff(events: seq<Event>)
    ensures Bounded(Run(events))
    ensures Kept(Run(events)) <==> forall n | 0 <= n < |events| :: SeesFullWindow(Run(events[..n]), events[n])
  {
    hide Run, Kept, Bounded, SeesFullWindow;
    if events == [] {
      EmptyIsKept();
    } else {
      var last := |events| - 1;
      AdmitsMinOfArrivalsAndLimitIff(events[..last]);
      LastStep(events);
      forall n | 0 <= n < last ensures events[..last][..n] == events[..n] {
      }
      StepKeepsLimitIff(Run(events[..last]), events[last]);
    }
  }

  lemma EmptyIsKept()
    ensures Kept(Run([])) && Bounded(Run([]))
  {
  }

  /** In particular a run in which no request falls behind a cleanup keeps it. */
  lemma SteadyRunsKeepTheLimit(events: seq<Event>)
    requires Steady(events)
    ensures Kept(Run(events))
  {
    RunIsExact(events);
  }

  lemma {:induction false} EntriesAreAligned(events: seq<Event>)
    ensures forall i | 0 <= i < |Run(events).log| ::
              var e := Run(events).log[i];
              e.bucket.windowStart == FloorToWindow(e.now, Window(e.bucket.dimension))
  {
    if events != [] {
      EntriesAreAligned(events[..|events| - 1]);
    }
  }

  lemma {:induction false} BetweenSplits(log: seq<Entry>, d: Dimension, key: string, t: int)
    requires forall i | 0 <= i < |log| :: log[i].bucket.windowStart == FloorToWindow(log[i].now, Window(log[i].bucket.dimension))
    ensures var w, first := Window(d), FloorToWindow(t, Window(d));
            AdmittedBetween(log, d, key, t, t + w)
            <= Admitted(log, Bucket(d, key, first)) + Admitted(log, Bucket(d, key, first + w))
  {
    if log != [] {
      var n := |log| - 1;
      BetweenSplits(log[..n], d, key, t);
      if log[n].bucket.dimension == d && t <= log[n].now < t + Window(d) {
        NextWindow(t, log[n].now, Window(d));
      }
    }
  }

  lemma NextWindow(t: int, now: int, w: int)
    requires w > 0 && t <= now < t + w
    ensures FloorToWindow(now, w) == FloorToWindow(t, w) || FloorToWindow(now, w) == FloorToWindow(t, w) + w
  {
    var a, b := t / w, now / w;
    assert (a + 1) * w == a * w + w && (a + 2) * w == a * w + 2 * w && (b + 1) * w == b * w + w;
    if b >= a + 2 {
      MultiplesGrow(a + 2, b, w);
      assert false;
    }
    if b < a {
      MultiplesGrow(b + 1, a, w);
      assert false;
    }
  }

  lemma MultiplesGrow(x: int, y: int, w: int)
    requires w > 0 && x <= y
    ensures x * w <= y * w
  {
    assert (y - x) * w >= 0;
    assert (y - x) * w == y * w - x * w;
  }

  /** While the limit is kept, any interval of one window length admits at most twice the limit. */
  lemma AtMostTwiceTheLimit(events: seq<Event>, d: Dimension, key: string, t: int)
    requires Kept(Run(events))
    ensures AdmittedBetween(Run(events).log, d, key, t, t + Window(d)) <= 2 * Limit(d)
  {
    EntriesAreAligned(events);
    BetweenSplits(Run(events).log, d, key, t);
  }

  function Repeat(e: Event, n: nat): (events: seq<Event>)
    ensures |events| == n && forall i | 0 <= i < n :: events[i] == e
  {
    if n == 0 then [] else Repeat(e, n - 1) + [e]
  }

  lemma {:induction false} RepeatedArrivals(d: Dimension, key: string, now: int, n: nat)
    ensures Arrivals(Run(Repeat(Arrive(d, key, now), n)).log, BucketOf(d, key, now)) == n
  {
    hide Run, Step, BucketOf;
    if n == 0 {
      EmptyIsExact();
    } else {
      var e := Arrive(d, key, now);
      RepeatedArrivals(d, key, now, n - 1);
      LastStep(Repeat(e, n));
      ArrivalCounts(Run(Repeat(e, n - 1)), e, BucketOf(d, key, now));
      assert Repeat(e, n)[..n - 1] == Repeat(e, n - 1);
    }
  }

  /** A window is filled; a request more than a day ahead runs a cleanup; the window is asked once more. */
  function LateRun(d: Dimension, key: string, now: int): seq<Event> {
    var ahead := now + 2 * RETENTION_MS;
    Repeat(Arrive(d, key, now), Limit(d)) + [Arrive(d, key, ahead)] + [Clean(ahead)] + [Arrive(d, key, now)]
  }

  lemma FilledWindow(d: Dimension, key: string, now: int)
    ensures Admitted(Run(Repeat(Arrive(d, key, now), Limit(d))).log, BucketOf(d, key, now)) == Limit(d)
  {
    RepeatedArrivals(d, key, now, Limit(d));
    NonDecreasingIsSteady(Repeat(Arrive(d, key, now), Limit(d)));
    SteadyRunsKeepTheLimit(Repeat(Arrive(d, key, now), Limit(d)));
  }

  lemma OneMore(events: seq<Event>, e: Event)
    ensures Run(events + [e]) == Step(Run(events), e)
  {
    assert (events + [e])[..|events|] == events;
  }

  /** Such a run admits one request too many: behind a cleanup the count starts afresh. */
  lemma LateRunExceedsTheLimit(d: Dimension, key: string, now: int)
    ensures Admitted(Run(LateRun(d, key, now)).log, BucketOf(d, key, now)) == Limit(d) + 1
  {
    hide Run, Step, Repeat, Arrivals, Admitted;
    var e, b, ahead := Arrive(d, key, now), BucketOf(d, key, now), now + 2 * RETENTION_MS;
    var fill := Repeat(e, Limit(d));
    var later := fill + [Arrive(d, key, ahead)];
    var cleaned := later + [Clean(ahead)];
    FilledWindow(d, key, now);
    OneMore(fill, Arrive(d, key, ahead));
    OneMore(later, Clean(ahead));
    OneMore(cleaned, e);
    ArrivalCounts(Run(fill), Arrive(d, key, ahead), b);
    ArrivalCounts(Run(cleaned), e, b);
    CleanedAway(Run(later), b, now);
  }

  lemma CleanedAway(s: State, b: Bucket, now: int)
    requires b.windowStart <= now
    ensures var s' := Step(s, Clean(now + 2 * RETENTION_MS)); b !in s'.rows && s'.log == s.log
  {
  }
}
