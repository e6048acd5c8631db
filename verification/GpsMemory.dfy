/** How many rows the breadcrumb buffer can hold through repeated failed flushes. */
module GpsMemory {
  import opened Sequences
  import opened GpsBuffer

  /** Rows of `s` that have failed exactly `a` times. */
  ghost function Cohort(s: seq<Crumb>, a: nat): nat {
    if s == [] then 0 else Cohort(s[..|s| - 1], a) + if s[|s| - 1].attempts == a then 1 else 0
  }

  ghost predicate Young(s: seq<Crumb>) { forall c :: c in s ==> c.attempts < MAX_ATTEMPTS }

  /** Each cohort fits the cap, and while a flush is in flight only untried rows are buffered. */
  ghost predicate Bounded(g: Log) {
    && Young(g.buffer) && Young(InFlight(g))
    && (forall a :: Cohort(g.buffer, a) <= MAX_BUFFERED && Cohort(InFlight(g), a) <= MAX_BUFFERED)
    && (g.flushing.Some? ==> forall c :: c in g.buffer ==> c.attempts == 0)
  }

  lemma {:induction false} CohortJoins(s: seq<Crumb>, t: seq<Crumb>, a: nat)
    ensures Cohort(s + t, a) == Cohort(s, a) + Cohort(t, a)
  {
    if t == [] {
      assert s + t == s;
    } else {
      CohortJoins(s, t[..|t| - 1], a);
      assert (s + t)[..|s + t| - 1] == s + t[..|t| - 1];
    }
  }

  lemma {:induction false} CohortAtMost(s: seq<Crumb>, a: nat)
    ensures Cohort(s, a) <= |s|
    ensures (forall c :: c in s ==> c.attempts != a) ==> Cohort(s, a) == 0
    ensures (forall c :: c in s ==> c.attempts == a) ==> Cohort(s, a) == |s|
  {
    if s != [] {
      CohortAtMost(s[..|s| - 1], a);
      assert s[|s| - 1] in s && forall c :: c in s[..|s| - 1] ==> c in s;
    }
  }

  lemma {:induction false} CohortsSum(s: seq<Crumb>)
    requires Young(s)
    ensures |s| == Cohort(s, 0) + Cohort(s, 1) + Cohort(s, 2)
  {
    if s != [] {
      assert s[|s| - 1] in s && forall c :: c in s[..|s| - 1] ==> c in s;
      CohortsSum(s[..|s| - 1]);
    }
  }

  /** A failed flush moves each cohort up by one and gives up the last. */
  lemma {:induction false} RetryCohorts(batch: seq<Crumb>, a: nat)
    ensures Cohort(Retry(batch), a) == if 0 < a < MAX_ATTEMPTS then Cohort(batch, a - 1) else 0
  {
    if batch != [] {
      var init, last := batch[..|batch| - 1], batch[|batch| - 1];
      assert init + [last] == batch;
      RetryCohorts(init, a);
      RetryGrows(init, last);
      CohortPush(init, last, if a > 0 then a - 1 else 0);
      CohortPush(Retry(init), last.(attempts := last.attempts + 1), a);
    }
  }

  lemma CohortPush(s: seq<Crumb>, c: Crumb, a: nat)
    ensures Cohort(s + [c], a) == Cohort(s, a) + if c.attempts == a then 1 else 0
  {
    assert (s + [c])[..|s|] == s;
  }

  lemma PushBounded(g: Log, row: Row)
    requires Bounded(g)
    ensures Bounded(Push(g, row))
  {
    var longer := g.buffer + [Crumb(row, 0, |g.rows|)];
    var cut := Excess(longer);
    var kept := longer[cut..];
    assert forall c :: c in kept ==> c in longer;
    forall a: nat ensures Cohort(kept, a) <= MAX_BUFFERED { CohortAtMost(kept, a); CohortGrowsOnlyAtZero(g, row, a); }
  }

  lemma CohortGrowsOnlyAtZero(g: Log, row: Row, a: nat)
    ensures var longer := g.buffer + [Crumb(row, 0, |g.rows|)];
      |longer| <= MAX_BUFFERED ==> Cohort(longer, a) <= MAX_BUFFERED
  {
    CohortAtMost(g.buffer + [Crumb(row, 0, |g.rows|)], a);
  }

  lemma FailedBounded(g: Log)
    requires Bounded(g) && g.flushing.Some?
    ensures Bounded(Step(g, Failed))
  {
    var batch := g.flushing.value;
    forall c | c in Retry(batch) ensures c.attempts < MAX_ATTEMPTS { RetryRows(batch, c); }
    forall a: nat ensures Cohort(Retry(batch) + g.buffer, a) <= MAX_BUFFERED {
      CohortJoins(Retry(batch), g.buffer, a);
      RetryCohorts(batch, a);
      CohortAtMost(g.buffer, a);
      if a > 0 { assert Cohort(batch, a - 1) <= MAX_BUFFERED; }
    }
  }

  lemma StepBounded(g: Log, e: Event)
    requires Bounded(g)
    ensures Bounded(Step(g, e))
  {
    match e
    case Enqueue(row) => PushBounded(g, row);
    case Failed => if g.flushing.Some? { FailedBounded(g); }
    case _ =>
  }

  lemma {:induction false} RunBounded(g: Log, events: seq<Event>)
    requires Bounded(g)
    ensures Bounded(Run(g, events))
    decreases |events|
  {
    if events != [] {
      StepBounded(g, events[0]);
      RunBounded(Step(g, events[0]), events[1..]);
    }
  }

  lemma EmptyBounded()
    ensures Bounded(Empty())
  {
  }

  /** Through any run the buffer holds at most `MAX_ATTEMPTS` times the cap, and at most the cap while a flush is in
      flight; with the batch, memory holds at most one cap more. */
  lemma MemoryBound(events: seq<Event>)
    ensures var g := Run(Empty(), events);
      && |g.buffer| <= MAX_ATTEMPTS * MAX_BUFFERED
      && (g.flushing.Some? ==> |g.buffer| <= MAX_BUFFERED)
      && |g.buffer| + |InFlight(g)| <= (MAX_ATTEMPTS + 1) * MAX_BUFFERED
  {
    EmptyBounded();
    RunBounded(Empty(), events);
    CapInFlight(Run(Empty(), events));
    CohortsSum(Run(Empty(), events).buffer);
    CohortsSum(InFlight(Run(Empty(), events)));
  }

  lemma CapInFlight(g: Log)
    requires Bounded(g)
    ensures g.flushing.Some? ==> |g.buffer| <= MAX_BUFFERED
  {
    CohortAtMost(g.buffer, 0);
  }

  // ----- When the cap holds -----

  /** Failing now, the batch in flight would put back more rows than the buffer has room for. */
  ghost predicate WouldOverfill(g: Log) {
    g.flushing.Some? && Cohort(g.flushing.value, 0) + Cohort(g.flushing.value, 1) + |g.buffer| > MAX_BUFFERED
  }

  /** The outcome of an INSERT. */
  predicate IsOutcome(e: Event) { e.Inserted? || e.Failed? }

  lemma RetrySize(batch: seq<Crumb>)
    ensures |Retry(batch)| == Cohort(batch, 0) + Cohort(batch, 1)
  {
    forall c | c in Retry(batch) ensures c.attempts < MAX_ATTEMPTS { RetryRows(batch, c); }
    CohortsSum(Retry(batch));
    RetryCohorts(batch, 0);
    RetryCohorts(batch, 1);
    RetryCohorts(batch, 2);
  }

  /** One event leaves the buffer over the cap exactly when it is the failure of a batch that overfills it, or nothing
      happened to a buffer that was over the cap before. */
  lemma StepOverCap(g: Log, e: Event)
    requires Bounded(g)
    ensures |Step(g, e).buffer| > MAX_BUFFERED
       <==> (e.Failed? && WouldOverfill(g)) || (IsOutcome(e) && |g.buffer| > MAX_BUFFERED)
  {
    CapInFlight(g);
    if g.flushing.Some? { RetrySize(g.flushing.value); }
  }

  lemma {:induction false} RunJoins(g: Log, first: seq<Event>, second: seq<Event>)
    ensures Run(g, first + second) == Run(Run(g, first), second)
    decreases |first|
  {
    if first == [] {
      assert first + second == second;
    } else {
      assert (first + second)[1..] == first[1..] + second;
      RunJoins(Step(g, first[0]), first[1..], second);
    }
  }

  /** Event `i` of a run from the start is a failure that overfills the buffer, and no enqueue or flush follows it. */
  ghost predicate OverfilledAt(events: seq<Event>, i: nat) {
    && i < |events| && events[i].Failed? && WouldOverfill(Run(Empty(), events[..i]))
    && forall j :: i < j < |events| ==> IsOutcome(events[j])
  }

  /** `MAX_BUFFERED` caps the buffer of every reachable state except from a failure that overfills it to the next
      enqueue or flush. */
  lemma {:induction false} CapFailsExactly(events: seq<Event>)
    ensures |Run(Empty(), events).buffer| > MAX_BUFFERED <==> exists i :: OverfilledAt(events, i)
    decreases |events|
  {
    if events != [] {
      var n := |events| - 1;
      var init, e := events[..n], events[n];
      assert events == init + [e];
      CapFailsExactly(init);
      EmptyBounded();
      RunBounded(Empty(), init);
      var g := Run(Empty(), init);
      StepOverCap(g, e);
      RunJoins(Empty(), init, [e]);
      assert Run(g, [e]) == Run(Step(g, e), []);
      assert OverfilledAt(events, n) <==> e.Failed? && WouldOverfill(g);
      forall i | 0 <= i < n ensures OverfilledAt(events, i) <==> IsOutcome(e) && OverfilledAt(init, i) {
        assert events[..i] == init[..i];
      }
    }
  }

  /** Without a failed flush the cap is never exceeded. */
  lemma CapHoldsWithoutFailures(events: seq<Event>)
    requires Failed !in events
    ensures |Run(Empty(), events).buffer| <= MAX_BUFFERED
  {
    CapFailsExactly(events);
  }

  // ----- The bound is reached -----

  function Pings(row: Row, n: nat): seq<Event> { Repeated(Enqueue(row), n) }

  /** While a flush is in flight, rows pile up to the cap. */
  lemma {:induction false} PileUp(g: Log, row: Row, n: nat)
    requires g.flushing.Some? && |g.buffer| + n <= MAX_BUFFERED && forall c :: c in g.buffer ==> c.attempts == 0
    ensures var g' := Run(g, Pings(row, n));
      && g'.flushing == g.flushing && |g'.buffer| == |g.buffer| + n
      && forall c :: c in g'.buffer ==> c.attempts == 0
    decreases n
  {
    if n > 0 {
      assert Pings(row, n)[1..] == Pings(row, n - 1);
      PileUp(Step(g, Enqueue(row)), row, n - 1);
    }
  }

  lemma {:induction false} RetryKeepsYoung(batch: seq<Crumb>, a: nat)
    requires forall c :: c in batch ==> c.attempts <= a
    requires a + 1 < MAX_ATTEMPTS
    ensures |Retry(batch)| == |batch| && forall c :: c in Retry(batch) ==> c.attempts <= a + 1
  {
    if batch != [] {
      var init, last := batch[..|batch| - 1], batch[|batch| - 1];
      assert last in batch && forall c :: c in init ==> c in batch;
      RetryKeepsYoung(init, a);
    }
  }

  lemma RunTwo(g: Log, e: Event, f: Event)
    ensures Run(g, [e, f]) == Step(Step(g, e), f)
  {
    assert [e, f][1..] == [f] && [f][1..] == [];
    assert Run(Step(g, e), [f]) == Run(Step(Step(g, e), f), []);
  }

  /** A flush in flight, a full buffer behind it, then the failure and the next flush: the batch grows by the cap. */
  function Pressure(row: Row): seq<Event> { Pings(row, MAX_BUFFERED) + [Failed, Flush] }

  lemma PressureGrows(g: Log, row: Row, a: nat)
    requires g.flushing.Some? && g.buffer == [] && a + 1 < MAX_ATTEMPTS
    requires forall c :: c in g.flushing.value ==> c.attempts <= a
    ensures var g' := Run(g, Pressure(row));
      && g'.flushing.Some? && g'.buffer == []
      && |g'.flushing.value| == |g.flushing.value| + MAX_BUFFERED
      && forall c :: c in g'.flushing.value ==> c.attempts <= a + 1
  {
    PileUp(g, row, MAX_BUFFERED);
    RetryKeepsYoung(g.flushing.value, a);
    var g1 := Run(g, Pings(row, MAX_BUFFERED));
    RunJoins(g, Pings(row, MAX_BUFFERED), [Failed, Flush]);
    RunTwo(g1, Failed, Flush);
  }

  function FirstBatch(row: Row): seq<Event> {
    [Enqueue(row), Flush] + (Pings(row, MAX_BUFFERED) + [Inserted, Flush])
  }

  lemma FillFirstBatch(row: Row)
    ensures var g := Run(Empty(), FirstBatch(row));
      && g.flushing.Some? && g.buffer == [] && |g.flushing.value| == MAX_BUFFERED
      && forall c :: c in g.flushing.value ==> c.attempts == 0
  {
    var g0 := Step(Step(Empty(), Enqueue(row)), Flush);
    RunTwo(Empty(), Enqueue(row), Flush);
    PileUp(g0, row, MAX_BUFFERED);
    var g1 := Run(g0, Pings(row, MAX_BUFFERED));
    RunTwo(g1, Inserted, Flush);
    RunJoins(g0, Pings(row, MAX_BUFFERED), [Inserted, Flush]);
    RunJoins(Empty(), [Enqueue(row), Flush], Pings(row, MAX_BUFFERED) + [Inserted, Flush]);
  }

  /** The last failures put three full cohorts into the buffer, and a flush with a full buffer behind it a fourth. */
  function Worst(row: Row): seq<Event> {
    FirstBatch(row) + (Pressure(row) + (Pressure(row) + Pings(row, MAX_BUFFERED)))
  }

  /** Both bounds are reached by a run, so `MAX_BUFFERED` alone does not cap the buffer. */
  lemma MemoryBoundIsTight(row: Row)
    ensures var g := Run(Empty(), Worst(row));
      |g.buffer| + |InFlight(g)| == (MAX_ATTEMPTS + 1) * MAX_BUFFERED
    ensures exists events :: |Run(Empty(), events).buffer| == MAX_ATTEMPTS * MAX_BUFFERED
  {
    var g0 := Run(Empty(), FirstBatch(row));
    FillFirstBatch(row);
    var g1 := Run(g0, Pressure(row));
    PressureGrows(g0, row, 0);
    var g2 := Run(g1, Pressure(row));
    PressureGrows(g1, row, 1);
    PileUp(g2, row, MAX_BUFFERED);
    RunJoins(g1, Pressure(row), Pings(row, MAX_BUFFERED));
    RunJoins(g0, Pressure(row), Pressure(row) + Pings(row, MAX_BUFFERED));
    RunJoins(Empty(), FirstBatch(row), Pressure(row) + (Pressure(row) + Pings(row, MAX_BUFFERED)));
    FullBuffer(row, g0, g1);
  }

  /** One flush earlier, the batch is still the buffer. */
  lemma FullBuffer(row: Row, g0: Log, g1: Log)
    requires g0 == Run(Empty(), FirstBatch(row)) && g1 == Run(g0, Pressure(row))
    requires g1.flushing.Some? && |g1.flushing.value| == (MAX_ATTEMPTS - 1) * MAX_BUFFERED && g1.buffer == []
    requires forall c :: c in g1.flushing.value ==> c.attempts <= 1
    ensures exists events :: |Run(Empty(), events).buffer| == MAX_ATTEMPTS * MAX_BUFFERED
  {
    PressureGrows(g1, row, 1);
    var g2 := Run(g1, Pressure(row));
    var last := Pings(row, MAX_BUFFERED) + [Failed];
    RunJoins(g1, last, [Flush]);
    assert last + [Flush] == Pressure(row);
    var full := Run(g1, last);
    assert g2 == Step(full, Flush);
    RunJoins(g0, Pressure(row), last);
    RunJoins(Empty(), FirstBatch(row), Pressure(row) + last);
    RunJoins(g1, Pings(row, MAX_BUFFERED), [Failed]);
    assert full.flushing.None?;
    assert Run(Empty(), FirstBatch(row) + (Pressure(row) + last)).buffer == full.buffer;
  }
}
