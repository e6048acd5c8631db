/**
 The breadcrumb buffer: rows wait in memory, one multi-row INSERT is in flight at a time, rows of a failed INSERT are
 retried, and an overlong buffer loses its oldest rows. An INSERT stores all its rows or none.
 */
module GpsBuffer {
  import opened Options

  const FLUSH_AT_SIZE: nat := 200
  const MAX_BUFFERED: nat := 5000
  const MAX_ATTEMPTS: nat := 3

  datatype Row = Row(rideId: string, sessionId: string, driverId: string, latitude: real, longitude: real,
                     heading: Option<real>, speedKmph: Option<real>, accuracyMetres: Option<real>, recordedAt: string)

  /** A buffered row. `ticket` is history: its position in enqueue order. */
  datatype Crumb = Crumb(row: Row, attempts: nat, ticket: nat)

  /** The buffer, the batch in flight, and the history: where every enqueued row went, and the batches that failed. */
  datatype Log = Log(
    buffer: seq<Crumb>, flushing: Option<seq<Crumb>>,
    rows: seq<Row>, inserted: seq<Crumb>, overflowed: seq<Crumb>, exhausted: seq<Crumb>,
    failures: seq<seq<Crumb>>)

  datatype Event = Enqueue(row: Row) | Flush | Inserted | Failed

  /** A flush takes the whole buffer unless one is in flight or there is nothing to take. */
  function StartFlush(g: Log): Log {
    if g.flushing.Some? || g.buffer == [] then g else g.(flushing := Some(g.buffer), buffer := [])
  }

  function Excess(s: seq<Crumb>): nat { if |s| > MAX_BUFFERED then |s| - MAX_BUFFERED else 0 }

  function Push(g: Log, row: Row): Log {
    var longer := g.buffer + [Crumb(row, 0, |g.rows|)];
    var dropped := Excess(longer);
    g.(buffer := longer[dropped..], rows := g.rows + [row], overflowed := g.overflowed + longer[..dropped])
  }

  /** The rows of a failed batch that will be tried again. */
  function Retry(batch: seq<Crumb>): seq<Crumb> {
    if batch == [] then [] else
    var last := batch[|batch| - 1];
    var tried := last.(attempts := last.attempts + 1);
    Retry(batch[..|batch| - 1]) + if tried.attempts < MAX_ATTEMPTS then [tried] else []
  }

  /** The rows of a failed batch that are given up. */
  function GivenUp(batch: seq<Crumb>): seq<Crumb> {
    if batch == [] then [] else
    var last := batch[|batch| - 1];
    var tried := last.(attempts := last.attempts + 1);
    GivenUp(batch[..|batch| - 1]) + if tried.attempts < MAX_ATTEMPTS then [] else [tried]
  }

  function Step(g: Log, e: Event): Log {
    match e
    case Enqueue(row) =>
      var g' := Push(g, row);
      if |g'.buffer| >= FLUSH_AT_SIZE then StartFlush(g') else g'
    case Flush => StartFlush(g)
    case Inserted =>
      if g.flushing.None? then g
      else g.(flushing := None, inserted := g.inserted + g.flushing.value)
    case Failed =>
      if g.flushing.None? then g
      else
        var batch := g.flushing.value;
        g.(flushing := None, buffer := Retry(batch) + g.buffer,
           exhausted := g.exhausted + GivenUp(batch), failures := g.failures + [batch])
  }

  function Run(g: Log, events: seq<Event>): Log
    decreases |events|
  {
    if events == [] then g else Run(Step(g, events[0]), events[1..])
  }

  function Empty(): Log { Log([], None, [], [], [], [], []) }

  function InFlight(g: Log): seq<Crumb> { if g.flushing.Some? then g.flushing.value else [] }

  // ----- The module, as it updates its variables -----

  class Buffer {
    var buffer: seq<Crumb>
    var flushing: Option<seq<Crumb>>
    var enqueued: nat
    ghost var log: Log

    ghost predicate Valid()
      reads this
    {
      log.buffer == buffer && log.flushing == flushing && |log.rows| == enqueued
    }

    constructor ()
      ensures Valid() && log == Empty()
    {
      buffer, flushing, enqueued, log := [], None, 0, Empty();
    }

    method EnqueueBreadcrumb(row: Row)
      requires Valid()
      modifies this
      ensures Valid() && log == Step(old(log), Enqueue(row))
    {
      buffer := buffer + [Crumb(row, 0, enqueued)];
      enqueued := enqueued + 1;
      if |buffer| > MAX_BUFFERED {
        var dropped := |buffer| - MAX_BUFFERED;
        buffer := buffer[dropped..];
      }
      log := Push(log, row);
      if |buffer| >= FLUSH_AT_SIZE { FlushBreadcrumbs(); }
    }

    method FlushBreadcrumbs()
      requires Valid()
      modifies this
      ensures Valid() && log == Step(old(log), Flush)
      ensures Rows() == old(Rows()) && log.inserted == old(log.inserted)
    {
      if flushing.Some? { return; }
      if |buffer| == 0 { return; }
      var batch := buffer;
      buffer := [];
      flushing := Some(batch);
      log := StartFlush(log);
    }

    /** Every row in memory, oldest first. */
    ghost function Rows(): seq<Crumb>
      reads this
    {
      InFlight(log) + log.buffer
    }

    /** The INSERT has committed. */
    method InsertSucceeded()
      requires Valid()
      modifies this
      ensures Valid() && log == Step(old(log), Inserted)
    {
      flushing := None;
      log := Step(log, Inserted);
    }

    /** The INSERT has failed: count the attempt on every row and put the ones with attempts left back in front. */
    method InsertFailed()
      requires Valid()
      modifies this
      ensures Valid() && log == Step(old(log), Failed)
    {
      if flushing.None? { return; }
      var batch := flushing.value;
      var retry: seq<Crumb> := [];
      for i := 0 to |batch|
        invariant retry == Retry(batch[..i])
      {
        var b := batch[i].(attempts := batch[i].attempts + 1);
        if b.attempts < MAX_ATTEMPTS { retry := retry + [b]; }
        assert batch[..i + 1][..i] == batch[..i];
      }
      assert batch[..|batch|] == batch;
      buffer := retry + buffer;
      flushing := None;
      log := Step(log, Failed);
    }
  }

  // ----- Every row is somewhere, once, and in order -----

  ghost predicate InOrder(s: seq<Crumb>) {
    forall i, j :: 0 <= i < j < |s| ==> s[i].ticket < s[j].ticket
  }

  function Tickets(s: seq<Crumb>): seq<nat> { seq(|s|, i requires 0 <= i < |s| => s[i].ticket) }

  /** The first `n` numbers. */
  function UpTo(n: nat): seq<nat> { seq(n, i => i) }

  /** How many failed batches held the row with this ticket. */
  ghost function Failures(failures: seq<seq<Crumb>>, ticket: nat): nat {
    if failures == [] then 0 else
    Failures(failures[..|failures| - 1], ticket) + if ticket in Tickets(failures[|failures| - 1]) then 1 else 0
  }

  /** A row kept its content, and counts exactly the failed batches it was in. */
  ghost predicate Faithful(g: Log, c: Crumb) {
    c.ticket < |g.rows| && g.rows[c.ticket] == c.row && c.attempts == Failures(g.failures, c.ticket)
  }

  ghost function Kept(g: Log): seq<Crumb> { g.inserted + InFlight(g) + g.buffer }

  ghost function Lost(g: Log): seq<Crumb> { g.overflowed + g.exhausted }

  /** Every enqueued row is in exactly one place, once. */
  ghost predicate Conserved(g: Log) {
    multiset(Tickets(Kept(g) + Lost(g))) == multiset(UpTo(|g.rows|))
  }

  /** Rows keep their content, and one is given up only after it has failed `MAX_ATTEMPTS` times. */
  ghost predicate Content(g: Log) {
    && (forall c :: c in Kept(g) || c in Lost(g) ==> Faithful(g, c))
    && (forall c :: c in InFlight(g) || c in g.buffer ==> c.attempts < MAX_ATTEMPTS)
    && (forall c :: c in g.exhausted ==> c.attempts == MAX_ATTEMPTS)
    && (forall i, t :: 0 <= i < |g.failures| && t in Tickets(g.failures[i]) ==> t < |g.rows|)
  }

  ghost predicate Inv(g: Log) { InOrder(Kept(g)) && Conserved(g) && Content(g) }

  // ----- Order -----

  ghost predicate Before(a: seq<Crumb>, b: seq<Crumb>) {
    forall x, y :: x in a && y in b ==> x.ticket < y.ticket
  }

  lemma OrderSplits(a: seq<Crumb>, b: seq<Crumb>)
    requires InOrder(a + b)
    ensures InOrder(a) && InOrder(b) && Before(a, b)
  {
    forall i, j | 0 <= i < j < |a| ensures a[i].ticket < a[j].ticket {
      assert (a + b)[i] == a[i] && (a + b)[j] == a[j];
    }
    forall i, j | 0 <= i < j < |b| ensures b[i].ticket < b[j].ticket {
      assert (a + b)[|a| + i] == b[i] && (a + b)[|a| + j] == b[j];
    }
    forall x, y | x in a && y in b ensures x.ticket < y.ticket {
      var i :| 0 <= i < |a| && a[i] == x;
      var j :| 0 <= j < |b| && b[j] == y;
      assert (a + b)[i] == x && (a + b)[|a| + j] == y;
    }
  }

  lemma OrderJoins(a: seq<Crumb>, b: seq<Crumb>)
    requires InOrder(a) && InOrder(b) && Before(a, b)
    ensures InOrder(a + b)
  {
    forall i, j | 0 <= i < j < |a + b| ensures (a + b)[i].ticket < (a + b)[j].ticket {
      if i < |a| <= j { assert a[i] in a && b[j - |a|] in b; }
    }
  }

  // ----- What a failed batch leaves -----

  ghost predicate TriedAgain(c: Crumb, batch: seq<Crumb>) {
    exists b :: b in batch && c == b.(attempts := b.attempts + 1)
  }

  /** A failed batch is split between the rows to retry and the rows given up. */
  lemma {:induction false} SplitBatch(batch: seq<Crumb>)
    ensures multiset(Tickets(Retry(batch))) + multiset(Tickets(GivenUp(batch))) == multiset(Tickets(batch))
  {
    if batch != [] {
      var init, last := batch[..|batch| - 1], batch[|batch| - 1];
      SplitBatch(init);
      assert init + [last] == batch;
      TicketsJoin(init, [last]);
      var tried := last.(attempts := last.attempts + 1);
      assert Tickets([tried]) == Tickets([last]);
      TicketsJoin(Retry(init), [tried]);
      TicketsJoin(GivenUp(init), [tried]);
      assert Retry(init) + [] == Retry(init) && GivenUp(init) + [] == GivenUp(init);
    }
  }

  lemma {:induction false} RetryRows(batch: seq<Crumb>, c: Crumb)
    ensures c in Retry(batch) ==> c.attempts < MAX_ATTEMPTS && TriedAgain(c, batch)
    ensures c in GivenUp(batch) ==> c.attempts >= MAX_ATTEMPTS && TriedAgain(c, batch)
  {
    if batch != [] {
      var init, last := batch[..|batch| - 1], batch[|batch| - 1];
      RetryRows(init, c);
      assert init + [last] == batch;
      if c == last.(attempts := last.attempts + 1) { assert last in batch; }
    }
  }

  lemma {:induction false} RetryInOrder(batch: seq<Crumb>)
    requires InOrder(batch)
    ensures InOrder(Retry(batch))
  {
    if batch != [] {
      var init, last := batch[..|batch| - 1], batch[|batch| - 1];
      assert init + [last] == batch;
      OrderSplits(init, [last]);
      RetryInOrder(init);
      RetryBetween([], init, [last]);
      AfterLast(Retry(init), last);
      RetryGrows(init, last);
    }
  }

  lemma RetryGrows(init: seq<Crumb>, last: Crumb)
    ensures var tried := last.(attempts := last.attempts + 1);
      Retry(init + [last]) == if tried.attempts < MAX_ATTEMPTS then Retry(init) + [tried] else Retry(init)
  {
    assert (init + [last])[..|init|] == init;
  }

  /** Tried rows keep their place. */
  lemma RetryBetween(a: seq<Crumb>, batch: seq<Crumb>, b: seq<Crumb>)
    requires Before(a, batch) && Before(batch, b)
    ensures Before(a, Retry(batch)) && Before(Retry(batch), b)
  {
    forall x, y | x in a && y in Retry(batch) ensures x.ticket < y.ticket { RetryRows(batch, y); }
    forall x, y | x in Retry(batch) && y in b ensures x.ticket < y.ticket { RetryRows(batch, x); }
  }

  lemma AfterLast(s: seq<Crumb>, last: Crumb)
    requires InOrder(s) && Before(s, [last])
    ensures InOrder(s + [last.(attempts := last.attempts + 1)])
  {
    assert last in [last];
    OrderJoins(s, [last.(attempts := last.attempts + 1)]);
  }

  lemma TicketsJoin(a: seq<Crumb>, b: seq<Crumb>)
    ensures Tickets(a + b) == Tickets(a) + Tickets(b)
  {
  }

  lemma TicketsCount(a: seq<Crumb>, b: seq<Crumb>, c: seq<Crumb>, d: seq<Crumb>, e: seq<Crumb>)
    ensures multiset(Tickets(a + b + c + (d + e)))
         == multiset(Tickets(a)) + multiset(Tickets(b)) + multiset(Tickets(c)) + multiset(Tickets(d))
            + multiset(Tickets(e))
  {
    TicketsJoin(a + b + c, d + e);
    TicketsJoin(a + b, c);
    TicketsJoin(a, b);
    TicketsJoin(d, e);
  }

  lemma {:induction false} UpToOnce(n: nat, t: nat)
    ensures multiset(UpTo(n))[t] <= 1 && (t in multiset(UpTo(n)) ==> t < n)
  {
    if n > 0 {
      UpToOnce(n - 1, t);
      assert UpTo(n) == UpTo(n - 1) + [n - 1];
    }
  }

  // ----- Every event keeps the invariant -----

  lemma FlushKeepsInv(g: Log)
    requires Inv(g)
    ensures Inv(StartFlush(g))
  {
    var g' := StartFlush(g);
    if g' != g {
      assert Kept(g') == Kept(g);
      forall c | c in Kept(g') || c in Lost(g') ensures Faithful(g', c) { assert Faithful(g, c); }
    }
  }

  lemma InsertedKeepsInv(g: Log)
    requires Inv(g)
    ensures Inv(Step(g, Inserted))
  {
    var g' := Step(g, Inserted);
    assert Kept(g') == Kept(g);
    forall c | c in Kept(g') || c in Lost(g') ensures Faithful(g', c) { assert Faithful(g, c); }
  }

  /** A ticket no row has had is in no failed batch. */
  lemma {:induction false} NoFailures(failures: seq<seq<Crumb>>, ticket: nat)
    requires forall i :: 0 <= i < |failures| ==> ticket !in Tickets(failures[i])
    ensures Failures(failures, ticket) == 0
  {
    if failures != [] { NoFailures(failures[..|failures| - 1], ticket); }
  }

  lemma PushInOrder(g: Log, row: Row)
    requires InOrder(Kept(g)) && Content(g)
    ensures InOrder(Kept(Push(g, row)))
  {
    var newest := Crumb(row, 0, |g.rows|);
    var longer := g.buffer + [newest];
    var cut := Excess(longer);
    var held := g.inserted + InFlight(g);
    forall x | x in Kept(g) ensures x.ticket < newest.ticket { assert Faithful(g, x); }
    OrderJoins(Kept(g), [newest]);
    assert Kept(g) + [newest] == (held + longer[..cut]) + longer[cut..];
    OrderSplits(held + longer[..cut], longer[cut..]);
    OrderSplits(held, longer[..cut]);
    assert forall x :: x in held ==> x in held + longer[..cut];
    OrderJoins(held, longer[cut..]);
    assert Kept(Push(g, row)) == held + longer[cut..];
  }

  lemma CutCounts(s: seq<Crumb>, cut: nat)
    requires cut <= |s|
    ensures multiset(Tickets(s[..cut])) + multiset(Tickets(s[cut..])) == multiset(Tickets(s))
  {
    assert s == s[..cut] + s[cut..];
    TicketsJoin(s[..cut], s[cut..]);
  }

  lemma AppendCounts(s: seq<Crumb>, c: Crumb)
    ensures multiset(Tickets(s + [c])) == multiset(Tickets(s)) + multiset{c.ticket}
  {
    TicketsJoin(s, [c]);
    assert Tickets([c]) == [c.ticket];
  }

  lemma PushConserves(g: Log, row: Row)
    requires Conserved(g)
    ensures Conserved(Push(g, row))
  {
    var newest := Crumb(row, 0, |g.rows|);
    var longer := g.buffer + [newest];
    var cut := Excess(longer);
    CutCounts(longer, cut);
    AppendCounts(g.buffer, newest);
    MoveCounts(g, row, longer, cut);
    var g' := Push(g, row);
    var one := multiset{|g.rows|};
    Cancel(multiset(Tickets(Kept(g') + Lost(g'))), multiset(Tickets(g.buffer)), multiset(UpTo(|g.rows|)) + one);
    UpToGrows(|g.rows|);
  }

  lemma UpToGrows(n: nat)
    ensures multiset(UpTo(n + 1)) == multiset(UpTo(n)) + multiset{n}
  {
    assert UpTo(n + 1) == UpTo(n) + [n];
  }

  lemma Cancel(a: multiset<nat>, b: multiset<nat>, c: multiset<nat>)
    requires a + b == c + b
    ensures a == c
  {
    assert a == (a + b) - b && c == (c + b) - b;
  }

  lemma MoveCounts(g: Log, row: Row, longer: seq<Crumb>, cut: nat)
    requires cut <= |longer| && Push(g, row).buffer == longer[cut..]
    requires Push(g, row).overflowed == g.overflowed + longer[..cut]
    ensures multiset(Tickets(Kept(Push(g, row)) + Lost(Push(g, row)))) + multiset(Tickets(g.buffer))
         == multiset(Tickets(Kept(g) + Lost(g))) + multiset(Tickets(longer))
  {
    CutCounts(longer, cut);
    TicketsCount(g.inserted, InFlight(g), g.buffer, g.overflowed, g.exhausted);
    TicketsCount(g.inserted, InFlight(g), longer[cut..], g.overflowed + longer[..cut], g.exhausted);
    TicketsJoin(g.overflowed, longer[..cut]);
  }

  lemma PushContent(g: Log, row: Row)
    requires Content(g)
    ensures Content(Push(g, row))
  {
    var g' := Push(g, row);
    var newest := Crumb(row, 0, |g.rows|);
    NoFailures(g.failures, newest.ticket);
    forall c | c in Kept(g') || c in Lost(g') ensures Faithful(g', c) {
      assert c in Kept(g) || c in Lost(g) || c == newest;
      if c != newest { assert Faithful(g, c); }
    }
  }

  lemma FailedInOrder(g: Log)
    requires InOrder(Kept(g)) && g.flushing.Some?
    ensures InOrder(Kept(Step(g, Failed)))
  {
    var batch := g.flushing.value;
    OrderSplits(g.inserted + batch, g.buffer);
    OrderSplits(g.inserted, batch);
    RetryInOrder(batch);
    assert Before(batch, g.buffer) && Before(g.inserted, g.buffer) by {
      assert forall c :: c in batch || c in g.inserted ==> c in g.inserted + batch;
    }
    RetryBetween(g.inserted, batch, g.buffer);
    OrderJoins(g.inserted, Retry(batch));
    OrderJoins(g.inserted + Retry(batch), g.buffer);
    assert Kept(Step(g, Failed)) == g.inserted + Retry(batch) + g.buffer;
  }

  lemma FailedConserves(g: Log)
    requires Conserved(g) && g.flushing.Some?
    ensures Conserved(Step(g, Failed))
  {
    var batch := g.flushing.value;
    SplitBatch(batch);
    TicketsCount(g.inserted, batch, g.buffer, g.overflowed, g.exhausted);
    TicketsCount(g.inserted, [], Retry(batch) + g.buffer, g.overflowed, g.exhausted + GivenUp(batch));
    TicketsJoin(Retry(batch), g.buffer);
    TicketsJoin(g.exhausted, GivenUp(batch));
  }

  lemma TicketIn(s: seq<Crumb>, c: Crumb)
    requires c in s
    ensures c.ticket in Tickets(s)
  {
    var i :| 0 <= i < |s| && s[i] == c;
    assert Tickets(s)[i] == c.ticket;
  }

  /** No row outside the batch in flight has a ticket of that batch. */
  lemma BatchIsApart(g: Log, c: Crumb)
    requires Conserved(g) && g.flushing.Some?
    requires c in g.inserted || c in g.buffer || c in g.overflowed || c in g.exhausted
    ensures c.ticket !in Tickets(g.flushing.value)
  {
    UpToOnce(|g.rows|, c.ticket);
    TicketsCount(g.inserted, g.flushing.value, g.buffer, g.overflowed, g.exhausted);
    if c in g.inserted { TicketIn(g.inserted, c); }
    else if c in g.buffer { TicketIn(g.buffer, c); }
    else if c in g.overflowed { TicketIn(g.overflowed, c); }
    else { TicketIn(g.exhausted, c); }
  }

  lemma FailedContent(g: Log)
    requires Inv(g) && g.flushing.Some?
    ensures Content(Step(g, Failed))
  {
    var g' := Step(g, Failed);
    var batch := g.flushing.value;
    assert g'.failures[..|g'.failures| - 1] == g.failures;
    forall c | c in Kept(g') || c in Lost(g')
      ensures Faithful(g', c)
      ensures c in GivenUp(batch) ==> c.attempts == MAX_ATTEMPTS
      ensures c in Retry(batch) ==> c.attempts < MAX_ATTEMPTS
    {
      RetryRows(batch, c);
      if c in Retry(batch) || c in GivenUp(batch) {
        var b :| b in batch && c == b.(attempts := b.attempts + 1);
        assert Faithful(g, b) by { assert b in Kept(g); }
        TicketIn(batch, b);
      } else {
        assert Faithful(g, c);
        BatchIsApart(g, c);
      }
    }
    forall t | t in Tickets(batch) ensures t < |g.rows| {
      var i :| 0 <= i < |batch| && Tickets(batch)[i] == t;
      assert Faithful(g, batch[i]) by { assert batch[i] in Kept(g); }
    }
  }

  lemma StepKeepsInv(g: Log, e: Event)
    requires Inv(g)
    ensures Inv(Step(g, e))
  {
    match e
    case Enqueue(row) =>
      PushInOrder(g, row);
      PushConserves(g, row);
      PushContent(g, row);
      FlushKeepsInv(Push(g, row));
    case Flush => FlushKeepsInv(g);
    case Inserted => InsertedKeepsInv(g);
    case Failed =>
      if g.flushing.Some? {
        FailedInOrder(g);
        FailedConserves(g);
        FailedContent(g);
      }
  }

  /** Over any run from an empty buffer: every enqueued row is in exactly one place, rows reach the database in
      enqueue order without repeats, and none is given up before its third failure. */
  lemma {:induction false} RunKeepsInv(g: Log, events: seq<Event>)
    requires Inv(g)
    ensures Inv(Run(g, events)) && InOrder(Run(g, events).inserted)
    decreases |events|
  {
    if events != [] {
      StepKeepsInv(g, events[0]);
      RunKeepsInv(Step(g, events[0]), events[1..]);
    } else {
      OrderSplits(g.inserted + InFlight(g), g.buffer);
      OrderSplits(g.inserted, InFlight(g));
    }
  }

  lemma EmptyOk()
    ensures Inv(Empty())
  {
    assert Tickets(Kept(Empty()) + Lost(Empty())) == UpTo(0);
  }

  /** An overflow loses the oldest rows in the buffer: every row it drops was enqueued before every row it keeps. */
  lemma OverflowDropsOldest(g: Log, row: Row)
    requires Inv(g)
    ensures var g' := Push(g, row);
      && g.overflowed <= g'.overflowed
      && Before(g'.overflowed[|g.overflowed|..], g'.buffer)
      && |g'.buffer| <= MAX_BUFFERED && |g'.buffer| > 0
  {
    var longer := g.buffer + [Crumb(row, 0, |g.rows|)];
    var cut := Excess(longer);
    forall x | x in Kept(g) ensures x.ticket < |g.rows| { assert Faithful(g, x); }
    OrderSplits(g.inserted + InFlight(g), g.buffer);
    OrderJoins(g.buffer, [Crumb(row, 0, |g.rows|)]);
    assert longer == longer[..cut] + longer[cut..];
    OrderSplits(longer[..cut], longer[cut..]);
    assert Push(g, row).overflowed[|g.overflowed|..] == longer[..cut];
  }

  // ----- What each event does, row by row -----

  /** A new row goes last, rows past 5000 are dropped from the front, and 200 waiting rows start a flush of all of them
      unless one is in flight. */
  lemma EnqueueExactly(g: Log, row: Row)
    ensures var g', excess := Step(g, Enqueue(row)), if |g.buffer| >= 5000 then |g.buffer| - 4999 else 0;
      var waiting := g.buffer[excess..] + [Crumb(row, 0, |g.rows|)];
      var flushes := g.flushing.None? && |waiting| >= 200;
      g' == g.(rows := g.rows + [row], overflowed := g.overflowed + g.buffer[..excess],
               buffer := if flushes then [] else waiting, flushing := if flushes then Some(waiting) else g.flushing)
  {
    var longer, excess := g.buffer + [Crumb(row, 0, |g.rows|)], Excess(g.buffer + [Crumb(row, 0, |g.rows|)]);
    assert longer[excess..] == g.buffer[excess..] + [Crumb(row, 0, |g.rows|)];
    assert longer[..excess] == g.buffer[..excess];
  }

  /** A flush takes the whole buffer when none is in flight and there is something to take; a success moves the batch to
      the inserted rows. */
  lemma FlushExactly(g: Log)
    ensures Step(g, Flush) ==
      if g.flushing.None? && |g.buffer| > 0 then g.(flushing := Some(g.buffer), buffer := []) else g
    ensures g.flushing.Some? ==>
      Step(g, Inserted) == g.(flushing := None, inserted := g.inserted + g.flushing.value)
    ensures g.flushing.None? ==> Step(g, Inserted) == g && Step(g, Failed) == g
  {
  }

  /** After a failure, each row of the batch has one attempt more; those that had fewer than two before stand in front
      of the buffer, and the others, on their third failure, are given up. Nothing else moves. */
  lemma FailedExactly(g: Log)
    requires g.flushing.Some?
    ensures var g', batch := Step(g, Failed), g.flushing.value;
      && g'.flushing == None && g'.rows == g.rows && g'.inserted == g.inserted && g'.overflowed == g.overflowed
      && |g'.buffer| >= |g.buffer| && g'.buffer[|g'.buffer| - |g.buffer|..] == g.buffer && g.exhausted <= g'.exhausted
      && var retried, lost := g'.buffer[..|g'.buffer| - |g.buffer|], g'.exhausted[|g.exhausted|..];
        && (forall c :: c in batch ==> c.(attempts := c.attempts + 1) in if c.attempts < 2 then retried else lost)
        && multiset(Tickets(retried)) + multiset(Tickets(lost)) == multiset(Tickets(batch))
        && (InOrder(batch) ==> InOrder(retried) && InOrder(lost))
  {
    var batch := g.flushing.value;
    var g' := Step(g, Failed);
    assert g'.buffer[..|g'.buffer| - |g.buffer|] == Retry(batch) && g'.exhausted[|g.exhausted|..] == GivenUp(batch);
    SplitBatch(batch);
    forall c | c in batch
      ensures c.(attempts := c.attempts + 1) in if c.attempts < 2 then Retry(batch) else GivenUp(batch)
    {
      EachRowGoes(batch, c);
    }
    if InOrder(batch) {
      RetryInOrder(batch);
      GivenUpInOrder(batch);
    }
  }

  lemma {:induction false} EachRowGoes(batch: seq<Crumb>, c: Crumb)
    requires c in batch
    ensures c.(attempts := c.attempts + 1) in if c.attempts < 2 then Retry(batch) else GivenUp(batch)
  {
    var init, last := batch[..|batch| - 1], batch[|batch| - 1];
    assert batch == init + [last];
    if c != last { EachRowGoes(init, c); }
  }

  lemma {:induction false} GivenUpInOrder(batch: seq<Crumb>)
    requires InOrder(batch)
    ensures InOrder(GivenUp(batch))
  {
    if batch != [] {
      var init, last := batch[..|batch| - 1], batch[|batch| - 1];
      assert init + [last] == batch;
      OrderSplits(init, [last]);
      GivenUpInOrder(init);
      GivenUpBefore(init, last);
      AfterLast(GivenUp(init), last);
      GivenUpGrows(init, last);
    }
  }

  lemma GivenUpBefore(batch: seq<Crumb>, last: Crumb)
    requires Before(batch, [last])
    ensures Before(GivenUp(batch), [last])
  {
    forall x, y | x in GivenUp(batch) && y in [last] ensures x.ticket < y.ticket { RetryRows(batch, x); }
  }

  lemma GivenUpGrows(init: seq<Crumb>, last: Crumb)
    ensures GivenUp(init + [last]) == GivenUp(init)
         || GivenUp(init + [last]) == GivenUp(init) + [last.(attempts := last.attempts + 1)]
  {
    assert (init + [last])[..|init|] == init;
  }
}
