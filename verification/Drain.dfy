/**
 Draining a server's sockets: a random order, one timer per socket inside its own slot, and a promise that resolves
 when the last of them has fired. `Math.random()` is an argument in [0, 1).
 */
module Drain {
  import opened Options
  import opened JsNumber
  import Spans

  datatype Socket = Socket(id: nat)

  predicate Chance(r: real) { 0.0 <= r < 1.0 }

  predicate Chances(rs: seq<real>, n: nat) { |rs| == n && forall i :: 0 <= i < n ==> Chance(rs[i]) }

  // ----- The shuffle -----

  /** `Math.floor(Math.random() * (i + 1))`. */
  function Pick(r: real, i: nat): (j: nat)
    requires Chance(r)
    ensures j <= i
  {
    PickInRange(r, i);
    Times(r, i as real + 1.0).Floor
  }

  lemma PickInRange(r: real, i: nat)
    requires Chance(r)
    ensures 0.0 <= Times(r, i as real + 1.0) < i as real + 1.0
  {
    var n := i as real + 1.0;
    TimesNonNegative(r, n);
    TimesPositive(1.0 - r, n);
    TimesSum(r, 1.0 - r, n);
  }

  function Swap(s: seq<Socket>, i: nat, j: nat): seq<Socket>
    requires i < |s| && j < |s|
  {
    s[i := s[j]][j := s[i]]
  }

  /** The order after the positions `i` down to 1 have been dealt; the draw for position `i` is `draws[i]`. */
  function Shuffled(s: seq<Socket>, i: nat, draws: seq<real>): seq<Socket>
    requires Chances(draws, |s|) && (i < |s| || i == 0)
    decreases i
  {
    if i == 0 then s else Shuffled(Swap(s, i, Pick(draws[i], i)), i - 1, draws)
  }

  function Last(s: seq<Socket>): nat { if |s| == 0 then 0 else |s| - 1 }

  lemma DealOne(s: seq<Socket>, i: nat, draws: seq<real>, s': seq<Socket>)
    requires Chances(draws, |s|) && 0 < i < |s| && s' == Swap(s, i, Pick(draws[i], i))
    ensures |s'| == |s| && Shuffled(s', i - 1, draws) == Shuffled(s, i, draws)
  {
  }

  lemma SwapInPlace(s: seq<Socket>, s': seq<Socket>, i: nat, j: nat)
    requires i < |s| && j < |s| && |s'| == |s| && s'[i] == s[j] && s'[j] == s[i]
    requires forall k :: 0 <= k < |s| && k != i && k != j ==> s'[k] == s[k]
    ensures s' == Swap(s, i, j)
  {
  }

  method Shuffle(items: seq<Socket>, draws: seq<real>) returns (a: array<Socket>)
    requires Chances(draws, |items|)
    ensures fresh(a) && a[..] == Shuffled(items, Last(items), draws)
  {
    a := new Socket[|items|](i requires 0 <= i < |items| => items[i]);
    assert a[..] == items;
    var i: nat := Last(items);
    ghost var order := Shuffled(items, i, draws);
    while i > 0
      invariant i < a.Length == |items| || i == 0 == a.Length == |items|
      invariant Shuffled(a[..], i, draws) == order
    {
      var j := Pick(draws[i], i);
      ghost var before := a[..];
      a[i], a[j] := a[j], a[i];
      SwapInPlace(before, a[..], i, j);
      DealOne(before, i, draws, a[..]);
      i := i - 1;
    }
  }

  lemma SwapPermutes(s: seq<Socket>, i: nat, j: nat)
    requires i < |s| && j < |s|
    ensures |Swap(s, i, j)| == |s| && multiset(Swap(s, i, j)) == multiset(s)
  {
  }

  lemma {:induction false} ShufflePermutes(s: seq<Socket>, i: nat, draws: seq<real>)
    requires Chances(draws, |s|) && (i < |s| || i == 0)
    ensures |Shuffled(s, i, draws)| == |s| && multiset(Shuffled(s, i, draws)) == multiset(s)
    decreases i
  {
    if i > 0 {
      var j := Pick(draws[i], i);
      SwapPermutes(s, i, j);
      ShufflePermutes(Swap(s, i, j), i - 1, draws);
    }
  }

  /** A draw that picks `j`. */
  lemma DrawFor(i: nat, j: nat) returns (r: real)
    requires j <= i
    ensures Chance(r) && Pick(r, i) == j
  {
    r := j as real / (i as real + 1.0);
    assert r * (i as real + 1.0) == j as real;
  }

  lemma {:induction false} LaterDrawsUnused(s: seq<Socket>, i: nat, draws: seq<real>, draws': seq<real>)
    requires Chances(draws, |s|) && Chances(draws', |s|) && (i < |s| || i == 0)
    requires forall k :: 0 <= k <= i && k < |s| ==> draws[k] == draws'[k]
    ensures Shuffled(s, i, draws) == Shuffled(s, i, draws')
    decreases i
  {
    if i > 0 {
      var j := Pick(draws[i], i);
      SwapPermutes(s, i, j);
      LaterDrawsUnused(Swap(s, i, j), i - 1, draws, draws');
    }
  }

  lemma PrefixesAgree(s: seq<Socket>, q: seq<Socket>, i: nat)
    requires i < |s| == |q| && multiset(s) == multiset(q) && s[i + 1..] == q[i + 1..]
    ensures multiset(s[..i + 1]) == multiset(q[..i + 1])
  {
    assert s == s[..i + 1] + s[i + 1..] && q == q[..i + 1] + q[i + 1..];
    assert multiset(s[..i + 1]) == multiset(s) - multiset(s[i + 1..]);
    assert multiset(q[..i + 1]) == multiset(q) - multiset(q[i + 1..]);
  }

  lemma OnlyFirstLeft(s: seq<Socket>, q: seq<Socket>)
    requires |q| == |s| && multiset(q) == multiset(s) && (|s| > 0 ==> s[1..] == q[1..])
    ensures s == q
  {
    if |s| > 0 {
      PrefixesAgree(s, q, 0);
      assert s[..1] == [s[0]] && q[..1] == [q[0]];
      assert s[0] in multiset(q[..1]);
      assert s == s[..1] + s[1..] && q == q[..1] + q[1..];
    }
  }

  /** Whatever belongs at position `i` is still among the positions not yet dealt. */
  lemma StillThere(s: seq<Socket>, q: seq<Socket>, i: nat) returns (j: nat)
    requires i < |s| == |q| && multiset(s) == multiset(q) && s[i + 1..] == q[i + 1..]
    ensures j <= i && s[j] == q[i] && Swap(s, i, j)[i..] == q[i..]
  {
    PrefixesAgree(s, q, i);
    assert q[..i + 1][i] == q[i];
    assert q[i] in multiset(q[..i + 1]);
    assert q[i] in multiset(s[..i + 1]);
    j :| 0 <= j < i + 1 && s[..i + 1][j] == q[i];
    var s' := Swap(s, i, j);
    forall k | i <= k < |s| ensures s'[k] == q[k] {
      if k > i { assert s[i + 1..][k - i - 1] == q[i + 1..][k - i - 1]; }
    }
  }

  /** Every order of the sockets comes out of some draws. */
  lemma {:induction false} EveryOrder(s: seq<Socket>, i: nat, q: seq<Socket>) returns (draws: seq<real>)
    requires |q| == |s| && multiset(q) == multiset(s) && (i < |s| || i == 0)
    requires i < |s| ==> s[i + 1..] == q[i + 1..]
    ensures Chances(draws, |s|) && Shuffled(s, i, draws) == q
    decreases i
  {
    if i == 0 {
      draws := seq(|s|, k => 0.0);
      OnlyFirstLeft(s, q);
    } else {
      var j := StillThere(s, q, i);
      var s' := Swap(s, i, j);
      SwapPermutes(s, i, j);
      var rest := EveryOrder(s', i - 1, q);
      var r := DrawFor(i, j);
      draws := rest[i := r];
      LaterDrawsUnused(s', i - 1, rest, draws);
    }
  }

  // ----- The schedule -----

  /** The slot each socket gets; 0 when there are none. */
  function SlotWidth(total: nat, durationMs: real): real { if total > 0 then durationMs / total as real else 0.0 }

  /** Socket `i` closes at a random moment of its own slot. */
  function Delay(i: nat, step: real, durationMs: real, jitter: real): real {
    Min(durationMs, Round(Times(i as real, step) + Times(jitter, step)) as real)
  }

  /** A timer; `counted` tells a drained socket from a late arrival. */
  datatype Timer = Timer(socket: Socket, delay: real, counted: bool)

  function Timers(order: seq<Socket>, durationMs: real, jitter: seq<real>): seq<Timer>
    requires |jitter| == |order|
  {
    var step := SlotWidth(|order|, durationMs);
    seq(|order|, i requires 0 <= i < |order| => Timer(order[i], Delay(i, step, durationMs, jitter[i]), true))
  }

  // ----- The drain -----

  /** Module state, and history: the sockets present at the start, the closes made, and how often `done` resolved. */
  datatype State = State(current: Option<nat>, timers: seq<Timer>, closed: nat,
                         present: seq<Socket>, closes: seq<Socket>, lateCloses: seq<Socket>, resolved: nat)

  datatype Event =
    | Start(sockets: seq<Socket>, durationMs: real, draws: seq<real>, jitter: seq<real>)
    | Fire(k: nat)
    | Connect(socket: Socket, durationMs: real, r: real)

  /** Draws for the shuffle and the slots, one of each per socket. */
  predicate Possible(e: Event) {
    match e
    case Start(sockets, _, draws, jitter) => Chances(draws, |sockets|) && Chances(jitter, |sockets|)
    case Fire(_) => true
    case Connect(_, _, r) => Chance(r)
  }

  function Started(s: State, sockets: seq<Socket>, timers: seq<Timer>): State {
    s.(current := Some(|sockets|), timers := timers, present := sockets,
       resolved := if |sockets| == 0 then s.resolved + 1 else s.resolved)
  }

  function Step(s: State, e: Event): State
    requires Possible(e)
  {
    match e
    case Start(sockets, durationMs, draws, jitter) =>
      if s.current.Some? then s else
      ShufflePermutes(sockets, Last(sockets), draws);
      Started(s, sockets, Timers(Shuffled(sockets, Last(sockets), draws), durationMs, jitter))
    case Fire(k) =>
      if k >= |s.timers| then s else
      var t := s.timers[k];
      var s' := s.(timers := s.timers[..k] + s.timers[k + 1..]);
      if !t.counted then s'.(lateCloses := s.lateCloses + [t.socket])
      else s'.(closes := s.closes + [t.socket], closed := s.closed + 1,
               resolved := if Some(s.closed + 1) == s.current then s.resolved + 1 else s.resolved)
    case Connect(socket, durationMs, r) =>
      if s.current.None? then s
      else s.(timers := s.timers + [Timer(socket, Round(Times(r, Min(5000.0, durationMs / 2.0))) as real, false)])
  }

  const IDLE := State(None, [], 0, [], [], [], 0)

  predicate AllPossible(events: seq<Event>) { forall i :: 0 <= i < |events| ==> Possible(events[i]) }

  function Run(s: State, events: seq<Event>): State
    requires AllPossible(events)
    decreases |events|
  {
    if events == [] then s else Run(Step(s, events[0]), events[1..])
  }

  class Drainer {
    var current: Option<nat>
    var timers: seq<Timer>
    var closed: nat
    ghost var log: State

    ghost predicate Valid()
      reads this
    {
      current == log.current && timers == log.timers && closed == log.closed
    }

    constructor ()
      ensures Valid() && log == IDLE
    {
      current, timers, closed, log := None, [], 0, IDLE;
    }

    /** `startDrain`: the number of sockets being drained. The draws stand for `Math.random()`. */
    method StartDrain(sockets: seq<Socket>, durationMs: real, draws: seq<real>, jitter: seq<real>) returns (total: nat)
      requires Valid() && Possible(Start(sockets, durationMs, draws, jitter))
      requires current.None? ==> timers == [] && closed == 0
      modifies this
      ensures Valid() && log == Step(old(log), Start(sockets, durationMs, draws, jitter))
      ensures old(current).None? ==>
        && total == |timers| == |sockets| && SlotOrder(timers) == Shuffled(sockets, Last(sockets), draws)
        && forall i :: 0 <= i < total ==> SlotTimer(timers[i], i, total, durationMs, jitter[i])
      ensures current == Some(total) && (old(current).Some? ==> current == old(current) && timers == old(timers))
    {
      if current.Some? { return current.value; }
      StartedTimers(sockets, durationMs, draws, jitter);
      TimersExactly(Shuffled(sockets, Last(sockets), draws), durationMs, jitter);
      var shuffled := Shuffle(sockets, draws);
      ShufflePermutes(sockets, Last(sockets), draws);
      ghost var order := shuffled[..];
      total := shuffled.Length;
      var step := SlotWidth(total, durationMs);
      timers, closed := [], 0;
      for i := 0 to total
        invariant shuffled[..] == order && timers == Timers(order, durationMs, jitter)[..i] && closed == 0
        invariant current == old(current) && log == old(log)
      {
        timers := timers + [Timer(shuffled[i], Delay(i, step, durationMs, jitter[i]), true)];
      }
      current := Some(total);
      log := Step(log, Start(sockets, durationMs, draws, jitter));
    }

    /** The callback of timer `k`: close the socket, count it if it was there at the start, and resolve on the last. */
    method TimerFires(k: nat) returns (finished: bool)
      requires Valid() && k < |timers|
      modifies this
      ensures Valid() && log == Step(old(log), Fire(k))
      ensures finished <==> log.resolved > old(log).resolved
    {
      var t := timers[k];
      timers := timers[..k] + timers[k + 1..];
      finished := false;
      if t.counted {
        closed := closed + 1;
        finished := Some(closed) == current;
      }
      log := Step(log, Fire(k));
    }
  }

  // ----- Every socket once, and then done -----

  /** The sockets whose slot timer has not fired yet. */
  function Waiting(timers: seq<Timer>): seq<Socket> {
    if timers == [] then [] else
    (if timers[0].counted then [timers[0].socket] else []) + Waiting(timers[1..])
  }

  ghost predicate Inv(s: State) {
    && (s.current.None? ==> s == IDLE)
    && (s.current.Some? ==>
          && s.current.value == |s.present|
          && multiset(s.closes) + multiset(Waiting(s.timers)) == multiset(s.present)
          && s.closed == |s.closes|
          && s.resolved == if s.closed == |s.present| then 1 else 0)
  }

  lemma {:induction false} WaitingJoins(a: seq<Timer>, b: seq<Timer>)
    ensures Waiting(a + b) == Waiting(a) + Waiting(b)
  {
    if a == [] {
      assert a + b == b;
    } else {
      var head := if a[0].counted then [a[0].socket] else [];
      assert (a + b)[0] == a[0] && (a + b)[1..] == a[1..] + b;
      WaitingJoins(a[1..], b);
      assert head + (Waiting(a[1..]) + Waiting(b)) == (head + Waiting(a[1..])) + Waiting(b);
    }
  }

  lemma {:induction false} WaitingAll(timers: seq<Timer>, order: seq<Socket>)
    requires |timers| == |order|
    requires forall i :: 0 <= i < |timers| ==> timers[i].counted && timers[i].socket == order[i]
    ensures Waiting(timers) == order
  {
    if timers != [] { WaitingAll(timers[1..], order[1..]); }
  }

  lemma StartKeepsInv(s: State, e: Event)
    requires Inv(s) && Possible(e) && e.Start?
    ensures Inv(Step(s, e))
  {
    if s.current.None? {
      var last := Last(e.sockets);
      ShufflePermutes(e.sockets, last, e.draws);
      var order := Shuffled(e.sockets, last, e.draws);
      WaitingAll(Timers(order, e.durationMs, e.jitter), order);
    }
  }

  lemma ConnectKeepsInv(s: State, e: Event)
    requires Inv(s) && Possible(e) && e.Connect?
    ensures Inv(Step(s, e))
  {
    if s.current.Some? {
      var late := Step(s, e).timers[|s.timers|];
      WaitingJoins(s.timers, [late]);
      assert Waiting([late]) == [];
    }
  }

  /** Firing timer `k` takes its socket, if it counts, out of the waiting ones. */
  lemma FireTakesOne(timers: seq<Timer>, k: nat)
    requires k < |timers|
    ensures var t := timers[k];
      multiset(Waiting(timers)) ==
        multiset(Waiting(timers[..k] + timers[k + 1..])) + if t.counted then multiset{t.socket} else multiset{}
  {
    SplitAt(timers, k);
    TakeOneOut(timers[..k], timers[k], timers[k + 1..]);
  }

  lemma SplitAt(timers: seq<Timer>, k: nat)
    requires k < |timers|
    ensures timers == timers[..k] + ([timers[k]] + timers[k + 1..])
  {
  }

  lemma TakeOneOut(a: seq<Timer>, t: Timer, b: seq<Timer>)
    ensures multiset(Waiting(a + ([t] + b))) ==
      multiset(Waiting(a + b)) + if t.counted then multiset{t.socket} else multiset{}
  {
    WaitingJoins(a, b);
    WaitingJoins(a, [t] + b);
    assert ([t] + b)[1..] == b;
  }

  lemma Sizes(closes: seq<Socket>, waiting: seq<Socket>, present: seq<Socket>)
    requires multiset(closes) + multiset(waiting) == multiset(present)
    ensures |closes| + |waiting| == |present|
  {
    assert |multiset(closes) + multiset(waiting)| == |closes| + |waiting|;
    assert |multiset(present)| == |present|;
  }

  lemma LateFireKeepsInv(s: State, k: nat)
    requires Inv(s) && k < |s.timers| && !s.timers[k].counted
    ensures Inv(Step(s, Fire(k)))
  {
    FireTakesOne(s.timers, k);
  }

  lemma CountedFireKeepsInv(s: State, k: nat)
    requires Inv(s) && k < |s.timers| && s.timers[k].counted
    ensures Inv(Step(s, Fire(k)))
  {
    var s', socket := Step(s, Fire(k)), s.timers[k].socket;
    FireTakesOne(s.timers, k);
    Sizes(s.closes, Waiting(s.timers), s.present);
    assert socket in multiset(Waiting(s.timers));
    assert multiset(s'.closes) == multiset(s.closes) + multiset{socket};
    assert multiset(s.closes) + (multiset(Waiting(s'.timers)) + multiset{socket})
        == (multiset(s.closes) + multiset{socket}) + multiset(Waiting(s'.timers));
  }

  lemma FireKeepsInv(s: State, k: nat)
    requires Inv(s)
    ensures Inv(Step(s, Fire(k)))
  {
    if k < |s.timers| {
      if s.timers[k].counted { CountedFireKeepsInv(s, k); } else { LateFireKeepsInv(s, k); }
    }
  }

  lemma StepKeepsInv(s: State, e: Event)
    requires Inv(s) && Possible(e)
    ensures Inv(Step(s, e))
  {
    match e
    case Start(_, _, _, _) => StartKeepsInv(s, e);
    case Fire(k) => FireKeepsInv(s, k);
    case Connect(_, _, _) => ConnectKeepsInv(s, e);
  }

  lemma PresentStays(s: State, e: Event)
    requires Possible(e) && s.current.Some?
    ensures Step(s, e).present == s.present && Step(s, e).current == s.current
  {
  }

  lemma {:induction false} RunKeepsInv(s: State, events: seq<Event>)
    requires Inv(s) && AllPossible(events)
    ensures Inv(Run(s, events)) && (s.current.Some? ==> Run(s, events).present == s.present)
    decreases |events|
  {
    if events != [] {
      var e, s' := events[0], Step(s, events[0]);
      StepKeepsInv(s, e);
      if s.current.Some? { PresentStays(s, e); }
      RunKeepsInv(s', events[1..]);
    }
  }

  /** In every run `done` resolves at most once, and it has resolved exactly when no socket is waiting: by then each
      socket of the first `startDrain` has been closed once. */
  lemma DoneMeansAllClosed(events: seq<Event>)
    requires AllPossible(events)
    ensures var s := Run(IDLE, events);
      && s.resolved <= 1
      && (s.current.Some? ==> (s.resolved == 1 <==> Waiting(s.timers) == []))
      && (s.current.Some? ==> (s.resolved == 1 <==> multiset(s.closes) == multiset(s.present)))
      && forall x :: multiset(s.closes)[x] <= multiset(s.present)[x]
  {
    RunKeepsInv(IDLE, events);
    var s := Run(IDLE, events);
    if s.current.Some? {
      Sizes(s.closes, Waiting(s.timers), s.present);
      if multiset(s.closes) == multiset(s.present) { Sizes(s.closes, [], s.present); }
    }
  }

  /** A drain in progress is not restarted: no timer is added, whatever the arguments. */
  lemma SecondStartAddsNothing(before: seq<Event>, e: Event)
    requires AllPossible(before)
    requires Possible(e) && e.Start? && exists i :: 0 <= i < |before| && before[i].Start?
    ensures Run(IDLE, before).current.Some? && Step(Run(IDLE, before), e) == Run(IDLE, before)
  {
    StartSticks(IDLE, before);
  }

  lemma {:induction false} StartSticks(s: State, events: seq<Event>)
    requires AllPossible(events)
    requires s.current.Some? || exists i :: 0 <= i < |events| && events[i].Start?
    ensures Run(s, events).current.Some?
    decreases |events|
  {
    if events != [] {
      if !events[0].Start? && s.current.None? {
        var i :| 0 <= i < |events| && events[i].Start?;
        assert events[1..][i - 1].Start?;
      }
      StartSticks(Step(s, events[0]), events[1..]);
    }
  }

  // ----- The order and the schedule of a drain -----

  /** The drained sockets in slot order. */
  function SlotOrder(timers: seq<Timer>): seq<Socket> {
    seq(|timers|, i requires 0 <= i < |timers| => timers[i].socket)
  }

  /** `m` is `x` rounded to a whole number, halves up. */
  ghost predicate IsRounded(m: real, x: real) { m.Floor as real == m && m - 0.5 <= x < m + 0.5 }

  /** `delay` is `x` rounded, but not more than `cap`. */
  ghost predicate IsCapped(delay: real, x: real, cap: real) {
    exists m :: IsRounded(m, x) && delay == if m <= cap then m else cap
  }

  lemma StartedTimers(sockets: seq<Socket>, durationMs: real, draws: seq<real>, jitter: seq<real>)
    requires Possible(Start(sockets, durationMs, draws, jitter))
    ensures var s, order := Step(IDLE, Start(sockets, durationMs, draws, jitter)),
                            Shuffled(sockets, Last(sockets), draws);
      && |order| == |sockets| && s.timers == Timers(order, durationMs, jitter) && SlotOrder(s.timers) == order
  {
    ShufflePermutes(sockets, Last(sockets), draws);
    assert SlotOrder(Timers(Shuffled(sockets, Last(sockets), draws), durationMs, jitter))
        == Shuffled(sockets, Last(sockets), draws);
  }

  /** Whatever order the sockets may be wanted in, some draws make a drain close them in that order. */
  lemma DrainsInAnyOrder(sockets: seq<Socket>, durationMs: real, jitter: seq<real>, q: seq<Socket>)
    requires Chances(jitter, |sockets|) && |q| == |sockets| && multiset(q) == multiset(sockets)
    ensures exists draws ::
      && Chances(draws, |sockets|)
      && SlotOrder(Step(IDLE, Start(sockets, durationMs, draws, jitter)).timers) == q
  {
    var draws := EveryOrder(sockets, Last(sockets), q);
    StartedTimers(sockets, durationMs, draws, jitter);
  }

  /** The moment `(i + jitter) / n` of the way through a drain. */
  function Moment(i: nat, jitter: real, n: nat, durationMs: real): real
    requires n > 0
  {
    (i as real + jitter) * durationMs / n as real
  }

  /** The timer of slot `i` out of `n` waits for its moment, rounded to a millisecond and not past the end. */
  ghost predicate SlotTimer(t: Timer, i: nat, n: nat, durationMs: real, jitter: real)
    requires n > 0
  {
    t.counted && IsCapped(t.delay, Moment(i, jitter, n, durationMs), durationMs)
  }

  /** A drain sets one counted timer per socket, each in its slot; an empty one is done at once. */
  lemma ScheduledExactly(sockets: seq<Socket>, durationMs: real, draws: seq<real>, jitter: seq<real>)
    requires Possible(Start(sockets, durationMs, draws, jitter))
    ensures var s, n := Step(IDLE, Start(sockets, durationMs, draws, jitter)), |sockets|;
      && s.current == Some(n) && s.present == sockets && |s.timers| == n
      && s.closed == 0 && s.closes == [] && s.resolved == (if n == 0 then 1 else 0)
      && multiset(SlotOrder(s.timers)) == multiset(sockets)
      && forall i :: 0 <= i < n ==> SlotTimer(s.timers[i], i, n, durationMs, jitter[i])
  {
    ShufflePermutes(sockets, Last(sockets), draws);
    StartedTimers(sockets, durationMs, draws, jitter);
    TimersExactly(Shuffled(sockets, Last(sockets), draws), durationMs, jitter);
  }

  lemma TimersExactly(order: seq<Socket>, durationMs: real, jitter: seq<real>)
    requires |jitter| == |order|
    ensures forall i :: 0 <= i < |order| ==>
      SlotTimer(Timers(order, durationMs, jitter)[i], i, |order|, durationMs, jitter[i])
  {
    forall i | 0 <= i < |order|
      ensures SlotTimer(Timers(order, durationMs, jitter)[i], i, |order|, durationMs, jitter[i])
    {
      DelayExactly(i, |order|, durationMs, jitter[i]);
    }
  }

  lemma DelayExactly(i: nat, n: nat, durationMs: real, jitter: real)
    requires n > 0
    ensures IsCapped(Delay(i, SlotWidth(n, durationMs), durationMs, jitter), Moment(i, jitter, n, durationMs),
                     durationMs)
  {
    var moment := Moment(i, jitter, n, durationMs);
    SlotMoment(i, jitter, durationMs, n);
    RoundError(moment);
    assert IsRounded(Round(moment) as real, moment);
  }

  lemma SlotMoment(i: nat, jitter: real, durationMs: real, n: nat)
    requires n > 0
    ensures var step := SlotWidth(n, durationMs);
      Moment(i, jitter, n, durationMs) == Times(i as real, step) + Times(jitter, step)
  {
    TimesSum(i as real, jitter, SlotWidth(n, durationMs));
    TimesQuotient(i as real + jitter, durationMs, n as real);
  }

  lemma TimesQuotient(x: real, y: real, n: real)
    requires n > 0.0
    ensures Times(x, y / n) == x * y / n
  {
    var q := y / n;
    assert y == q * n;
    assert x * y == x * (q * n) == (x * q) * n;
  }

  /** A socket that connects during a drain is closed after a random moment of at most five seconds, or half the
      duration where that is less, and is not counted; before a drain nothing happens to it. */
  lemma LateArrival(s: State, socket: Socket, durationMs: real, r: real)
    requires Chance(r)
    ensures var s' := Step(s, Connect(socket, durationMs, r));
      if s.current.None? then s' == s
      else
        && |s'.timers| == |s.timers| + 1 && s' == s.(timers := s.timers + [s'.timers[|s.timers|]])
        && var late, most := s'.timers[|s.timers|], if durationMs < 10000.0 then durationMs / 2.0 else 5000.0;
          late.socket == socket && !late.counted && IsRounded(late.delay, r * most)
  {
    var most := if durationMs < 10000.0 then durationMs / 2.0 else 5000.0;
    assert Min(5000.0, durationMs / 2.0) == most;
    assert Times(r, most) == r * most;
    RoundError(Times(r, most));
  }

  /** A timer closes its socket and is gone; only a counted one counts. */
  lemma FiresExactly(s: State, k: nat)
    requires k < |s.timers|
    ensures var s', t := Step(s, Fire(k)), s.timers[k];
      && s'.timers == s.timers[..k] + s.timers[k + 1..] && s'.current == s.current && s'.present == s.present
      && s'.closes == s.closes + (if t.counted then [t.socket] else [])
      && s'.lateCloses == s.lateCloses + (if t.counted then [] else [t.socket])
  {
  }

  /** Each of the positions still open is as likely as the others: position `j` of `i + 1` is picked by the draws of one
      interval, and all these intervals are equally long. */
  lemma EvenOdds(r: real, i: nat, j: nat)
    requires Chance(r) && j <= i
    ensures Pick(r, i) == j <==> j as real / (i as real + 1.0) <= r < (j as real + 1.0) / (i as real + 1.0)
  {
    var n := i as real + 1.0;
    Scaled(j as real, r, n);
    Scaled(j as real + 1.0, r, n);
  }

  lemma Scaled(x: real, r: real, n: real)
    requires n > 0.0
    ensures x <= Times(r, n) <==> x / n <= r
  {
    var y := x / n;
    assert x == y * n;
    assert Times(r, n) - x == (r - y) * n;
    if y <= r { assert (r - y) * n >= 0.0; } else { assert (y - r) * n > 0.0; }
  }

  /** Where `i` down to 1 are dealt, two lists of picks that differ give different orders of distinct sockets; so each
      order comes from one list of picks, and all orders are equally likely. */
  lemma {:induction false} PicksFromOrder(s: seq<Socket>, i: nat, draws: seq<real>, draws': seq<real>, k: nat)
    requires Chances(draws, |s|) && Chances(draws', |s|) && 0 < k <= i < |s|
    requires forall a, b :: 0 <= a < b < |s| ==> s[a] != s[b]
    requires Shuffled(s, i, draws) == Shuffled(s, i, draws')
    ensures Pick(draws[k], k) == Pick(draws'[k], k)
    decreases i
  {
    var j, j' := Pick(draws[i], i), Pick(draws'[i], i);
    SwapPermutes(s, i, j);
    SwapPermutes(s, i, j');
    Dealt(Swap(s, i, j), i - 1, draws, i);
    Dealt(Swap(s, i, j'), i - 1, draws', i);
    assert s[j] == s[j'];
    if k < i { PicksFromOrder(Swap(s, i, j), i - 1, draws, draws', k); }
  }

  /** What stands past the positions still to be dealt stays. */
  lemma {:induction false} Dealt(s: seq<Socket>, i: nat, draws: seq<real>, k: nat)
    requires Chances(draws, |s|) && i < k < |s|
    ensures |Shuffled(s, i, draws)| == |s| && Shuffled(s, i, draws)[k] == s[k]
    decreases i
  {
    if i > 0 { Dealt(Swap(s, i, Pick(draws[i], i)), i - 1, draws, k); }
  }

  // ----- The rate of closes -----

  /** Every scheduled close stays within half a millisecond of its slot. */
  lemma DelayInSlot(i: nat, total: nat, durationMs: real, jitter: real)
    requires i < total && durationMs >= 0.0 && Chance(jitter)
    ensures var step := SlotWidth(total, durationMs);
      Times(i as real, step) - 0.5 <= Delay(i, step, durationMs, jitter) <= Times(i as real + 1.0, step) + 0.5
  {
    var step := SlotWidth(total, durationMs);
    assert step >= 0.0;
    TimesNonNegative(jitter, step);
    TimesMonotone(jitter, 1.0, step);
    TimesMonotone(i as real, total as real, step);
    assert Times(total as real, step) == durationMs;
    TimesSum(i as real, 1.0, step);
    RoundError(Times(i as real, step) + Times(jitter, step));
  }

  /** The sockets whose close is scheduled in the `w` milliseconds from `t`. */
  ghost function ClosesWithin(total: nat, durationMs: real, jitter: seq<real>, t: real, w: real): set<nat>
    requires |jitter| == total
  {
    set i | 0 <= i < total && t <= Delay(i, SlotWidth(total, durationMs), durationMs, jitter[i]) <= t + w
  }

  /** In any window of `w` ms at most `(w + 1) / step + 2` closes are scheduled, whatever the draws. */
  lemma RateBound(total: nat, durationMs: real, jitter: seq<real>, t: real, w: real)
    requires durationMs >= 0.0 && w >= 0.0 && Chances(jitter, total)
    ensures var step := SlotWidth(total, durationMs);
      var n := |ClosesWithin(total, durationMs, jitter, t, w)| as real;
      Times(n - 2.0, step) <= w + 1.0 && (step > 0.0 ==> n <= (w + 1.0) / step + 2.0)
  {
    var step := SlotWidth(total, durationMs);
    var s := ClosesWithin(total, durationMs, jitter, t, w);
    assert step >= 0.0;
    if s == {} {
      TimesMonotone(-2.0, 0.0, step);
    } else {
      var lo, hi := Spans.Span(s, total);
      DelayInSlot(lo, total, durationMs, jitter[lo]);
      DelayInSlot(hi, total, durationMs, jitter[hi]);
      TimesSum(hi as real - lo as real - 1.0, lo as real + 1.0, step);
      TimesMonotone(|s| as real - 2.0, hi as real - lo as real - 1.0, step);
    }
    if step > 0.0 { Divide(|s| as real - 2.0, step, w + 1.0); }
  }

  lemma Divide(x: real, c: real, y: real)
    requires c > 0.0 && Times(x, c) <= y
    ensures x <= y / c
  {
  }
}
