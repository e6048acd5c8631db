/** What every run of the one-time-code protocol guarantees. */
module OtpTheorems {
  import opened Options
  import opened Sequences
  import opened Otp

  // ----- Guess budgets -----

  /** Calls that were given one of the numbers 1 to `bound` in the counter life `life`. */
  ghost function NumberedUpTo(s: State, life: nat, bound: nat): set<nat> {
    set id | id in s.calls && s.calls[id].inc.Some? && s.calls[id].inc.value.life == life
             && s.calls[id].inc.value.count <= bound
  }

  /** Distinct numbers below `bound` go to at most `bound` calls. */
  lemma {:induction false} Pigeonhole(number: map<nat, nat>, bound: nat)
    requires forall i :: i in number ==> number[i] < bound
    requires forall i, j :: i in number && j in number && i != j ==> number[i] != number[j]
    ensures |number.Keys| <= bound
  {
    if id :| id in number && number[id] == bound - 1 {
      var rest := map i | i in number && i != id :: number[i];
      Pigeonhole(rest, bound - 1);
      assert number.Keys == rest.Keys + {id};
    } else if bound > 0 {
      Pigeonhole(number, bound - 1);
    } else {
      assert number.Keys == {};
    }
  }

  /** INCR hands out each number of a life once, so at most `bound` calls ever hold one of the first `bound`. */
  lemma LifeBudget(s: State, life: nat, bound: nat)
    requires Inv(s)
    ensures |NumberedUpTo(s, life, bound)| <= bound
  {
    var all := NumberedUpTo(s, life, bound);
    forall id | id in all ensures s.calls[id].inc.value.count >= 1 { assert CallOk(s.db, s.calls[id]); }
    var number := map id | id in all :: s.calls[id].inc.value.count - 1;
    forall i, j | i in all && j in all && i != j ensures number[i] != number[j] {
      assert Apart(s.calls[i], s.calls[j]);
    }
    Pigeonhole(number, bound);
    assert number.Keys == all;
  }

  /** Calls that compared a hash under a number from `life`. */
  ghost function Comparisons(s: State, life: nat): set<nat> {
    set id | id in s.calls && s.calls[id].compared && s.calls[id].inc.Some? && s.calls[id].inc.value.life == life
  }

  lemma Fewer(a: set<nat>, b: set<nat>)
    requires a <= b
    ensures |a| <= |b|
  {
    if a != b {
      assert b == a + (b - a);
    }
  }

  /** At most `OTP_MAX_ATTEMPTS` comparisons per counter life, in every run, however many codes are issued in it. */
  lemma GuessBudget(s0: State, events: seq<Event>, life: nat)
    requires Init(s0)
    ensures var s := Run(s0, events);
      && |Comparisons(s, life)| <= OTP_MAX_ATTEMPTS
      && forall id :: id in s.calls && s.calls[id].compared ==> s.calls[id].inc.Some?
  {
    RunKeepsInv(s0, events);
    var s := Run(s0, events);
    forall id | id in s.calls && s.calls[id].compared
      ensures s.calls[id].inc.Some? && s.calls[id].inc.value.count <= OTP_MAX_ATTEMPTS
    {
      assert CallOk(s.db, s.calls[id]);
    }
    LifeBudget(s, life, OTP_MAX_ATTEMPTS);
    Fewer(Comparisons(s, life), NumberedUpTo(s, life, OTP_MAX_ATTEMPTS));
  }

  /** Calls let through by one of the two fixed-window limiters under a number from `life`. */
  ghost function LetThrough(s: State, life: nat, ride: bool): set<nat> {
    set id | id in s.calls && s.calls[id].inc.Some? && s.calls[id].inc.value.life == life && s.calls[id].pc.Done?
             && if ride then s.calls[id].pc.outcome.RideCounted?
                else s.calls[id].pc.outcome.Rate? && s.calls[id].pc.outcome.allowed
  }

  /** `checkRateLimit` allows at most 10 requests per window and `checkRideOtpAttempts` at most 5 attempts. */
  lemma LimiterBudget(s0: State, events: seq<Event>, life: nat, ride: bool)
    requires Init(s0)
    ensures |LetThrough(Run(s0, events), life, ride)| <= if ride then RIDE_MAX_ATTEMPTS else RATE_MAX_REQUESTS
  {
    RunKeepsInv(s0, events);
    var s := Run(s0, events);
    var bound := if ride then RIDE_MAX_ATTEMPTS else RATE_MAX_REQUESTS;
    forall id | id in LetThrough(s, life, ride) ensures id in NumberedUpTo(s, life, bound) {
      assert CallOk(s.db, s.calls[id]);
    }
    LifeBudget(s, life, bound);
    Fewer(LetThrough(s, life, ride), NumberedUpTo(s, life, bound));
  }

  // ----- Successes and stored codes -----

  ghost predicate Succeeded(c: Call) { c.pc == Done(Success) }

  ghost function Claimants(s: State, bound: nat): set<nat> {
    set id | id in s.calls && s.calls[id].claim.Some? && s.calls[id].claim.value.consumed < bound
  }

  lemma ClaimBudget(s: State, bound: nat)
    requires Inv(s)
    ensures |Claimants(s, bound)| <= bound
  {
    var all := Claimants(s, bound);
    var number := map id | id in all :: s.calls[id].claim.value.consumed;
    forall i, j | i in all && j in all && i != j ensures number[i] != number[j] {
      assert Apart(s.calls[i], s.calls[j]);
    }
    Pigeonhole(number, bound);
    assert number.Keys == all;
  }

  ghost function Winners(s: State): set<nat> {
    set id | id in s.calls && Succeeded(s.calls[id])
  }

  /** `storeOtp` calls whose SET reached Redis. */
  ghost function Writers(s: State): set<nat> {
    set id | id in s.calls && s.calls[id].req.Issue? && !s.calls[id].pc.SetCode?
  }

  ghost predicate PcFits(c: Call) {
    c.req.Issue? ==> c.pc.SetCode? || c.pc.Done? || c.pc.Crashed?
  }

  lemma EffectCountsWrite(db: Db, c: Call, now: int)
    requires PcFits(c)
    ensures PcFits(Resume(db, c, now)) && PcFits(Bury(db, c))
    ensures |Effect(db, c).issued| == |db.issued| + if c.req.Issue? && c.pc.SetCode? then 1 else 0
    ensures c.req.Issue? ==> c.pc.SetCode? ==> !Resume(db, c, now).pc.SetCode? && !Bury(db, c).pc.SetCode?
    ensures Resume(db, c, now).req == c.req && Bury(db, c).req == c.req
  {
  }

  lemma StepCountsWrites(s: State, e: Event)
    requires forall id :: id in s.calls ==> PcFits(s.calls[id])
    ensures var s' := Step(s, e);
      && (forall id :: id in s'.calls ==> PcFits(s'.calls[id]))
      && |s'.db.issued| - |Writers(s')| == |s.db.issued| - |Writers(s)|
  {
    var s' := Step(s, e);
    if e.Exec? && e.id in s.calls && !s.calls[e.id].pc.Done? && !s.calls[e.id].pc.Crashed? {
      EffectCountsWrite(s.db, s.calls[e.id], e.now);
      if s.calls[e.id].req.Issue? {
        assert Writers(s') == Writers(s) + {e.id};
      } else {
        assert Writers(s') == Writers(s);
      }
    } else {
      assert Writers(s') == Writers(s);
    }
  }

  /** Every code stored during a run was stored by one `storeOtp` call, and each such call stores one. */
  lemma {:induction false} WritesAreIssued(s: State, events: seq<Event>)
    requires forall id :: id in s.calls ==> PcFits(s.calls[id])
    ensures var s' := Run(s, events); |s'.db.issued| - |Writers(s')| == |s.db.issued| - |Writers(s)|
    decreases |events|
  {
    if events != [] {
      StepCountsWrites(s, events[0]);
      WritesAreIssued(Step(s, events[0]), events[1..]);
    }
  }

  /** Successes never outnumber the codes there were to consume: those held at the start and those stored since. */
  lemma SuccessesNeedWrites(s0: State, events: seq<Event>)
    requires Init(s0) && |s0.db.issued| == |s0.db.codes|
    ensures var s := Run(s0, events); |Winners(s)| <= |s0.db.codes| + |Writers(s)|
  {
    RunKeepsInv(s0, events);
    WritesAreIssued(s0, events);
    assert Writers(s0) == {};
    var s := Run(s0, events);
    var n := |s.db.issued|;
    forall id | id in Winners(s) ensures id in Claimants(s, n) {
      assert CallOk(s.db, s.calls[id]);
    }
    ClaimBudget(s, n);
    Fewer(Winners(s), Claimants(s, n));
  }

  /** Two successes never consume the same stored code. */
  lemma ConsumedOnce(s0: State, events: seq<Event>, i: nat, j: nat)
    requires Init(s0)
    requires var s := Run(s0, events);
      i in s.calls && j in s.calls && i != j && Succeeded(s.calls[i]) && Succeeded(s.calls[j])
    ensures var s := Run(s0, events);
      && s.calls[i].claim.Some? && s.calls[j].claim.Some?
      && s.calls[i].claim.value.consumed != s.calls[j].claim.value.consumed
  {
    RunKeepsInv(s0, events);
    var s := Run(s0, events);
    assert CallOk(s.db, s.calls[i]) && CallOk(s.db, s.calls[j]) && Apart(s.calls[i], s.calls[j]);
  }

  /** A code was stored for this caller's account between its GET and its DEL. */
  ghost predicate Reissued(s: State, c: Call)
    requires c.got.Some? && c.claim.Some? && c.claim.value.at <= |s.db.issued| && c.req.Verify?
  {
    exists i :: c.got.value.mark <= i < c.claim.value.at && s.db.issued[i].account == c.req.account
  }

  /** What a success proves: its guess is the hash that was stored for the account when it read the code, and it
      consumed that very code unless a new one was stored in between. */
  lemma SuccessMatched(s0: State, events: seq<Event>, id: nat)
    requires Init(s0)
    requires var s := Run(s0, events); id in s.calls && Succeeded(s.calls[id])
    ensures var s := Run(s0, events);
      var c := s.calls[id];
      && c.req.Verify? && c.got.Some? && c.claim.Some? && c.claim.value.at <= |s.db.issued|
      && LastWrite(s.db.issued, c.req.account, c.got.value.code.serial, c.got.value.mark)
      && s.db.issued[c.got.value.code.serial] == Issued(c.req.account, c.req.guess)
      && (c.claim.value.consumed == c.got.value.code.serial <==> !Reissued(s, c))
  {
    RunKeepsInv(s0, events);
    var s := Run(s0, events);
    var c := s.calls[id];
    assert CallOk(s.db, c);
    var read, consumed := c.got.value.code.serial, c.claim.value.consumed;
    if consumed != read {
      assert s.db.issued[consumed].account == c.req.account;
      assert consumed >= c.got.value.mark;
    }
  }

  /** One code lets two parallel calls in only if a new code was stored under the feet of one of them. */
  lemma SharedCodeNeedsReissue(s0: State, events: seq<Event>, i: nat, j: nat)
    requires Init(s0)
    requires var s := Run(s0, events);
      && i in s.calls && j in s.calls && i != j && Succeeded(s.calls[i]) && Succeeded(s.calls[j])
      && s.calls[i].got.Some? && s.calls[j].got.Some?
      && s.calls[i].got.value.code.serial == s.calls[j].got.value.code.serial
    ensures var s := Run(s0, events);
      && s.calls[i].req.Verify? && s.calls[i].claim.Some? && s.calls[i].claim.value.at <= |s.db.issued|
      && s.calls[j].req.Verify? && s.calls[j].claim.Some? && s.calls[j].claim.value.at <= |s.db.issued|
      && (Reissued(s, s.calls[i]) || Reissued(s, s.calls[j]))
  {
    SuccessMatched(s0, events, i);
    SuccessMatched(s0, events, j);
    ConsumedOnce(s0, events, i, j);
  }

  lemma {:induction false} RunConcat(s: State, first: seq<Event>, second: seq<Event>)
    ensures Run(s, first + second) == Run(Run(s, first), second)
    decreases |first|
  {
    if first == [] {
      assert first + second == second;
    } else {
      assert (first + second)[1..] == first[1..] + second;
      RunConcat(Step(s, first[0]), first[1..], second);
    }
  }

  // ----- One stored code can be verified twice -----

  const ALICE := Account("98", "login", "user")
  const CODE := Code("h", None, 300000, OTP_TTL_SECONDS, 0)

  const NO_CODE := Db(map[], map[], map[], 0, [])
  const ONE_CODE := Db(map[ALICE := CODE], map[], map[], 0, [Issued(ALICE, "h")])
  const READER := Call(Verify(ALICE, "h"), Pc.Incr, true, Some(Got(CODE, 1)), None, false, None)

  /** Call `id` begins and sends its first `n` commands, all at `now`. */
  function Begins(id: nat, r: Request, n: nat, now: int): seq<Event> { [Start(id, r)] + Repeated(Exec(id, now), n) }

  lemma RunBegins(s: State, id: nat, r: Request, n: nat, now: int)
    requires id !in s.calls
    ensures var (db, c) := Alone(s.db, Begin(r), now, n);
      Run(s, Begins(id, r, n, now)) == State(db, s.calls[id := c])
  {
    var s1 := Step(s, Start(id, r));
    RunAlone(s1, id, now, n);
    assert Begins(id, r, n, now)[1..] == Repeated(Exec(id, now), n);
    var c := Alone(s.db, Begin(r), now, n).1;
    assert s1.calls[id := c] == s.calls[id := c];
  }

  lemma ReaderReads()
    ensures Alone(ONE_CODE, Begin(Verify(ALICE, "h")), 1, 3) == (ONE_CODE, READER)
  {
    var c1 := Resume(ONE_CODE, Begin(Verify(ALICE, "h")), 1);
    var c2 := Resume(ONE_CODE, c1, 1);
    assert Alone(ONE_CODE, c1, 1, 2) == Alone(ONE_CODE, c2, 1, 1);
    assert Resume(ONE_CODE, c2, 1) == READER;
  }

  /** A call whose guess fits what it read wins whatever code its account's key holds by then. */
  lemma ReaderWins(db: Db)
    requires ALICE in db.codes && Guesses(ALICE) !in db.counters
    ensures var (db', c) := Alone(db, READER, 1, 4);
      && c.got == READER.got && c.pc == Done(Success)
      && db' == db.Incr(Guesses(ALICE)).Expire(Guesses(ALICE), OTP_LOCK_SECONDS).DelCode(ALICE)
                  .DelCounter(Guesses(ALICE))
  {
    var db1, c1 := Effect(db, READER), Resume(db, READER, 1);
    var db2, c2 := Effect(db1, c1), Resume(db1, c1, 1);
    assert Alone(db, READER, 1, 4) == Alone(db1, c1, 1, 3) == Alone(db2, c2, 1, 2);
    CountedAlone(db2, c2, 1, 2);
  }

  function IssueThenReadTwice(): seq<Event> {
    Begins(1, Issue(ALICE, "h", 0), 1, 1) + (Begins(2, READER.req, 3, 1) + Begins(3, READER.req, 3, 1))
  }

  function WinReissueWin(): seq<Event> {
    Repeated(Exec(2, 1), 4) + (Begins(4, Issue(ALICE, "i", 1), 1, 1) + Repeated(Exec(3, 1), 4))
  }

  lemma StoreOne()
    ensures var s := Run(State(NO_CODE, map[]), Begins(1, Issue(ALICE, "h", 0), 1, 1));
      s.db == ONE_CODE && s.calls.Keys == {1}
  {
    var issue := Begin(Issue(ALICE, "h", 0));
    assert Effect(NO_CODE, issue) == ONE_CODE;
    RunBegins(State(NO_CODE, map[]), 1, issue.req, 1, 1);
    assert Alone(NO_CODE, issue, 1, 1).0 == Effect(NO_CODE, issue);
  }

  lemma TwoReaders(s: State)
    requires s.db == ONE_CODE && s.calls.Keys == {1}
    ensures var s' := Run(s, Begins(2, READER.req, 3, 1) + Begins(3, READER.req, 3, 1));
      s'.db == ONE_CODE && s'.calls.Keys == {1, 2, 3} && s'.calls[2] == s'.calls[3] == READER
  {
    ReaderReads();
    RunBegins(s, 2, READER.req, 3, 1);
    RunBegins(Run(s, Begins(2, READER.req, 3, 1)), 3, READER.req, 3, 1);
    RunConcat(s, Begins(2, READER.req, 3, 1), Begins(3, READER.req, 3, 1));
  }

  lemma OneWins(s: State, id: nat)
    requires ALICE in s.db.codes && Guesses(ALICE) !in s.db.counters && id in s.calls && s.calls[id] == READER
    ensures var s' := Run(s, Repeated(Exec(id, 1), 4));
      && id in s'.calls && Succeeded(s'.calls[id]) && s'.calls[id].got == READER.got
      && s'.calls == s.calls[id := s'.calls[id]]
      && Guesses(ALICE) !in s'.db.counters
  {
    ReaderWins(s.db);
    RunAlone(s, id, 1, 4);
  }

  lemma Reissue(s: State)
    requires 4 !in s.calls
    ensures var s' := Run(s, Begins(4, Issue(ALICE, "i", 1), 1, 1));
      && ALICE in s'.db.codes && s'.db.counters == s.db.counters
      && 4 in s'.calls && s'.calls == s.calls[4 := s'.calls[4]]
  {
    var issue := Begin(Issue(ALICE, "i", 1));
    RunBegins(s, 4, issue.req, 1, 1);
    assert Alone(s.db, issue, 1, 1).0 == Effect(s.db, issue);
  }

  lemma BothWin(s: State)
    requires s.db == ONE_CODE && s.calls.Keys == {1, 2, 3} && s.calls[2] == s.calls[3] == READER
    ensures var s' := Run(s, WinReissueWin());
      && 2 in s'.calls && 3 in s'.calls && Succeeded(s'.calls[2]) && Succeeded(s'.calls[3])
      && s'.calls[2].got == s'.calls[3].got == READER.got
  {
    OneWins(s, 2);
    var s1 := Run(s, Repeated(Exec(2, 1), 4));
    Reissue(s1);
    OneWins(Run(s1, Begins(4, Issue(ALICE, "i", 1), 1, 1)), 3);
    RunConcat(s1, Begins(4, Issue(ALICE, "i", 1), 1, 1), Repeated(Exec(3, 1), 4));
    RunConcat(s, Repeated(Exec(2, 1), 4), Begins(4, Issue(ALICE, "i", 1), 1, 1) + Repeated(Exec(3, 1), 4));
  }

  /** One stored code can let two calls in: the second consumes a newer code, which its guess need not fit. */
  lemma OneCodeTwoSuccesses()
    ensures Init(State(NO_CODE, map[]))
    ensures var s := Run(State(NO_CODE, map[]), IssueThenReadTwice() + WinReissueWin());
      && 2 in s.calls && 3 in s.calls && Succeeded(s.calls[2]) && Succeeded(s.calls[3])
      && s.calls[2].got.Some? && s.calls[3].got.Some?
      && s.calls[2].got.value.code.serial == s.calls[3].got.value.code.serial
  {
    var s0 := State(NO_CODE, map[]);
    StoreOne();
    var s1 := Run(s0, Begins(1, Issue(ALICE, "h", 0), 1, 1));
    TwoReaders(s1);
    BothWin(Run(s1, Begins(2, READER.req, 3, 1) + Begins(3, READER.req, 3, 1)));
    RunConcat(s0, Begins(1, Issue(ALICE, "h", 0), 1, 1), Begins(2, READER.req, 3, 1) + Begins(3, READER.req, 3, 1));
    RunConcat(s0, IssueThenReadTwice(), WinReissueWin());
  }

  // ----- How a stored code leaves Redis -----

  /** The next command of call `id` writes or deletes the code of account `a`. */
  ghost predicate TakesCode(s: State, id: nat, a: Account) {
    && id in s.calls
    && var c := s.calls[id];
      || (c.req.Issue? && c.req.account == a && c.pc.SetCode?)
      || (c.req.Verify? && c.req.account == a && (c.pc.DelCode? || c.pc.DelStale?))
  }

  /** A stored code stays until it expires, is replaced, or is deleted by a verifier: one that compared it and claims
      it, or one that read an expired code. */
  lemma CodesLeave(s: State, e: Event, a: Account)
    requires Inv(s) && a in s.db.codes
    ensures var codes := Step(s, e).db.codes;
      (a in codes && codes[a] == s.db.codes[a]) <==> !(e == CodeExpires(a) || (e.Exec? && TakesCode(s, e.id, a)))
    ensures e.Exec? && TakesCode(s, e.id, a) && s.calls[e.id].pc.DelCode? && s.calls[e.id].alive ==>
      Step(s, e).calls[e.id].claim == Some(Claim(s.db.codes[a].serial, |s.db.issued|))
  {
    assert LastWrite(s.db.issued, a, s.db.codes[a].serial, |s.db.issued|);
    if e.Exec? && e.id in s.calls { EffectOnCode(s.db, s.calls[e.id], a); }
  }

  lemma EffectOnCode(db: Db, c: Call, a: Account)
    requires a in db.codes && db.codes[a].serial < |db.issued|
    ensures var codes := Effect(db, c).codes;
      (a in codes && codes[a] == db.codes[a]) <==>
        !((c.req.Issue? && c.req.account == a && c.pc.SetCode?)
          || (c.req.Verify? && c.req.account == a && (c.pc.DelCode? || c.pc.DelStale?)))
  {
  }

  /** A code was stored for this caller's account since its GET. */
  ghost predicate StoredSince(s: State, c: Call)
    requires c.got.Some? && c.req.Verify?
  {
    exists i :: c.got.value.mark <= i < |s.db.issued| && s.db.issued[i].account == c.req.account
  }

  /** The DEL of a verifier that read an expired code deletes whatever its account's key holds by then, and that is a
      newer code exactly when one was stored since its GET. */
  lemma StaleDelHits(s0: State, events: seq<Event>, id: nat, now: int)
    requires Init(s0)
    requires var s := Run(s0, events); id in s.calls && s.calls[id].pc.DelStale?
    ensures var s := Run(s0, events);
      var c := s.calls[id];
      && c.req.Verify? && c.got.Some?
      && c.req.account !in Step(s, Exec(id, now)).db.codes
      && (c.req.account in s.db.codes ==>
            (s.db.codes[c.req.account].serial != c.got.value.code.serial <==> StoredSince(s, c)))
  {
    RunKeepsInv(s0, events);
    var s := Run(s0, events);
    var c := s.calls[id];
    assert CallOk(s.db, c);
    var a, read := c.req.account, c.got.value.code.serial;
    if a in s.db.codes {
      var held := s.db.codes[a].serial;
      assert LastWrite(s.db.issued, a, held, |s.db.issued|);
      if held != read { assert s.db.issued[held].account == a && held >= c.got.value.mark; }
    }
  }

  /** From any state in which a verifier is about to delete an expired code, a code stored first is lost. */
  lemma StaleDelLosesNewCode(s: State, id: nat, issuer: nat, hash: Hash, at: int, now: int)
    requires Inv(s) && id in s.calls && s.calls[id].pc.DelStale? && issuer !in s.calls
    ensures s.calls[id].req.Verify?
    ensures var a := s.calls[id].req.account;
      var s1 := Run(s, Begins(issuer, Issue(a, hash, at), 1, at));
      && a in s1.db.codes && s1.db.codes[a].hash == hash
      && issuer in s1.calls && s1.calls[issuer].pc == Done(Stored)
      && a !in Step(s1, Exec(id, now)).db.codes
  {
    assert CallOk(s.db, s.calls[id]);
    var issue := Begin(Issue(s.calls[id].req.account, hash, at));
    RunBegins(s, issuer, issue.req, 1, at);
    OneAlone(s.db, issue, at);
  }

  lemma OneAlone(db: Db, c: Call, now: int)
    requires !c.pc.Done? && !c.pc.Crashed?
    ensures Alone(db, c, now, 1) == (Effect(db, c), Resume(db, c, now))
  {
    assert Alone(Effect(db, c), Resume(db, c, now), now, 0) == (Effect(db, c), Resume(db, c, now));
  }

  /** Such a state is reached when Redis still holds a code that the application's clock, 300 seconds on, has
      expired. */
  lemma StaleReaderReachable()
    ensures Init(State(NO_CODE, map[]))
    ensures var first, second := Begins(1, Issue(ALICE, "h", 0), 1, 1), Begins(2, Verify(ALICE, "h"), 3, 300000);
      var s := Run(State(NO_CODE, map[]), first + second);
      2 in s.calls && s.calls[2].pc.DelStale?
  {
    var s0, verify := State(NO_CODE, map[]), Begin(Verify(ALICE, "h"));
    var first := Begins(1, Issue(ALICE, "h", 0), 1, 1);
    StoreOne();
    RunBegins(Run(s0, first), 2, verify.req, 3, 300000);
    StaleRead();
    RunConcat(s0, first, Begins(2, verify.req, 3, 300000));
  }

  lemma StaleRead()
    ensures Alone(ONE_CODE, Begin(Verify(ALICE, "h")), 300000, 3).1.pc.DelStale?
  {
    var c0, now := Begin(Verify(ALICE, "h")), 300000;
    var c1 := Resume(ONE_CODE, c0, now);
    var c2 := Resume(ONE_CODE, c1, now);
    assert Alone(ONE_CODE, c0, now, 3) == Alone(ONE_CODE, c1, now, 2) == Alone(ONE_CODE, c2, now, 1);
    OneAlone(ONE_CODE, c2, now);
  }

  // ----- Counters end -----

  /** A live counter without a TTL was incremented only by calls whose EXPIRE has not run, or that died at their INCR;
      so a call past its `incrWithTtl`, dead or alive, leaves its life ended or with a TTL. */
  lemma NoPermanentCounter(s0: State, events: seq<Event>, id: nat, k: CounterKey)
    requires Init(s0)
    requires var s := Run(s0, events);
      && id in s.calls && s.calls[id].inc.Some?
      && k in s.db.counters && s.db.counters[k].life == s.calls[id].inc.value.life
    ensures var s := Run(s0, events);
      && k == KeyOf(s.calls[id].req)
      && (s.db.counters[k].ttl.None? ==> BeforeTtl(s.calls[id].pc))
  {
    RunKeepsInv(s0, events);
    assert CallOk(Run(s0, events).db, Run(s0, events).calls[id]);
  }

  ghost predicate Alive(s: State, life: nat) {
    exists k :: k in s.db.counters && s.db.counters[k].life == life
  }

  lemma StepEvolves(s: State, e: Event)
    requires Inv(s)
    ensures Evolves(s.db, Step(s, e).db)
  {
    match e
    case Exec(id, _) => if id in s.calls { EffectOk(s.db, s.calls[id]); }
    case CodeExpires(a) => CodeEffectOk(s.db, a);
    case CounterExpires(k) => DelCounterEffectOk(s.db, k);
    case _ =>
  }

  /** A counter life that has ended never comes back. */
  lemma {:induction false} LivesEndForGood(s: State, events: seq<Event>, life: nat)
    requires Inv(s) && life < s.db.lives && !Alive(s, life)
    ensures !Alive(Run(s, events), life)
    decreases |events|
  {
    if events != [] {
      StepEvolves(s, events[0]);
      StepKeepsInv(s, events[0]);
      LivesEndForGood(Step(s, events[0]), events[1..], life);
    }
  }

  // ----- One call with no one else about -----

  /** `incrWithTtl`: the count and the counter it leaves, which always carries a TTL. */
  function Hit(db: Db, k: CounterKey, seconds: nat): (r: (Db, nat))
    ensures k in r.0.counters && r.0.counters[k].ttl.Some? && r.0.counters[k].count == r.1
  {
    var c := if k in db.counters then db.counters[k] else Counter(0, None, db.lives);
    var ttl := if c.ttl.Some? then c.ttl else Some(seconds);
    (db.(counters := db.counters[k := Counter(c.count + 1, ttl, c.life)],
         lives := if k in db.counters then db.lives else db.lives + 1), c.count + 1)
  }

  /** `consumeOtp` undisturbed. */
  function Undisturbed(db: Db, a: Account, guess: Hash, now: int): (Db, Outcome) {
    if a in db.locks || db.LegacyLocked(a, now) then (db, Locked)
    else if a !in db.codes then (db, Outcome.Expired)
    else if db.codes[a].expiresAt <= now then (db.DelCode(a), Outcome.Expired)
    else
      var (db1, n) := Hit(db, Guesses(a), OTP_LOCK_SECONDS);
      if n > OTP_MAX_ATTEMPTS then (db1.SetLock(a), LockedOut)
      else if guess == db.codes[a].hash then (db1.DelCode(a).DelCounter(Guesses(a)), Success)
      else if n == OTP_MAX_ATTEMPTS then (db1.SetLock(a), LockedOut)
      else (db1, Wrong(OTP_MAX_ATTEMPTS - n))
  }

  /** Redis and one live call after `n` of its commands. */
  function Alone(db: Db, c: Call, now: int, n: nat): (Db, Call)
    decreases n
  {
    if n == 0 || c.pc.Done? || c.pc.Crashed? then (db, c)
    else Alone(Effect(db, c), Resume(db, c, now), now, n - 1)
  }

  lemma {:induction false} RunAlone(s: State, id: nat, now: int, n: nat)
    requires id in s.calls && s.calls[id].alive
    ensures var (db, c) := Alone(s.db, s.calls[id], now, n);
      Run(s, Repeated(Exec(id, now), n)) == State(db, s.calls[id := c])
    decreases n
  {
    if n > 0 {
      var e := Exec(id, now);
      assert Repeated(e, n)[1..] == Repeated(e, n - 1);
      var s1 := Step(s, e);
      RunAlone(s1, id, now, n - 1);
      if s1 != s {
        var c := Alone(s.db, s.calls[id], now, n).1;
        assert s1.calls[id := c] == s.calls[id := c];
      } else {
        assert s.calls[id := s.calls[id]] == s.calls;
      }
    } else {
      assert s.calls[id := s.calls[id]] == s.calls;
    }
  }

  lemma HitIsIncrThenExpire(db: Db, k: CounterKey, seconds: nat)
    ensures Hit(db, k, seconds).1 == IncrReply(db, k).count
    ensures db.Incr(k).counters[k].ttl.Some? ==> Hit(db, k, seconds).0 == db.Incr(k)
    ensures db.Incr(k).counters[k].ttl.None? ==> Hit(db, k, seconds).0 == db.Incr(k).Expire(k, seconds)
  {
  }

  /** From the moment it sends INCR, with nobody else about. */
  lemma GuessAlone(db: Db, c: Call, now: int)
    requires c.req.Verify? && c.got.Some? && c.pc == Pc.Incr
    requires c.req.account in db.codes && c.got.value.code == db.codes[c.req.account]
    requires c.got.value.code.expiresAt > now
    requires c.req.account !in db.locks && !db.LegacyLocked(c.req.account, now)
    ensures var (db', c') := Alone(db, c, now, 4);
      (db', c'.pc) == var u := Undisturbed(db, c.req.account, c.req.guess, now); (u.0, Done(u.1))
  {
    var c1, left := CountedByHit(db, c, now);
    CountedAlone(Hit(db, Guesses(c.req.account), OTP_LOCK_SECONDS).0, c1, now, left);
  }

  /** INCR and, where it is due, EXPIRE: the caller goes on with the number it hit. */
  lemma CountedByHit(db: Db, c: Call, now: int) returns (c': Call, left: nat)
    requires c.req.Verify? && c.got.Some? && c.pc == Pc.Incr
    ensures var (db1, n) := Hit(db, Guesses(c.req.account), OTP_LOCK_SECONDS);
      && left >= 2 && c'.req == c.req && c'.got == c.got
      && c'.pc == Counted(c, n).pc
      && Alone(db, c, now, 4) == Alone(db1, c', now, left)
  {
    HitIsIncrThenExpire(db, KeyOf(c.req), OTP_LOCK_SECONDS);
    var db1, c1 := Effect(db, c), Resume(db, c, now);
    assert Alone(db, c, now, 4) == Alone(db1, c1, now, 3);
    c', left := c1, 3;
    if c1.pc == Pc.Expire {
      c', left := Resume(db1, c1, now), 2;
    }
  }

  /** From the moment its counter has answered: at most the claiming and the clearing DEL are left, or one SET. */
  lemma CountedAlone(db: Db, c: Call, now: int, n: nat)
    requires c.req.Verify? && c.req.account in db.codes && n >= 2
    requires c.pc.Done? || c.pc == Pc.SetLock || c.pc == Pc.DelCode
    ensures var (db', c') := Alone(db, c, now, n);
      && (c.pc.Done? ==> db' == db && c'.pc == c.pc)
      && (c.pc == Pc.SetLock ==> db' == db.SetLock(c.req.account) && c'.pc == Done(LockedOut))
      && (c.pc == Pc.DelCode ==>
            db' == db.DelCode(c.req.account).DelCounter(Guesses(c.req.account)) && c'.pc == Done(Success))
      && c'.got == c.got
  {
    if !c.pc.Done? {
      var db1, c1 := Effect(db, c), Resume(db, c, now);
      assert Alone(db, c, now, n) == Alone(db1, c1, now, n - 1);
      if !c1.pc.Done? {
        assert Alone(db1, c1, now, n - 1) == Alone(Effect(db1, c1), Resume(db1, c1, now), now, n - 2);
      }
    }
  }

  lemma VerifyAloneSteps(db: Db, a: Account, guess: Hash, now: int)
    ensures var (db', c') := Alone(db, Begin(Verify(a, guess)), now, 7);
      (db', c'.pc) == var u := Undisturbed(db, a, guess, now); (u.0, Done(u.1))
  {
    var c0 := Begin(Verify(a, guess));
    var c1 := Resume(db, c0, now);
    assert Alone(db, c0, now, 7) == Alone(db, c1, now, 6);
    if c1.pc == GetLegacy {
      var c2 := Resume(db, c1, now);
      assert Alone(db, c1, now, 6) == Alone(db, c2, now, 5);
      if c2.pc == GetCode {
        var c3 := Resume(db, c2, now);
        assert Alone(db, c2, now, 5) == Alone(db, c3, now, 4);
        if c3.pc == Pc.Incr { GuessAlone(db, c3, now); }
        if c3.pc == DelStale {
          assert Alone(db, c3, now, 4) == Alone(Effect(db, c3), Resume(db, c3, now), now, 3);
        }
      }
    }
  }

  /** The protocol machine, left alone, does exactly what the undisturbed call does. */
  lemma VerifyAlone(s: State, id: nat, a: Account, guess: Hash, now: int)
    requires id in s.calls && s.calls[id] == Begin(Verify(a, guess))
    ensures var s' := Run(s, Repeated(Exec(id, now), 7));
      && id in s'.calls
      && (s'.db, s'.calls[id].pc) == var u := Undisturbed(s.db, a, guess, now); (u.0, Done(u.1))
  {
    RunAlone(s, id, now, 7);
    VerifyAloneSteps(s.db, a, guess, now);
  }

  /** The two limiters, left alone, count one hit and answer by the number it was given. */
  lemma LimiterAlone(db: Db, r: Request, now: int)
    requires r.RateLimit? || r.RideAttempt?
    ensures var (db', c) := Alone(db, Begin(r), now, 2);
      var (after, n) := Hit(db, KeyOf(r), TtlOf(r));
      && db' == after
      && (r.RateLimit? ==>
            c.pc == Done(if n <= RATE_MAX_REQUESTS then Rate(true, RATE_MAX_REQUESTS - n) else Rate(false, 0)))
      && (r.RideAttempt? ==> c.pc == Done(if n <= RIDE_MAX_ATTEMPTS then RideCounted(n) else RideLocked))
  {
    HitIsIncrThenExpire(db, KeyOf(r), TtlOf(r));
    var db1, c1 := Effect(db, Begin(r)), Resume(db, Begin(r), now);
    assert Alone(db, Begin(r), now, 2) == Alone(db1, c1, now, 1);
    if !c1.pc.Done? {
      assert Alone(db1, c1, now, 1) == Alone(Effect(db1, c1), Resume(db1, c1, now), now, 0);
    }
  }
}
