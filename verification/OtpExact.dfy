/** What the calls leave in Redis and answer, key by key and number by number. */
module OtpExact {
  import opened Options
  import opened Sequences
  import opened Otp
  import opened OtpTheorems

  // ----- A new call with no one else about -----

  /** The counter after one more hit: counted on, its TTL kept, or set to `seconds` where it had none. */
  ghost predicate IsHit(before: Db, after: Db, k: CounterKey, n: nat, seconds: nat) {
    if k in before.counters then
      && n == before.counters[k].count + 1
      && after == before.(counters := before.counters[k :=
           Counter(n, if before.counters[k].ttl.Some? then before.counters[k].ttl else Some(seconds),
                   before.counters[k].life)])
    else
      n == 1 && after == before.(counters := before.counters[k := Counter(1, Some(seconds), before.lives)],
                                 lives := before.lives + 1)
  }

  lemma HitIsHit(db: Db, k: CounterKey, seconds: nat)
    ensures IsHit(db, Hit(db, k, seconds).0, k, Hit(db, k, seconds).1, seconds)
  {
  }

  /** `consumeOtp`, case by case: what it answers and what it leaves. */
  ghost predicate Verified(db: Db, a: Account, guess: Hash, now: int, db': Db, outcome: Outcome) {
    if a in db.locks || (a in db.codes && db.codes[a].lockedUntil.Some? && db.codes[a].lockedUntil.value > now) then
      outcome == Locked && db' == db
    else if a !in db.codes then
      outcome == Outcome.Expired && db' == db
    else if db.codes[a].expiresAt <= now then
      outcome == Outcome.Expired && db' == db.(codes := db.codes - {a})
    else
      exists db1, n: nat :: IsHit(db, db1, Guesses(a), n, 300) &&
        if n > 10 || (n == 10 && guess != db.codes[a].hash) then
          outcome == LockedOut && db' == db1.(locks := db1.locks[a := 300])
        else if guess == db.codes[a].hash then
          outcome == Success && db' == db1.(codes := db1.codes - {a}, counters := db1.counters - {Guesses(a)})
        else
          outcome == Wrong(10 - n) && db' == db1
  }

  lemma VerifyExactly(s: State, id: nat, a: Account, guess: Hash, now: int)
    requires id !in s.calls
    ensures var s' := Run(s, Begins(id, Verify(a, guess), 7, now));
      && id in s'.calls && s'.calls[id].pc.Done?
      && Verified(s.db, a, guess, now, s'.db, s'.calls[id].pc.outcome)
  {
    var s1 := Step(s, Start(id, Verify(a, guess)));
    assert Begins(id, Verify(a, guess), 7, now)[1..] == Repeated(Exec(id, now), 7);
    VerifyAlone(s1, id, a, guess, now);
    HitIsHit(s.db, Guesses(a), 300);
    var (db1, n) := Hit(s.db, Guesses(a), OTP_LOCK_SECONDS);
    assert IsHit(s.db, db1, Guesses(a), n, 300);
  }

  /** `storeOtp` replaces the code, valid for 300 seconds, and touches no counter and no lock. */
  lemma IssueExactly(s: State, id: nat, a: Account, hash: Hash, at: int, now: int)
    requires id !in s.calls
    ensures var s' := Run(s, Begins(id, Issue(a, hash, at), 1, now));
      && id in s'.calls && s'.calls[id].pc == Done(Stored)
      && s'.db == s.db.(codes := s.db.codes[a := Code(hash, None, at + 300000, 300, |s.db.issued|)],
                        issued := s.db.issued + [Issued(a, hash)])
  {
    RunBegins(s, id, Issue(a, hash, at), 1, now);
    OneAlone(s.db, Begin(Issue(a, hash, at)), now);
  }

  /** `checkRateLimit` counts one request in a window of 300 seconds and allows ten. */
  lemma RateLimitExactly(s: State, id: nat, a: Account, now: int) returns (n: nat)
    requires id !in s.calls
    ensures var s' := Run(s, Begins(id, RateLimit(a), 2, now));
      && id in s'.calls && IsHit(s.db, s'.db, Requests(a), n, 300)
      && s'.calls[id].pc == Done(if n <= 10 then Rate(true, 10 - n) else Rate(false, 0))
  {
    RunBegins(s, id, RateLimit(a), 2, now);
    LimiterAlone(s.db, RateLimit(a), now);
    HitIsHit(s.db, Requests(a), 300);
    n := Hit(s.db, Requests(a), 300).1;
  }

  /** `checkRideOtpAttempts` counts one attempt in a window of 900 seconds and lets five through. */
  lemma RideAttemptExactly(s: State, id: nat, ride: nat, end: bool, now: int) returns (n: nat)
    requires id !in s.calls
    ensures var s' := Run(s, Begins(id, RideAttempt(ride, end), 2, now));
      && id in s'.calls && IsHit(s.db, s'.db, RideGuesses(ride, end), n, 900)
      && s'.calls[id].pc == Done(if n <= 5 then RideCounted(n) else RideLocked)
  {
    RunBegins(s, id, RideAttempt(ride, end), 2, now);
    LimiterAlone(s.db, RideAttempt(ride, end), now);
    HitIsHit(s.db, RideGuesses(ride, end), 900);
    n := Hit(s.db, RideGuesses(ride, end), 900).1;
  }

  /** `clearRideOtpAttempts` removes that ride's counter and nothing else. */
  lemma RideClearExactly(s: State, id: nat, ride: nat, end: bool, now: int)
    requires id !in s.calls
    ensures var s' := Run(s, Begins(id, RideClear(ride, end), 1, now));
      && id in s'.calls && s'.calls[id].pc == Done(Cleared)
      && s'.db == s.db.(counters := s.db.counters - {RideGuesses(ride, end)})
  {
    RunBegins(s, id, RideClear(ride, end), 1, now);
    OneAlone(s.db, Begin(RideClear(ride, end)), now);
  }

  // ----- Any calls at once -----

  /** The keys a call may touch. */
  ghost predicate OwnCounter(r: Request, k: CounterKey) {
    match r
    case Verify(a, _) => k == Guesses(a)
    case Issue(_, _, _) => false
    case RateLimit(a) => k == Requests(a)
    case RideAttempt(ride, end) => k == RideGuesses(ride, end)
    case RideClear(ride, end) => k == RideGuesses(ride, end)
  }

  ghost predicate OwnAccount(r: Request, a: Account) {
    (r.Verify? || r.Issue?) && r.account == a
  }

  /** Whatever a call is doing, it touches only the code and lock of its own account and its own counter. */
  lemma TouchesItsOwn(s: State, id: nat, now: int)
    requires id in s.calls && PcFits(s.calls[id])
    ensures var r, db, db' := s.calls[id].req, s.db, Step(s, Exec(id, now)).db;
      && (forall a :: !OwnAccount(r, a) ==>
            && (a in db'.codes <==> a in db.codes) && (a in db.codes ==> db'.codes[a] == db.codes[a])
            && (a in db'.locks <==> a in db.locks) && (a in db.locks ==> db'.locks[a] == db.locks[a]))
      && (forall k :: !OwnCounter(r, k) ==>
            (k in db'.counters <==> k in db.counters) && (k in db.counters ==> db'.counters[k] == db.counters[k]))
      && forall i :: i in s.calls && i != id ==>
           i in Step(s, Exec(id, now)).calls && Step(s, Exec(id, now)).calls[i] == s.calls[i]
  {
    EffectTouchesAccounts(s.db, s.calls[id]);
    EffectTouchesCounters(s.db, s.calls[id]);
  }

  lemma EffectTouchesAccounts(db: Db, c: Call)
    requires PcFits(c)
    ensures var db' := Effect(db, c);
      forall a :: !OwnAccount(c.req, a) ==>
        && (a in db'.codes <==> a in db.codes) && (a in db.codes ==> db'.codes[a] == db.codes[a])
        && (a in db'.locks <==> a in db.locks) && (a in db.locks ==> db'.locks[a] == db.locks[a])
  {
  }

  lemma EffectTouchesCounters(db: Db, c: Call)
    requires PcFits(c)
    ensures var db' := Effect(db, c);
      forall k :: !OwnCounter(c.req, k) ==>
        (k in db'.counters <==> k in db.counters) && (k in db.counters ==> db'.counters[k] == db.counters[k])
  {
  }

  /** What a call answered, or is about to, follows from the number it was given and the hash it read. */
  ghost predicate Justified(c: Call) {
    && (c.pc.SetLock? || c.pc == Done(LockedOut) ==>
          && c.req.Verify? && c.inc.Some? && c.got.Some?
          && (c.inc.value.count > 10 || (c.inc.value.count == 10 && c.req.guess != c.got.value.code.hash)))
    && (c.pc.Done? && c.pc.outcome.Wrong? ==>
          && c.req.Verify? && c.inc.Some? && c.got.Some? && c.req.guess != c.got.value.code.hash
          && c.inc.value.count < 10 && c.pc.outcome.attemptsLeft == 10 - c.inc.value.count)
    && (c.pc.DelCode? ==>
          && c.req.Verify? && c.inc.Some? && c.got.Some? && c.req.guess == c.got.value.code.hash
          && c.inc.value.count <= 10)
    && (c.pc.Done? && c.pc.outcome.Rate? ==>
          && c.req.RateLimit? && c.inc.Some? && (c.pc.outcome.allowed <==> c.inc.value.count <= 10)
          && c.pc.outcome.remaining == if c.inc.value.count <= 10 then 10 - c.inc.value.count else 0)
    && (c.pc == Done(RideLocked) ==> c.req.RideAttempt? && c.inc.Some? && c.inc.value.count > 5)
    && (c.pc.Done? && c.pc.outcome.RideCounted? ==>
          c.req.RideAttempt? && c.inc.Some? && c.inc.value.count == c.pc.outcome.attempt <= 5)
  }

  lemma ResumeJustified(db: Db, c: Call, now: int)
    requires PcOk(c) && Justified(c)
    ensures Justified(Resume(db, c, now))
  {
  }

  lemma BuryJustified(db: Db, c: Call)
    requires Justified(c)
    ensures Justified(Bury(db, c))
  {
  }

  ghost predicate AllJustified(s: State) { forall id :: id in s.calls ==> Justified(s.calls[id]) }

  lemma StepJustified(s: State, e: Event)
    requires Inv(s) && AllJustified(s)
    ensures AllJustified(Step(s, e))
  {
    if e.Exec? && e.id in s.calls {
      assert CallOk(s.db, s.calls[e.id]);
      ResumeJustified(s.db, s.calls[e.id], e.now);
      BuryJustified(s.db, s.calls[e.id]);
    }
  }

  lemma {:induction false} RunJustified(s: State, events: seq<Event>)
    requires Inv(s) && AllJustified(s)
    ensures AllJustified(Run(s, events))
    decreases |events|
  {
    if events != [] {
      StepKeepsInv(s, events[0]);
      StepJustified(s, events[0]);
      RunJustified(Step(s, events[0]), events[1..]);
    }
  }

  /** In every run, however calls interleave: each answer is the one its number and the hash it read call for. */
  lemma AnswersAreJustified(s0: State, events: seq<Event>, id: nat)
    requires Init(s0) && id in Run(s0, events).calls
    ensures Justified(Run(s0, events).calls[id])
  {
    RunJustified(s0, events);
  }

  /** The second of two calls that found the code right learns that the first has taken it. */
  lemma LostRace(s: State, id: nat, now: int)
    requires id in s.calls && s.calls[id].alive && s.calls[id].req.Verify? && s.calls[id].pc.DelCode?
    requires s.calls[id].req.account !in s.db.codes
    ensures var s' := Step(s, Exec(id, now)); s'.calls[id].pc == Done(Outcome.Expired) && s'.db == s.db
  {
    assert s.db.codes - {s.calls[id].req.account} == s.db.codes;
  }

  // ----- Timeouts and TTLs -----

  /** Giving up on a call changes nothing in Redis, and its command may still run, with the effect it would have had and
      nobody to read the answer. */
  lemma AbandonedStillActs(s: State, id: nat, now: int)
    requires id in s.calls && !s.calls[id].pc.Done? && !s.calls[id].pc.Crashed?
    ensures var s1 := Step(s, Abandon(id));
      && s1.db == s.db && s1.calls == s.calls[id := s.calls[id].(alive := false)]
      && var s2 := Step(s1, Exec(id, now));
        s2.db == Step(s, Exec(id, now)).db && s2.calls[id].pc == Crashed(s.calls[id].pc)
  {
  }

  /** Codes and locks run out; a counter only if it has a TTL. */
  lemma TtlsRunOut(s: State, a: Account, k: CounterKey)
    ensures Step(s, CodeExpires(a)) == s.(db := s.db.(codes := s.db.codes - {a}))
    ensures Step(s, LockExpires(a)) == s.(db := s.db.(locks := s.db.locks - {a}))
    ensures k in s.db.counters && s.db.counters[k].ttl.Some? ==>
      Step(s, CounterExpires(k)) == s.(db := s.db.(counters := s.db.counters - {k}))
    ensures k in s.db.counters && s.db.counters[k].ttl.None? ==> Step(s, CounterExpires(k)) == s
  {
  }
}
