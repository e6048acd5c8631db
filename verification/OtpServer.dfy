/** The calls in the order the source writes them, on a Redis nobody else is using. */
module OtpServer {
  import opened Options
  import opened Otp
  import opened OtpTheorems

  class Redis {
    var db: Db

    constructor (db: Db)
      ensures this.db == db
    {
      this.db := db;
    }

    /** MULTI: INCR and TTL in one round trip. */
    method IncrAndTtl(k: CounterKey) returns (count: nat, ttl: Option<nat>)
      modifies this
      ensures db == old(db).Incr(k)
      ensures count == db.counters[k].count && ttl == db.counters[k].ttl
    {
      db := db.Incr(k);
      count, ttl := db.counters[k].count, db.counters[k].ttl;
    }

    method IncrWithTtl(k: CounterKey, seconds: nat) returns (count: nat)
      modifies this
      ensures (db, count) == Hit(old(db), k, seconds)
    {
      HitIsIncrThenExpire(db, k, seconds);
      var ttl;
      count, ttl := IncrAndTtl(k);
      if ttl.None? { db := db.Expire(k, seconds); }
    }

    method StoreOtp(a: Account, hash: Hash, now: int)
      modifies this
      ensures db == old(db).SetCode(a, hash, now)
      ensures db.counters == old(db.counters) && db.locks == old(db.locks)
    {
      db := db.SetCode(a, hash, now);
    }

    method IsVerifyLocked(a: Account, now: int) returns (locked: bool)
      ensures locked <==> a in db.locks || db.LegacyLocked(a, now)
    {
      if a in db.locks { return true; }
      if a !in db.codes { return false; }
      var state := db.codes[a];
      locked := state.lockedUntil.Some? && state.lockedUntil.value > now;
    }

    method ConsumeOtp(a: Account, guess: Hash, now: int) returns (outcome: Outcome)
      modifies this
      ensures (db, outcome) == Undisturbed(old(db), a, guess, now)
      ensures outcome == Success <==>
        && old(a !in db.locks && !db.LegacyLocked(a, now) && a in db.codes)
        && old(db).codes[a].expiresAt > now && old(db).codes[a].hash == guess
        && (Guesses(a) in old(db).counters ==> old(db).counters[Guesses(a)].count < OTP_MAX_ATTEMPTS)
      ensures outcome == Success ==> a !in db.codes && Guesses(a) !in db.counters
    {
      var locked := IsVerifyLocked(a, now);
      if locked { return Locked; }
      if a !in db.codes { return Outcome.Expired; }
      var state := db.codes[a];
      if state.expiresAt <= now {
        db := db.DelCode(a);
        return Outcome.Expired;
      }
      var attempts := IncrWithTtl(Guesses(a), OTP_LOCK_SECONDS);
      if attempts > OTP_MAX_ATTEMPTS {
        db := db.SetLock(a);
        return LockedOut;
      }
      if guess != state.hash {
        if attempts >= OTP_MAX_ATTEMPTS {
          db := db.SetLock(a);
          return LockedOut;
        }
        return Wrong(OTP_MAX_ATTEMPTS - attempts);
      }
      var deleted := a in db.codes;
      db := db.DelCode(a);
      if !deleted { return Outcome.Expired; }
      db := db.DelCounter(Guesses(a));
      return Success;
    }

    method CheckRateLimit(a: Account) returns (allowed: bool, remaining: nat)
      modifies this
      ensures db == Hit(old(db), Requests(a), RATE_WINDOW_SECONDS).0
      ensures allowed <==> old(Requests(a) !in db.counters || db.counters[Requests(a)].count < RATE_MAX_REQUESTS)
      ensures remaining > 0 ==> allowed
      ensures allowed ==> remaining + db.counters[Requests(a)].count == RATE_MAX_REQUESTS
    {
      var count := IncrWithTtl(Requests(a), RATE_WINDOW_SECONDS);
      allowed := count <= RATE_MAX_REQUESTS;
      remaining := if RATE_MAX_REQUESTS - count > 0 then RATE_MAX_REQUESTS - count else 0;
    }

    method CheckRideOtpAttempts(ride: nat, end: bool) returns (attempt: Option<nat>)
      modifies this
      ensures db == Hit(old(db), RideGuesses(ride, end), RIDE_LOCKOUT_SECONDS).0
      ensures attempt == AttemptAnswer(old(db), ride, end, 0)
      ensures var n := db.counters[RideGuesses(ride, end)].count;
        attempt == if n <= RIDE_MAX_ATTEMPTS then Some(n) else None
    {
      var attempts := IncrWithTtl(RideGuesses(ride, end), RIDE_LOCKOUT_SECONDS);
      if attempts > RIDE_MAX_ATTEMPTS { return None; }
      return Some(attempts);
    }

    method ClearRideOtpAttempts(ride: nat, end: bool)
      modifies this
      ensures RideGuesses(ride, end) !in db.counters
      ensures forall k :: k != RideGuesses(ride, end) ==>
        (k in db.counters <==> k in old(db).counters) && (k in db.counters ==> db.counters[k] == old(db).counters[k])
      ensures db.codes == old(db).codes && db.locks == old(db).locks
      ensures db.lives == old(db).lives && db.issued == old(db).issued
      ensures forall i: nat :: AttemptAnswer(db, ride, end, i) == if i < RIDE_MAX_ATTEMPTS then Some(i + 1) else None
    {
      forall i: nat ensures AttemptAnswer(db.DelCounter(RideGuesses(ride, end)), ride, end, i)
          == if i < RIDE_MAX_ATTEMPTS then Some(i + 1) else None
      {
        AttemptNumber(db.DelCounter(RideGuesses(ride, end)), ride, end, i);
      }
      db := db.DelCounter(RideGuesses(ride, end));
    }
  }

  /** What `checkRideOtpAttempts` answers after `i` earlier attempts. */
  function AttemptAnswer(db: Db, ride: nat, end: bool, i: nat): Option<nat>
    decreases i
  {
    var (db', n) := Hit(db, RideGuesses(ride, end), RIDE_LOCKOUT_SECONDS);
    if i > 0 then AttemptAnswer(db', ride, end, i - 1) else if n <= RIDE_MAX_ATTEMPTS then Some(n) else None
  }

  /** Attempts in a row are numbered from the counter on, up to `RIDE_MAX_ATTEMPTS`, and refused from there. */
  lemma {:induction false} AttemptNumber(db: Db, ride: nat, end: bool, i: nat)
    ensures var k := RideGuesses(ride, end);
      var n := (if k in db.counters then db.counters[k].count else 0) + i + 1;
      AttemptAnswer(db, ride, end, i) == if n <= RIDE_MAX_ATTEMPTS then Some(n) else None
    decreases i
  {
    if i > 0 { AttemptNumber(Hit(db, RideGuesses(ride, end), RIDE_LOCKOUT_SECONDS).0, ride, end, i - 1); }
  }

  datatype Guess = Guess(hash: Hash, at: int)

  /** What the account's owner is told when one guess follows another. */
  function Answers(db: Db, a: Account, guesses: seq<Guess>): (r: seq<Outcome>)
    ensures |r| == |guesses|
    decreases |guesses|
  {
    if guesses == [] then [] else
    var (db', outcome) := Undisturbed(db, a, guesses[0].hash, guesses[0].at);
    [outcome] + Answers(db', a, guesses[1..])
  }

  lemma {:induction false} LockedAnswers(db: Db, a: Account, guesses: seq<Guess>)
    requires a in db.locks
    ensures forall i :: 0 <= i < |guesses| ==> Answers(db, a, guesses)[i] == Locked
    decreases |guesses|
  {
    if guesses != [] { LockedAnswers(db, a, guesses[1..]); }
  }

  /** Guesses at instants that do not go back, none of them right and all before the code expires. */
  ghost predicate AllWrong(code: Code, guesses: seq<Guess>) {
    && (forall i :: 0 <= i < |guesses| ==> guesses[i].hash != code.hash && guesses[i].at < code.expiresAt)
    && (forall i, j :: 0 <= i < j < |guesses| ==> guesses[i].at <= guesses[j].at)
  }

  /** Wrong guesses one after the other are told how many are left, the one that uses up the budget is locked out, and
      every later one meets the lock. */
  lemma {:induction false} WrongGuesses(db: Db, a: Account, guesses: seq<Guess>)
    requires a in db.codes && AllWrong(db.codes[a], guesses)
    requires a !in db.locks && (guesses != [] ==> !db.LegacyLocked(a, guesses[0].at))
    ensures var used := if Guesses(a) in db.counters then db.counters[Guesses(a)].count else 0;
      forall i :: 0 <= i < |guesses| ==>
        Answers(db, a, guesses)[i] ==
          if used + i + 1 < OTP_MAX_ATTEMPTS then Wrong(OTP_MAX_ATTEMPTS - (used + i + 1))
          else if i == 0 || used + i < OTP_MAX_ATTEMPTS then LockedOut
          else Locked
    decreases |guesses|
  {
    if guesses != [] {
      var (db', outcome) := Undisturbed(db, a, guesses[0].hash, guesses[0].at);
      if outcome == LockedOut {
        LockedAnswers(db', a, guesses[1..]);
      } else {
        WrongGuesses(db', a, guesses[1..]);
      }
    }
  }
}
