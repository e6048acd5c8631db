/**
 One-time codes and their brute-force counters, kept in a Redis that runs one command at a time.

 Any number of calls (`consumeOtp`, `storeOtp`, `checkRateLimit`, `checkRideOtpAttempts`,
 `clearRideOtpAttempts`) run at once. Each one is a program counter naming its next Redis command; between
 any two commands any other call may run, any TTL may run out, and `withTimeout` may abandon a call whose
 command takes effect later or never. A run is a list of such events.
 */
module Otp {
  import opened Options

  const OTP_TTL_SECONDS: nat := 300
  const OTP_MAX_ATTEMPTS: nat := 10
  const OTP_LOCK_SECONDS: nat := 5 * 60
  const RATE_WINDOW_SECONDS: nat := 5 * 60
  const RATE_MAX_REQUESTS: nat := 10
  const RIDE_MAX_ATTEMPTS: nat := 5
  const RIDE_LOCKOUT_SECONDS: nat := 15 * 60

  // ----- Redis -----

  datatype Account = Account(phone: string, purpose: string, role: string)

  /** What `hashOtp` returns; nothing is assumed about it. */
  type Hash = string

  /** A stored code. `serial` is history: the index in `Db.issued` of the write that stored it. */
  datatype Code = Code(hash: Hash, lockedUntil: Option<int>, expiresAt: int, ttl: nat, serial: nat)

  datatype CounterKey = Guesses(account: Account) | Requests(account: Account) | RideGuesses(ride: nat, end: bool)

  /** A counter. `life` is history: it numbers the period from the INCR that created the key to its end. */
  datatype Counter = Counter(count: nat, ttl: Option<nat>, life: nat)

  datatype Issued = Issued(account: Account, hash: Hash)

  /** The three families of keys, and two history variables: lives begun so far and every code ever stored. */
  datatype Db = Db(codes: map<Account, Code>, locks: map<Account, nat>, counters: map<CounterKey, Counter>,
                   lives: nat, issued: seq<Issued>)
  {
    /** INCR. */
    function Incr(k: CounterKey): Db {
      if k in counters then
        this.(counters := counters[k := counters[k].(count := counters[k].count + 1)])
      else
        this.(counters := counters[k := Counter(1, None, lives)], lives := lives + 1)
    }

    /** EXPIRE; no effect on a missing key. */
    function Expire(k: CounterKey, seconds: nat): Db {
      if k in counters then this.(counters := counters[k := counters[k].(ttl := Some(seconds))]) else this
    }

    /** DEL of a counter. */
    function DelCounter(k: CounterKey): Db { this.(counters := counters - {k}) }

    /** DEL of a code. */
    function DelCode(a: Account): Db { this.(codes := codes - {a}) }

    /** SET of the lock key with EX. */
    function SetLock(a: Account): Db { this.(locks := locks[a := OTP_LOCK_SECONDS]) }

    /** SET of a code with EX; it expires `OTP_TTL_SECONDS` after `now` (milliseconds). */
    function SetCode(a: Account, h: Hash, now: int): Db {
      this.(codes := codes[a := Code(h, None, now + OTP_TTL_SECONDS * 1000, OTP_TTL_SECONDS, |issued|)],
            issued := issued + [Issued(a, h)])
    }

    /** Whether a lock stored inside the code itself (an older format) is still in force. */
    predicate LegacyLocked(a: Account, now: int) {
      a in codes && codes[a].lockedUntil.Some? && codes[a].lockedUntil.value > now
    }
  }

  // ----- The calls -----

  datatype Request =
    | Verify(account: Account, guess: Hash)
    | Issue(account: Account, hash: Hash, at: int)
    | RateLimit(account: Account)
    | RideAttempt(ride: nat, end: bool)
    | RideClear(ride: nat, end: bool)

  datatype Outcome =
    | Locked | Expired | LockedOut | Wrong(attemptsLeft: nat) | Success
    | Stored
    | Rate(allowed: bool, remaining: nat)
    | RideLocked | RideCounted(attempt: nat)
    | Cleared

  /** The Redis command a call sends next, or how it ended: with an outcome, or abandoned at a command that took effect
      without an answer. */
  datatype Pc =
    | ExistsLock | GetLegacy | GetCode | DelStale | Incr | Expire | SetLock | DelCode | DelCounter | SetCode
    | Done(outcome: Outcome)
    | Crashed(at: Pc)

  /** The code a verifier read, and how many codes had been stored by then. */
  datatype Got = Got(code: Code, mark: nat)

  /** The counter life a call incremented and the number it was given. */
  datatype Inc = Inc(life: nat, count: nat)

  /** A DEL answered 1: the write that stored the deleted code, and how many codes had been stored by then. */
  datatype Claim = Claim(consumed: nat, at: nat)

  /** A call; `alive` is false once its caller has given up. `compared` says that it compared hashes. */
  datatype Call = Call(req: Request, pc: Pc, alive: bool, got: Option<Got>, inc: Option<Inc>, compared: bool,
                       claim: Option<Claim>)

  datatype State = State(db: Db, calls: map<nat, Call>)

  datatype Event =
    | Start(id: nat, req: Request)
    | Exec(id: nat, now: int)
    | Abandon(id: nat)
    | CodeExpires(account: Account)
    | LockExpires(account: Account)
    | CounterExpires(key: CounterKey)

  function KeyOf(r: Request): CounterKey {
    match r
    case Verify(a, _) => Guesses(a)
    case Issue(a, _, _) => Guesses(a)
    case RateLimit(a) => Requests(a)
    case RideAttempt(ride, end) => RideGuesses(ride, end)
    case RideClear(ride, end) => RideGuesses(ride, end)
  }

  function TtlOf(r: Request): nat {
    match r
    case Verify(_, _) => OTP_LOCK_SECONDS
    case Issue(_, _, _) => OTP_LOCK_SECONDS
    case RateLimit(_) => RATE_WINDOW_SECONDS
    case RideAttempt(_, _) => RIDE_LOCKOUT_SECONDS
    case RideClear(_, _) => RIDE_LOCKOUT_SECONDS
  }

  function Begin(r: Request): Call {
    var pc := match r
      case Verify(_, _) => ExistsLock
      case Issue(_, _, _) => SetCode
      case RateLimit(_) => Incr
      case RideAttempt(_, _) => Incr
      case RideClear(_, _) => DelCounter;
    Call(r, pc, true, None, None, false, None)
  }

  /** What the pending command of `c` does to Redis. */
  function Effect(db: Db, c: Call): Db {
    match c.pc
    case Incr => db.Incr(KeyOf(c.req))
    case Expire => db.Expire(KeyOf(c.req), TtlOf(c.req))
    case DelCounter => db.DelCounter(KeyOf(c.req))
    case DelStale => if c.req.Verify? then db.DelCode(c.req.account) else db
    case DelCode => if c.req.Verify? then db.DelCode(c.req.account) else db
    case SetLock => if c.req.Verify? then db.SetLock(c.req.account) else db
    case SetCode => if c.req.Issue? then db.SetCode(c.req.account, c.req.hash, c.req.at) else db
    case _ => db
  }

  /** The number and life an INCR of `k` answers with. */
  function IncrReply(db: Db, k: CounterKey): Inc {
    var c := db.Incr(k).counters[k];
    Inc(c.life, c.count)
  }

  /** The code that runs in `c` once its counter has answered `n` and has a TTL. */
  function Counted(c: Call, n: nat): Call {
    match c.req
    case Verify(_, guess) =>
      if n > OTP_MAX_ATTEMPTS || c.got.None? then c.(pc := SetLock)
      else if guess == c.got.value.code.hash then c.(pc := DelCode, compared := true)
      else if n >= OTP_MAX_ATTEMPTS then c.(pc := SetLock, compared := true)
      else c.(pc := Done(Wrong(OTP_MAX_ATTEMPTS - n)), compared := true)
    case RideAttempt(_, _) =>
      if n > RIDE_MAX_ATTEMPTS then c.(pc := Done(RideLocked)) else c.(pc := Done(RideCounted(n)))
    case _ =>
      c.(pc := Done(Rate(n <= RATE_MAX_REQUESTS, if n <= RATE_MAX_REQUESTS then RATE_MAX_REQUESTS - n else 0)))
  }

  /** `c` after its pending command has answered; `db` is Redis just before the command. */
  function Resume(db: Db, c: Call, now: int): Call {
    match c.pc
    case Incr =>
      var k := KeyOf(c.req);
      var reply := IncrReply(db, k);
      var c' := c.(inc := Some(reply));
      if db.Incr(k).counters[k].ttl.None? then c'.(pc := Expire) else Counted(c', reply.count)
    case Expire => if c.inc.Some? then Counted(c, c.inc.value.count) else c
    case DelCounter => c.(pc := Done(if c.req.Verify? then Success else Cleared))
    case SetCode => c.(pc := Done(Stored))
    case SetLock => c.(pc := Done(LockedOut))
    case DelStale => c.(pc := Done(Outcome.Expired))
    case _ => if c.req.Verify? then ResumeVerify(db, c, c.req.account, now) else c
  }

  /** The commands only a verifier sends. */
  function ResumeVerify(db: Db, c: Call, a: Account, now: int): Call {
    match c.pc
    case ExistsLock => c.(pc := if a in db.locks then Done(Locked) else GetLegacy)
    case GetLegacy => c.(pc := if db.LegacyLocked(a, now) then Done(Locked) else GetCode)
    case GetCode =>
      if a !in db.codes then c.(pc := Done(Outcome.Expired))
      else
        var c' := c.(got := Some(Got(db.codes[a], |db.issued|)));
        c'.(pc := if db.codes[a].expiresAt <= now then DelStale else Incr)
    case DelCode =>
      if a in db.codes then c.(pc := DelCounter, claim := Some(Claim(db.codes[a].serial, |db.issued|)))
      else c.(pc := Done(Outcome.Expired))
    case _ => c
  }

  /** An abandoned call whose command took effect after all: it learns nothing. */
  function Bury(db: Db, c: Call): Call {
    c.(pc := Crashed(c.pc), inc := if c.pc.Incr? then Some(IncrReply(db, KeyOf(c.req))) else c.inc)
  }

  function Step(s: State, e: Event): State {
    match e
    case Start(id, req) => if id in s.calls then s else s.(calls := s.calls[id := Begin(req)])
    case Exec(id, now) =>
      if id !in s.calls || s.calls[id].pc.Done? || s.calls[id].pc.Crashed? then s else
      var c := s.calls[id];
      State(Effect(s.db, c), s.calls[id := if c.alive then Resume(s.db, c, now) else Bury(s.db, c)])
    case Abandon(id) =>
      if id in s.calls && !s.calls[id].pc.Done? then s.(calls := s.calls[id := s.calls[id].(alive := false)]) else s
    case CodeExpires(a) => s.(db := s.db.DelCode(a))
    case LockExpires(a) => s.(db := s.db.(locks := s.db.locks - {a}))
    case CounterExpires(k) =>
      if k in s.db.counters && s.db.counters[k].ttl.Some? then s.(db := s.db.DelCounter(k)) else s
  }

  function Run(s: State, events: seq<Event>): State
    decreases |events|
  {
    if events == [] then s else Run(Step(s, events[0]), events[1..])
  }

  /** Redis may hold anything the application can have left there, counters without a TTL included. */
  ghost predicate Init(s: State) {
    s.calls == map[] && DbOk(s.db)
  }

  // ----- The invariant -----

  /** `serial` is the last write to account `a` among the first `upTo` stored codes. */
  ghost predicate LastWrite(issued: seq<Issued>, a: Account, serial: nat, upTo: nat) {
    && serial < upTo <= |issued|
    && issued[serial].account == a
    && forall i :: serial < i < upTo ==> issued[i].account != a
  }

  ghost predicate CodesOk(codes: map<Account, Code>, issued: seq<Issued>) {
    forall a :: a in codes ==>
      LastWrite(issued, a, codes[a].serial, |issued|) && issued[codes[a].serial].hash == codes[a].hash
  }

  ghost predicate CountersOk(counters: map<CounterKey, Counter>, lives: nat) {
    && (forall k :: k in counters ==> counters[k].life < lives)
    && (forall k, k' :: k in counters && k' in counters && k != k' ==> counters[k].life != counters[k'].life)
  }

  ghost predicate DbOk(db: Db) {
    CodesOk(db.codes, db.issued) && CountersOk(db.counters, db.lives)
  }

  ghost predicate GotOk(db: Db, c: Call) {
    c.got.Some? ==>
      && c.req.Verify?
      && LastWrite(db.issued, c.req.account, c.got.value.code.serial, c.got.value.mark)
      && db.issued[c.got.value.code.serial].hash == c.got.value.code.hash
  }

  /** Between its INCR and its EXPIRE, or abandoned at its INCR. */
  predicate BeforeTtl(pc: Pc) { pc.Expire? || (pc.Crashed? && pc.at.Incr?) }

  ghost predicate IncOk(db: Db, c: Call) {
    c.inc.Some? ==>
      && c.inc.value.life < db.lives
      && c.inc.value.count >= 1
      && forall k :: k in db.counters && db.counters[k].life == c.inc.value.life ==>
           && k == KeyOf(c.req)
           && c.inc.value.count <= db.counters[k].count
           && (!BeforeTtl(c.pc) ==> db.counters[k].ttl.Some?)
  }

  /** A claim took a code stored for the right account, one that no key holds any more. */
  ghost predicate ClaimOk(db: Db, c: Call) {
    c.claim.Some? ==>
      && c.req.Verify? && c.got.Some? && c.compared
      && c.got.value.mark <= c.claim.value.at
      && LastWrite(db.issued, c.req.account, c.claim.value.consumed, c.claim.value.at)
      && forall a :: a in db.codes ==> db.codes[a].serial != c.claim.value.consumed
  }

  ghost predicate PcOk(c: Call) {
    && (c.compared ==> c.req.Verify? && c.got.Some? && c.inc.Some? && c.inc.value.count <= OTP_MAX_ATTEMPTS)
    && (c.inc.None? ==> !c.compared && !c.pc.DelCode? && !c.pc.Expire?)
    && (c.req.Verify? && (c.pc.Incr? || c.pc.Expire?) ==> c.got.Some?)
    && (c.pc.DelStale? ==> c.req.Verify? && c.got.Some?)
    && (c.pc.ExistsLock? || c.pc.GetLegacy? || c.pc.GetCode? || c.pc.DelStale? || c.pc.Incr? || c.pc.SetCode? ==>
          c.inc.None?)
    && (c.pc.Incr? || c.pc.Expire? ==> c.req.Verify? || c.req.RateLimit? || c.req.RideAttempt?)
    && (c.pc.Expire? ==> !c.compared)
    && (c.pc.DelCode? ==> c.compared && c.got.value.code.hash == c.req.guess && c.claim.None?)
    && (c.claim.Some? ==> c.compared && c.got.value.code.hash == c.req.guess)
    && (c.pc == Done(Success) || (c.req.Verify? && c.pc.DelCounter?) ==> c.req.Verify? && c.claim.Some?)
    && (c.pc.Done? && c.pc.outcome.Rate? && c.pc.outcome.allowed ==>
          c.inc.Some? && c.inc.value.count <= RATE_MAX_REQUESTS)
    && (c.pc.Done? && c.pc.outcome.RideCounted? ==>
          c.inc.Some? && c.inc.value.count == c.pc.outcome.attempt <= RIDE_MAX_ATTEMPTS)
  }

  ghost predicate CallOk(db: Db, c: Call) {
    GotOk(db, c) && IncOk(db, c) && ClaimOk(db, c) && PcOk(c)
  }

  /** Two calls never get the same number in one counter life, and never claim the same stored code. */
  ghost predicate Apart(c: Call, c': Call) {
    && (c.inc.Some? && c'.inc.Some? ==> c.inc != c'.inc)
    && (c.claim.Some? && c'.claim.Some? ==> c.claim.value.consumed != c'.claim.value.consumed)
  }

  ghost predicate Inv(s: State) {
    && DbOk(s.db)
    && (forall id :: id in s.calls ==> CallOk(s.db, s.calls[id]))
    && (forall i, j :: i in s.calls && j in s.calls && i != j ==> Apart(s.calls[i], s.calls[j]))
  }

  // ----- Every event keeps the invariant -----

  /** How counters may change while a call is not running. */
  ghost predicate CountersEvolve(counters: map<CounterKey, Counter>, lives: nat, counters': map<CounterKey, Counter>) {
    forall k :: k in counters' ==>
      || lives <= counters'[k].life
      || (&& k in counters
          && counters[k].life == counters'[k].life
          && counters[k].count <= counters'[k].count
          && (counters[k].ttl.Some? ==> counters'[k].ttl.Some?))
  }

  /** How stored codes may change while a call is not running. */
  ghost predicate CodesEvolve(codes: map<Account, Code>, upTo: nat, codes': map<Account, Code>) {
    forall a :: a in codes' ==> upTo <= codes'[a].serial || (a in codes && codes[a] == codes'[a])
  }

  ghost predicate Evolves(db: Db, db': Db) {
    && db.issued <= db'.issued
    && db.lives <= db'.lives
    && CountersEvolve(db.counters, db.lives, db'.counters)
    && CodesEvolve(db.codes, |db.issued|, db'.codes)
  }

  lemma CallStays(db: Db, db': Db, c: Call)
    requires CallOk(db, c) && Evolves(db, db')
    ensures CallOk(db', c)
  {
  }

  lemma SetCodeOk(db: Db, a: Account, h: Hash, now: int)
    requires DbOk(db)
    ensures DbOk(db.SetCode(a, h, now)) && Evolves(db, db.SetCode(a, h, now))
  {
    var db' := db.SetCode(a, h, now);
    forall b | b in db'.codes
      ensures LastWrite(db'.issued, b, db'.codes[b].serial, |db'.issued|)
      ensures db'.issued[db'.codes[b].serial].hash == db'.codes[b].hash
    {
      if b != a { assert LastWrite(db.issued, b, db.codes[b].serial, |db.issued|); }
    }
    assert db'.counters == db.counters;
  }

  lemma IncrEffectOk(db: Db, k: CounterKey)
    requires DbOk(db)
    ensures DbOk(db.Incr(k)) && Evolves(db, db.Incr(k))
  {
    assert db.Incr(k).codes == db.codes && db.Incr(k).issued == db.issued;
  }

  lemma ExpireEffectOk(db: Db, k: CounterKey, seconds: nat)
    requires DbOk(db)
    ensures DbOk(db.Expire(k, seconds)) && Evolves(db, db.Expire(k, seconds))
  {
    assert db.Expire(k, seconds).codes == db.codes && db.Expire(k, seconds).issued == db.issued;
  }

  lemma DelCounterEffectOk(db: Db, k: CounterKey)
    requires DbOk(db)
    ensures DbOk(db.DelCounter(k)) && Evolves(db, db.DelCounter(k))
  {
    assert db.DelCounter(k).codes == db.codes && db.DelCounter(k).issued == db.issued;
  }

  lemma CodeEffectOk(db: Db, a: Account)
    requires DbOk(db)
    ensures DbOk(db.DelCode(a)) && Evolves(db, db.DelCode(a))
    ensures DbOk(db.SetLock(a)) && Evolves(db, db.SetLock(a))
  {
  }

  lemma EffectOk(db: Db, c: Call)
    requires DbOk(db)
    ensures DbOk(Effect(db, c)) && Evolves(db, Effect(db, c))
  {
    match c.pc
    case Incr => IncrEffectOk(db, KeyOf(c.req));
    case Expire => ExpireEffectOk(db, KeyOf(c.req), TtlOf(c.req));
    case DelCounter => DelCounterEffectOk(db, KeyOf(c.req));
    case SetCode => if c.req.Issue? { SetCodeOk(db, c.req.account, c.req.hash, c.req.at); }
    case DelStale => if c.req.Verify? { CodeEffectOk(db, c.req.account); }
    case DelCode => if c.req.Verify? { CodeEffectOk(db, c.req.account); }
    case SetLock => if c.req.Verify? { CodeEffectOk(db, c.req.account); }
    case _ => assert Effect(db, c) == db;
  }

  /** Once it has its number, a call is either waiting to set the TTL or past it. */
  lemma IncrementedOk(db: Db, c: Call)
    requires DbOk(db) && CallOk(db, c) && c.pc.Incr?
    ensures var c' := c.(inc := Some(IncrReply(db, KeyOf(c.req))), pc := Expire); CallOk(Effect(db, c), c')
  {
    IncrEffectOk(db, KeyOf(c.req));
  }

  /** A call whose counter carries a TTL may go on. */
  lemma CountedOk(db: Db, c: Call)
    requires c.pc.Expire? && CallOk(db, c)
    requires forall k :: k in db.counters && db.counters[k].life == c.inc.value.life ==> db.counters[k].ttl.Some?
    ensures CallOk(db, Counted(c, c.inc.value.count))
  {
  }

  /** Reading, deleting and locking leave a verifier's own record in order. */
  lemma ResumeVerifyOk(db: Db, c: Call, now: int)
    requires DbOk(db) && CallOk(db, c) && c.req.Verify?
    requires c.pc.ExistsLock? || c.pc.GetLegacy? || c.pc.GetCode? || c.pc.DelCode?
    ensures CallOk(Effect(db, c), ResumeVerify(db, c, c.req.account, now))
  {
    EffectOk(db, c);
    var a := c.req.account;
    if a in db.codes { assert LastWrite(db.issued, a, db.codes[a].serial, |db.issued|); }
    if c.pc.DelCode? {
      CallStays(db, Effect(db, c), c);
      if a in db.codes { ClaimIsGone(db, a); }
    }
  }

  /** A stored code sits under its own account's key and no other. */
  lemma ClaimIsGone(db: Db, a: Account)
    requires DbOk(db) && a in db.codes
    ensures forall b :: b in db.DelCode(a).codes ==> db.codes[b].serial != db.codes[a].serial
  {
    forall b | b in db.codes && b != a ensures db.codes[b].serial != db.codes[a].serial {
      assert LastWrite(db.issued, a, db.codes[a].serial, |db.issued|);
      assert LastWrite(db.issued, b, db.codes[b].serial, |db.issued|);
    }
  }

  lemma ResumeIncrOk(db: Db, c: Call, now: int)
    requires DbOk(db) && CallOk(db, c) && c.pc.Incr?
    ensures CallOk(Effect(db, c), Resume(db, c, now))
  {
    IncrementedOk(db, c);
    var k := KeyOf(c.req);
    var c' := c.(inc := Some(IncrReply(db, k)), pc := Expire);
    if db.Incr(k).counters[k].ttl.Some? {
      CountedOk(Effect(db, c), c');
      assert Resume(db, c, now) == Counted(c', c'.inc.value.count);
    }
  }

  /** Commands whose answer ends the call, and EXPIRE. */
  lemma ResumeLastOk(db: Db, c: Call, now: int)
    requires DbOk(db) && CallOk(db, c) && !c.pc.Incr?
    requires !(c.req.Verify? && (c.pc.ExistsLock? || c.pc.GetLegacy? || c.pc.GetCode? || c.pc.DelCode?))
    ensures CallOk(Effect(db, c), Resume(db, c, now))
  {
    EffectOk(db, c);
    CallStays(db, Effect(db, c), c);
    if c.pc.Expire? { CountedOk(Effect(db, c), c); }
  }

  lemma ResumeOk(db: Db, c: Call, now: int)
    requires DbOk(db) && CallOk(db, c)
    ensures CallOk(Effect(db, c), Resume(db, c, now))
  {
    if c.pc.Incr? {
      ResumeIncrOk(db, c, now);
    } else if c.req.Verify? && (c.pc.ExistsLock? || c.pc.GetLegacy? || c.pc.GetCode? || c.pc.DelCode?) {
      ResumeVerifyOk(db, c, now);
    } else {
      ResumeLastOk(db, c, now);
    }
  }

  lemma BuryOk(db: Db, c: Call)
    requires DbOk(db) && CallOk(db, c) && !c.pc.Crashed?
    ensures CallOk(Effect(db, c), Bury(db, c))
  {
    EffectOk(db, c);
    CallStays(db, Effect(db, c), c);
    if c.pc.Incr? { IncrementedOk(db, c); }
  }

  /** Only INCR gives a call its number, and only a DEL that answers 1 gives it its claim. */
  lemma Records(db: Db, c: Call, now: int)
    ensures c.pc.Incr? || Resume(db, c, now).inc == c.inc
    ensures c.pc.Incr? ==> Resume(db, c, now).inc == Some(IncrReply(db, KeyOf(c.req)))
    ensures Resume(db, c, now).claim == c.claim
         || (c.req.Verify? && c.req.account in db.codes
             && Resume(db, c, now).claim == Some(Claim(db.codes[c.req.account].serial, |db.issued|)))
  {
  }

  /** A new number is one no other call has. */
  lemma NumberIsNew(db: Db, c: Call, k: CounterKey)
    requires DbOk(db) && CallOk(db, c)
    ensures c.inc != Some(IncrReply(db, k))
  {
  }

  /** A claimed code is one no other call has claimed. */
  lemma ExecApart(db: Db, c: Call, other: Call, now: int)
    requires DbOk(db) && CallOk(db, c) && CallOk(db, other) && Apart(c, other)
    ensures Apart(Resume(db, c, now), other) && Apart(Bury(db, c), other)
  {
    Records(db, c, now);
    NumberIsNew(db, other, KeyOf(c.req));
  }

  lemma ExecKeepsInv(s: State, id: nat, now: int)
    requires Inv(s)
    ensures Inv(Step(s, Exec(id, now)))
  {
    var s' := Step(s, Exec(id, now));
    if s' != s {
      var c := s.calls[id];
      EffectOk(s.db, c);
      ResumeOk(s.db, c, now);
      BuryOk(s.db, c);
      forall i | i in s.calls && i != id
        ensures CallOk(s'.db, s.calls[i]) && Apart(s'.calls[id], s.calls[i]) && Apart(s.calls[i], s'.calls[id])
      {
        CallStays(s.db, s'.db, s.calls[i]);
        ExecApart(s.db, c, s.calls[i], now);
      }
    }
  }

  lemma StepKeepsInv(s: State, e: Event)
    requires Inv(s)
    ensures Inv(Step(s, e))
  {
    match e
    case Exec(id, now) => ExecKeepsInv(s, id, now);
    case CodeExpires(a) => CodeEffectOk(s.db, a); DbChangeKeepsInv(s, s.db.DelCode(a));
    case LockExpires(a) => DbChangeKeepsInv(s, s.db.(locks := s.db.locks - {a}));
    case CounterExpires(k) => DelCounterEffectOk(s.db, k); DbChangeKeepsInv(s, s.db.DelCounter(k));
    case Start(id, req) => StartKeepsInv(s, id, req);
    case Abandon(id) => AbandonKeepsInv(s, id);
  }

  lemma StartKeepsInv(s: State, id: nat, req: Request)
    requires Inv(s)
    ensures Inv(Step(s, Start(id, req)))
  {
    assert CallOk(s.db, Begin(req));
  }

  lemma AbandonKeepsInv(s: State, id: nat)
    requires Inv(s)
    ensures Inv(Step(s, Abandon(id)))
  {
    if id in s.calls { assert CallOk(s.db, s.calls[id].(alive := false)); }
  }

  lemma DbChangeKeepsInv(s: State, db: Db)
    requires Inv(s) && DbOk(db) && Evolves(s.db, db)
    ensures Inv(s.(db := db))
  {
    forall id | id in s.calls ensures CallOk(db, s.calls[id]) { CallStays(s.db, db, s.calls[id]); }
  }

  lemma {:induction false} RunKeepsInv(s: State, events: seq<Event>)
    requires Inv(s)
    ensures Inv(Run(s, events))
    decreases |events|
  {
    if events != [] {
      StepKeepsInv(s, events[0]);
      RunKeepsInv(Step(s, events[0]), events[1..]);
    }
  }
}
