/**
 The migration runner: any number of runners, any of which may die at any moment, share one advisory lock and run
 each SQL file and its bookkeeping row in one transaction.
 */
module Migrate {
  import opened Options
  import opened Sequences

  // ----- The files of a directory -----

  /** Order of JavaScript's default sort: by code unit, a prefix first. */
  predicate AtMost(a: string, b: string) {
    a == "" || (b != "" && (a[0] < b[0] || (a[0] == b[0] && AtMost(a[1..], b[1..]))))
  }

  predicate IsSql(name: string) { |name| >= 4 && name[|name| - 4..] == ".sql" }

  function Insert(name: string, sorted: seq<string>): seq<string> {
    if sorted == [] || AtMost(name, sorted[0]) then [name] + sorted
    else [sorted[0]] + Insert(name, sorted[1..])
  }

  /** The `.sql` files of a directory listing, sorted. */
  function SqlFiles(listing: seq<string>): seq<string> {
    if listing == [] then []
    else if IsSql(listing[0]) then Insert(listing[0], SqlFiles(listing[1..]))
    else SqlFiles(listing[1..])
  }

  predicate Distinct(s: seq<string>) { forall i, j :: 0 <= i < j < |s| ==> s[i] != s[j] }

  predicate Sorted(s: seq<string>) { forall i, j :: 0 <= i < j < |s| ==> AtMost(s[i], s[j]) }

  lemma {:induction false} AtMostTotal(a: string, b: string)
    ensures AtMost(a, b) || AtMost(b, a)
  {
    if a != "" && b != "" && a[0] == b[0] { AtMostTotal(a[1..], b[1..]); }
  }

  lemma {:induction false} AtMostTransitive(a: string, b: string, c: string)
    requires AtMost(a, b) && AtMost(b, c)
    ensures AtMost(a, c)
  {
    if a != "" && a[0] == b[0] == c[0] { AtMostTransitive(a[1..], b[1..], c[1..]); }
  }

  lemma {:induction false} InsertSorts(name: string, sorted: seq<string>)
    requires Sorted(sorted)
    ensures Sorted(Insert(name, sorted)) && multiset(Insert(name, sorted)) == multiset(sorted) + multiset{name}
  {
    if sorted == [] {
    } else if AtMost(name, sorted[0]) {
      forall j | 0 <= j < |sorted| ensures AtMost(name, sorted[j]) {
        if j > 0 { AtMostTransitive(name, sorted[0], sorted[j]); }
      }
    } else {
      var rest := sorted[1..];
      assert sorted == [sorted[0]] + rest;
      AtMostTotal(name, sorted[0]);
      InsertSorts(name, rest);
      var r := Insert(name, rest);
      forall j | 0 <= j < |r| ensures AtMost(sorted[0], r[j]) {
        assert r[j] in multiset(r);
        if r[j] != name {
          assert r[j] in rest;
        }
      }
    }
  }

  /** `a` is where `b` begins, or the first character that differs is smaller in `a`. */
  ghost predicate ComesFirst(a: string, b: string) {
    a <= b || exists k :: 0 <= k < |a| && k < |b| && a[..k] == b[..k] && a[k] < b[k]
  }

  lemma {:induction false} AtMostSays(a: string, b: string)
    requires AtMost(a, b)
    ensures ComesFirst(a, b)
  {
    if a != "" && a[0] == b[0] {
      AtMostSays(a[1..], b[1..]);
      OneFurther(a, b);
    } else if a != "" {
      assert a[..0] == b[..0];
    }
  }

  lemma OneFurther(a: string, b: string)
    requires a != "" && b != "" && a[0] == b[0] && ComesFirst(a[1..], b[1..])
    ensures ComesFirst(a, b)
  {
    if a[1..] <= b[1..] {
      assert b == a + b[|a|..];
    } else {
      var k :| 0 <= k < |a[1..]| && k < |b[1..]| && a[1..][..k] == b[1..][..k] && a[1..][k] < b[1..][k];
      assert a[..k + 1] == [a[0]] + a[1..][..k] && b[..k + 1] == [b[0]] + b[1..][..k];
      assert a[k + 1] < b[k + 1];
    }
  }

  /** The runner's list ascends and holds exactly the directory's `.sql` files, as often as the listing has them. */
  lemma SqlFilesAscend(listing: seq<string>)
    ensures var files := SqlFiles(listing); forall i, j :: 0 <= i < j < |files| ==> ComesFirst(files[i], files[j])
    ensures forall name ::
      multiset(SqlFiles(listing))[name]
        == if |name| >= 4 && name[|name| - 4..] == ".sql" then multiset(listing)[name] else 0
  {
    SqlFilesSorted(listing);
    var files := SqlFiles(listing);
    forall i, j | 0 <= i < j < |files| ensures ComesFirst(files[i], files[j]) { AtMostSays(files[i], files[j]); }
  }

  lemma {:induction false} SqlFilesSorted(listing: seq<string>)
    ensures Sorted(SqlFiles(listing))
    ensures forall name :: multiset(SqlFiles(listing))[name] == if IsSql(name) then multiset(listing)[name] else 0
  {
    if listing != [] {
      SqlFilesSorted(listing[1..]);
      assert listing == [listing[0]] + listing[1..];
      if IsSql(listing[0]) { InsertSorts(listing[0], SqlFiles(listing[1..])); }
    }
  }

  /** A directory has no two files of one name, so the list has none either. */
  lemma SqlFilesDistinct(listing: seq<string>)
    requires Distinct(listing)
    ensures Distinct(SqlFiles(listing))
  {
    SqlFilesSorted(listing);
    var files := SqlFiles(listing);
    forall i, j | 0 <= i < j < |files| ensures files[i] != files[j] {
      CountOfTwo(files, i, j);
      CountOfDistinct(listing, files[i]);
    }
  }

  lemma CountOfTwo(s: seq<string>, i: nat, j: nat)
    requires i < j < |s|
    ensures s[i] == s[j] ==> multiset(s)[s[i]] >= 2
  {
    assert s == s[..i] + [s[i]] + s[i + 1..j] + [s[j]] + s[j + 1..];
  }

  lemma {:induction false} CountOfDistinct(s: seq<string>, name: string)
    requires Distinct(s)
    ensures multiset(s)[name] <= 1
  {
    if s != [] {
      assert s == [s[0]] + s[1..];
      CountOfDistinct(s[1..], name);
      if s[0] == name { assert name !in s[1..]; }
    }
  }

  // ----- The runners -----

  /** Where a runner is: waiting for the lock, between lock and unlock, or gone. `Leaving` has its client dead but its
      session still open on the server. */
  datatype Pc =
    | WaitingForLock
    | Preparing
    | Checking(i: nat)
    | Begun(i: nat)
    | RanSql(i: nat)
    | Recorded(i: nat)
    | Unlocking(ok: bool)
    | Leaving
    | Finished
    | Gone

  /** What a transaction has done that nobody else can see yet. */
  datatype Tx = Tx(sql: seq<string>, rows: seq<string>)

  const NO_TX := Tx([], [])

  datatype Runner = Runner(pc: Pc, tx: Tx)

  /** The lock, whether the bookkeeping table exists, its rows in order of insertion, and history: the SQL files whose
      effects are committed, the rows there at the start, and how many files of the list have been dealt with. */
  datatype State = State(lock: Option<nat>, table: bool, schema: seq<string>, applied: seq<string>,
                         initial: seq<string>, done: nat, runners: map<nat, Runner>)

  datatype Event =
    | Arrive(r: nat)
    | Exec(r: nat)
    | SqlFails(r: nat)
    | Throws(r: nat)
    | Dies(r: nat)
    | SessionEnds(r: nat)

  predicate Critical(pc: Pc) {
    pc.Preparing? || pc.Checking? || pc.Begun? || pc.RanSql? || pc.Recorded? || pc.Unlocking?
  }

  function Goto(s: State, r: nat, pc: Pc, tx: Tx): State { s.(runners := s.runners[r := Runner(pc, tx)]) }

  /** The next query of runner `r`. */
  function Advance(s: State, files: seq<string>, r: nat): State
    requires r in s.runners
  {
    var tx := s.runners[r].tx;
    match s.runners[r].pc
    case WaitingForLock => if s.lock.None? then Goto(s, r, Preparing, NO_TX).(lock := Some(r)) else s
    case Preparing => Goto(s, r, Checking(0), NO_TX).(table := true)
    case Checking(i) =>
      if i >= |files| then Goto(s, r, Unlocking(true), NO_TX)
      else if files[i] in s.schema then Goto(s, r, Checking(i + 1), NO_TX)
      else Goto(s, r, Begun(i), NO_TX)
    case Begun(i) => if i < |files| then Goto(s, r, RanSql(i), Tx(tx.sql + [files[i]], tx.rows)) else s
    case RanSql(i) =>
      if i >= |files| then s
      else if files[i] in s.schema then Goto(s, r, Leaving, NO_TX) // duplicate key: roll back and exit
      else Goto(s, r, Recorded(i), Tx(tx.sql, tx.rows + [files[i]]))
    case Recorded(i) =>
      Goto(s, r, Checking(i + 1), NO_TX).(schema := s.schema + tx.rows, applied := s.applied + tx.sql, done := i + 1)
    case Unlocking(ok) => Goto(s, r, if ok then Finished else Gone, NO_TX).(lock := None)
    case _ => s
  }

  function Step(s: State, files: seq<string>, e: Event): State {
    match e
    case Arrive(r) => if r in s.runners then s else Goto(s, r, WaitingForLock, NO_TX)
    case Exec(r) => if r in s.runners then Advance(s, files, r) else s
    case SqlFails(r) => // ROLLBACK, then process.exit without the finally block
      if r in s.runners && (s.runners[r].pc.Begun? || s.runners[r].pc.RanSql? || s.runners[r].pc.Recorded?)
      then Goto(s, r, Leaving, NO_TX) else s
    case Throws(r) => // an error outside a transaction runs the finally block
      if r in s.runners && (s.runners[r].pc.Preparing? || s.runners[r].pc.Checking?)
      then Goto(s, r, Unlocking(false), NO_TX) else s
    case Dies(r) =>
      if r in s.runners && (Critical(s.runners[r].pc) || s.runners[r].pc.WaitingForLock?)
      then Goto(s, r, Leaving, s.runners[r].tx) else s
    case SessionEnds(r) => // the server rolls back and frees the session's lock
      if r in s.runners && s.runners[r].pc.Leaving?
      then Goto(s, r, Gone, NO_TX).(lock := if s.lock == Some(r) then None else s.lock) else s
  }

  function Run(s: State, files: seq<string>, events: seq<Event>): State
    decreases |events|
  {
    if events == [] then s else Run(Step(s, files, events[0]), files, events[1..])
  }

  /** A database as earlier runs left it: `rows` recorded and applied, nobody connected. */
  function Before(table: bool, rows: seq<string>): State { State(None, table, rows, rows, rows, 0, map[]) }

  // ----- What holds in every state -----

  /** The files not recorded at the start, in order. */
  function Missing(files: seq<string>, rows: seq<string>): seq<string> {
    if files == [] then [] else
    var last := files[|files| - 1];
    Missing(files[..|files| - 1], rows) + if last in rows then [] else [last]
  }

  ghost predicate AllIn(files: seq<string>, n: nat, schema: seq<string>) {
    n <= |files| && forall j :: 0 <= j < n ==> files[j] in schema
  }

  /** What a runner knows at each point. */
  ghost predicate RunnerOk(schema: seq<string>, files: seq<string>, p: Runner) {
    match p.pc
    case Checking(i) => AllIn(files, i, schema)
    case Begun(i) => i < |files| && AllIn(files, i, schema) && files[i] !in schema && p.tx == NO_TX
    case RanSql(i) => i < |files| && AllIn(files, i, schema) && files[i] !in schema && p.tx == Tx([files[i]], [])
    case Recorded(i) =>
      i < |files| && AllIn(files, i, schema) && files[i] !in schema && p.tx == Tx([files[i]], [files[i]])
    case Unlocking(ok) => ok ==> AllIn(files, |files|, schema)
    case Finished => AllIn(files, |files|, schema)
    case _ => true
  }

  ghost predicate DbOk(s: State, files: seq<string>) {
    && s.schema == s.applied
    && s.done <= |files|
    && s.schema == s.initial + Missing(files[..s.done], s.initial)
  }

  ghost predicate LockOk(s: State) {
    && (forall r :: r in s.runners && Critical(s.runners[r].pc) ==> s.lock == Some(r))
    && (s.lock.Some? ==> s.lock.value in s.runners
                         && (Critical(s.runners[s.lock.value].pc) || s.runners[s.lock.value].pc.Leaving?))
  }

  ghost predicate Inv(s: State, files: seq<string>) {
    && DbOk(s, files)
    && LockOk(s)
    && forall r :: r in s.runners ==> RunnerOk(s.schema, files, s.runners[r])
  }

  lemma {:induction false} MissingHas(files: seq<string>, rows: seq<string>, name: string)
    ensures name in Missing(files, rows) <==> name in files && name !in rows
  {
    if files != [] {
      assert files == files[..|files| - 1] + [files[|files| - 1]];
      MissingHas(files[..|files| - 1], rows, name);
    }
  }

  /** A stretch of files that were all there from the start is missing nothing. */
  lemma {:induction false} NothingMissing(files: seq<string>, rows: seq<string>, m: nat, i: nat)
    requires m <= i <= |files| && forall j :: m <= j < i ==> files[j] in rows
    ensures Missing(files[..i], rows) == Missing(files[..m], rows)
    decreases i
  {
    if m < i {
      assert files[..i][..i - 1] == files[..i - 1];
      NothingMissing(files, rows, m, i - 1);
    }
  }

  lemma PrefixHas(files: seq<string>, m: nat, i: nat)
    requires Distinct(files) && m <= |files| && i < |files|
    ensures files[i] in files[..m] <==> i < m
  {
    if i < m { assert files[..m][i] == files[i]; }
  }

  lemma RecordedOrNot(s: State, files: seq<string>, j: nat)
    requires Distinct(files) && DbOk(s, files) && j < |files|
    ensures files[j] in s.schema <==> files[j] in s.initial || j < s.done
  {
    MissingHas(files[..s.done], s.initial, files[j]);
    PrefixHas(files, s.done, j);
  }

  /** A file that is next to run for its runner is the next missing file of all. */
  lemma NextMissing(s: State, files: seq<string>, i: nat)
    requires Distinct(files) && DbOk(s, files) && i < |files|
    requires AllIn(files, i, s.schema) && files[i] !in s.schema
    ensures s.done <= i
    ensures s.schema + [files[i]] == s.initial + Missing(files[..i + 1], s.initial)
  {
    var m := s.done;
    RecordedOrNot(s, files, i);
    forall j | m <= j < i ensures files[j] in s.initial { RecordedOrNot(s, files, j); }
    NothingMissing(files, s.initial, m, i);
    MissingGrows(files, s.initial, i);
    Associate(s.initial, Missing(files[..m], s.initial), [files[i]]);
  }

  lemma MissingGrows(files: seq<string>, rows: seq<string>, i: nat)
    requires i < |files| && files[i] !in rows
    ensures Missing(files[..i + 1], rows) == Missing(files[..i], rows) + [files[i]]
  {
    assert files[..i + 1][..i] == files[..i];
  }

  lemma Associate(a: seq<string>, b: seq<string>, c: seq<string>)
    ensures a + b + c == a + (b + c)
  {
  }

  /** Rows are only ever added, so what a runner has seen stays true; a file it has found missing stays missing while
      it holds the lock. */
  lemma RunnerStays(schema: seq<string>, schema': seq<string>, files: seq<string>, p: Runner)
    requires RunnerOk(schema, files, p)
    requires schema <= schema' && (schema == schema' || !Critical(p.pc))
    ensures RunnerOk(schema', files, p)
  {
  }

  /** Only the holder of the lock commits. */
  lemma AdvanceKeepsDb(s: State, files: seq<string>, r: nat)
    requires Inv(s, files) && Distinct(files) && r in s.runners
    ensures var s' := Advance(s, files, r);
      && DbOk(s', files) && s.schema <= s'.schema && s'.initial == s.initial
      && (s'.schema != s.schema ==> s.lock == Some(r))
  {
    var p := s.runners[r];
    assert RunnerOk(s.schema, files, p);
    if p.pc.Recorded? { NextMissing(s, files, p.pc.i); }
  }

  lemma AdvanceKeepsRunner(s: State, files: seq<string>, r: nat)
    requires Inv(s, files) && r in s.runners
    ensures var s' := Advance(s, files, r); RunnerOk(s'.schema, files, s'.runners[r])
  {
    var p := s.runners[r];
    assert RunnerOk(s.schema, files, p);
    if p.pc.Recorded? {
      var schema := s.schema + p.tx.rows;
      assert p.tx.rows[0] == files[p.pc.i] && schema[|s.schema|] == p.tx.rows[0];
    }
  }

  lemma AdvanceKeepsLock(s: State, files: seq<string>, r: nat)
    requires LockOk(s) && r in s.runners
    ensures LockOk(Advance(s, files, r))
  {
  }

  lemma AdvanceMovesOne(s: State, files: seq<string>, r: nat)
    requires r in s.runners
    ensures var s' := Advance(s, files, r); s'.runners == s.runners[r := s'.runners[r]]
  {
  }

  lemma ExecKeepsInv(s: State, files: seq<string>, r: nat)
    requires Inv(s, files) && Distinct(files)
    ensures Inv(Step(s, files, Exec(r)), files)
  {
    if r in s.runners {
      var s' := Advance(s, files, r);
      AdvanceKeepsDb(s, files, r);
      AdvanceKeepsRunner(s, files, r);
      AdvanceKeepsLock(s, files, r);
      AdvanceMovesOne(s, files, r);
      forall q | q in s.runners && q != r ensures RunnerOk(s'.schema, files, s.runners[q]) {
        RunnerStays(s.schema, s'.schema, files, s.runners[q]);
      }
    }
  }

  lemma OthersKeepLock(s: State, files: seq<string>, e: Event)
    requires LockOk(s) && !e.Exec?
    ensures LockOk(Step(s, files, e))
  {
  }

  lemma OthersKeepInv(s: State, files: seq<string>, e: Event)
    requires Inv(s, files) && !e.Exec?
    ensures Inv(Step(s, files, e), files) && Step(s, files, e).schema == s.schema
  {
    OthersKeepLock(s, files, e);
    var s' := Step(s, files, e);
    forall q | q in s'.runners ensures RunnerOk(s'.schema, files, s'.runners[q]) {
      if q in s.runners { assert RunnerOk(s.schema, files, s.runners[q]); }
    }
  }

  lemma StepKeepsInv(s: State, files: seq<string>, e: Event)
    requires Inv(s, files) && Distinct(files)
    ensures Inv(Step(s, files, e), files)
    ensures Step(s, files, e).initial == s.initial && s.schema <= Step(s, files, e).schema
  {
    if e.Exec? {
      ExecKeepsInv(s, files, e.r);
      if e.r in s.runners { AdvanceKeepsDb(s, files, e.r); }
    } else {
      OthersKeepInv(s, files, e);
    }
  }

  lemma {:induction false} RunKeepsInv(s: State, files: seq<string>, events: seq<Event>)
    requires Inv(s, files) && Distinct(files)
    ensures var s' := Run(s, files, events); Inv(s', files) && s'.initial == s.initial && s.schema <= s'.schema
    decreases |events|
  {
    if events != [] {
      StepKeepsInv(s, files, events[0]);
      RunKeepsInv(Step(s, files, events[0]), files, events[1..]);
    }
  }

  lemma BeforeOk(table: bool, rows: seq<string>, files: seq<string>)
    ensures Inv(Before(table, rows), files)
  {
    assert rows == rows + Missing(files[..0], rows);
  }

  // ----- What every deployment can rely on -----

  lemma {:induction false} MissingDistinct(files: seq<string>, rows: seq<string>)
    requires Distinct(files) && Distinct(rows)
    ensures Distinct(rows + Missing(files, rows))
  {
    if files == [] {
      assert rows + Missing(files, rows) == rows;
    } else {
      var init, last := files[..|files| - 1], files[|files| - 1];
      MissingDistinct(init, rows);
      MissingHas(init, rows, last);
      PrefixHas(files, |files| - 1, |files| - 1);
      if last !in rows { DistinctPush(rows + Missing(init, rows), last); }
      assert rows + (Missing(init, rows) + [last]) == rows + Missing(init, rows) + [last];
      assert rows + (Missing(init, rows) + []) == rows + Missing(init, rows);
    }
  }

  lemma DistinctPush(s: seq<string>, x: string)
    requires Distinct(s) && x !in s
    ensures Distinct(s + [x])
  {
  }

  lemma {:induction false} MissingAll(files: seq<string>)
    ensures Missing(files, []) == files
  {
    if files != [] {
      MissingAll(files[..|files| - 1]);
      assert files == files[..|files| - 1] + [files[|files| - 1]];
    }
  }

  /** In every reachable state of any number of runners over one directory: the committed SQL files are exactly the
      recorded rows, each once; they are the rows there before followed by an initial stretch of the missing files in
      sorted order; and at most one runner is between lock and unlock. */
  lemma MigrationsAreAPrefix(table: bool, rows: seq<string>, listing: seq<string>, events: seq<Event>, q: nat, r: nat)
    requires Distinct(listing) && Distinct(rows)
    ensures var files := SqlFiles(listing);
      var s := Run(Before(table, rows), files, events);
      && s.applied == s.schema && Distinct(s.applied)
      && s.done <= |files| && s.applied == rows + Missing(files[..s.done], rows)
      && (rows == [] ==> s.applied == files[..s.done])
      && (q in s.runners && r in s.runners && Critical(s.runners[q].pc) && Critical(s.runners[r].pc) ==> q == r)
  {
    var files := SqlFiles(listing);
    SqlFilesDistinct(listing);
    BeforeOk(table, rows, files);
    RunKeepsInv(Before(table, rows), files, events);
    var s := Run(Before(table, rows), files, events);
    MissingDistinct(files[..s.done], rows);
    MissingAll(files[..s.done]);
    if rows == [] { assert s.applied == Missing(files[..s.done], rows); }
  }

  /** A runner that completes leaves every file of the directory applied. */
  lemma CompletedMeansApplied(table: bool, rows: seq<string>, listing: seq<string>, events: seq<Event>, r: nat)
    requires Distinct(listing)
    requires var s := Run(Before(table, rows), SqlFiles(listing), events); r in s.runners && s.runners[r].pc.Finished?
    ensures var s := Run(Before(table, rows), SqlFiles(listing), events);
      forall name :: name in listing && IsSql(name) ==> name in s.applied
  {
    var files := SqlFiles(listing);
    SqlFilesDistinct(listing);
    SqlFilesSorted(listing);
    BeforeOk(table, rows, files);
    RunKeepsInv(Before(table, rows), files, events);
    var s := Run(Before(table, rows), files, events);
    assert RunnerOk(s.schema, files, s.runners[r]);
    forall name | name in listing && IsSql(name) ensures name in s.applied {
      assert name in multiset(listing);
      assert name in multiset(files);
      var j :| 0 <= j < |files| && files[j] == name;
    }
  }

  lemma {:induction false} MissingSorted(files: seq<string>, rows: seq<string>)
    requires Sorted(files)
    ensures Sorted(Missing(files, rows))
  {
    if files != [] {
      var init, last := files[..|files| - 1], files[|files| - 1];
      MissingSorted(init, rows);
      forall name | name in Missing(init, rows) ensures AtMost(name, last) {
        MissingHas(init, rows, name);
        var i :| 0 <= i < |init| && init[i] == name;
        assert files[i] == name;
      }
    }
  }

  /** What has been added to the rows of before ascends, and is exactly what was missing of an initial stretch of the
      sorted list. */
  lemma NewRowsAscend(table: bool, rows: seq<string>, listing: seq<string>, events: seq<Event>)
    requires Distinct(listing) && Distinct(rows)
    ensures var files, s := SqlFiles(listing), Run(Before(table, rows), SqlFiles(listing), events);
      && s.done <= |files| && rows <= s.applied
      && var added := s.applied[|rows|..];
        && (forall i, j :: 0 <= i < j < |added| ==> ComesFirst(added[i], added[j]))
        && (forall name :: name in added <==> name in files[..s.done] && name !in rows)
  {
    var files, s := SqlFiles(listing), Run(Before(table, rows), SqlFiles(listing), events);
    MigrationsAreAPrefix(table, rows, listing, events, 0, 0);
    SqlFilesSorted(listing);
    var added := Missing(files[..s.done], rows);
    assert s.applied[|rows|..] == added;
    MissingSorted(files[..s.done], rows);
    forall i, j | 0 <= i < j < |added| ensures ComesFirst(added[i], added[j]) { AtMostSays(added[i], added[j]); }
    forall name ensures name in added <==> name in files[..s.done] && name !in rows {
      MissingHas(files[..s.done], rows, name);
    }
  }

  predicate PastPreparing(pc: Pc) {
    pc.Finished? || pc == Unlocking(true) || (Critical(pc) && !pc.Preparing? && !pc.Unlocking?)
  }

  ghost predicate TableOk(s: State) {
    forall r :: r in s.runners ==> PastPreparing(s.runners[r].pc) ==> s.table
  }

  /** Whoever is past preparing, the bookkeeping table is there. */
  lemma {:induction false} TableStays(s: State, files: seq<string>, events: seq<Event>)
    requires TableOk(s)
    ensures TableOk(Run(s, files, events)) && (s.table ==> Run(s, files, events).table)
    decreases |events|
  {
    if events != [] { TableStays(Step(s, files, events[0]), files, events[1..]); }
  }

  // ----- Failures -----

  /** A runner that fails or dies between lock and unlock leaves rows and files as they were, is gone for good, and its
      lock goes with its session. */
  lemma FailureFreesTheLock(s: State, files: seq<string>, r: nat, e: Event)
    requires Inv(s, files) && r in s.runners && s.lock == Some(r) && e.r == r
    requires e.SqlFails? || e.Throws? || e.Dies?
    requires Step(s, files, e) != s
    ensures var s1 := Step(s, files, e);
      && s1.schema == s.schema && s1.applied == s.applied && s1.done == s.done && s1.lock == s.lock
      && var s2 := Step(s1, files, if e.Throws? then Exec(r) else SessionEnds(r));
        s2 == s1.(runners := s1.runners[r := Runner(Gone, NO_TX)], lock := None)
  {
  }

  /** Exactly these failures can happen, and where. */
  lemma FailsWhere(s: State, files: seq<string>, r: nat)
    requires Inv(s, files) && r in s.runners
    ensures var pc := s.runners[r].pc;
      && (pc.Begun? || pc.RanSql? || pc.Recorded? <==> Step(s, files, SqlFails(r)) != s)
      && (pc.Preparing? || pc.Checking? <==> Step(s, files, Throws(r)) != s)
      && (Critical(pc) || pc.WaitingForLock? <==> Step(s, files, Dies(r)) != s)
  {
    var pc := s.runners[r].pc;
    assert Step(s, files, SqlFails(r)) != s ==> Step(s, files, SqlFails(r)).runners[r].pc == Leaving;
    if pc.Begun? || pc.RanSql? || pc.Recorded? { assert Step(s, files, SqlFails(r)).runners[r].pc != pc; }
    if pc.Preparing? || pc.Checking? { assert Step(s, files, Throws(r)).runners[r].pc != pc; }
    if Critical(pc) || pc.WaitingForLock? { assert Step(s, files, Dies(r)).runners[r].pc != pc; }
  }

  // ----- A runner left alone completes -----

  lemma OneMore(s: State, files: seq<string>, e: Event, n: nat)
    ensures Run(s, files, Repeated(e, n + 1)) == Run(Step(s, files, e), files, Repeated(e, n))
  {
    assert Repeated(e, n + 1)[1..] == Repeated(e, n);
  }

  /** Queries left before the file after the current one. */
  function Phase(pc: Pc): nat {
    match pc
    case Preparing => 5
    case Checking(_) => 4
    case Begun(_) => 3
    case RanSql(_) => 2
    case Recorded(_) => 1
    case _ => 0
  }

  function Position(files: seq<string>, pc: Pc): nat {
    match pc
    case Preparing => |files| + 1
    case Checking(i) => if i <= |files| then |files| - i + 1 else 1
    case Begun(i) => if i <= |files| then |files| - i + 1 else 1
    case RanSql(i) => if i <= |files| then |files| - i + 1 else 1
    case Recorded(i) => if i <= |files| then |files| - i + 1 else 1
    case _ => 0
  }

  /** From any reachable state, the runner that holds the lock completes if nothing stops it. */
  lemma {:induction false} HolderCompletes(s: State, files: seq<string>, r: nat) returns (n: nat)
    requires Inv(s, files) && Distinct(files)
    requires r in s.runners && Critical(s.runners[r].pc) && s.runners[r].pc != Unlocking(false)
    ensures var s' := Run(s, files, Repeated(Exec(r), n));
      r in s'.runners && s'.runners[r].pc.Finished? && s'.lock.None?
    decreases Position(files, s.runners[r].pc), Phase(s.runners[r].pc)
  {
    var s1 := Step(s, files, Exec(r));
    ExecKeepsInv(s, files, r);
    assert RunnerOk(s.schema, files, s.runners[r]);
    if s.runners[r].pc.Unlocking? {
      n := 1;
      OneMore(s, files, Exec(r), 0);
    } else {
      var m := HolderCompletes(s1, files, r);
      n := m + 1;
      OneMore(s, files, Exec(r), m);
    }
  }

  /** Wherever the holder dies, once its session is over a waiting runner takes the lock and applies every file. */
  lemma AnotherTakesOver(s: State, files: seq<string>, r: nat, q: nat) returns (n: nat)
    requires Inv(s, files) && Distinct(files) && r in s.runners && q in s.runners
    requires Critical(s.runners[r].pc) && s.runners[q].pc.WaitingForLock?
    ensures var s1 := Step(Step(s, files, Dies(r)), files, SessionEnds(r));
      var s' := Run(s1, files, Repeated(Exec(q), n));
      && q in s'.runners && s'.runners[q].pc.Finished? && s'.lock.None?
      && s.applied <= s'.applied && forall i :: 0 <= i < |files| ==> files[i] in s'.applied
  {
    var s0 := Step(s, files, Dies(r));
    var s1 := Step(s0, files, SessionEnds(r));
    OthersKeepInv(s, files, Dies(r));
    OthersKeepInv(s0, files, SessionEnds(r));
    ExecKeepsInv(s1, files, q);
    var m := HolderCompletes(Step(s1, files, Exec(q)), files, q);
    n := m + 1;
    OneMore(s1, files, Exec(q), m);
    RunKeepsInv(s1, files, Repeated(Exec(q), n));
    var s' := Run(s1, files, Repeated(Exec(q), n));
    assert RunnerOk(s'.schema, files, s'.runners[q]);
  }

  // ----- One runner, in the order the source writes it -----

  class Database {
    var schemaMigrations: seq<string>
    var effects: seq<string>

    constructor (rows: seq<string>)
      ensures schemaMigrations == effects == rows
    {
      schemaMigrations, effects := rows, rows;
    }

    /** The loop over the sorted files with nobody else connected; the SQL of the files in `broken` fails. */
    method Migrate(files: seq<string>, broken: set<string>) returns (ok: bool, alreadyApplied: nat, ghost reached: nat)
      requires Distinct(files) && schemaMigrations == effects
      modifies this
      ensures reached <= |files|
      ensures schemaMigrations == effects == old(schemaMigrations) + Missing(files[..reached], old(schemaMigrations))
      ensures alreadyApplied + |Missing(files[..reached], old(schemaMigrations))| == reached
      ensures ok <==> forall f :: f in files && f !in old(schemaMigrations) ==> f !in broken
      ensures ok ==> reached == |files|
      ensures !ok ==> reached < |files| && files[reached] in broken && files[reached] !in old(schemaMigrations)
    {
      ghost var rows := schemaMigrations;
      alreadyApplied, reached := 0, 0;
      for i := 0 to |files|
        invariant reached == i && schemaMigrations == effects == rows + Missing(files[..i], rows)
        invariant alreadyApplied + |Missing(files[..i], rows)| == i
        invariant forall j :: 0 <= j < i && files[j] !in rows ==> files[j] !in broken
      {
        assert files[..i + 1][..i] == files[..i];
        MissingHas(files[..i], rows, files[i]);
        PrefixHas(files, i, i);
        if files[i] in schemaMigrations {
          alreadyApplied := alreadyApplied + 1;
        } else {
          if files[i] in broken {
            ok := false;
            return;
          }
          effects := effects + [files[i]];
          schemaMigrations := schemaMigrations + [files[i]];
        }
        reached := i + 1;
      }
      assert files[..|files|] == files;
      ok := true;
    }
  }
}
