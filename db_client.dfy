/** The connection gateway of utils/dbClient.ts: a process-wide nullable `pool`, created
    lazily by `initializeDBPool` with up to five connect-and-probe attempts two seconds
    apart, used by `healthCheckDB` and `queryDB` with one lease per call, and torn down by
    `closeDBPool`.

    The `pg` library and the database behind it are an oracle: `replies(k)` is the answer
    to the k-th call the gateway makes into the driver (`pool.connect()` or
    `client.query(...)`), and `calls` counts the calls made so far. What the gateway does to
    the outside world (creating and ending pools, taking and releasing leases, running
    statements, sleeping) is recorded in the ghost event log `log`. Every method that
    leases a connection is specified by a pure function that gives, from the replies, the
    events it appends, how many replies it consumes and what it returns or throws;
    `CloseDBPool` and the driver primitives (`Connect`, `Execute`, `Release`, `Sleep`) state
    their events and results directly in their `ensures`. */
module DbClient {
  import opened Wrappers

  /** A query parameter or column value: JavaScript `null`, a number, or a string. */
  datatype Value = Null | Number(n: int) | Text(s: string)

  /** One result row: column name to value, its shape set by the SQL text alone. */
  type Row = map<string, Value>

  /** What can be thrown: an error from the driver, or the `TypeError` raised by reading
      `result.rows[0].now` when the probe returned no row. */
  datatype DbError = DriverError(message: string) | NoRowToRead

  /** The driver's answer to one call: rows (ignored for `connect`) or a thrown error. */
  datatype Reply = Answer(rows: seq<Row>) | Refuse(error: DbError)

  /** Number of connection attempts `initializeDBPool` makes. */
  const MaxAttempts: nat := 5
  /** The wait between two attempts, in milliseconds. */
  const RetryDelayMs: nat := 2000
  /** The liveness probe. */
  const ProbeSql: string := "SELECT NOW()"

  /** What the gateway does to the outside world. `ConnectRefused` and `Leased` are the two
      outcomes of one `pool.connect()`; `Ran` is one statement on a lease, `ok` saying
      whether the driver answered with rows. */
  datatype Event =
    | PoolCreated
    | ConnectRefused(error: DbError)
    | Leased
    | Ran(sql: string, params: seq<Value>, ok: bool)
    | Released
    | Slept(ms: nat)
    | PoolEnded

  /** The number of pools a log creates and ends. */
  function Created(es: seq<Event>): nat {
    multiset(es)[PoolCreated]
  }

  function Ended(es: seq<Event>): nat {
    multiset(es)[PoolEnded]
  }

  /** Events that neither create nor end a pool. */
  predicate PoolFree(es: seq<Event>) {
    PoolCreated !in es && PoolEnded !in es
  }

  /** Pool-free events leave the pool balance of a log as it was. */
  lemma PoolFreeKeepsBalance(log: seq<Event>, events: seq<Event>)
    requires PoolFree(events)
    ensures Created(log + events) == Created(log) && Ended(log + events) == Ended(log)
  {
  }

  lemma AppendAssoc(a: seq<Event>, b: seq<Event>, c: seq<Event>)
    ensures a + b + c == a + (b + c)
  {
  }

  /** The kinds of event the properties count. */
  datatype Kind = Connects | Leases | Releases | Sleeps

  predicate Is(e: Event, k: Kind) {
    match k
    case Connects => e.ConnectRefused? || e.Leased?
    case Leases => e.Leased?
    case Releases => e.Released?
    case Sleeps => e.Slept?
  }

  /** How many events are of kind `k`. */
  function Count(es: seq<Event>, k: Kind): nat
    decreases |es|
  {
    if es == [] then 0 else (if Is(es[0], k) then 1 else 0) + Count(es[1..], k)
  }

  lemma {:induction false} CountAppend(a: seq<Event>, b: seq<Event>, k: Kind)
    ensures Count(a + b, k) == Count(a, k) + Count(b, k)
    decreases |a|
  {
    if a == [] {
      assert a + b == b;
    } else {
      assert (a + b)[0] == a[0];
      assert (a + b)[1..] == a[1..] + b;
      CountAppend(a[1..], b, k);
    }
  }

  function Tick(e: Event, k: Kind): nat {
    if Is(e, k) then 1 else 0
  }

  /** Counts in a single-event list: a refused connect, or the wait between attempts. */
  lemma CountOne(a: Event)
    ensures forall k :: Count([a], k) == Tick(a, k)
  {
    forall k ensures Count([a], k) == Tick(a, k) {
      assert [a][1..] == [];
    }
  }

  /** Counts in a lease's event lists: `[Leased, Ran(..)]` when the statement or its row
      read throws, `[Leased, Ran(..), Released]` when it completes. */
  lemma CountLiterals(a: Event, b: Event, c: Event)
    ensures forall k :: Count([a, b], k) == Tick(a, k) + Tick(b, k)
    ensures forall k :: Count([a, b, c], k) == Tick(a, k) + Tick(b, k) + Tick(c, k)
  {
    forall k ensures Count([a, b, c], k) == Tick(a, k) + Tick(b, k) + Tick(c, k) {
      assert [a, b, c][1..] == [b, c] && [b, c][1..] == [c] && [c][1..] == [];
      assert Count([c], k) == Tick(c, k);
      assert Count([b, c], k) == Tick(b, k) + Tick(c, k);
    }
    forall k ensures Count([a, b], k) == Tick(a, k) + Tick(b, k) {
      assert [a, b][1..] == [b] && [b][1..] == [];
      assert Count([b], k) == Tick(b, k);
    }
  }

  /** The effect of one gateway operation: the events it appends, the index of the next
      unused reply, and what it returns (`Success`) or throws (`Failure`). */
  datatype Run<T> = Run(events: seq<Event>, next: nat, result: Result<T, DbError>)

  function Prepend<T>(pre: seq<Event>, run: Run<T>): Run<T> {
    Run(pre + run.events, run.next, run.result)
  }

  // ---------------------------------------------------------------------------------------
  // initializeDBPool
  // ---------------------------------------------------------------------------------------

  /** One attempt of the retry loop, from reply `n`: connect, probe, read the probe's first
      row, release. */
  function Probe(replies: nat -> Reply, n: nat): (run: Run<()>)
    ensures run.next > n
  {
    match replies(n)
    case Refuse(e) => Run([ConnectRefused(e)], n + 1, Failure(e))
    case Answer(_) =>
      match replies(n + 1)
      case Refuse(e) => Run([Leased, Ran(ProbeSql, [], false)], n + 2, Failure(e))
      case Answer(rows) =>
        if |rows| == 0 then Run([Leased, Ran(ProbeSql, [], true)], n + 2, Failure(NoRowToRead))
        else Run([Leased, Ran(ProbeSql, [], true), Released], n + 2, Success(()))
  }

  /** An attempt connects once and never waits or touches the pool. Only a fully successful
      attempt releases its lease: when the probe throws, or returns no row to read, the lease
      is kept. */
  lemma ProbeShape(replies: nat -> Reply, n: nat)
    ensures var run := Probe(replies, n);
      && Count(run.events, Connects) == 1 && Count(run.events, Sleeps) == 0
      && PoolFree(run.events)
      && Count(run.events, Releases) == (if run.result.Success? then 1 else 0)
      && Count(run.events, Leases) == (if replies(n).Answer? then 1 else 0)
  {
    var run := Probe(replies, n);
    if replies(n).Refuse? {
      assert run.events == [ConnectRefused(replies(n).error)];
      CountOne(ConnectRefused(replies(n).error));
    } else {
      var ran := Ran(ProbeSql, [], replies(n + 1).Answer?);
      LeaseCounts(ran, run.result.Success?);
      assert run.events == [Leased, ran] + (if run.result.Success? then [Released] else []);
    }
  }

  /** The counts of one lease: a connect, the statement, and the release when it happens. */
  lemma LeaseCounts(ran: Event, released: bool)
    requires ran.Ran?
    ensures var es := [Leased, ran] + (if released then [Released] else []);
      && Count(es, Connects) == 1 && Count(es, Sleeps) == 0 && Count(es, Leases) == 1
      && Count(es, Releases) == (if released then 1 else 0) && PoolFree(es)
  {
    CountLiterals(Leased, ran, Released);
    if released {
      assert [Leased, ran] + [Released] == [Leased, ran, Released];
    } else {
      assert [Leased, ran] + [] == [Leased, ran];
    }
  }

  /** The retry loop with `retries` attempts left, from reply `n`: stop at the first
      successful attempt; after a failed one, wait `RetryDelayMs` only if attempts remain;
      after the last failed one, throw its error. */
  function Attempts(replies: nat -> Reply, n: nat, retries: nat): Run<()>
    requires retries > 0
    decreases retries
  {
    var attempt := Probe(replies, n);
    if attempt.result.Success? || retries == 1 then attempt
    else Prepend(attempt.events + [Slept(RetryDelayMs)], Attempts(replies, attempt.next, retries - 1))
  }

  /** The retry loop, `done` events into it, when the attempt from reply `c` succeeds:
      the loop returns. */
  lemma AttemptsAfterSuccess(replies: nat -> Reply, c: nat, retries: nat, done: seq<Event>, total: Run<()>)
    requires retries > 0 && total == Prepend(done, Attempts(replies, c, retries))
    requires Probe(replies, c).result.Success?
    ensures total == Run(done + Probe(replies, c).events, Probe(replies, c).next, Success(()))
  {
  }

  /** The retry loop, `done` events into it, when the attempt from reply `c` fails: a wait
      and the remaining attempts, or, after the last attempt, its error. */
  lemma AttemptsAfterFailure(replies: nat -> Reply, c: nat, retries: nat, done: seq<Event>, total: Run<()>)
    requires retries > 0 && total == Prepend(done, Attempts(replies, c, retries))
    requires Probe(replies, c).result.Failure?
    ensures var attempt := Probe(replies, c);
      && (retries == 1 ==> total == Run(done + attempt.events, attempt.next, attempt.result))
      && (retries > 1 ==>
            total == Prepend(done + attempt.events + [Slept(RetryDelayMs)], Attempts(replies, attempt.next, retries - 1)))
  {
  }

  /** The bounds of the retry loop: at most `retries` attempts, all of them when the loop
      fails; one wait fewer than attempts; exactly one release, on success only. Where the
      waits sit is `AttemptsPlacement`; that no pool is touched is `AttemptsPoolFree`. */
  lemma {:induction false} AttemptsShape(replies: nat -> Reply, n: nat, retries: nat)
    requires retries > 0
    ensures var run := Attempts(replies, n, retries);
      && run.next > n
      && 1 <= Count(run.events, Connects) <= retries
      && (run.result.Failure? ==> Count(run.events, Connects) == retries)
      && Count(run.events, Sleeps) == Count(run.events, Connects) - 1
      && Count(run.events, Releases) == (if run.result.Success? then 1 else 0)
    decreases retries
  {
    var attempt := Probe(replies, n);
    ProbeShape(replies, n);
    if !(attempt.result.Success? || retries == 1) {
      AttemptsShape(replies, attempt.next, retries - 1);
      RetryShape(attempt, Attempts(replies, attempt.next, retries - 1), retries);
    }
  }

  /** The shape of the retry loop after a failed attempt: the attempt's single connect, one
      wait, and the remaining attempts, whose shape is known. */
  lemma RetryShape(attempt: Run<()>, rest: Run<()>, retries: nat)
    requires retries > 1 && attempt.result.Failure? && rest.next > attempt.next
    requires Count(attempt.events, Connects) == 1 && Count(attempt.events, Sleeps) == 0
    requires Count(attempt.events, Releases) == 0
    requires 1 <= Count(rest.events, Connects) <= retries - 1
    requires rest.result.Failure? ==> Count(rest.events, Connects) == retries - 1
    requires Count(rest.events, Sleeps) == Count(rest.events, Connects) - 1
    requires Count(rest.events, Releases) == (if rest.result.Success? then 1 else 0)
    ensures var run := Prepend(attempt.events + [Slept(RetryDelayMs)], rest);
      && run.next > attempt.next
      && 1 <= Count(run.events, Connects) <= retries
      && (run.result.Failure? ==> Count(run.events, Connects) == retries)
      && Count(run.events, Sleeps) == Count(run.events, Connects) - 1
      && Count(run.events, Releases) == (if run.result.Success? then 1 else 0)
  {
    CountAround(attempt.events, Slept(RetryDelayMs), rest.events);
  }

  /** Counts across one event `w` between two lists. */
  lemma CountAround(a: seq<Event>, w: Event, b: seq<Event>)
    ensures forall k :: Count(a + [w] + b, k) == Count(a, k) + Tick(w, k) + Count(b, k)
  {
    CountOne(w);
    forall k ensures Count(a + [w] + b, k) == Count(a, k) + Tick(w, k) + Count(b, k) {
      CountAppend(a, [w], k);
      CountAppend(a + [w], b, k);
    }
  }

  /** The retry loop neither creates nor ends a pool. */
  lemma {:induction false} AttemptsPoolFree(replies: nat -> Reply, n: nat, retries: nat)
    requires retries > 0
    ensures PoolFree(Attempts(replies, n, retries).events)
    decreases retries
  {
    var attempt := Probe(replies, n);
    if !(attempt.result.Success? || retries == 1) {
      AttemptsPoolFree(replies, attempt.next, retries - 1);
    }
  }

  /** Waits sit only between attempts: the log starts with a connect, and every wait is
      directly followed by the next attempt's connect, so none comes last. */
  predicate WaitsBetweenAttempts(es: seq<Event>) {
    && es != [] && Is(es[0], Connects)
    && forall i :: 0 <= i < |es| && es[i].Slept? ==> i + 1 < |es| && Is(es[i + 1], Connects)
  }

  /** The placement of the waits in the retry loop: before every attempt but the first, and
      never after the last one. */
  lemma {:induction false} AttemptsPlacement(replies: nat -> Reply, n: nat, retries: nat)
    requires retries > 0
    ensures WaitsBetweenAttempts(Attempts(replies, n, retries).events)
    decreases retries
  {
    var attempt := Probe(replies, n);
    ProbeStartsWithConnect(replies, n);
    if !(attempt.result.Success? || retries == 1) {
      var rest := Attempts(replies, attempt.next, retries - 1);
      AttemptsPlacement(replies, attempt.next, retries - 1);
      WaitThenAttempts(attempt.events, rest.events);
      assert Attempts(replies, n, retries).events == attempt.events + [Slept(RetryDelayMs)] + rest.events;
    }
  }

  /** An attempt starts with its connect and never waits. */
  lemma ProbeStartsWithConnect(replies: nat -> Reply, n: nat)
    ensures var es := Probe(replies, n).events;
      es != [] && Is(es[0], Connects) && forall i :: 0 <= i < |es| ==> !es[i].Slept?
  {
  }

  /** An attempt without waits, one wait, then runs whose waits sit between attempts. */
  lemma WaitThenAttempts(a: seq<Event>, b: seq<Event>)
    requires a != [] && Is(a[0], Connects) && forall i :: 0 <= i < |a| ==> !a[i].Slept?
    requires WaitsBetweenAttempts(b)
    ensures WaitsBetweenAttempts(a + [Slept(RetryDelayMs)] + b)
  {
    var es := a + [Slept(RetryDelayMs)] + b;
    assert forall j :: 0 <= j < |a| ==> es[j] == a[j];
    forall i | 0 <= i < |es| && es[i].Slept?
      ensures i + 1 < |es| && Is(es[i + 1], Connects)
    {
      if i == |a| {
        assert es[i + 1] == b[0];
      } else {
        assert es[i] == b[i - |a| - 1];
        assert i - |a| < |b| && es[i + 1] == b[i - |a|];
      }
    }
  }

  /** A loop that fails throws the error of its last attempt: the run ends with the events
      of an attempt from some reply `m`, and its next reply and its error are that attempt's. */
  lemma {:induction false} AttemptsThrowLastError(replies: nat -> Reply, n: nat, retries: nat)
    requires retries > 0 && Attempts(replies, n, retries).result.Failure?
    ensures exists m: nat, pre: seq<Event> :: n <= m && Attempts(replies, n, retries) == Prepend(pre, Probe(replies, m))
    decreases retries
  {
    var attempt := Probe(replies, n);
    if attempt.result.Success? || retries == 1 {
      assert Attempts(replies, n, retries) == Prepend([], attempt);
    } else {
      var rest := Attempts(replies, attempt.next, retries - 1);
      AttemptsThrowLastError(replies, attempt.next, retries - 1);
      var m: nat, pre: seq<Event> :| attempt.next <= m && rest == Prepend(pre, Probe(replies, m));
      var wait := attempt.events + [Slept(RetryDelayMs)];
      assert Attempts(replies, n, retries) == Prepend(wait, rest);
      PrependPrepend(wait, pre, Probe(replies, m));
    }
  }

  /** Prepending twice is prepending the concatenation. */
  lemma PrependPrepend<T>(a: seq<Event>, b: seq<Event>, run: Run<T>)
    ensures Prepend(a, Prepend(b, run)) == Prepend(a + b, run)
  {
    assert a + (b + run.events) == a + b + run.events;
  }

  /** `initializeDBPool` from reply `n`: nothing at all when a pool exists; otherwise a new
      pool, created before the first attempt, and the retry loop. */
  function InitRun(hasPool: bool, replies: nat -> Reply, n: nat): Run<()> {
    if hasPool then Run([], n, Success(()))
    else Prepend([PoolCreated], Attempts(replies, n, MaxAttempts))
  }

  /** Lazy initialisation creates exactly one pool, and only when none exists. */
  lemma InitRunPools(hasPool: bool, replies: nat -> Reply, n: nat)
    ensures var run := InitRun(hasPool, replies, n);
      && Created(run.events) == (if hasPool then 0 else 1) && Ended(run.events) == 0
      && (hasPool ==> run == Run([], n, Success(())))
  {
    if !hasPool {
      AttemptsPoolFree(replies, n, MaxAttempts);
    }
  }

  /** A pool creation followed by the retry loop is `initializeDBPool` without a pool. */
  lemma PoolThenAttempts(replies: nat -> Reply, n: nat, start: seq<Event>, log: seq<Event>)
    requires log == start + [PoolCreated] + Attempts(replies, n, MaxAttempts).events
    ensures log == start + InitRun(false, replies, n).events
  {
  }

  /** A log in which every pool was ended, followed by a pool creation and the retry loop,
      leaves exactly one pool open. */
  lemma OneMorePool(replies: nat -> Reply, n: nat, start: seq<Event>, log: seq<Event>)
    requires Created(start) == Ended(start)
    requires log == start + [PoolCreated] + Attempts(replies, n, MaxAttempts).events
    ensures Created(log) == Ended(log) + 1
  {
    AttemptsPoolFree(replies, n, MaxAttempts);
  }

  /** A reachable database on the first attempt: one lease, taken and released, no wait. */
  lemma FirstAttemptSucceeds(replies: nat -> Reply, n: nat, row: Row)
    requires replies(n).Answer? && replies(n + 1) == Answer([row])
    ensures InitRun(false, replies, n)
         == Run([PoolCreated, Leased, Ran(ProbeSql, [], true), Released], n + 2, Success(()))
  {
  }

  /** Two refused connections, then a reachable database: three attempts, two waits. */
  lemma ThirdAttemptSucceeds(replies: nat -> Reply, n: nat, e1: DbError, e2: DbError, row: Row)
    requires replies(n) == Refuse(e1) && replies(n + 1) == Refuse(e2)
    requires replies(n + 2).Answer? && replies(n + 3) == Answer([row])
    ensures InitRun(false, replies, n)
         == Run([PoolCreated, ConnectRefused(e1), Slept(RetryDelayMs), ConnectRefused(e2), Slept(RetryDelayMs),
                 Leased, Ran(ProbeSql, [], true), Released], n + 4, Success(()))
  {
    var third := Run([Leased, Ran(ProbeSql, [], true), Released], n + 4, Success(()));
    assert Probe(replies, n + 2) == third;
    assert Attempts(replies, n + 2, 3) == third;
    assert Probe(replies, n + 1) == Run([ConnectRefused(e2)], n + 2, Failure(e2));
    assert Attempts(replies, n + 1, 4) == Prepend([ConnectRefused(e2), Slept(RetryDelayMs)], third);
    assert Probe(replies, n) == Run([ConnectRefused(e1)], n + 1, Failure(e1));
    assert Attempts(replies, n, 5)
        == Prepend([ConnectRefused(e1), Slept(RetryDelayMs)], Prepend([ConnectRefused(e2), Slept(RetryDelayMs)], third));
  }

  /** Five refused connections: five attempts, four waits, and the fifth error thrown; the
      pool created before them stays. */
  lemma AllAttemptsRefused(replies: nat -> Reply, n: nat)
    requires forall k :: n <= k < n + 5 ==> replies(k).Refuse?
    ensures var run := InitRun(false, replies, n);
      && run.result == Failure(replies(n + 4).error) && run.next == n + 5
      && run.events == [PoolCreated,
                        ConnectRefused(replies(n).error), Slept(RetryDelayMs),
                        ConnectRefused(replies(n + 1).error), Slept(RetryDelayMs),
                        ConnectRefused(replies(n + 2).error), Slept(RetryDelayMs),
                        ConnectRefused(replies(n + 3).error), Slept(RetryDelayMs),
                        ConnectRefused(replies(n + 4).error)]
  {
    var w := Slept(RetryDelayMs);
    var r0, r1, r2, r3, r4 := ConnectRefused(replies(n).error), ConnectRefused(replies(n + 1).error),
                              ConnectRefused(replies(n + 2).error), ConnectRefused(replies(n + 3).error),
                              ConnectRefused(replies(n + 4).error);
    var fail := Failure(replies(n + 4).error);
    assert Attempts(replies, n + 4, 1) == Run([r4], n + 5, fail);
    RefusedThenRetry(replies, n + 3, 2, [r4], n + 5, fail);
    RefusedThenRetry(replies, n + 2, 3, [r3, w] + [r4], n + 5, fail);
    RefusedThenRetry(replies, n + 1, 4, [r2, w] + ([r3, w] + [r4]), n + 5, fail);
    RefusedThenRetry(replies, n, 5, [r1, w] + ([r2, w] + ([r3, w] + [r4])), n + 5, fail);
    assert [PoolCreated] + ([r0, w] + ([r1, w] + ([r2, w] + ([r3, w] + [r4]))))
        == [PoolCreated, r0, w, r1, w, r2, w, r3, w, r4];
  }

  /** A refused connect with attempts left: the refusal, one wait, and then what the
      remaining attempts from the next reply do. */
  lemma RefusedThenRetry(replies: nat -> Reply, c: nat, retries: nat, rest: seq<Event>, next: nat, result: Result<(), DbError>)
    requires retries > 1 && replies(c).Refuse?
    requires Attempts(replies, c + 1, retries - 1) == Run(rest, next, result)
    ensures Attempts(replies, c, retries)
         == Run([ConnectRefused(replies(c).error), Slept(RetryDelayMs)] + rest, next, result)
  {
    assert Probe(replies, c) == Run([ConnectRefused(replies(c).error)], c + 1, Failure(replies(c).error));
  }

  // ---------------------------------------------------------------------------------------
  // healthCheckDB and queryDB
  // ---------------------------------------------------------------------------------------

  /** One `healthCheckDB` lease from reply `n`: a refused connect is thrown at once and
      leaves nothing to release; once connected, the lease is released in `finally`
      whether the probe, or reading its first row, throws or not. */
  function HealthProbe(replies: nat -> Reply, n: nat): (run: Run<()>)
    ensures run.next > n
    ensures PoolFree(run.events)
  {
    match replies(n)
    case Refuse(e) => Run([ConnectRefused(e)], n + 1, Failure(e))
    case Answer(_) =>
      var probe := replies(n + 1);
      Run([Leased, Ran(ProbeSql, [], probe.Answer?), Released], n + 2,
          if probe.Refuse? then Failure(probe.error)
          else if |probe.rows| == 0 then Failure(NoRowToRead)
          else Success(()))
  }

  /** One `queryDB` lease from reply `n`: once connected, the lease is released exactly
      once whether the statement returns or throws; the rows come back unchanged and an
      error is rethrown as it is. */
  function LeaseQuery(replies: nat -> Reply, n: nat, sql: string, params: seq<Value>): (run: Run<seq<Row>>)
    ensures run.next > n
    ensures PoolFree(run.events)
    ensures replies(n).Refuse? ==> run.result == Failure(replies(n).error)
    ensures replies(n).Answer? ==> run.result == (match replies(n + 1)
                                                  case Answer(rows) => Success(rows)
                                                  case Refuse(e) => Failure(e))
    ensures replies(n).Answer? ==> Ran(sql, params, replies(n + 1).Answer?) in run.events
  {
    match replies(n)
    case Refuse(e) => Run([ConnectRefused(e)], n + 1, Failure(e))
    case Answer(_) =>
      match replies(n + 1)
      case Refuse(e) => Run([Leased, Ran(sql, params, false), Released], n + 2, Failure(e))
      case Answer(rows) => Run([Leased, Ran(sql, params, true), Released], n + 2, Success(rows))
  }

  /** Both leases are released exactly when they were taken, whether the statement, or
      reading the probe's row, throws or not. */
  lemma LeasesReleased(replies: nat -> Reply, n: nat, sql: string, params: seq<Value>)
    ensures var h := HealthProbe(replies, n);
      Count(h.events, Leases) == Count(h.events, Releases) == (if replies(n).Answer? then 1 else 0)
    ensures var q := LeaseQuery(replies, n, sql, params);
      Count(q.events, Leases) == Count(q.events, Releases) == (if replies(n).Answer? then 1 else 0)
  {
    CountLiterals(Leased, Ran(ProbeSql, [], replies(n + 1).Answer?), Released);
    CountLiterals(Leased, Ran(sql, params, replies(n + 1).Answer?), Released);
    if replies(n).Refuse? {
      CountOne(ConnectRefused(replies(n).error));
    }
  }

  /** `healthCheckDB` from reply `n`: initialise first only when no pool exists, and throw
      what initialisation throws. */
  function HealthRun(hasPool: bool, replies: nat -> Reply, n: nat): Run<()> {
    var init := InitRun(hasPool, replies, n);
    if init.result.Failure? then init
    else Prepend(init.events, HealthProbe(replies, init.next))
  }

  /** `queryDB(sql, params)` from reply `n`: initialise first only when no pool exists, and
      throw what initialisation throws. */
  function QueryRun(hasPool: bool, replies: nat -> Reply, n: nat, sql: string, params: seq<Value>): Run<seq<Row>> {
    var init := InitRun(hasPool, replies, n);
    if init.result.Failure? then Run(init.events, init.next, Failure(init.result.error))
    else Prepend(init.events, LeaseQuery(replies, init.next, sql, params))
  }

  /** An initialisation that succeeds, followed by the lease, is `healthCheckDB`. */
  lemma HealthAfterInit(hasPool: bool, replies: nat -> Reply, n: nat, start: seq<Event>, mid: seq<Event>, m: nat,
                        log: seq<Event>)
    requires var init := InitRun(hasPool, replies, n);
      init.result.Success? && mid == start + init.events && m == init.next
    requires log == mid + HealthProbe(replies, m).events
    ensures var run := HealthRun(hasPool, replies, n);
      log == start + run.events && run.next == HealthProbe(replies, m).next
      && run.result == HealthProbe(replies, m).result
  {
  }

  /** An initialisation that succeeds, followed by the lease, is `queryDB`. */
  lemma QueryAfterInit(hasPool: bool, replies: nat -> Reply, n: nat, sql: string, params: seq<Value>,
                       start: seq<Event>, mid: seq<Event>, m: nat, log: seq<Event>)
    requires var init := InitRun(hasPool, replies, n);
      init.result.Success? && mid == start + init.events && m == init.next
    requires log == mid + LeaseQuery(replies, m, sql, params).events
    ensures var run := QueryRun(hasPool, replies, n, sql, params);
      log == start + run.events && run.next == LeaseQuery(replies, m, sql, params).next
      && run.result == LeaseQuery(replies, m, sql, params).result
  {
  }

  /** With a pool, `healthCheckDB` and `queryDB` are their lease alone; without one, they
      begin by creating exactly one pool. Neither ever ends a pool. */
  lemma LazyInitialisation(hasPool: bool, replies: nat -> Reply, n: nat, sql: string, params: seq<Value>)
    ensures var q := QueryRun(hasPool, replies, n, sql, params);
      && (hasPool ==> q == LeaseQuery(replies, n, sql, params))
      && (!hasPool ==> q.events != [] && q.events[0] == PoolCreated)
      && Created(q.events) == (if hasPool then 0 else 1) && Ended(q.events) == 0
    ensures var h := HealthRun(hasPool, replies, n);
      && (hasPool ==> h == HealthProbe(replies, n))
      && (!hasPool ==> h.events != [] && h.events[0] == PoolCreated)
      && Created(h.events) == (if hasPool then 0 else 1) && Ended(h.events) == 0
  {
    var init := InitRun(hasPool, replies, n);
    InitRunPools(hasPool, replies, n);
    if init.result.Success? {
      var l := LeaseQuery(replies, init.next, sql, params);
      var p := HealthProbe(replies, init.next);
    }
  }

  /** A query on an existing pool whose connection and statement succeed returns exactly
      the rows the driver produced, e.g. the one row of a lookup by id, or none at all
      for an id that does not exist, which is not an error. */
  lemma QueryReturnsRows(replies: nat -> Reply, n: nat, sql: string, params: seq<Value>, rows: seq<Row>)
    requires replies(n).Answer? && replies(n + 1) == Answer(rows)
    ensures QueryRun(true, replies, n, sql, params)
         == Run([Leased, Ran(sql, params, true), Released], n + 2, Success(rows))
  {
  }

  // ---------------------------------------------------------------------------------------
  // The module state
  // ---------------------------------------------------------------------------------------

  /** A `pg` pool, with the tuning it was created with. */
  class Pool {
    const connectionTimeoutMillis: nat
    const idleTimeoutMillis: nat
    const max: nat

    constructor(connectionTimeoutMillis: nat, idleTimeoutMillis: nat, max: nat)
      ensures this.connectionTimeoutMillis == connectionTimeoutMillis
      ensures this.idleTimeoutMillis == idleTimeoutMillis
      ensures this.max == max
    {
      this.connectionTimeoutMillis := connectionTimeoutMillis;
      this.idleTimeoutMillis := idleTimeoutMillis;
      this.max := max;
    }
  }

  /** The module: its variable `pool`, and the environment it talks to. */
  class Gateway {
    var pool: Pool?
    const replies: nat -> Reply
    var calls: nat
    ghost var log: seq<Event>

    /** At most one live pool: every pool created has been ended, except the current one. */
    ghost predicate Valid()
      reads this
    {
      Created(log) == Ended(log) + (if pool == null then 0 else 1)
    }

    /** The module at load time: no pool. */
    constructor(replies: nat -> Reply)
      ensures Valid() && pool == null && this.replies == replies && calls == 0 && log == []
    {
      pool := null;
      this.replies := replies;
      calls := 0;
      log := [];
    }

    /** `pool.connect()`. */
    method Connect() returns (r: Result<(), DbError>)
      modifies this`calls, this`log
      ensures calls == old(calls) + 1
      ensures r == (match replies(old(calls)) case Answer(_) => Success(()) case Refuse(e) => Failure(e))
      ensures log == old(log) + [if r.Success? then Leased else ConnectRefused(r.error)]
    {
      r := match replies(calls) case Answer(_) => Success(()) case Refuse(e) => Failure(e);
      log := log + [if r.Success? then Leased else ConnectRefused(r.error)];
      calls := calls + 1;
    }

    /** `client.query(sql, params)` on the current lease. */
    method Execute(sql: string, params: seq<Value>) returns (r: Result<seq<Row>, DbError>)
      modifies this`calls, this`log
      ensures calls == old(calls) + 1
      ensures r == (match replies(old(calls)) case Answer(rows) => Success(rows) case Refuse(e) => Failure(e))
      ensures log == old(log) + [Ran(sql, params, r.Success?)]
    {
      r := match replies(calls) case Answer(rows) => Success(rows) case Refuse(e) => Failure(e);
      log := log + [Ran(sql, params, r.Success?)];
      calls := calls + 1;
    }

    /** `client.release()`. */
    method Release()
      modifies this`log
      ensures log == old(log) + [Released]
    {
      log := log + [Released];
    }

    /** `await new Promise(resolve => setTimeout(resolve, ms))`. */
    method Sleep(ms: nat)
      modifies this`log
      ensures log == old(log) + [Slept(ms)]
    {
      log := log + [Slept(ms)];
    }

    /** One pass of the `try` block in the retry loop: connect, probe, read the probe's first
        row, release. */
    method TryConnect() returns (r: Result<(), DbError>)
      modifies this`calls, this`log
      ensures var attempt := Probe(replies, old(calls));
        log == old(log) + attempt.events && calls == attempt.next && r == attempt.result
    {
      var connected := Connect();
      if connected.Failure? {
        return Failure(connected.error);
      }
      var probe := Execute(ProbeSql, []);
      if probe.Failure? {
        return Failure(probe.error);
      }
      if |probe.value| == 0 {
        return Failure(NoRowToRead);
      }
      Release();
      return Success(());
    }

    /** The retry loop of `initializeDBPool`: `MaxAttempts` passes of the `try` block,
        `RetryDelayMs` apart, returning at the first success and throwing the last error. */
    method RetryConnect() returns (r: Result<(), DbError>)
      modifies this`calls, this`log
      ensures var run := Attempts(replies, old(calls), MaxAttempts);
        log == old(log) + run.events && calls == run.next && r == run.result
    {
      ghost var total := Attempts(replies, calls, MaxAttempts);
      ghost var done: seq<Event> := [];
      var retries := MaxAttempts;
      var lastError: Option<DbError> := None;
      while retries > 0
        invariant 0 <= retries <= MaxAttempts
        invariant log == old(log) + done
        invariant retries > 0 ==> total == Prepend(done, Attempts(replies, calls, retries))
        invariant retries == 0 ==> lastError.Some? && total == Run(done, calls, Failure(lastError.value))
        decreases retries
      {
        ghost var c := calls;
        var attempt := TryConnect();
        if attempt.Success? {
          AttemptsAfterSuccess(replies, c, retries, done, total);
          AppendAssoc(old(log), done, Probe(replies, c).events);
          return Success(());
        }
        AttemptsAfterFailure(replies, c, retries, done, total);
        lastError := Some(attempt.error);
        AppendAssoc(old(log), done, Probe(replies, c).events);
        done := done + Probe(replies, c).events;
        retries := retries - 1;
        if retries > 0 {
          Sleep(RetryDelayMs);
          AppendAssoc(old(log), done, [Slept(RetryDelayMs)]);
          done := done + [Slept(RetryDelayMs)];
        }
      }
      return Failure(lastError.value);
    }

    /** `initializeDBPool`. A failed run leaves the new pool in place, so a later call does
        nothing. */
    method InitializeDBPool() returns (r: Result<(), DbError>)
      requires Valid()
      modifies this
      ensures Valid()
      ensures var run := InitRun(old(pool) != null, replies, old(calls));
        log == old(log) + run.events && calls == run.next && r == run.result
      ensures old(pool) != null ==> pool == old(pool)
      ensures old(pool) == null ==>
        pool != null && fresh(pool)
        && pool.connectionTimeoutMillis == 5000 && pool.idleTimeoutMillis == 30000 && pool.max == 20
    {
      if pool != null {
        return Success(());
      }
      var p := new Pool(5000, 30000, 20);
      pool := p;
      ghost var start := log;
      log := log + [PoolCreated];
      r := RetryConnect();
      PoolThenAttempts(replies, old(calls), start, log);
      OneMorePool(replies, old(calls), start, log);
    }

    /** The lease of `healthCheckDB`: connect, probe, read the first row, and release in
        `finally` once connected. */
    method HealthLease() returns (r: Result<(), DbError>)
      modifies this`calls, this`log
      ensures var lease := HealthProbe(replies, old(calls));
        log == old(log) + lease.events && calls == lease.next && r == lease.result
    {
      var connected := Connect();
      if connected.Failure? {
        return Failure(connected.error);
      }
      var probe := Execute(ProbeSql, []);
      Release();
      if probe.Failure? {
        return Failure(probe.error);
      }
      if |probe.value| == 0 {
        return Failure(NoRowToRead);
      }
      return Success(());
    }

    /** `healthCheckDB`. */
    method HealthCheckDB() returns (r: Result<(), DbError>)
      requires Valid()
      modifies this
      ensures Valid()
      ensures var run := HealthRun(old(pool) != null, replies, old(calls));
        log == old(log) + run.events && calls == run.next && r == run.result
      ensures old(pool) != null ==> pool == old(pool)
      ensures old(pool) == null ==> pool != null && fresh(pool)
    {
      ghost var start := log;
      ghost var n := calls;
      ghost var had := pool != null;
      if pool == null {
        var init := InitializeDBPool();
        if init.Failure? {
          return Failure(init.error);
        }
      }
      ghost var mid := log;
      ghost var m := calls;
      r := HealthLease();
      PoolFreeKeepsBalance(mid, HealthProbe(replies, m).events);
      HealthAfterInit(had, replies, n, start, mid, m, log);
    }

    /** The lease of `queryDB`: connect, run the statement, and release in `finally` once
        connected. */
    method QueryLease(sql: string, params: seq<Value>) returns (r: Result<seq<Row>, DbError>)
      modifies this`calls, this`log
      ensures var lease := LeaseQuery(replies, old(calls), sql, params);
        log == old(log) + lease.events && calls == lease.next && r == lease.result
    {
      var connected := Connect();
      if connected.Failure? {
        return Failure(connected.error);
      }
      r := Execute(sql, params);
      Release();
    }

    /** `queryDB(query, params)`, `params` defaulting to the empty list. */
    method QueryDB(sql: string, params: seq<Value> := []) returns (r: Result<seq<Row>, DbError>)
      requires Valid()
      modifies this
      ensures Valid()
      ensures var run := QueryRun(old(pool) != null, replies, old(calls), sql, params);
        log == old(log) + run.events && calls == run.next && r == run.result
      ensures old(pool) != null ==> pool == old(pool)
      ensures old(pool) == null ==> pool != null && fresh(pool)
    {
      ghost var start := log;
      ghost var n := calls;
      ghost var had := pool != null;
      if pool == null {
        var init := InitializeDBPool();
        if init.Failure? {
          return Failure(init.error);
        }
      }
      ghost var mid := log;
      ghost var m := calls;
      r := QueryLease(sql, params);
      PoolFreeKeepsBalance(mid, LeaseQuery(replies, m, sql, params).events);
      QueryAfterInit(had, replies, n, sql, params, start, mid, m, log);
    }

    /** `closeDBPool`: nothing without a pool; otherwise end it, then forget it, so that a
        second call does nothing and the next query creates a new pool. */
    method CloseDBPool()
      requires Valid()
      modifies this
      ensures Valid()
      ensures pool == null && calls == old(calls)
      ensures log == old(log) + (if old(pool) != null then [PoolEnded] else [])
    {
      if pool != null {
        log := log + [PoolEnded];
        pool := null;
      }
    }
  }
  /** After `initializeDBPool` throws, the pool it created stays, so calling it again does
      nothing: no new pool, no attempt, and no error. */
  method InitialiseTwice(db: Gateway) returns (first: Result<(), DbError>, second: Result<(), DbError>)
    requires db.Valid() && db.pool == null
    modifies db
    ensures db.Valid() && db.pool != null
    ensures var run := InitRun(false, db.replies, old(db.calls));
      db.log == old(db.log) + run.events && db.calls == run.next && first == run.result
    ensures second == Success(())
  {
    first := db.InitializeDBPool();
    second := db.InitializeDBPool();
  }

  /** Closing twice ends the pool once: the second `closeDBPool` finds no pool. */
  method CloseTwice(db: Gateway)
    requires db.Valid()
    modifies db
    ensures db.Valid() && db.pool == null && db.calls == old(db.calls)
    ensures db.log == old(db.log) + (if old(db.pool) != null then [PoolEnded] else [])
  {
    db.CloseDBPool();
    db.CloseDBPool();
  }
}
