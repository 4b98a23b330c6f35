/** The transactional order repository with retry. Both copies
    (Data/SqliteOrderRepository.cs and LegacyOrderService/Data/SqliteOrderRepository.cs)
    run the same attempt body under the same kind of policy; they differ only
    in how they are constructed. */
module SqliteOrderRepositories {

  import opened Wrappers
  import opened Exceptions
  import opened Orders
  import opened RetryPolicies

  /** One row of the Orders table: the four order fields. The Total is not
      stored; the auto-increment Id is not modelled. */
  datatype Row = Row(customerName: string, productName: string, quantity: int, price: real)

  /** The four parameters `@CustomerName`, `@ProductName`, `@Quantity` and
      `@Price` bound to the insert. */
  function RowOf(o: Order): Row {
    Row(o.customerName, o.productName, o.quantity, o.price)
  }

  /** The storage engine: the committed rows of the Orders table, oldest first. */
  class Database {
    var rows: seq<Row>

    constructor (rows: seq<Row>)
      ensures this.rows == rows
    {
      this.rows := rows;
    }
  }

  /** A database transaction: inserts stay pending until the commit appends
      them to the table all at once; a rollback drops them. */
  class Transaction {
    const db: Database
    var pending: seq<Row>
    var active: bool

    constructor (db: Database)
      ensures this.db == db && pending == [] && active
    {
      this.db := db;
      pending := [];
      active := true;
    }

    /** `ExecuteNonQueryAsync` of the insert inside this transaction. */
    method Insert(row: Row)
      requires active
      modifies this
      ensures active && pending == old(pending) + [row]
    {
      pending := pending + [row];
    }

    /** `CommitAsync`: the pending rows become visible, atomically. */
    method Commit()
      requires active
      modifies this, db
      ensures !active && pending == []
      ensures db.rows == old(db.rows) + old(pending)
    {
      db.rows := db.rows + pending;
      pending := [];
      active := false;
    }

    /** `RollbackAsync`: the pending rows are dropped; the table is untouched. */
    method Rollback()
      requires active
      modifies this
      ensures !active && pending == []
    {
      pending := [];
      active := false;
    }

    /** Disposal rolls back a transaction that is still active. */
    method Dispose()
      modifies this
      ensures !active && pending == []
    {
      pending := [];
      active := false;
    }
  }

  /** A connection made by the provider factory. */
  class Connection {
    const db: Database
    var connectionString: string
    var isOpen: bool

    constructor (db: Database)
      ensures this.db == db && connectionString == "" && !isOpen
    {
      this.db := db;
      connectionString := "";
      isOpen := false;
    }

    method Open()
      modifies this
      ensures isOpen && connectionString == old(connectionString)
    {
      isOpen := true;
    }

    method BeginTransaction() returns (t: Transaction)
      requires isOpen
      ensures fresh(t) && t.db == db && t.active && t.pending == []
    {
      t := new Transaction(db);
    }

    method Dispose()
      modifies this
      ensures !isOpen
    {
      isOpen := false;
    }
  }

  // ---------------------------------------------------------------------------
  // One attempt

  /** The steps of an attempt at which the provider or the engine can throw. */
  datatype Step = AtOpen | AtBegin | AtInsert | AtCommit

  /** What the environment does during one attempt: the factory returns no
      connection, one step throws the given exception, or every step succeeds.
      A CHECK-constraint violation, a locked database or a dropped connection
      is a `FailAt(AtInsert or AtCommit, DbException(_))`. */
  datatype AttemptScript =
    | NullConnection
    | FailAt(step: Step, error: Exception)
    | Succeed

  /** The calls an attempt makes on the ADO.NET objects, in order. */
  datatype Event =
    | CreateConnection
    | OpenConnection
    | BeginTransaction
    | ExecuteInsert(row: Row)
    | CommitTransaction
    | RollbackTransaction
    | DisposeTransaction
    | DisposeConnection

  const NullConnectionError: Exception := InvalidOperationException("Failed to create DB connection.")

  /** What one attempt throws: InvalidOperationException for a missing
      connection, otherwise the failing step's own exception, rethrown as is. */
  function AttemptOutcome(s: AttemptScript): (r: Outcome<Exception>)
    ensures r.Pass? <==> s.Succeed?
    ensures s.FailAt? ==> r == Fail(s.error)
    ensures s.NullConnection? ==> r.Fail? && r.error.InvalidOperationException? && !Handles(r.error)
  {
    match s
    case NullConnection => Fail(NullConnectionError)
    case FailAt(_, e) => Fail(e)
    case Succeed => Pass
  }

  /** The calls one attempt makes. Open and BeginTransaction are outside the
      `try`, so their failures roll nothing back; an insert or commit failure
      is rolled back in the `catch` before the rethrow; the `using`
      declarations dispose the transaction and then the connection on every
      path once a connection exists. */
  function AttemptTrace(s: AttemptScript, row: Row): (t: seq<Event>)
    ensures |t| >= 1 && t[0] == CreateConnection
    ensures |t| == 1 <==> s.NullConnection?
    ensures ExecuteInsert(row) in t <==> s.Succeed? || (s.FailAt? && (s.step == AtInsert || s.step == AtCommit))
    ensures CommitTransaction in t <==> s.Succeed? || (s.FailAt? && s.step == AtCommit)
  {
    match s
    case NullConnection => [CreateConnection]
    case FailAt(AtOpen, _) => [CreateConnection, OpenConnection, DisposeConnection]
    case FailAt(AtBegin, _) => [CreateConnection, OpenConnection, BeginTransaction, DisposeConnection]
    case FailAt(AtInsert, _) =>
      [CreateConnection, OpenConnection, BeginTransaction, ExecuteInsert(row),
       RollbackTransaction, DisposeTransaction, DisposeConnection]
    case FailAt(AtCommit, _) =>
      [CreateConnection, OpenConnection, BeginTransaction, ExecuteInsert(row), CommitTransaction,
       RollbackTransaction, DisposeTransaction, DisposeConnection]
    case Succeed =>
      [CreateConnection, OpenConnection, BeginTransaction, ExecuteInsert(row), CommitTransaction,
       DisposeTransaction, DisposeConnection]
  }

  /** A rollback is issued exactly when the insert or the commit threw, and
      then before the transaction is disposed. */
  lemma RollbackExactlyOnTryFailure(s: AttemptScript, row: Row)
    ensures RollbackTransaction in AttemptTrace(s, row) <==> s.FailAt? && (s.step == AtInsert || s.step == AtCommit)
    ensures RollbackTransaction in AttemptTrace(s, row) ==>
              var t := AttemptTrace(s, row);
              t[|t| - 3] == RollbackTransaction && t[|t| - 2] == DisposeTransaction
  {
  }

  /** Each attempt starts by creating its own connection and, once one
      exists, ends by disposing it; nothing is held over to the next attempt. */
  lemma ConnectionScopedToAttempt(s: AttemptScript, row: Row)
    ensures var t := AttemptTrace(s, row);
            && t[0] == CreateConnection
            && CreateConnection !in t[1..]
            && (s != NullConnection ==> t[|t| - 1] == DisposeConnection)
  {
  }

  /** The insert is committed only when the attempt succeeds. */
  lemma CommitOnlyOnSuccess(s: AttemptScript, row: Row)
    ensures AttemptOutcome(s).Pass? <==> s.Succeed?
    ensures s.Succeed? ==> CommitTransaction in AttemptTrace(s, row) && RollbackTransaction !in AttemptTrace(s, row)
  {
  }

  /** The calls of the first `n` attempts, one trace per attempt. */
  function AttemptTraces(env: nat -> AttemptScript, row: Row, n: nat): (traces: seq<seq<Event>>)
    ensures |traces| == n
  {
    if n == 0 then [] else AttemptTraces(env, row, n - 1) + [AttemptTrace(env(n - 1), row)]
  }

  lemma {:induction false} AttemptTracesAt(env: nat -> AttemptScript, row: Row, n: nat, i: nat)
    requires i < n
    ensures AttemptTraces(env, row, n)[i] == AttemptTrace(env(i), row)
  {
    if i < n - 1 {
      AttemptTracesAt(env, row, n - 1, i);
    }
  }

  // ---------------------------------------------------------------------------
  // Construction

  /** A `DbProviderFactory`, known by its provider invariant name. */
  datatype ProviderFactory = ProviderFactory(invariantName: string)

  /** What a constructed repository holds. */
  datatype Settings = Settings(connectionString: string, factory: ProviderFactory, policy: RetryPolicy)

  /** The service project's constructor: null connection string, then null
      factory, throw ArgumentNullException; a null policy selects the default. */
  function ConstructFromArguments(connectionString: Option<string>, factory: Option<ProviderFactory>,
                                  retryPolicy: Option<RetryPolicy>): (r: Result<Settings, Exception>)
    ensures connectionString.None? ==> r == Failure(ArgumentNullException("connectionString"))
    ensures connectionString.Some? && factory.None? ==> r == Failure(ArgumentNullException("factory"))
    ensures r.Success? <==> connectionString.Some? && factory.Some?
    ensures r.Success? ==> r.value.connectionString == connectionString.value && r.value.factory == factory.value
    ensures r.Success? && retryPolicy.None? ==> r.value.policy == DefaultPolicy
    ensures r.Success? && retryPolicy.Some? ==> r.value.policy == retryPolicy.value
  {
    if connectionString.None? then Failure(ArgumentNullException("connectionString"))
    else if factory.None? then Failure(ArgumentNullException("factory"))
    else Success(Settings(connectionString.value, factory.value,
                          if retryPolicy.Some? then retryPolicy.value else DefaultPolicy))
  }

  /** `IConfiguration` as its flattened key/value pairs. */
  type Configuration = map<string, string>

  const ConnectionStringKey := "ConnectionStrings:OrdersDatabase"
  const ProviderNameKey := "Database:ProviderName"
  const MissingConnectionStringError: Exception := InvalidOperationException("Connection string 'OrdersDatabase' is missing.")
  const MissingProviderError: Exception := InvalidOperationException("Provider name is missing.")

  /** `DbProviderFactories.GetFactory`: the factory registered under the
      name, or ArgumentException when none is. */
  function GetFactory(registry: map<string, ProviderFactory>, providerName: string): (r: Result<ProviderFactory, Exception>)
    ensures r.Success? <==> providerName in registry
    ensures r.Success? ==> r.value == registry[providerName]
    ensures r.Failure? ==> r.error.ArgumentException?
  {
    if providerName in registry then Success(registry[providerName])
    else Failure(ArgumentException("The requested .NET Data Provider's invariant name '" + providerName + "' is not registered.", None))
  }

  /** The console project's constructor: the connection string is checked
      first, then the provider name, then the provider lookup; the policy is
      always the default one. */
  function ConstructFromConfiguration(configuration: Configuration, registry: map<string, ProviderFactory>):
    (r: Result<Settings, Exception>)
    ensures ConnectionStringKey !in configuration ==> r == Failure(MissingConnectionStringError)
    ensures ConnectionStringKey in configuration && ProviderNameKey !in configuration ==> r == Failure(MissingProviderError)
    ensures r.Success? <==>
              && ConnectionStringKey in configuration && ProviderNameKey in configuration
              && configuration[ProviderNameKey] in registry
    ensures r.Success? ==>
              r.value == Settings(configuration[ConnectionStringKey], registry[configuration[ProviderNameKey]], DefaultPolicy)
  {
    if ConnectionStringKey !in configuration then Failure(MissingConnectionStringError)
    else if ProviderNameKey !in configuration then Failure(MissingProviderError)
    else
      match GetFactory(registry, configuration[ProviderNameKey])
      case Failure(e) => Failure(e)
      case Success(f) => Success(Settings(configuration[ConnectionStringKey], f, DefaultPolicy))
  }

  // ---------------------------------------------------------------------------
  // The repository

  /** The outcome of attempt `i` when the environment behaves as `env`. */
  function Outcomes(env: nat -> AttemptScript): nat -> Outcome<Exception> {
    (i: nat) => AttemptOutcome(env(i))
  }

  lemma OutcomeOfAttempt(env: nat -> AttemptScript, i: nat)
    ensures Outcomes(env)(i) == AttemptOutcome(env(i))
  {
  }

  /** What `SaveAsync` does in environment `env` under policy `p`. */
  function SaveRun(p: RetryPolicy, env: nat -> AttemptScript): Execution {
    Execute(p, Outcomes(env), 0)
  }

  class SqliteOrderRepository {
    const settings: Settings
    /** The database the connection string names. */
    const db: Database

    constructor (settings: Settings, db: Database)
      ensures this.settings == settings && this.db == db
    {
      this.settings := settings;
      this.db := db;
    }

    /** One run of the policy's work: a fresh connection and transaction,
        the insert and the commit; a failure inside the `try` is rolled back
        and rethrown. The table gains the order's row exactly when the
        attempt succeeds. */
    method Attempt(order: Order, s: AttemptScript) returns (r: Outcome<Exception>, trace: seq<Event>)
      modifies db
      ensures r == AttemptOutcome(s)
      ensures trace == AttemptTrace(s, RowOf(order))
      ensures db.rows == old(db.rows) + (if r.Pass? then [RowOf(order)] else [])
    {
      var row := RowOf(order);
      trace := [CreateConnection];
      if s.NullConnection? {
        r := Fail(NullConnectionError);
        return;
      }
      var connection := new Connection(db);
      connection.connectionString := settings.connectionString;
      trace := trace + [OpenConnection];
      if s.FailAt? && s.step == AtOpen {
        connection.Dispose();
        trace := trace + [DisposeConnection];
        r := Fail(s.error);
        return;
      }
      connection.Open();
      trace := trace + [BeginTransaction];
      if s.FailAt? && s.step == AtBegin {
        connection.Dispose();
        trace := trace + [DisposeConnection];
        r := Fail(s.error);
        return;
      }
      var transaction := connection.BeginTransaction();
      // The try block.
      var thrown: Option<Exception> := None;
      trace := trace + [ExecuteInsert(row)];
      if s.FailAt? && s.step == AtInsert {
        thrown := Some(s.error);
      } else {
        transaction.Insert(row);
        trace := trace + [CommitTransaction];
        if s.FailAt? && s.step == AtCommit {
          thrown := Some(s.error);
        } else {
          transaction.Commit();
        }
      }
      // Both catch clauses: roll back, then rethrow.
      if thrown.Some? {
        transaction.Rollback();
        trace := trace + [RollbackTransaction];
      }
      transaction.Dispose();
      connection.Dispose();
      trace := trace + [DisposeTransaction, DisposeConnection];
      r := if thrown.Some? then Fail(thrown.value) else Pass;
    }

    /** `SaveAsync`: the policy's loop around `Attempt` in environment `env`.
        It returns what the last attempt did, the `onRetry` notices in order,
        and each attempt's calls; the table gains one row for the order when
        the save succeeds and is otherwise unchanged. */
    method SaveAsync(order: Order, env: nat -> AttemptScript)
      returns (r: Outcome<Exception>, retries: seq<RetryNotice>, attempts: seq<seq<Event>>)
      modifies db
      ensures SaveRun(settings.policy, env) == Execution(r, retries)
      ensures attempts == AttemptTraces(env, RowOf(order), |retries| + 1)
      ensures db.rows == old(db.rows) + (if r.Pass? then [RowOf(order)] else [])
    {
      var p := settings.policy;
      var outcomes := Outcomes(env);
      ghost var whole := Execute(p, outcomes, 0);
      var k := 0;
      retries := [];
      attempts := [];
      while true
        invariant 0 <= k <= p.retryCount
        invariant |retries| == k
        invariant whole == Execution(Execute(p, outcomes, k).outcome, retries + Execute(p, outcomes, k).retries)
        invariant attempts == AttemptTraces(env, RowOf(order), k)
        invariant db.rows == old(db.rows)
        decreases p.retryCount - k
      {
        var result, trace := Attempt(order, env(k));
        OutcomeOfAttempt(env, k);
        attempts := attempts + [trace];
        if result.Fail? && Handles(result.error) && k < p.retryCount {
          // onRetry, then the sleep, which the model records but does not take.
          var notice := RetryNotice(result.error, SleepDuration(p.backoff, k + 1), k + 1);
          RetryTurn(p, outcomes, k, retries, whole);
          retries := retries + [notice];
          k := k + 1;
        } else {
          LastTurn(p, outcomes, k, retries, whole);
          r := result;
          return;
        }
      }
    }
  }

  // ---------------------------------------------------------------------------
  // Properties of a save

  /** A missing connection is not a DbException, so it is not retried: one
      attempt, no notice, InvalidOperationException, and (by `SaveAsync`)
      no row. */
  lemma NullConnectionNotRetried(p: RetryPolicy, env: nat -> AttemptScript)
    requires env(0) == NullConnection
    ensures SaveRun(p, env) == Execution(Fail(NullConnectionError), [])
  {
    UnhandledShortCircuits(p, Outcomes(env));
  }

  /** A DbException from `OpenAsync` or `BeginTransaction` is retried like
      any other, though nothing was rolled back. */
  lemma OpenFailureRetried(p: RetryPolicy, env: nat -> AttemptScript, code: nat, row: Row)
    requires p.retryCount > 0
    requires env(0) == FailAt(AtOpen, DbException(code)) || env(0) == FailAt(AtBegin, DbException(code))
    ensures |SaveRun(p, env).retries| >= 1 && SaveRun(p, env).retries[0].exception == DbException(code)
    ensures RollbackTransaction !in AttemptTrace(env(0), row) && ExecuteInsert(row) !in AttemptTrace(env(0), row)
  {
  }

  /** Every insert violates the table's CHECK constraint (a DbException)
      under three retries without waits: onRetry fires three times, four
      attempts are made, and the provider's own exception comes out. */
  lemma PersistentInsertFailure(env: nat -> AttemptScript, code: nat)
    requires forall i :: env(i) == FailAt(AtInsert, DbException(code))
    ensures var x := SaveRun(RetryPolicy(3, NoWait), env);
            && |x.retries| == 3 && Attempts(x) == 4
            && x.outcome == Fail(DbException(code))
  {
    ExhaustedRethrowsLast(RetryPolicy(3, NoWait), Outcomes(env));
  }

  /** Two transient insert failures and then a success, under the default
      policy: the save succeeds after two notices, sleeping 2 s and then 4 s. */
  lemma RecoversAfterTwoTransientFailures(env: nat -> AttemptScript, code: nat)
    requires env(0) == FailAt(AtInsert, DbException(code)) && env(1) == FailAt(AtCommit, DbException(code))
    requires env(2) == Succeed
    ensures var x := SaveRun(DefaultPolicy, env);
            && x.outcome == Pass && |x.retries| == 2
            && x.retries[0].delay == 2 && x.retries[1].delay == 4
  {
    SucceedsAfterTransients(DefaultPolicy, Outcomes(env), 0, 2);
    var x := SaveRun(DefaultPolicy, env);
    assert Outcomes(env)(0).Fail? && Outcomes(env)(1).Fail?;
  }

  /** A save whose first attempt succeeds, on an empty table, leaves exactly
      that order's row. */
  method SaveOnEmptyTable(order: Order, settings: Settings, env: nat -> AttemptScript)
    returns (rows: seq<Row>)
    requires env(0) == Succeed
    ensures rows == [RowOf(order)]
  {
    var db := new Database([]);
    var repo := new SqliteOrderRepository(settings, db);
    var r, retries, attempts := repo.SaveAsync(order, env);
    rows := db.rows;
  }
}
