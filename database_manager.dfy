/**
 * `DatabaseManager`: the single JDBC connection the proxy keeps, the
 * `isConnected` flag beside it, the monitor that reconnects a lost
 * connection, the guard in front of every statement, the transaction
 * bracket and the binding of statement parameters.
 *
 * The driver and the server are outside the model: whether
 * `DriverManager.getConnection` succeeds, whether a statement or a
 * transaction's unit throws, and whether a connection still answers
 * (`isValid`) are given to the methods, or held in the connection's `valid`
 * field, which only the server changes.
 */
module Database {
  import opened JavaBase
  import opened Float64
  import DatabaseSettings

  // ----- Statement parameters -----

  /** An argument of `executeUpdate`/`executeQuery`, by its runtime class. */
  datatype Param =
    | PNull
    | PString(s: JString)
    | PInteger(i: int32)
    | PLong(l: int64)
    | PDouble(d: Double)
    | PBoolean(b: bool)
    | PTimestamp(millis: int64)
    | PObject(text: JString)  // any other object; `text` is its `toString()`

  /** The `PreparedStatement` setter a parameter is bound with, and the value it passes. */
  datatype Binding =
    | SetNull
    | SetString(s: JString)
    | SetInt(i: int32)
    | SetLong(l: int64)
    | SetDouble(d: Double)
    | SetBoolean(b: bool)
    | SetTimestamp(millis: int64)

  /** The type dispatch of `setParameters`: the first `instanceof` test that holds picks the setter. */
  function BindingOf(p: Param): Binding {
    match p
    case PNull => SetNull
    case PString(s) => SetString(s)
    case PInteger(i) => SetInt(i)
    case PLong(l) => SetLong(l)
    case PDouble(d) => SetDouble(d)
    case PBoolean(b) => SetBoolean(b)
    case PTimestamp(t) => SetTimestamp(t)
    case PObject(text) => SetString(text)
  }

  /** The argument a binding hands the server, read back as a parameter. */
  function Bound(b: Binding): Param {
    match b
    case SetNull => PNull
    case SetString(s) => PString(s)
    case SetInt(i) => PInteger(i)
    case SetLong(l) => PLong(l)
    case SetDouble(d) => PDouble(d)
    case SetBoolean(b) => PBoolean(b)
    case SetTimestamp(t) => PTimestamp(t)
  }

  /**
   * Every argument reaches the server with its own type and value; only an
   * object of another class is sent as its `toString()` text.
   */
  lemma BindingKeepsValue(p: Param)
    ensures Bound(BindingOf(p)) == (if p.PObject? then PString(p.text) else p)
    ensures BindingOf(p) == SetNull <==> p == PNull
  {
  }

  /** Positions 1..n bound to the first n arguments, each at its index plus one. */
  function Bindings(params: seq<Param>, n: nat): (r: map<int, Binding>)
    requires n <= |params|
    ensures forall k | k in r :: 1 <= k <= n && r[k] == BindingOf(params[k - 1])
    ensures forall k: int | 1 <= k <= n :: k in r
  {
    if n == 0 then map[] else Bindings(params, n - 1)[n := BindingOf(params[n - 1])]
  }

  /** A `PreparedStatement`: its SQL text and the parameters bound so far, by position. */
  class PreparedStatement {
    const sql: JString
    var bound: map<int, Binding>

    /** `connection.prepareStatement(sql)`: nothing is bound yet. */
    constructor (sql: JString)
      ensures this.sql == sql && bound == map[]
    {
      this.sql := sql;
      bound := map[];
    }

    /** `setNull`, `setString`, `setInt`, ...: binds one position, replacing what it held. */
    method Bind(position: int, b: Binding)
      modifies this
      ensures bound == old(bound)[position := b]
    {
      bound := bound[position := b];
    }
  }

  /** Binding one more position after the earlier ones is the same as binding them all together. */
  lemma UpdateAfterMerge(m: map<int, Binding>, b: map<int, Binding>, k: int, v: Binding)
    ensures (m + b)[k := v] == m + b[k := v]
  {
  }

  /** One step of `setParameters`: the setter the argument's runtime class selects, at `position`. */
  method BindParameter(statement: PreparedStatement, position: int, p: Param)
    modifies statement
    ensures statement.bound == old(statement.bound)[position := BindingOf(p)]
  {
    match p {
      case PNull => statement.Bind(position, SetNull);
      case PString(s) => statement.Bind(position, SetString(s));
      case PInteger(n) => statement.Bind(position, SetInt(n));
      case PLong(l) => statement.Bind(position, SetLong(l));
      case PDouble(d) => statement.Bind(position, SetDouble(d));
      case PBoolean(b) => statement.Bind(position, SetBoolean(b));
      case PTimestamp(t) => statement.Bind(position, SetTimestamp(t));
      case PObject(text) => statement.Bind(position, SetString(text));
    }
  }

  /**
   * `setParameters`: argument i goes to position i + 1 through the setter
   * its runtime class selects, in order.
   */
  method SetParameters(statement: PreparedStatement, params: seq<Param>)
    modifies statement
    ensures statement.bound == old(statement.bound) + Bindings(params, |params|)
  {
    var i := 0;
    while i < |params|
      invariant 0 <= i <= |params|
      invariant statement.bound == old(statement.bound) + Bindings(params, i)
      decreases |params| - i
    {
      BindParameter(statement, i + 1, params[i]);
      UpdateAfterMerge(old(statement.bound), Bindings(params, i), i + 1, BindingOf(params[i]));
      i := i + 1;
    }
  }

  // ----- The connection -----

  /** What a connection is asked to do, in order. */
  datatype Call =
    | Execute(sql: JString, bound: map<int, Binding>, autoCommit: bool)  // a statement, and the auto-commit mode it ran in
    | Work(autoCommit: bool)  // the statements of a transaction's unit, and the mode they ran in
    | Commit(succeeds: bool)  // an explicit `commit()`, and whether it went through or threw
    | Rollback
    | ImplicitCommit  // the commit `setAutoCommit(true)` performs when it turns auto-commit back on

  /** A JDBC `Connection` as the manager uses it. */
  class Connection {
    var open: bool
    /** Whether the server still answers `isValid(5)`; the network, not the plugin, changes it. */
    var valid: bool
    var autoCommit: bool
    var calls: seq<Call>

    /** A connection `DriverManager.getConnection` has just opened. */
    constructor ()
      ensures open && valid && autoCommit && calls == []
    {
      open := true;
      valid := true;
      autoCommit := true;
      calls := [];
    }

    method Close()
      modifies this
      ensures !open && valid == old(valid) && autoCommit == old(autoCommit) && calls == old(calls)
    {
      open := false;
    }

    /**
     * `setAutoCommit`: a call that turns auto-commit back on during a
     * transaction commits that transaction, as JDBC specifies and as MySQL
     * does for `SET autocommit=1`; any other call only records the mode.
     */
    method SetAutoCommit(on: bool)
      modifies this
      ensures autoCommit == on && open == old(open) && valid == old(valid)
      ensures calls == old(calls) + (if on && !old(autoCommit) then [ImplicitCommit] else [])
    {
      if on && !autoCommit {
        calls := calls + [ImplicitCommit];
      }
      autoCommit := on;
    }

    method Run(c: Call)
      modifies this
      ensures calls == old(calls) + [c]
      ensures open == old(open) && valid == old(valid) && autoCommit == old(autoCommit)
    {
      calls := calls + [c];
    }
  }

  // ----- Transactions -----

  /** How a transaction's unit of work ends. */
  datatype UnitOutcome = Completes | ThrowsSqlException | ThrowsOther

  /**
   * What escapes the manager: the "No hay conexión activa a la base de
   * datos" SQLException of the guard, another SQLException, an unchecked
   * exception from a unit of work, or the RuntimeException `initialize`
   * wraps its failure in.
   */
  datatype DbError = NoActiveConnection | SqlFailure | Unchecked | StartupFailed

  /**
   * The calls a transaction makes on a live connection whose auto-commit
   * mode was `autoCommit` when it started: the unit, then the commit or the
   * rollback, then the restoring of the saved mode.
   */
  function TransactionCalls(unit: UnitOutcome, commitSucceeds: bool, autoCommit: bool): seq<Call> {
    [Work(false)] +
    (match unit
     case Completes => [Commit(commitSucceeds)] + (if commitSucceeds then [] else [Rollback])
     case ThrowsSqlException => [Rollback]
     case ThrowsOther => []) +
    (if autoCommit then [ImplicitCommit] else [])
  }

  /**
   * Whether work left pending before `calls` reaches the database: the
   * first commit that goes through, explicit or implicit, makes it durable,
   * and a rollback before it discards it.
   */
  function PendingCommitted(calls: seq<Call>): bool {
    if calls == [] then false
    else match calls[0]
      case Commit(succeeds) => succeeds || PendingCommitted(calls[1..])
      case ImplicitCommit => true
      case Rollback => false
      case _ => PendingCommitted(calls[1..])
  }

  /** How a transaction on a live connection ends for its caller. */
  function TransactionResult(unit: UnitOutcome, commitSucceeds: bool): Result<(), DbError> {
    match unit
    case Completes => if commitSucceeds then Ok(()) else Err(SqlFailure)
    case ThrowsSqlException => Err(SqlFailure)
    case ThrowsOther => Err(Unchecked)
  }

  /**
   * The unit runs with auto-commit off; the transaction succeeds exactly
   * when an explicit commit goes through; it is rolled back exactly when it
   * fails with an SQLException; `commit()` is called only after a unit that
   * completes; and restoring auto-commit ends every transaction that started
   * in auto-commit mode with the implicit commit.
   *
   * What reaches the database: the unit's work is committed exactly when
   * the transaction succeeds, or when the unit throws an unchecked
   * exception on a connection that was in auto-commit mode. In that case
   * no rollback runs, and restoring auto-commit commits whatever the unit
   * had done before it failed.
   */
  lemma TransactionBracket(unit: UnitOutcome, commitSucceeds: bool, autoCommit: bool)
    ensures var calls := TransactionCalls(unit, commitSucceeds, autoCommit);
      var result := TransactionResult(unit, commitSucceeds);
      calls[0] == Work(false)
      && (result.Ok? <==> Commit(true) in calls)
      && (Rollback in calls <==> result == Err(SqlFailure))
      && (unit != Completes ==> Commit(true) !in calls && Commit(false) !in calls)
      && (autoCommit <==> calls[|calls| - 1] == ImplicitCommit)
      && (PendingCommitted(calls[1..]) <==> result.Ok? || (unit == ThrowsOther && autoCommit))
  {
    var calls := TransactionCalls(unit, commitSucceeds, autoCommit);
    var tail := if autoCommit then [ImplicitCommit] else [];
    match unit
    case Completes =>
      if commitSucceeds {
        assert calls == [Work(false), Commit(true)] + tail;
        assert PendingCommitted(calls[1..]);
      } else {
        assert calls == [Work(false), Commit(false), Rollback] + tail;
        assert calls[1..][1..] == [Rollback] + tail;
        assert !PendingCommitted(calls[1..]);
      }
    case ThrowsSqlException =>
      assert calls == [Work(false), Rollback] + tail;
      assert !PendingCommitted(calls[1..]);
    case ThrowsOther =>
      assert calls == [Work(false)] + tail;
      assert calls[1..] == tail;
  }

  const SELECT_ONE: JString := J("SELECT 1")

  // ----- The manager -----

  class DatabaseManager {
    const dbConfig: DatabaseSettings.DatabaseConfig
    var connection: Connection?
    var isConnected: bool
    /** Whether the executor still runs the connection monitor. */
    var monitoring: bool

    /** `isConnectionValid`: a connection that exists, is open and still answers. It never throws. */
    predicate IsConnectionValid()
      reads this, connection
    {
      connection != null && connection.open && connection.valid
    }

    /** The public `isConnected()`: the flag and a valid connection. */
    predicate IsConnected()
      reads this, connection
    {
      isConnected && IsConnectionValid()
    }

    /**
     * The flag is never down while the connection works: it is lowered only
     * where the connection is closed or was never obtained.
     */
    predicate Valid()
      reads this, connection
    {
      IsConnectionValid() ==> isConnected
    }

    constructor (dbConfig: DatabaseSettings.DatabaseConfig)
      ensures this.dbConfig == dbConfig
      ensures connection == null && !isConnected && !monitoring
      ensures Valid()
    {
      this.dbConfig := dbConfig;
      connection := null;
      isConnected := false;
      monitoring := false;
    }

    /**
     * `initialize` (the variant that takes a `DatabaseConfig`): connects with
     * the configuration's URL and credentials, sets auto-commit, raises the
     * flag, runs "SELECT 1" and starts the monitor. Any failure is rethrown
     * as a RuntimeException, leaving what was already done in place.
     */
    method Initialize(connects: bool, testSucceeds: bool) returns (r: Result<(), DbError>)
      requires Valid()
      modifies this
      ensures Valid()
      ensures !connects ==>
        (r == Err(StartupFailed) && connection == old(connection)
         && isConnected == old(isConnected) && monitoring == old(monitoring))
      ensures connects ==>
        (fresh(connection) && connection.open && connection.valid && connection.autoCommit
         && connection.calls == [Execute(SELECT_ONE, map[], true)] && isConnected
         && (r.Ok? <==> testSucceeds) && (r.Err? ==> r.error == StartupFailed)
         && monitoring == (testSucceeds || old(monitoring)))
    {
      if !connects {
        return Err(StartupFailed);
      }
      var c := new Connection();
      connection := c;
      c.SetAutoCommit(true);
      isConnected := true;
      c.Run(Execute(SELECT_ONE, map[], c.autoCommit));
      if !testSucceeds {
        return Err(StartupFailed);
      }
      monitoring := true;
      r := Ok(());
    }

    /**
     * `reconnect`: closes the old connection if it is open, then connects
     * again with the same configuration. On success the flag is raised and
     * auto-commit is on; when the driver throws, the flag is lowered and the
     * old, now closed, connection stays in place.
     */
    method Reconnect(connects: bool)
      requires Valid()
      modifies this, connection
      ensures Valid()
      ensures old(connection) != null ==>
        (!old(connection).open
         && old(connection).calls == old(connection.calls) && old(connection).autoCommit == old(connection.autoCommit))
      ensures connects ==>
        (fresh(connection) && connection.open && connection.valid && connection.autoCommit
         && connection.calls == [] && isConnected && IsConnected())
      ensures !connects ==> connection == old(connection) && !isConnected && !IsConnectionValid()
      ensures monitoring == old(monitoring)
    {
      if connection != null && connection.open {
        connection.Close();
      }
      if connects {
        var c := new Connection();
        connection := c;
        c.SetAutoCommit(true);
        isConnected := true;
      } else {
        isConnected := false;
      }
    }

    /**
     * One run of the monitor task: it reconnects exactly when the connection
     * is not valid, and otherwise changes nothing. Afterwards the manager is
     * connected whenever the connection was valid or the driver could
     * connect.
     */
    method MonitorTick(connects: bool) returns (reconnected: bool)
      requires monitoring && Valid()
      modifies this, connection
      ensures Valid() && monitoring
      ensures reconnected == !old(IsConnectionValid())
      ensures !reconnected ==> unchanged(this) && unchanged(connection)
      ensures reconnected && connects ==> fresh(connection) && connection.calls == [] && connection.autoCommit
      ensures reconnected && !connects ==> connection == old(connection) && !isConnected
      ensures IsConnected() <==> old(IsConnectionValid()) || connects
    {
      reconnected := !IsConnectionValid();
      if reconnected {
        Reconnect(connects);
      }
    }

    /**
     * `executeUpdate`: refused without running anything unless connected;
     * otherwise the statement runs with its parameters bound, in the
     * connection's auto-commit mode, and returns the update count or throws.
     */
    method ExecuteUpdate(sql: JString, params: seq<Param>, updateCount: Option<int32>) returns (r: Result<int32, DbError>)
      modifies connection
      ensures connection == old(connection)
      ensures !old(IsConnected()) ==> r == Err(NoActiveConnection) && (connection != null ==> unchanged(connection))
      ensures old(IsConnected()) ==>
        connection.calls == old(connection.calls) + [Execute(sql, Bindings(params, |params|), connection.autoCommit)]
        && connection.open && connection.valid && connection.autoCommit == old(connection.autoCommit)
        && r == (if updateCount.Some? then Ok(updateCount.value) else Err(SqlFailure))
    {
      if !isConnected || !IsConnectionValid() {
        return Err(NoActiveConnection);
      }
      var statement := new PreparedStatement(sql);
      SetParameters(statement, params);
      assert statement.bound == Bindings(params, |params|);
      connection.Run(Execute(sql, statement.bound, connection.autoCommit));
      r := if updateCount.Some? then Ok(updateCount.value) else Err(SqlFailure);
    }

    /**
     * `executeQuery`: the same guard; otherwise the statement, with its
     * parameters bound, runs and the caller reads its result set. The
     * rows themselves are not modelled.
     */
    method ExecuteQuery(sql: JString, params: seq<Param>, succeeds: bool) returns (r: Result<PreparedStatement, DbError>)
      modifies connection
      ensures connection == old(connection)
      ensures !old(IsConnected()) ==> r == Err(NoActiveConnection) && (connection != null ==> unchanged(connection))
      ensures old(IsConnected()) ==>
        connection.calls == old(connection.calls) + [Execute(sql, Bindings(params, |params|), connection.autoCommit)]
        && connection.open && connection.valid && connection.autoCommit == old(connection.autoCommit)
        && (r.Ok? <==> succeeds) && (r.Err? ==> r.error == SqlFailure)
        && (r.Ok? ==> fresh(r.value) && r.value.sql == sql && r.value.bound == Bindings(params, |params|))
    {
      if !isConnected || !IsConnectionValid() {
        return Err(NoActiveConnection);
      }
      var statement := new PreparedStatement(sql);
      SetParameters(statement, params);
      assert statement.bound == Bindings(params, |params|);
      connection.Run(Execute(sql, statement.bound, connection.autoCommit));
      r := if succeeds then Ok(statement) else Err(SqlFailure);
    }

    /**
     * `executeTransaction`: the same guard; otherwise auto-commit is saved
     * and turned off, the unit runs, and the transaction is committed, or
     * rolled back when the unit or the commit throws an SQLException. An
     * unchecked exception from the unit escapes with no rollback. In every
     * case the saved auto-commit mode is restored, which commits what is
     * still pending when that mode was on.
     */
    method ExecuteTransaction(unit: UnitOutcome, commitSucceeds: bool) returns (r: Result<(), DbError>)
      modifies connection
      ensures connection == old(connection)
      ensures !old(IsConnected()) ==> r == Err(NoActiveConnection) && (connection != null ==> unchanged(connection))
      ensures old(IsConnected()) ==>
        connection.calls == old(connection.calls) + TransactionCalls(unit, commitSucceeds, old(connection.autoCommit))
        && connection.autoCommit == old(connection.autoCommit)
        && connection.open && connection.valid
        && r == TransactionResult(unit, commitSucceeds)
    {
      if !isConnected || !IsConnectionValid() {
        return Err(NoActiveConnection);
      }
      var c := connection;
      var originalAutoCommit := c.autoCommit;
      c.SetAutoCommit(false);
      c.Run(Work(c.autoCommit));
      match unit {
        case Completes =>
          c.Run(Commit(commitSucceeds));
          if commitSucceeds {
            r := Ok(());
          } else {
            c.Run(Rollback);
            r := Err(SqlFailure);
          }
        case ThrowsSqlException =>
          c.Run(Rollback);
          r := Err(SqlFailure);
        case ThrowsOther =>
          r := Err(Unchecked);
      }
      c.SetAutoCommit(originalAutoCommit);
    }

    /**
     * `close`: lowers the flag first, stops the monitor, and closes the
     * connection if it is open. Afterwards the manager is not connected, and
     * a second call finds nothing left to do.
     */
    method Close()
      modifies this, connection
      ensures Valid()
      ensures !isConnected && !monitoring && !IsConnected() && connection == old(connection)
      ensures connection != null ==>
        (!connection.open && connection.valid == old(connection.valid)
         && connection.autoCommit == old(connection.autoCommit) && connection.calls == old(connection.calls))
      ensures old(!isConnected && !monitoring && (connection == null || !connection.open)) ==>
        unchanged(this) && (connection != null ==> unchanged(connection))
    {
      isConnected := false;
      monitoring := false;
      if connection != null && connection.open {
        connection.Close();
      }
    }
  }
}
