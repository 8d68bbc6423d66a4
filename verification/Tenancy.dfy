/**
 * Tenant transactions on pooled connections (apps/web/modules/tenancy/with-tenant.ts,
 * packages/db/transaction.ts) over tables with the row policy of packages/db/policies/003_client_data_rls.sql.
 */
module Tenancy {
  import opened Base

  /** A row of a client table, with its tenant column. */
  datatype Row = Row(tenant: string, data: string)

  datatype LogRow = LogRow(tenant: string, actor: string, reason: string)

  datatype Db = Db(rows: map<nat, Row>, log: seq<LogRow>)

  /**
   * What one open transaction has done: the setting made for the transaction only, the one made to last beyond
   * it, its writes and its log rows, and whether a failed statement has aborted it.
   */
  datatype Session = Session(tenant: Option<string>, lasting: Option<string>, writes: map<nat, Option<Row>>, log: seq<LogRow>, aborted: bool)

  const FRESH_SESSION := Session(None, None, map[], [], false)

  // ---------- The database's semantics ----------

  /** USING and WITH CHECK; without a tenant setting, no row passes. */
  predicate Passes(setting: Option<string>, row: Row) {
    setting == Some(row.tenant)
  }

  /** The rows a statement meets: committed rows under the transaction's own writes. */
  function Current(rows: map<nat, Row>, s: Session): map<nat, Row> {
    map k | k in rows.Keys + s.writes.Keys && (k in s.writes ==> s.writes[k].Some?) ::
      if k in s.writes then s.writes[k].value else rows[k]
  }

  function Seen(rows: map<nat, Row>, s: Session, setting: Option<string>): map<nat, Row> {
    map k | k in Current(rows, s) && Passes(setting, Current(rows, s)[k]) :: Current(rows, s)[k]
  }

  function Committed(db: Db, s: Session): Db {
    Db(Current(db.rows, s), db.log + s.log)
  }

  /** The tenant in force: what the transaction has set, else what the connection's session carries. */
  function Setting(base: Option<string>, s: Session): Option<string> {
    if s.tenant.Some? then s.tenant else if s.lasting.Some? then s.lasting else base
  }

  /** What the session carries after a COMMIT; a ROLLBACK takes every setting of the transaction back. */
  function AfterCommit(base: Option<string>, s: Session): Option<string> {
    if s.lasting.Some? then s.lasting else base
  }

  /** The tenant the next user of a connection starts with; `left` is a transaction nobody has ended. */
  function Shown(base: Option<string>, left: Option<Session>): Option<string> {
    Setting(base, if left.Some? then left.value else FRESH_SESSION)
  }

  // ---------- One call, nothing in between ----------

  /** A connection of the pool, and what its server session holds between two users. */
  class Connection {
    var base: Option<string>
    var left: Option<Session>
    var discarded: bool
    var releases: nat

    constructor ()
      ensures base == None && left == None && !discarded && releases == 0
    {
      base, left, discarded, releases := None, None, false, 0;
    }
  }

  class Database {
    var db: Db

    constructor ()
      ensures db == Db(map[], [])
    {
      db := Db(map[], []);
    }
  }

  /** A COMMIT whose answer is an error may have taken effect all the same. */
  datatype CommitFault = CommitFault(error: string, applied: bool)

  /** A ROLLBACK that fails may have reached the server; and the pool keeps the connection or drops it. */
  datatype RollbackFault = RollbackFault(reached: bool, kept: bool)

  /** Which of the statements around the callback fail, and how. */
  datatype Faults = Faults(begin: Option<string>, commit: Option<CommitFault>, rollback: Option<RollbackFault>)

  /** A callback, given the database, the setting of the session and the transaction it runs in. */
  type Callback<!T> = (Db, Option<string>, Session) -> (Session, Result<T, string>)

  datatype Outcome<T> = Outcome(result: Result<T, string>, committed: bool, db: Db, base: Option<string>, left: Option<Session>, discarded: bool)

  /** The catch block: ROLLBACK with `open` still open, then the release. */
  function Abandon<T>(result: Result<T, string>, committed: bool, db: Db, base: Option<string>, open: Option<Session>, faults: Faults): Outcome<T> {
    match faults.rollback
    case None => Outcome(result, committed, db, base, None, false)
    case Some(fault) =>
      Outcome(result, committed, db, base, if fault.reached || !fault.kept then None else open, !fault.kept)
  }

  /**
   * BEGIN on a connection where a transaction is still open goes on in that one. COMMIT of an aborted transaction
   * rolls it back and answers without an error.
   */
  function RunTransaction<T>(db: Db, base: Option<string>, left: Option<Session>, fn: Callback<T>, faults: Faults): Outcome<T> {
    if faults.begin.Some? then Abandon(Err(faults.begin.value), false, db, base, left, faults)
    else
      var (session, result) := fn(db, base, if left.Some? then left.value else FRESH_SESSION);
      if result.Err? then Abandon(result, false, db, base, Some(session), faults)
      else match faults.commit
           case None =>
             if session.aborted then Outcome(result, false, db, base, None, false)
             else Outcome(result, true, Committed(db, session), AfterCommit(base, session), None, false)
           case Some(fault) =>
             if fault.applied && !session.aborted then Abandon(Err(fault.error), true, Committed(db, session), AfterCommit(base, session), None, faults)
             else Abandon(Err(fault.error), false, db, base, Some(session), faults)
  }

  /** `transaction`. The first error is the one thrown, whatever ROLLBACK does; the connection is released once on every path. */
  method Transaction<T>(database: Database, conn: Connection, fn: Callback<T>, faults: Faults) returns (r: Result<T, string>)
    requires !conn.discarded
    modifies database, conn
    ensures var o := RunTransaction(old(database.db), old(conn.base), old(conn.left), fn, faults);
            && r == o.result && database.db == o.db
            && conn.base == o.base && conn.left == o.left && conn.discarded == o.discarded
    ensures conn.releases == old(conn.releases) + 1
    ensures var (session, result) := fn(old(database.db), old(conn.base), if old(conn.left).Some? then old(conn.left).value else FRESH_SESSION);
            var applied := faults.begin.None? && result.Ok? && !session.aborted && (faults.commit.None? || faults.commit.value.applied);
            && r == (if faults.begin.Some? then Err(faults.begin.value) else if result.Err? || faults.commit.None? then result
                     else Err(faults.commit.value.error))
            && database.db == if applied then Committed(old(database.db), session) else old(database.db)
    ensures r.Ok? || faults.rollback.None? ==> conn.left == None && !conn.discarded
  {
    var open := conn.left;
    r := Err("");
    if faults.begin.Some? {
      r := Err(faults.begin.value);
    } else {
      var (session, result) := fn(database.db, conn.base, if open.Some? then open.value else FRESH_SESSION);
      open := Some(session);
      r := result;
      if result.Ok? {
        if (faults.commit.None? || faults.commit.value.applied) && !session.aborted {
          database.db := Committed(database.db, session);
          conn.base := AfterCommit(conn.base, session);
          open := None;
        }
        if faults.commit.Some? {
          r := Err(faults.commit.value.error);
        }
      }
    }
    if r.Err? && faults.rollback.Some? {
      conn.discarded := !faults.rollback.value.kept;
      conn.left := if faults.rollback.value.reached || conn.discarded then None else open;
    } else {
      conn.left := None;
    }
    conn.releases := conn.releases + 1;
  }

  /**
   * What the next user of a connection meets, for a callback run on a clean one: no tenant exactly when no setting
   * meant to last was committed and no transaction with a setting was left open on a connection the pool keeps.
   */
  lemma NextUserSeesNoTenantExactly<T>(db: Db, fn: Callback<T>, faults: Faults)
    ensures var o := RunTransaction(db, None, None, fn, faults); var session := fn(db, None, FRESH_SESSION).0;
            !o.discarded ==>
              (Shown(o.base, o.left) == None <==>
                && (o.committed ==> session.lasting == None)
                && (o.result.Err? && !o.committed && faults.begin.None? && faults.rollback.Some? && !faults.rollback.value.reached ==>
                      session.tenant == None && session.lasting == None))
    ensures var o := RunTransaction(db, None, None, fn, faults); o.result.Ok? ==> o.committed || fn(db, None, FRESH_SESSION).0.aborted
  {
  }

  datatype Access = Access(tenant: string, actor: string, reason: string)

  /** `set_config(..., true)` and the log row, then the callback. */
  function WithTenant<T>(a: Access, fn: Callback<T>): Callback<T> {
    (db: Db, base: Option<string>, s: Session) =>
      fn(db, base, s.(tenant := Some(a.tenant), log := s.log + [LogRow(a.tenant, a.actor, a.reason)]))
  }

  /** The callback only adds to the session's log and keeps its settings. */
  ghost predicate KeepsLog<T(!new)>(fn: Callback<T>) {
    forall db, base, s :: fn(db, base, s).0.log == s.log && fn(db, base, s).0.tenant == s.tenant && fn(db, base, s).0.lasting == s.lasting
  }

  /** What the callback of an access makes of its transaction. */
  function AccessRun<T>(db: Db, a: Access, fn: Callback<T>): (Session, Result<T, string>) {
    fn(db, None, FRESH_SESSION.(tenant := Some(a.tenant), log := [LogRow(a.tenant, a.actor, a.reason)]))
  }

  /**
   * `withTenantAccess` on a clean connection. The caller gets the callback's own result, unless BEGIN failed or the
   * answer to COMMIT was an error. The rows change by what the callback wrote, and the log by one row, the access's
   * own, when the COMMIT takes effect, whatever the caller is told; and nothing changes when it does not. A result
   * comes back without a log row exactly when the callback went on after a statement that aborted the transaction.
   * The next user sees the tenant only when ROLLBACK failed to reach the server and the pool kept the connection.
   */
  method WithTenantAccess<T(!new)>(database: Database, conn: Connection, a: Access, fn: Callback<T>, faults: Faults)
    returns (r: Result<T, string>, ghost committed: bool)
    requires !conn.discarded && conn.base == None && conn.left == None && KeepsLog(fn)
    modifies database, conn
    ensures var o := RunTransaction(old(database.db), None, None, WithTenant(a, fn), faults);
            && r == o.result && committed == o.committed && database.db == o.db
            && conn.base == o.base && conn.left == o.left && conn.discarded == o.discarded
    ensures var (session, result) := AccessRun(old(database.db), a, fn);
            && r == (if faults.begin.Some? then Err(faults.begin.value) else if result.Err? || faults.commit.None? then result
                     else Err(faults.commit.value.error))
            && (committed <==> faults.begin.None? && result.Ok? && !session.aborted && (faults.commit.None? || faults.commit.value.applied))
            && database.db == if committed then Committed(old(database.db), session) else old(database.db)
    ensures database.db.log == old(database.db.log) + if committed then [LogRow(a.tenant, a.actor, a.reason)] else []
    ensures conn.releases == old(conn.releases) + 1
    ensures !conn.discarded ==>
              (Shown(conn.base, conn.left) == None <==>
                 committed || r.Ok? || faults.begin.Some? || faults.rollback.None? || faults.rollback.value.reached)
  {
    assert [] + [LogRow(a.tenant, a.actor, a.reason)] == [LogRow(a.tenant, a.actor, a.reason)];
    hide Current;
    ghost var o := RunTransaction(database.db, None, None, WithTenant(a, fn), faults);
    committed := o.committed;
    r := Transaction(database, conn, WithTenant(a, fn), faults);
  }

  // ---------- Many calls over one pool ----------

  datatype Action =
    | Read
    | Insert(row: Row)
    | Update(key: nat, row: Row)
    | Delete(key: nat)
    | Return(value: string)
    | Throw(error: string)

  datatype Obs = Rows(rows: map<nat, Row>) | Inserted(key: nat) | Affected(count: nat)

  /** A callback decides on its next statement by what it has observed so far. */
  type Program = seq<Obs> -> Action

  /** `set_config` for the transaction only, as `withTenantAccess` does, or a plain SET. */
  datatype Scope = Local | Lasting

  /** A call of `withTenantAccess`, or of `transaction` itself when there is no tenant. */
  datatype Call = Call(tenant: Option<string>, scope: Scope, actor: string, reason: string, program: Program)

  datatype Phase =
    | Began            // the tenant is not set yet
    | TenantSet        // the log row is not inserted yet
    | Working
    | Returning(value: string)
    | Failing(error: string)

  /** `closed`: no transaction is open there, because BEGIN failed or a COMMIT took effect although its answer was an error. */
  datatype Tx = Tx(call: Call, phase: Phase, session: Session, seen: seq<Obs>, closed: bool)

  /** A connection in the pool, lent to a call, or dropped by the pool. */
  datatype Conn = Idle(base: Option<string>, left: Option<Session>) | InTx(base: Option<string>, tx: Tx) | Discarded

  datatype Finished = Finished(call: Call, seen: seq<Obs>, outcome: Result<string, string>)

  /**
   * `commits` records the calls whose COMMIT took effect, `owner` which tenant a row id was first inserted for;
   * ids are drawn afresh.
   */
  datatype State = State(db: Db, conns: map<nat, Conn>, finished: seq<Finished>, commits: seq<Call>, owner: map<nat, string>)

  datatype Step =
    | Begin(c: nat, call: Call)
    | BeginFails(c: nat, call: Call, error: string)
    | SetTenant(c: nat)
    | LogAccess(c: nat)
    | Act(c: nat, drawn: nat)
    | StatementFails(c: nat, error: string)
    | Commit(c: nat)
    | CommitFails(c: nat, error: string, applied: bool)
    | Rollback(c: nat)
    | RollbackFails(c: nat, reached: bool, kept: bool)

  predicate Open(s: State, c: nat) {
    c in s.conns && s.conns[c].InTx?
  }

  predicate Enabled(s: State, step: Step) {
    match step
    case Begin(c, _) => c in s.conns && s.conns[c].Idle?
    case BeginFails(c, _, _) => c in s.conns && s.conns[c].Idle?
    case SetTenant(c) => Open(s, c) && s.conns[c].tx.phase.Began?
    case LogAccess(c) => Open(s, c) && s.conns[c].tx.phase.TenantSet?
    case Act(c, drawn) => Open(s, c) && s.conns[c].tx.phase.Working? && drawn !in s.owner
    case StatementFails(c, _) => Open(s, c) && (s.conns[c].tx.phase.Began? || s.conns[c].tx.phase.TenantSet? || s.conns[c].tx.phase.Working?)
    case Commit(c) => Open(s, c) && s.conns[c].tx.phase.Returning?
    case CommitFails(c, _, _) => Open(s, c) && s.conns[c].tx.phase.Returning?
    case Rollback(c) => Open(s, c) && s.conns[c].tx.phase.Failing?
    case RollbackFails(c, _, _) => Open(s, c) && s.conns[c].tx.phase.Failing?
  }

  /** One statement of the callback. A refused one aborts the transaction; an exception of the callback does not. */
  function Perform(rows: map<nat, Row>, base: Option<string>, tx: Tx, drawn: nat): Tx {
    var setting := Setting(base, tx.session);
    var visible := Seen(rows, tx.session, setting);
    match tx.call.program(tx.seen)
    case Read => tx.(seen := tx.seen + [Rows(visible)])
    case Insert(row) =>
      if !Passes(setting, row) then Refused(tx)
      else tx.(session := tx.session.(writes := tx.session.writes[drawn := Some(row)]), seen := tx.seen + [Inserted(drawn)])
    case Update(key, row) =>
      if key !in visible then tx.(seen := tx.seen + [Affected(0)])
      else if !Passes(setting, row) then Refused(tx)
      else tx.(session := tx.session.(writes := tx.session.writes[key := Some(row)]), seen := tx.seen + [Affected(1)])
    case Delete(key) =>
      if key !in visible then tx.(seen := tx.seen + [Affected(0)])
      else tx.(session := tx.session.(writes := tx.session.writes[key := None]), seen := tx.seen + [Affected(1)])
    case Return(v) => tx.(phase := Returning(v))
    case Throw(e) => tx.(phase := Failing(e))
  }

  function Refused(tx: Tx): Tx {
    tx.(phase := Failing("row violates row-level security policy"), session := tx.session.(aborted := true))
  }

  /** BEGIN goes on in a transaction still open there, and fails when that one is aborted. */
  function Started(call: Call, left: Option<Session>): Tx {
    var session := if left.Some? then left.value else FRESH_SESSION;
    Tx(call, if session.aborted then Failing("current transaction is aborted") else if call.tenant.Some? then Began else Working,
       session, [], false)
  }

  function TenantInForce(session: Session, call: Call): Session {
    match call.scope
    case Local => session.(tenant := call.tenant)
    case Lasting => session.(tenant := None, lasting := call.tenant)
  }

  function FinishedOf(tx: Tx): Finished
    requires tx.phase.Returning? || tx.phase.Failing?
  {
    Finished(tx.call, tx.seen, if tx.phase.Returning? then Ok(tx.phase.value) else Err(tx.phase.error))
  }

  /** The connection after a step of its own. */
  function NextConn(s: State, step: Step): Conn
    requires Enabled(s, step)
  {
    var conn := s.conns[step.c];
    match step
    case Begin(_, call) => InTx(conn.base, Started(call, conn.left))
    case BeginFails(_, call, error) =>
      InTx(conn.base, Tx(call, Failing(error), if conn.left.Some? then conn.left.value else FRESH_SESSION, [], conn.left.None?))
    case SetTenant(_) => InTx(conn.base, conn.tx.(phase := TenantSet, session := TenantInForce(conn.tx.session, conn.tx.call)))
    case LogAccess(_) => InTx(conn.base, conn.tx.(phase := Working, session := conn.tx.session.(log := conn.tx.session.log + LogRowOf(conn.tx.call))))
    case Act(_, drawn) => InTx(conn.base, Perform(s.db.rows, conn.base, conn.tx, drawn))
    case StatementFails(_, error) => InTx(conn.base, conn.tx.(phase := Failing(error), session := conn.tx.session.(aborted := true)))
    case Commit(_) => Idle(AfterCommit(conn.base, conn.tx.session), None)
    case CommitFails(_, error, applied) =>
      if applied then InTx(AfterCommit(conn.base, conn.tx.session), conn.tx.(phase := Failing(error), session := FRESH_SESSION, closed := true))
      else InTx(conn.base, conn.tx.(phase := Failing(error)))
    case Rollback(_) => Idle(conn.base, None)
    case RollbackFails(_, reached, kept) =>
      if !kept then Discarded else Idle(conn.base, if reached || conn.tx.closed then None else Some(conn.tx.session))
  }

  /** The connection is taken from the pool. */
  predicate Takes(step: Step) {
    step.Begin? || step.BeginFails?
  }

  predicate TakesEffect(step: Step) {
    step.Commit? || (step.CommitFails? && step.applied)
  }

  predicate Ends(step: Step) {
    step.Commit? || step.Rollback? || step.RollbackFails?
  }

  function Next(s: State, step: Step): State
    requires Enabled(s, step)
  {
    var conn := s.conns[step.c];
    State(if TakesEffect(step) then Committed(s.db, conn.tx.session) else s.db,
          s.conns[step.c := NextConn(s, step)],
          if Ends(step) then s.finished + [FinishedOf(conn.tx)] else s.finished,
          if TakesEffect(step) then s.commits + [conn.tx.call] else s.commits,
          if step.Act? && conn.tx.call.program(conn.tx.seen).Insert? && conn.tx.call.tenant.Some?
          then s.owner[step.drawn := conn.tx.call.tenant.value] else s.owner)
  }

  function LogRowOf(call: Call): (log: seq<LogRow>)
    ensures |log| == if call.tenant.Some? then 1 else 0
  {
    if call.tenant.Some? then [LogRow(call.tenant.value, call.actor, call.reason)] else []
  }

  predicate Possible(s: State, steps: seq<Step>)
    decreases steps
  {
    steps == [] || (Enabled(s, steps[0]) && Possible(Next(s, steps[0]), steps[1..]))
  }

  function After(s: State, steps: seq<Step>): State
    requires Possible(s, steps)
    decreases steps
  {
    if steps == [] then s else After(Next(s, steps[0]), steps[1..])
  }

  // ---------- What the next user of a connection sees ----------

  /** Nobody else's setting is met on a connection, now in use or by its next user. */
  ghost predicate CleanConn(conn: Conn) {
    match conn
    case Idle(base, left) => Shown(base, left) == None
    case InTx(base, _) => base == None
    case Discarded => true
  }

  ghost predicate Clean(s: State) {
    forall c :: c in s.conns ==> CleanConn(s.conns[c])
  }

  /**
   * The step leaves a tenant on a connection that the pool keeps: it commits a setting meant to last, or its
   * ROLLBACK does not reach a transaction that has a setting.
   */
  predicate Leaks(s: State, step: Step)
    requires Enabled(s, step)
  {
    || (TakesEffect(step) && s.conns[step.c].tx.session.lasting.Some?)
    || (step.RollbackFails? && step.kept && !step.reached && !s.conns[step.c].tx.closed
        && (s.conns[step.c].tx.session.tenant.Some? || s.conns[step.c].tx.session.lasting.Some?))
  }

  predicate NeverLeaks(s: State, steps: seq<Step>)
    requires Possible(s, steps)
    decreases steps
  {
    steps == [] || (!Leaks(s, steps[0]) && NeverLeaks(Next(s, steps[0]), steps[1..]))
  }

  ghost predicate CleanThroughout(s: State, steps: seq<Step>)
    requires Possible(s, steps)
    decreases steps
  {
    Clean(s) && (steps != [] ==> CleanThroughout(Next(s, steps[0]), steps[1..]))
  }

  lemma StepIsCleanExactly(s: State, step: Step)
    requires Clean(s) && Enabled(s, step)
    ensures Clean(Next(s, step)) <==> !Leaks(s, step)
  {
    var s' := Next(s, step);
    assert CleanConn(s.conns[step.c]);
    assert CleanConn(s'.conns[step.c]) <==> !Leaks(s, step) by {
      hide Perform, Committed, LogRowOf;
    }
    forall c | c in s.conns && c != step.c ensures CleanConn(s'.conns[c]) {
      assert CleanConn(s.conns[c]);
    }
    hide CleanConn, NextConn, Leaks, Enabled;
  }

  /** Over a whole run, every connection of the pool is clean at every time exactly when no step leaks. */
  lemma {:induction false} CleanExactlyWhenNothingLeaks(s: State, steps: seq<Step>)
    requires Clean(s) && Possible(s, steps)
    ensures CleanThroughout(s, steps) <==> NeverLeaks(s, steps)
    decreases steps
  {
    if steps != [] {
      StepIsCleanExactly(s, steps[0]);
      hide Clean, Leaks, Next, Enabled;
      if !Leaks(s, steps[0]) {
        CleanExactlyWhenNothingLeaks(Next(s, steps[0]), steps[1..]);
      } else {
        NotCleanNow(Next(s, steps[0]), steps[1..]);
      }
    }
  }

  lemma NotCleanNow(s: State, steps: seq<Step>)
    requires Possible(s, steps) && !Clean(s)
    ensures !CleanThroughout(s, steps)
  {
  }

  /** The setting is made for the transaction only, and a ROLLBACK either reaches the server or costs the connection. */
  predicate Careful(step: Step) {
    && (Takes(step) ==> step.call.scope.Local?)
    && (step.RollbackFails? ==> step.reached || !step.kept)
  }

  predicate AllCareful(steps: seq<Step>) {
    forall i :: 0 <= i < |steps| ==> Careful(steps[i])
  }

  lemma CarefulTail(steps: seq<Step>)
    requires AllCareful(steps) && steps != []
    ensures Careful(steps[0]) && AllCareful(steps[1..])
  {
  }

  // ---------- What every careful step keeps ----------

  /** Everything the transaction has written is its own tenant's, and so is every id it has touched. */
  ghost predicate TxOk(s: State, tx: Tx) {
    && tx.call.scope.Local? && tx.session.lasting == None
    && (tx.session.tenant.Some? ==> tx.session.tenant == tx.call.tenant)
    && (tx.phase.Began? ==> tx.session.log == [] && tx.session.writes == map[])
    && (tx.phase.TenantSet? ==> tx.session.log == [] && tx.session.tenant == tx.call.tenant)
    && (tx.phase.Working? || tx.phase.Returning? ==> tx.session.tenant == tx.call.tenant && tx.session.log == LogRowOf(tx.call))
    && (forall k :: k in tx.session.writes ==>
          && tx.call.tenant.Some? && k in s.owner && s.owner[k] == tx.call.tenant.value
          && (tx.session.writes[k].Some? ==> tx.session.writes[k].value.tenant == tx.call.tenant.value))
  }

  /** No connection carries a tenant setting of its own, and none lies idle with a transaction still open. */
  ghost predicate ConnOk(s: State, conn: Conn) {
    match conn
    case Idle(base, left) => base == None && left == None
    case InTx(base, tx) => base == None && TxOk(s, tx)
    case Discarded => true
  }

  ghost predicate Inv(s: State) {
    && (forall c :: c in s.conns ==> ConnOk(s, s.conns[c]))
    && (forall k :: k in s.db.rows ==> k in s.owner && s.owner[k] == s.db.rows[k].tenant)
  }

  /** A row the transaction can see is its own tenant's, and so is its id. */
  lemma SeenIsOwn(s: State, tx: Tx, k: nat)
    requires TxOk(s, tx) && tx.phase.Working? && k in Seen(s.db.rows, tx.session, Setting(None, tx.session))
    requires forall k :: k in s.db.rows ==> k in s.owner && s.owner[k] == s.db.rows[k].tenant
    ensures tx.call.tenant.Some? && k in s.owner && s.owner[k] == tx.call.tenant.value
  {
    hide LogRowOf;
  }

  /** A write of the transaction under an id of its tenant. */
  lemma WriteKeepsTx(s: State, tx: Tx, k: nat, w: Option<Row>, seen: seq<Obs>)
    requires TxOk(s, tx) && tx.phase.Working? && tx.call.tenant.Some? && k in s.owner && s.owner[k] == tx.call.tenant.value
    requires w.Some? ==> w.value.tenant == tx.call.tenant.value
    ensures TxOk(s, tx.(session := tx.session.(writes := tx.session.writes[k := w]), seen := seen))
  {
    hide LogRowOf;
  }

  lemma PerformKeepsTx(s: State, s': State, tx: Tx, drawn: nat)
    requires TxOk(s, tx) && tx.phase.Working? && drawn !in s.owner
    requires forall k :: k in s.db.rows ==> k in s.owner && s.owner[k] == s.db.rows[k].tenant
    requires s'.owner == if tx.call.program(tx.seen).Insert? && tx.call.tenant.Some? then s.owner[drawn := tx.call.tenant.value] else s.owner
    ensures TxOk(s', Perform(s.db.rows, None, tx, drawn))
  {
    var tx' := Perform(s.db.rows, None, tx, drawn);
    TxOkGrows(s, s', tx);
    match tx.call.program(tx.seen)
    case Insert(row) =>
      hide Seen;
      if tx'.phase.Working? { WriteKeepsTx(s', tx, drawn, Some(row), tx'.seen); }
    case Update(key, row) =>
      if key in Seen(s.db.rows, tx.session, Setting(None, tx.session)) {
        SeenIsOwn(s, tx, key);
        hide Seen;
        if tx'.phase.Working? { WriteKeepsTx(s', tx, key, Some(row), tx'.seen); }
      }
      hide Seen;
    case Delete(key) =>
      if key in Seen(s.db.rows, tx.session, Setting(None, tx.session)) {
        SeenIsOwn(s, tx, key);
        hide Seen;
        WriteKeepsTx(s', tx, key, None, tx'.seen);
      }
      hide Seen;
    case _ =>
      hide Seen;
  }

  lemma TxOkGrows(s: State, s': State, tx: Tx)
    requires TxOk(s, tx) && forall k :: k in s.owner ==> k in s'.owner && s'.owner[k] == s.owner[k]
    ensures TxOk(s', tx)
  {
    hide LogRowOf;
  }

  lemma StepKeepsOwner(s: State, step: Step)
    requires Enabled(s, step)
    ensures forall k :: k in s.owner ==> k in Next(s, step).owner && Next(s, step).owner[k] == s.owner[k]
  {
    hide NextConn, Committed;
  }

  lemma StepKeepsOwnConn(s: State, step: Step)
    requires Inv(s) && Enabled(s, step) && Careful(step)
    ensures ConnOk(Next(s, step), NextConn(s, step))
  {
    assert ConnOk(s, s.conns[step.c]);
    if step.Act? {
      hide Perform, Committed;
      PerformKeepsTx(s, Next(s, step), s.conns[step.c].tx, step.drawn);
    } else {
      hide Perform, Committed, Inv;
      if s.conns[step.c].InTx? && !Ends(step) {
        TxOkGrows(s, Next(s, step), s.conns[step.c].tx);
      }
    }
  }

  lemma CommitKeepsRows(s: State, tx: Tx)
    requires TxOk(s, tx) && forall k :: k in s.db.rows ==> k in s.owner && s.owner[k] == s.db.rows[k].tenant
    ensures var rows := Committed(s.db, tx.session).rows; forall k :: k in rows ==> k in s.owner && s.owner[k] == rows[k].tenant
  {
    hide LogRowOf;
  }

  lemma StepKeepsInv(s: State, step: Step)
    requires Inv(s) && Enabled(s, step) && Careful(step)
    ensures Inv(Next(s, step))
  {
    var s' := Next(s, step);
    StepKeepsOwner(s, step);
    StepKeepsOwnConn(s, step);
    forall c | c in s'.conns ensures ConnOk(s', s'.conns[c]) {
      if c != step.c {
        assert c in s.conns && s'.conns[c] == s.conns[c] && ConnOk(s, s.conns[c]);
        if s.conns[c].InTx? {
          TxOkGrows(s, s', s.conns[c].tx);
        }
      }
    }
    if TakesEffect(step) {
      assert ConnOk(s, s.conns[step.c]);
      CommitKeepsRows(s, s.conns[step.c].tx);
    }
    hide ConnOk, NextConn, Committed, Careful;
  }

  lemma {:induction false} RunKeepsInv(s: State, steps: seq<Step>)
    requires Inv(s) && Possible(s, steps) && AllCareful(steps)
    ensures Inv(After(s, steps))
    decreases steps
  {
    if steps != [] {
      CarefulTail(steps);
      StepKeepsInv(s, steps[0]);
      hide Inv, Next, Enabled, AllCareful;
      RunKeepsInv(Next(s, steps[0]), steps[1..]);
    }
  }

  /**
   * In a run of careful steps, no connection, idle or in use, ever carries a tenant setting beyond the transaction
   * that made it, and none lies idle inside a transaction.
   */
  lemma NoConnectionCarriesATenant(s: State, steps: seq<Step>, c: nat)
    requires Inv(s) && Possible(s, steps) && AllCareful(steps) && c in After(s, steps).conns
    ensures var conn := After(s, steps).conns[c];
            CleanConn(conn) && (conn.Idle? ==> conn.left == None)
  {
    RunKeepsInv(s, steps);
    assert ConnOk(After(s, steps), After(s, steps).conns[c]);
  }

  // ---------- What goes wrong without care ----------

  const READS: Program := (seen: seq<Obs>) => if seen == [] then Read else Return("done")

  const THROWS: Program := (seen: seq<Obs>) => Throw("callback failed")

  const TENANT_CALL := Call(Some("a"), Local, "actor", "audit", THROWS)

  const LASTING_CALL := Call(Some("a"), Lasting, "actor", "audit", READS)

  const PLAIN_CALL := Call(None, Local, "", "", READS)

  /** One row of tenant "a", one idle connection. */
  const ROWS: map<nat, Row> := map[1 := Row("a", "secret")]

  const START := State(Db(ROWS, []), map[0 := Idle(None, None)], [], [], map[1 := "a"])

  /** The ROLLBACK of a failed access does not arrive, and the pool lends the connection again. */
  const REUSED: seq<Step> := [Begin(0, TENANT_CALL), SetTenant(0), LogAccess(0), Act(0, 5), RollbackFails(0, false, true)]

  const READS_NEXT: seq<Step> := [Begin(0, PLAIN_CALL), Act(0, 6), Act(0, 7), Commit(0)]

  /** A plain SET in place of `set_config(..., true)`. */
  const LEFT_SET: seq<Step> := [Begin(0, LASTING_CALL), SetTenant(0), LogAccess(0), Act(0, 5), Act(0, 6), Commit(0)]

  lemma Prepend(s: State, steps: seq<Step>)
    requires steps != [] && Enabled(s, steps[0]) && Possible(Next(s, steps[0]), steps[1..])
    ensures Possible(s, steps) && After(s, steps) == After(Next(s, steps[0]), steps[1..])
    ensures NeverLeaks(s, steps) ==> NeverLeaks(Next(s, steps[0]), steps[1..])
  {
  }

  lemma ActGives(s: State, base: Option<string>, tx: Tx, drawn: nat)
    requires s.conns == map[0 := InTx(base, tx)] && tx.phase.Working? && drawn !in s.owner
    requires !tx.call.program(tx.seen).Insert?
    ensures Enabled(s, Act(0, drawn))
    ensures Next(s, Act(0, drawn)) == s.(conns := map[0 := InTx(base, Perform(s.db.rows, base, tx, drawn))])
  {
    hide Perform, Committed, Seen;
  }

  lemma FirstRead(base: Option<string>, tx: Tx, drawn: nat)
    requires tx.seen == [] && tx.call.program == READS && tx.session.writes == map[] && Setting(base, tx.session) == Some("a")
    ensures Perform(ROWS, base, tx, drawn) == tx.(seen := [Rows(ROWS)])
  {
    assert Current(ROWS, tx.session) == ROWS;
    assert Seen(ROWS, tx.session, Some("a")) == ROWS;
    hide Seen, Current;
  }

  lemma ThenReturns(base: Option<string>, tx: Tx, drawn: nat)
    requires tx.seen == [Rows(ROWS)] && tx.call.program == READS
    ensures Perform(ROWS, base, tx, drawn) == tx.(phase := Returning("done"))
  {
    hide Seen;
  }

  /** Two statements of READS that meet tenant "a"'s row. */
  lemma ReadsTheRow(s: State, base: Option<string>, tx: Tx, m: nat, n: nat)
    requires s.conns == map[0 := InTx(base, tx)] && s.db.rows == ROWS && m !in s.owner && n !in s.owner
    requires tx.phase.Working? && tx.seen == [] && tx.call.program == READS && tx.session.writes == map[]
    requires Setting(base, tx.session) == Some("a")
    ensures Enabled(s, Act(0, m)) && Enabled(Next(s, Act(0, m)), Act(0, n))
    ensures Next(Next(s, Act(0, m)), Act(0, n)) == s.(conns := map[0 := InTx(base, tx.(phase := Returning("done"), seen := [Rows(ROWS)]))])
    ensures !Leaks(s, Act(0, m)) && !Leaks(Next(s, Act(0, m)), Act(0, n))
  {
    FirstRead(base, tx, m);
    ThenReturns(base, tx.(seen := [Rows(ROWS)]), n);
    hide Perform, Setting, Next;
    ActGives(s, base, tx, m);
    ActGives(Next(s, Act(0, m)), base, tx.(seen := [Rows(ROWS)]), n);
  }

  lemma CommitGives(s: State, base: Option<string>, tx: Tx)
    requires s.conns == map[0 := InTx(base, tx)] && tx.phase.Returning? && tx.session.writes == map[]
    ensures Enabled(s, Commit(0))
    ensures var s' := Next(s, Commit(0));
            && s'.conns == map[0 := Idle(AfterCommit(base, tx.session), None)] && s'.owner == s.owner
            && s'.db == Db(s.db.rows, s.db.log + tx.session.log) && s'.finished == s.finished + [FinishedOf(tx)]
  {
    assert Current(s.db.rows, tx.session) == s.db.rows;
    hide Current;
  }

  /**
   * On a connection that shows tenant "a" to its next user, a call without a tenant reads tenant "a"'s row, and its
   * COMMIT commits the log rows of the transaction left open there.
   */
  lemma NextReads(s: State, left: Option<Session>, base: Option<string>)
    requires s.conns == map[0 := Idle(base, left)] && s.db.rows == ROWS && 6 !in s.owner && 7 !in s.owner
    requires Shown(base, left) == Some("a") && (left.Some? ==> !left.value.aborted && left.value.writes == map[])
    ensures Possible(s, READS_NEXT)
    ensures var end := After(s, READS_NEXT);
            && end.finished == s.finished + [Finished(PLAIN_CALL, [Rows(ROWS)], Ok("done"))]
            && end.db.log == s.db.log + if left.Some? then left.value.log else []
  {
    var session := if left.Some? then left.value else FRESH_SESSION;
    var tx := Tx(PLAIN_CALL, Working, session, [], false);
    var s1 := s.(conns := map[0 := InTx(base, tx)]);
    assert Enabled(s, READS_NEXT[0]) && Next(s, READS_NEXT[0]) == s1;
    ReadsTheRow(s1, base, tx, 6, 7);
    var s2 := Next(s1, READS_NEXT[1]);
    var s3 := Next(s2, READS_NEXT[2]);
    CommitGives(s3, base, tx.(phase := Returning("done"), seen := [Rows(ROWS)]));
    assert Possible(Next(s3, READS_NEXT[3]), READS_NEXT[3..][1..]);
    hide Next, Enabled, Setting, Leaks;
    Chain4(s, READS_NEXT, s1, s2, s3);
  }

  /** A run of four steps, state by state. */
  lemma Chain4(s: State, steps: seq<Step>, s1: State, s2: State, s3: State)
    requires |steps| == 4
    requires Enabled(s, steps[0]) && s1 == Next(s, steps[0]) && Enabled(s1, steps[1]) && s2 == Next(s1, steps[1])
    requires Enabled(s2, steps[2]) && s3 == Next(s2, steps[2]) && Enabled(s3, steps[3])
    ensures Possible(s, steps) && After(s, steps) == Next(s3, steps[3])
    ensures NeverLeaks(s, steps) ==> !Leaks(s3, steps[3])
  {
    hide Next, Enabled, Leaks;
    assert steps[3..][1..] == [] && steps[3..][0] == steps[3];
    Prepend(s3, steps[3..]);
    assert steps[2..][1..] == steps[3..];
    Prepend(s2, steps[2..]);
    assert steps[1..][1..] == steps[2..];
    Prepend(s1, steps[1..]);
    Prepend(s, steps);
  }

  /** BEGIN, the setting and the log row, on a fresh connection. */
  lemma Opens(call: Call)
    requires call.tenant == Some("a")
    ensures Enabled(START, Begin(0, call)) && !Leaks(START, Begin(0, call))
    ensures var s1 := Next(START, Begin(0, call));
            && Enabled(s1, SetTenant(0)) && !Leaks(s1, SetTenant(0))
            && var s2 := Next(s1, SetTenant(0));
            && Enabled(s2, LogAccess(0)) && !Leaks(s2, LogAccess(0))
            && Next(s2, LogAccess(0)) ==
                 START.(conns := map[0 := InTx(None, Tx(call, Working, TenantInForce(FRESH_SESSION, call).(log := LogRowOf(call)), [], false))])
  {
    hide TenantInForce, LogRowOf;
    var s1 := Next(START, Begin(0, call));
    assert s1 == START.(conns := map[0 := InTx(None, Tx(call, Began, FRESH_SESSION, [], false))]);
    var s2 := Next(s1, SetTenant(0));
    var session := TenantInForce(FRESH_SESSION, call);
    TenantInForceKeeps(FRESH_SESSION, call);
    assert s2 == START.(conns := map[0 := InTx(None, Tx(call, TenantSet, session, [], false))]);
    assert [] + LogRowOf(call) == LogRowOf(call);
  }

  lemma TenantInForceKeeps(session: Session, call: Call)
    ensures var s := TenantInForce(session, call); s.log == session.log && s.writes == session.writes && s.aborted == session.aborted
  {
  }

  /** The failed access: its callback throws, and the ROLLBACK does not arrive. */
  lemma FailsAndIsKept(s: State, session: Session)
    requires s == START.(conns := map[0 := InTx(None, Tx(TENANT_CALL, Working, session, [], false))]) && session.tenant == Some("a")
    ensures Enabled(s, Act(0, 5)) && Enabled(Next(s, Act(0, 5)), RollbackFails(0, false, true))
    ensures Leaks(Next(s, Act(0, 5)), RollbackFails(0, false, true))
    ensures Next(Next(s, Act(0, 5)), RollbackFails(0, false, true))
         == START.(conns := map[0 := Idle(None, Some(session))], finished := [Finished(TENANT_CALL, [], Err("callback failed"))])
  {
    var tx := Tx(TENANT_CALL, Working, session, [], false);
    ActGives(s, None, tx, 5);
    assert Perform(ROWS, None, tx, 5) == tx.(phase := Failing("callback failed")) by {
      hide Seen;
    }
    hide Perform;
    var s1 := Next(s, Act(0, 5));
    hide Seen, Current;
    assert Next(s1, RollbackFails(0, false, true)).conns == map[0 := Idle(None, Some(session))];
  }

  /**
   * A failed ROLLBACK followed by reuse: a call without a tenant reads another tenant's row, and its COMMIT also
   * commits the access log row of the access that failed.
   */
  lemma FailedRollbackIsReused()
    ensures Possible(START, REUSED) && !NeverLeaks(START, REUSED)
    ensures var mid := After(START, REUSED);
            && mid.finished == [Finished(TENANT_CALL, [], Err("callback failed"))] && mid.db == START.db
            && Possible(mid, READS_NEXT)
            && var end := After(mid, READS_NEXT);
            && end.finished == mid.finished + [Finished(PLAIN_CALL, [Rows(ROWS)], Ok("done"))]
            && end.db.log == [LogRow("a", "actor", "audit")]
  {
    Opens(TENANT_CALL);
    var s1 := Next(START, REUSED[0]);
    var s2 := Next(s1, REUSED[1]);
    var s3 := Next(s2, REUSED[2]);
    hide Next, Enabled, Leaks;
    var session := TenantInForce(FRESH_SESSION, TENANT_CALL).(log := LogRowOf(TENANT_CALL));
    assert session == FRESH_SESSION.(tenant := Some("a"), log := [LogRow("a", "actor", "audit")]);
    hide LogRowOf, TenantInForce;
    FailsAndIsKept(s3, session);
    var s4 := Next(s3, REUSED[3]);
    var s5 := Next(s4, REUSED[4]);
    Chain4(s1, REUSED[1..], s2, s3, s4);
    Prepend(START, REUSED);
    NextReads(s5, Some(session), None);
  }

  /** The call that made the lasting setting reads and commits. */
  lemma CommitsAndIsKept(s: State, session: Session)
    requires s == START.(conns := map[0 := InTx(None, Tx(LASTING_CALL, Working, session, [], false))])
    requires session.tenant == None && session.lasting == Some("a") && session.writes == map[]
    ensures var steps := LEFT_SET[3..];
            && Possible(s, steps)
            && var s' := After(s, steps);
            && s'.conns == map[0 := Idle(Some("a"), None)] && s'.db.rows == ROWS && s'.owner == START.owner
            && s'.finished == [Finished(LASTING_CALL, [Rows(ROWS)], Ok("done"))]
  {
    var tx := Tx(LASTING_CALL, Working, session, [], false);
    ReadsTheRow(s, None, tx, 5, 6);
    var s1 := Next(s, Act(0, 5));
    var s2 := Next(s1, Act(0, 6));
    CommitGives(s2, None, tx.(phase := Returning("done"), seen := [Rows(ROWS)]));
    assert AfterCommit(None, session) == Some("a");
    assert START.finished + [Finished(LASTING_CALL, [Rows(ROWS)], Ok("done"))] == [Finished(LASTING_CALL, [Rows(ROWS)], Ok("done"))];
    hide Next, Enabled, Leaks;
    Chain3(s, LEFT_SET[3..], s1, s2);
  }

  lemma Chain3(s: State, steps: seq<Step>, s1: State, s2: State)
    requires |steps| == 3
    requires Enabled(s, steps[0]) && s1 == Next(s, steps[0]) && Enabled(s1, steps[1]) && s2 == Next(s1, steps[1])
    requires Enabled(s2, steps[2])
    ensures Possible(s, steps) && After(s, steps) == Next(s2, steps[2])
  {
    hide Next, Enabled, Leaks;
    assert steps[2..][1..] == [] && steps[2..][0] == steps[2];
    Prepend(s2, steps[2..]);
    assert steps[1..][1..] == steps[2..];
    Prepend(s1, steps[1..]);
    Prepend(s, steps);
  }

  /** A setting made to last is met by the next user of the connection: a call without a tenant reads tenant "a"'s row. */
  lemma LastingSettingLeaks()
    ensures Possible(START, LEFT_SET)
    ensures var mid := After(START, LEFT_SET);
            && mid.conns == map[0 := Idle(Some("a"), None)] && mid.finished == [Finished(LASTING_CALL, [Rows(ROWS)], Ok("done"))]
            && Possible(mid, READS_NEXT)
            && After(mid, READS_NEXT).finished == mid.finished + [Finished(PLAIN_CALL, [Rows(ROWS)], Ok("done"))]
  {
    Opens(LASTING_CALL);
    var s1 := Next(START, LEFT_SET[0]);
    var s2 := Next(s1, LEFT_SET[1]);
    var s3 := Next(s2, LEFT_SET[2]);
    hide Next, Enabled, Leaks;
    var session := TenantInForce(FRESH_SESSION, LASTING_CALL).(log := LogRowOf(LASTING_CALL));
    assert session == FRESH_SESSION.(lasting := Some("a"), log := LogRowOf(LASTING_CALL));
    hide LogRowOf, TenantInForce;
    CommitsAndIsKept(s3, session);
    assert LEFT_SET[2..][1..] == LEFT_SET[3..];
    Prepend(s2, LEFT_SET[2..]);
    assert LEFT_SET[1..][1..] == LEFT_SET[2..];
    Prepend(s1, LEFT_SET[1..]);
    Prepend(START, LEFT_SET);
    NextReads(After(START, LEFT_SET), None, Some("a"));
  }

  // ---------- Only its own rows ----------

  /** Everything a call has read is its own tenant's. */
  ghost predicate ReadsOwn(call: Call, seen: seq<Obs>) {
    forall i, k :: 0 <= i < |seen| && seen[i].Rows? && k in seen[i].rows ==> call.tenant == Some(seen[i].rows[k].tenant)
  }

  ghost predicate AllReadOwn(s: State) {
    && (forall c :: c in s.conns && s.conns[c].InTx? ==> ReadsOwn(s.conns[c].tx.call, s.conns[c].tx.seen))
    && (forall i :: 0 <= i < |s.finished| ==> ReadsOwn(s.finished[i].call, s.finished[i].seen))
  }

  lemma PerformReadsOwn(rows: map<nat, Row>, tx: Tx, drawn: nat)
    requires ReadsOwn(tx.call, tx.seen) && Setting(None, tx.session) == tx.call.tenant
    ensures ReadsOwn(tx.call, Perform(rows, None, tx, drawn).seen) && Perform(rows, None, tx, drawn).call == tx.call
  {
    hide Current;
  }

  /** Whatever anybody reads in a run of careful steps is its own tenant's. */
  lemma {:induction false} RunReadsOwn(s: State, steps: seq<Step>)
    requires Inv(s) && AllReadOwn(s) && Possible(s, steps) && AllCareful(steps)
    ensures AllReadOwn(After(s, steps))
    decreases steps
  {
    if steps != [] {
      CarefulTail(steps);
      StepReadsOwn(s, steps[0]);
      StepKeepsInv(s, steps[0]);
      hide Inv, AllReadOwn, Next, Enabled, AllCareful;
      RunReadsOwn(Next(s, steps[0]), steps[1..]);
    }
  }

  lemma OwnConnReadsOwn(s: State, step: Step)
    requires Inv(s) && AllReadOwn(s) && Enabled(s, step)
    ensures NextConn(s, step).InTx? ==> ReadsOwn(NextConn(s, step).tx.call, NextConn(s, step).tx.seen)
  {
    assert ConnOk(s, s.conns[step.c]);
    if step.Act? {
      hide Perform;
      PerformReadsOwn(s.db.rows, s.conns[step.c].tx, step.drawn);
    }
    hide Perform, Inv, ConnOk, LogRowOf;
  }

  lemma StepReadsOwn(s: State, step: Step)
    requires Inv(s) && AllReadOwn(s) && Enabled(s, step)
    ensures AllReadOwn(Next(s, step))
  {
    OwnConnReadsOwn(s, step);
    hide NextConn, Committed, ReadsOwn, Inv;
  }

  /** A transaction past its first two statements has its log row pending; one that reads a row has it too. */
  lemma ReadsAreLogged(s: State, steps: seq<Step>, c: nat)
    requires Inv(s) && Possible(s, steps) && AllCareful(steps) && c in After(s, steps).conns && After(s, steps).conns[c].InTx?
    requires var tx := After(s, steps).conns[c].tx; (tx.phase.Working? || tx.phase.Returning?) && tx.call.tenant.Some?
    ensures var tx := After(s, steps).conns[c].tx;
            tx.session.log == [LogRow(tx.call.tenant.value, tx.call.actor, tx.call.reason)]
  {
    RunKeepsInv(s, steps);
    assert ConnOk(After(s, steps), After(s, steps).conns[c]);
  }

  /** A step of one tenant's transaction, or of one without a tenant, leaves every other tenant's rows as they are. */
  lemma OtherTenantsRowsStay(s: State, step: Step, tenant: string, k: nat)
    requires Inv(s) && Enabled(s, step)
    requires s.conns[step.c].InTx? ==> s.conns[step.c].tx.call.tenant != Some(tenant)
    ensures var rows, rows' := s.db.rows, Next(s, step).db.rows;
            && (k in rows && rows[k].tenant == tenant <==> k in rows' && rows'[k].tenant == tenant)
            && (k in rows && rows[k].tenant == tenant ==> rows'[k] == rows[k])
  {
    assert ConnOk(s, s.conns[step.c]);
    hide LogRowOf, NextConn;
  }

  // ---------- One log row per committed access ----------

  function LogsOf(commits: seq<Call>): seq<LogRow> {
    if commits == [] then [] else LogsOf(commits[..|commits| - 1]) + LogRowOf(commits[|commits| - 1])
  }

  lemma LogsOfOne(commits: seq<Call>, call: Call)
    ensures LogsOf(commits + [call]) == LogsOf(commits) + LogRowOf(call)
  {
    assert (commits + [call])[..|commits|] == commits;
    hide LogRowOf;
  }

  lemma StepLogs(s: State, step: Step)
    requires Inv(s) && Enabled(s, step) && s.db.log == LogsOf(s.commits)
    ensures Next(s, step).db.log == LogsOf(Next(s, step).commits)
  {
    hide LogsOf, LogRowOf, NextConn, Current;
    if TakesEffect(step) {
      assert ConnOk(s, s.conns[step.c]);
      LogsOfOne(s.commits, s.conns[step.c].tx.call);
    }
  }

  /**
   * The access log is exactly one row per access whose COMMIT took effect, in that order, and none for the rest,
   * whatever the callers were told.
   */
  lemma {:induction false} OneLogRowPerCommittedAccess(s: State, steps: seq<Step>)
    requires Inv(s) && s.db.log == LogsOf(s.commits) && Possible(s, steps) && AllCareful(steps)
    ensures After(s, steps).db.log == LogsOf(After(s, steps).commits)
    decreases steps
  {
    if steps != [] {
      CarefulTail(steps);
      StepLogs(s, steps[0]);
      StepKeepsInv(s, steps[0]);
      hide Inv, Next, Enabled, LogsOf, AllCareful;
      OneLogRowPerCommittedAccess(Next(s, steps[0]), steps[1..]);
    }
  }

  // ---------- Non-interference ----------

  predicate IsOf(conn: Conn, tenant: string) {
    conn.InTx? && conn.tx.call.tenant == Some(tenant)
  }

  predicate StepOf(s: State, step: Step, tenant: string)
    requires Enabled(s, step)
  {
    if Takes(step) then step.call.tenant == Some(tenant) else IsOf(s.conns[step.c], tenant)
  }

  ghost predicate RowsAgree(rows: map<nat, Row>, rows': map<nat, Row>, tenant: string) {
    forall k ::
      && (k in rows && rows[k].tenant == tenant <==> k in rows' && rows'[k].tenant == tenant)
      && (k in rows && rows[k].tenant == tenant ==> rows'[k] == rows[k])
  }

  function LogFor(log: seq<LogRow>, tenant: string): seq<LogRow> {
    if log == [] then []
    else LogFor(log[..|log| - 1], tenant) + if log[|log| - 1].tenant == tenant then [log[|log| - 1]] else []
  }

  function FinishedFor(finished: seq<Finished>, tenant: string): seq<Finished> {
    if finished == [] then []
    else FinishedFor(finished[..|finished| - 1], tenant)
         + if finished[|finished| - 1].call.tenant == Some(tenant) then [finished[|finished| - 1]] else []
  }

  /** A connection in the full run, and the same connection in the run of one tenant alone. */
  ghost predicate ConnCovers(conn: Conn, conn': Conn, tenant: string) {
    && (IsOf(conn, tenant) || IsOf(conn', tenant) ==> conn == conn')
    && (!IsOf(conn, tenant) && !conn.Discarded? ==> conn'.Idle?)
  }

  /** For the tenant, the second state is the first without everybody else. */
  ghost predicate Covers(s: State, s': State, tenant: string) {
    && RowsAgree(s.db.rows, s'.db.rows, tenant)
    && LogFor(s.db.log, tenant) == LogFor(s'.db.log, tenant)
    && FinishedFor(s.finished, tenant) == FinishedFor(s'.finished, tenant)
    && s.conns.Keys == s'.conns.Keys
    && (forall c :: c in s.conns ==> ConnCovers(s.conns[c], s'.conns[c], tenant))
    && (forall k :: k in s'.owner ==> k in s.owner)
  }

  lemma {:induction false} LogForConcat(a: seq<LogRow>, b: seq<LogRow>, tenant: string)
    ensures LogFor(a + b, tenant) == LogFor(a, tenant) + LogFor(b, tenant)
  {
    if b == [] {
      assert a + b == a;
    } else {
      assert (a + b)[..|a + b| - 1] == a + b[..|b| - 1];
      LogForConcat(a, b[..|b| - 1], tenant);
    }
  }

  lemma FinishedForOne(finished: seq<Finished>, f: Finished, tenant: string)
    ensures FinishedFor(finished + [f], tenant) == FinishedFor(finished, tenant) + if f.call.tenant == Some(tenant) then [f] else []
  {
    assert (finished + [f])[..|finished|] == finished;
  }

  lemma LogForOther(call: Call, tenant: string)
    requires call.tenant != Some(tenant)
    ensures LogFor(LogRowOf(call), tenant) == []
  {
    if call.tenant.Some? {
      assert LogRowOf(call)[..0] == [];
    }
  }

  lemma CommitLogs(s: State, step: Step)
    requires Inv(s) && Enabled(s, step) && TakesEffect(step)
    ensures Next(s, step).db.log == s.db.log + LogRowOf(s.conns[step.c].tx.call)
  {
    assert ConnOk(s, s.conns[step.c]);
    hide Current, LogRowOf, NextConn;
  }

  lemma OthersRowsAgree(s: State, step: Step, tenant: string)
    requires Inv(s) && Enabled(s, step) && (s.conns[step.c].InTx? ==> s.conns[step.c].tx.call.tenant != Some(tenant))
    ensures RowsAgree(s.db.rows, Next(s, step).db.rows, tenant)
  {
    forall k {
      OtherTenantsRowsStay(s, step, tenant, k);
    }
    hide Inv, Enabled, Next;
  }

  lemma RowsAgreeOn(rows: map<nat, Row>, a: map<nat, Row>, b: map<nat, Row>, tenant: string)
    requires RowsAgree(rows, a, tenant) && RowsAgree(rows, b, tenant)
    ensures RowsAgree(a, b, tenant)
  {
  }

  lemma OtherCommit(s: State, s': State, step: Step, tenant: string)
    requires Inv(s) && Covers(s, s', tenant) && Enabled(s, step) && TakesEffect(step) && !IsOf(s.conns[step.c], tenant)
    ensures var s1 := Next(s, step);
            RowsAgree(s1.db.rows, s'.db.rows, tenant) && LogFor(s1.db.log, tenant) == LogFor(s'.db.log, tenant)
  {
    hide Inv, Next, RowsAgree, LogFor, FinishedFor, LogRowOf, ConnCovers;
    OthersRowsAgree(s, step, tenant);
    RowsAgreeOn(s.db.rows, Next(s, step).db.rows, s'.db.rows, tenant);
    var call := s.conns[step.c].tx.call;
    CommitLogs(s, step);
    LogForConcat(s.db.log, LogRowOf(call), tenant);
    LogForOther(call, tenant);
  }

  lemma NextConnIsOf(s: State, step: Step)
    requires Enabled(s, step)
    ensures var conn := NextConn(s, step);
            && (!Takes(step) && conn.InTx? ==> conn.tx.call == s.conns[step.c].tx.call)
            && (Takes(step) ==> conn.InTx? && conn.tx.call == step.call)
  {
    hide LogRowOf, Seen;
  }

  /** A step of anybody else changes nothing for the tenant. */
  lemma OtherStep(s: State, s': State, step: Step, tenant: string)
    requires Inv(s) && Covers(s, s', tenant) && Enabled(s, step) && !StepOf(s, step, tenant)
    ensures Covers(Next(s, step), s', tenant)
  {
    var s1 := Next(s, step);
    NextConnIsOf(s, step);
    if TakesEffect(step) {
      OtherCommit(s, s', step, tenant);
    }
    if Ends(step) {
      FinishedForOne(s.finished, FinishedOf(s.conns[step.c].tx), tenant);
    }
    StepKeepsOwner(s, step);
    hide NextConn, Inv, RowsAgree, LogFor, FinishedFor, Committed;
    assert ConnCovers(s.conns[step.c], s'.conns[step.c], tenant);
    assert ConnCovers(s1.conns[step.c], s'.conns[step.c], tenant);
    hide ConnCovers, Enabled, StepOf;
  }

  lemma CurrentAgrees(rows: map<nat, Row>, rows': map<nat, Row>, session: Session, tenant: string)
    requires RowsAgree(rows, rows', tenant)
    ensures RowsAgree(Current(rows, session), Current(rows', session), tenant)
  {
  }

  lemma SeenAgrees(rows: map<nat, Row>, rows': map<nat, Row>, session: Session, tenant: string)
    requires RowsAgree(rows, rows', tenant)
    ensures Seen(rows, session, Some(tenant)) == Seen(rows', session, Some(tenant))
  {
    CurrentAgrees(rows, rows', session, tenant);
    hide Current;
    var a, b := Seen(rows, session, Some(tenant)), Seen(rows', session, Some(tenant));
    assert forall k :: k in a <==> k in b;
    assert forall k :: k in a ==> a[k] == b[k];
  }

  lemma PerformAgrees(rows: map<nat, Row>, rows': map<nat, Row>, tx: Tx, drawn: nat, tenant: string)
    requires RowsAgree(rows, rows', tenant) && tx.session.tenant == Some(tenant)
    ensures Perform(rows, None, tx, drawn) == Perform(rows', None, tx, drawn)
  {
    SeenAgrees(rows, rows', tx.session, tenant);
    hide Seen, RowsAgree;
  }

  lemma OwnConn(s: State, s': State, step: Step, tenant: string)
    requires Inv(s) && Inv(s') && Covers(s, s', tenant) && Enabled(s, step) && StepOf(s, step, tenant)
    ensures Enabled(s', step)
    ensures NextConn(s, step) == NextConn(s', step)
    ensures !Takes(step) ==> s.conns[step.c] == s'.conns[step.c]
  {
    assert ConnCovers(s.conns[step.c], s'.conns[step.c], tenant);
    assert ConnOk(s, s.conns[step.c]) && ConnOk(s', s'.conns[step.c]);
    if step.Act? {
      PerformAgrees(s.db.rows, s'.db.rows, s.conns[step.c].tx, step.drawn, tenant);
    }
    hide Perform, RowsAgree, LogFor, FinishedFor, LogRowOf;
  }

  lemma OwnCommit(s: State, s': State, session: Session, tenant: string)
    requires RowsAgree(s.db.rows, s'.db.rows, tenant) && LogFor(s.db.log, tenant) == LogFor(s'.db.log, tenant)
    ensures RowsAgree(Committed(s.db, session).rows, Committed(s'.db, session).rows, tenant)
    ensures LogFor(Committed(s.db, session).log, tenant) == LogFor(Committed(s'.db, session).log, tenant)
  {
    CurrentAgrees(s.db.rows, s'.db.rows, session, tenant);
    LogForConcat(s.db.log, session.log, tenant);
    LogForConcat(s'.db.log, session.log, tenant);
    hide Current, LogFor, RowsAgree;
  }

  lemma OwnStep(s: State, s': State, step: Step, tenant: string)
    requires Inv(s) && Inv(s') && Covers(s, s', tenant) && Enabled(s, step) && StepOf(s, step, tenant)
    ensures Enabled(s', step) && Covers(Next(s, step), Next(s', step), tenant)
  {
    OwnConn(s, s', step, tenant);
    var s1, s1' := Next(s, step), Next(s', step);
    if TakesEffect(step) {
      OwnCommit(s, s', s.conns[step.c].tx.session, tenant);
    }
    if Ends(step) {
      FinishedForOne(s.finished, FinishedOf(s.conns[step.c].tx), tenant);
      FinishedForOne(s'.finished, FinishedOf(s.conns[step.c].tx), tenant);
    }
    NextConnIsOf(s, step);
    hide NextConn, Inv, RowsAgree, LogFor, FinishedFor, Committed;
    assert ConnCovers(s1.conns[step.c], s1'.conns[step.c], tenant);
    hide ConnCovers, Enabled, StepOf;
  }

  /** The tenant's own steps of a run. */
  function OwnSteps(s: State, steps: seq<Step>, tenant: string): seq<Step>
    requires Possible(s, steps)
    decreases steps
  {
    if steps == [] then []
    else (if StepOf(s, steps[0], tenant) then [steps[0]] else []) + OwnSteps(Next(s, steps[0]), steps[1..], tenant)
  }

  /** Whatever everybody else does in between, the tenant's own steps are possible alone and give it the same. */
  lemma {:induction false} OwnStepsAlone(s: State, s': State, steps: seq<Step>, tenant: string)
    requires Inv(s) && Inv(s') && Covers(s, s', tenant) && Possible(s, steps) && AllCareful(steps)
    ensures Possible(s', OwnSteps(s, steps, tenant))
    ensures Covers(After(s, steps), After(s', OwnSteps(s, steps, tenant)), tenant)
    decreases steps
  {
    if steps != [] {
      var s1 := Next(s, steps[0]);
      var rest := OwnSteps(s1, steps[1..], tenant);
      CarefulTail(steps);
      hide AllCareful;
      StepKeepsInv(s, steps[0]);
      if StepOf(s, steps[0], tenant) {
        OwnStep(s, s', steps[0], tenant);
        StepKeepsInv(s', steps[0]);
        hide Inv, Covers, StepOf, Enabled, Next;
        OwnStepsAlone(s1, Next(s', steps[0]), steps[1..], tenant);
        assert ([steps[0]] + rest)[0] == steps[0] && ([steps[0]] + rest)[1..] == rest;
      } else {
        OtherStep(s, s', steps[0], tenant);
        hide Inv, Covers, StepOf, Enabled, Next;
        OwnStepsAlone(s1, s', steps[1..], tenant);
        assert [] + rest == rest;
      }
    }
  }

  /** The tenant's part of a state: its rows, log and results, and its transactions; every other connection idle. */
  function Alone(s: State, tenant: string): State {
    State(Db(map k | k in s.db.rows && s.db.rows[k].tenant == tenant :: s.db.rows[k], LogFor(s.db.log, tenant)),
          map c | c in s.conns :: if IsOf(s.conns[c], tenant) then s.conns[c] else Idle(None, None),
          FinishedFor(s.finished, tenant), [],
          map k | k in s.owner && s.owner[k] == tenant :: s.owner[k])
  }

  lemma {:induction false} LogForTwice(log: seq<LogRow>, tenant: string)
    ensures LogFor(LogFor(log, tenant), tenant) == LogFor(log, tenant)
  {
    if log != [] {
      var front, last := log[..|log| - 1], [log[|log| - 1]];
      LogForTwice(front, tenant);
      LogForConcat(LogFor(front, tenant), last, tenant);
      assert last[..0] == [] && LogFor(last, tenant) == if last[0].tenant == tenant then last else [];
      assert LogFor(front, tenant) + [] == LogFor(front, tenant);
    }
  }

  lemma {:induction false} FinishedForTwice(finished: seq<Finished>, tenant: string)
    ensures FinishedFor(FinishedFor(finished, tenant), tenant) == FinishedFor(finished, tenant)
  {
    if finished != [] {
      var front := FinishedFor(finished[..|finished| - 1], tenant);
      FinishedForTwice(finished[..|finished| - 1], tenant);
      FinishedForOne(front, finished[|finished| - 1], tenant);
      assert front + [] == front;
    }
  }

  lemma AloneCovers(s: State, tenant: string)
    requires Inv(s)
    ensures Inv(Alone(s, tenant)) && Covers(s, Alone(s, tenant), tenant)
  {
    var s' := Alone(s, tenant);
    LogForTwice(s.db.log, tenant);
    FinishedForTwice(s.finished, tenant);
    assert s.conns.Keys == s'.conns.Keys;
    forall c | c in s'.conns ensures ConnOk(s', s'.conns[c]) {
      assert ConnOk(s, s.conns[c]);
    }
    hide LogFor, FinishedFor, LogRowOf, ConnOk;
  }

  /**
   * Two-run non-interference: two runs that start alike for a tenant and contain the same steps of that
   * tenant, whatever all others hold and do, give it the same answers to every statement, the same results,
   * rows and log.
   */
  lemma NonInterference(s1: State, steps1: seq<Step>, s2: State, steps2: seq<Step>, tenant: string)
    requires Inv(s1) && Inv(s2) && Possible(s1, steps1) && Possible(s2, steps2) && AllCareful(steps1) && AllCareful(steps2)
    requires Alone(s1, tenant) == Alone(s2, tenant) && OwnSteps(s1, steps1, tenant) == OwnSteps(s2, steps2, tenant)
    ensures var t1, t2 := After(s1, steps1), After(s2, steps2);
            && FinishedFor(t1.finished, tenant) == FinishedFor(t2.finished, tenant)
            && LogFor(t1.db.log, tenant) == LogFor(t2.db.log, tenant)
            && RowsAgree(t1.db.rows, t2.db.rows, tenant)
            && forall c :: c in t1.conns && c in t2.conns && IsOf(t1.conns[c], tenant) ==> t2.conns[c] == t1.conns[c]
  {
    AloneCovers(s1, tenant);
    AloneCovers(s2, tenant);
    var alone := Alone(s1, tenant);
    OwnStepsAlone(s1, alone, steps1, tenant);
    OwnStepsAlone(s2, alone, steps2, tenant);
    var t1, t2 := After(s1, steps1), After(s2, steps2);
    var t := After(alone, OwnSteps(s1, steps1, tenant));
    hide After, OwnSteps, Possible, Inv, Alone, LogFor, FinishedFor;
    RowsAgreeVia(t1.db.rows, t2.db.rows, t.db.rows, tenant);
    forall c | c in t1.conns && c in t2.conns && IsOf(t1.conns[c], tenant) ensures t2.conns[c] == t1.conns[c] {
      assert ConnCovers(t1.conns[c], t.conns[c], tenant) && ConnCovers(t2.conns[c], t.conns[c], tenant);
    }
  }

  lemma RowsAgreeVia(a: map<nat, Row>, b: map<nat, Row>, c: map<nat, Row>, tenant: string)
    requires RowsAgree(a, c, tenant) && RowsAgree(b, c, tenant)
    ensures RowsAgree(a, b, tenant)
  {
  }

  // ---------- One call is a run of steps ----------

  /** A program's statements, one after another, with the row ids drawn for them, until it returns or throws. */
  function Drive(rows: map<nat, Row>, base: Option<string>, tx: Tx, draws: seq<nat>): Tx
    decreases |draws|
  {
    if draws == [] || !tx.phase.Working? then tx else Drive(rows, base, Perform(rows, base, tx, draws[0]), draws[1..])
  }

  function Start(call: Call, session: Session): Tx {
    Tx(call, Working, session, [], false)
  }

  /** The program of a call as a callback of `transaction`. */
  function Driven(call: Call, draws: seq<nat>): Callback<string> {
    (db: Db, base: Option<string>, s: Session) =>
      var tx := Drive(db.rows, base, Start(call, s), draws);
      (tx.session, Answer(tx))
  }

  function Answer(tx: Tx): Result<string, string> {
    match tx.phase
    case Returning(v) => Ok(v)
    case Failing(e) => Err(e)
    case _ => Err("unfinished")
  }

  function CallOf(a: Access, program: Program): Call {
    Call(Some(a.tenant), Local, a.actor, a.reason, program)
  }

  function AccessSession(a: Access): Session {
    FRESH_SESSION.(tenant := Some(a.tenant), log := [LogRow(a.tenant, a.actor, a.reason)])
  }

  // The steps of one call.

  function ActSteps(c: nat, rows: map<nat, Row>, base: Option<string>, tx: Tx, draws: seq<nat>): seq<Step>
    decreases |draws|
  {
    if draws == [] || !tx.phase.Working? then []
    else [Act(c, draws[0])] + ActSteps(c, rows, base, Perform(rows, base, tx, draws[0]), draws[1..])
  }

  function UndoStep(c: nat, faults: Faults): Step {
    match faults.rollback
    case None => Rollback(c)
    case Some(fault) => RollbackFails(c, fault.reached, fault.kept)
  }

  function CloseSteps(c: nat, phase: Phase, faults: Faults): seq<Step> {
    if phase.Failing? then [UndoStep(c, faults)]
    else match faults.commit
         case None => [Commit(c)]
         case Some(fault) => [CommitFails(c, fault.error, fault.applied), UndoStep(c, faults)]
  }

  function AccessSteps(s: State, c: nat, a: Access, program: Program, draws: seq<nat>, faults: Faults): seq<Step> {
    var call := CallOf(a, program);
    if faults.begin.Some? then [BeginFails(c, call, faults.begin.value), UndoStep(c, faults)]
    else
      var tx := Start(call, AccessSession(a));
      [Begin(c, call), SetTenant(c), LogAccess(c)]
      + (ActSteps(c, s.db.rows, None, tx, draws) + CloseSteps(c, Drive(s.db.rows, None, tx, draws).phase, faults))
  }

  /** Ids nobody has had, no two alike. */
  ghost predicate Fresh(draws: seq<nat>, owner: map<nat, string>) {
    && (forall i :: 0 <= i < |draws| ==> draws[i] !in owner)
    && (forall i, j :: 0 <= i < j < |draws| ==> draws[i] != draws[j])
  }

  /** Everything but the connection's transaction is as before. */
  ghost predicate Beside(s: State, s': State, c: nat, conn: Conn) {
    s'.db == s.db && s'.finished == s.finished && s'.commits == s.commits && s'.conns == s.conns[c := conn]
  }

  lemma {:induction false} RunsOn(s: State, a: seq<Step>, b: seq<Step>)
    requires Possible(s, a) && Possible(After(s, a), b)
    ensures Possible(s, a + b) && After(s, a + b) == After(After(s, a), b)
    decreases a
  {
    if a == [] {
      assert a + b == b;
    } else {
      hide Enabled, Next;
      assert (a + b)[0] == a[0] && (a + b)[1..] == a[1..] + b;
      RunsOn(Next(s, a[0]), a[1..], b);
    }
  }

  lemma OneStep(s: State, step: Step)
    requires Enabled(s, step)
    ensures Possible(s, [step]) && After(s, [step]) == Next(s, step)
  {
    hide Enabled, Next;
    assert [step][1..] == [];
    Prepend(s, [step]);
  }

  lemma {:induction false} ActsRun(s: State, c: nat, base: Option<string>, tx: Tx, draws: seq<nat>)
    requires c in s.conns && s.conns[c] == InTx(base, tx) && Fresh(draws, s.owner)
    ensures var steps := ActSteps(c, s.db.rows, base, tx, draws);
            Possible(s, steps) && Beside(s, After(s, steps), c, InTx(base, Drive(s.db.rows, base, tx, draws)))
    decreases |draws|
  {
    if draws == [] || !tx.phase.Working? {
      assert s.conns[c := InTx(base, tx)] == s.conns;
    } else {
      var tx' := Perform(s.db.rows, base, tx, draws[0]);
      var step := Act(c, draws[0]);
      var s' := Next(s, step);
      ActStep(s, c, base, tx, draws);
      hide Next, Enabled, Perform;
      ActsRun(s', c, base, tx', draws[1..]);
      var rest := ActSteps(c, s.db.rows, base, tx', draws[1..]);
      assert ([step] + rest)[1..] == rest;
      Prepend(s, [step] + rest);
    }
  }

  lemma ActStep(s: State, c: nat, base: Option<string>, tx: Tx, draws: seq<nat>)
    requires c in s.conns && s.conns[c] == InTx(base, tx) && Fresh(draws, s.owner) && draws != [] && tx.phase.Working?
    ensures var step := Act(c, draws[0]);
            && Enabled(s, step) && Beside(s, Next(s, step), c, InTx(base, Perform(s.db.rows, base, tx, draws[0])))
            && Fresh(draws[1..], Next(s, step).owner)
  {
    hide Perform;
  }

  /** A transaction that has not been aborted returns unaborted, and its program leaves settings and log alone. */
  lemma {:induction false} DriveKeeps(rows: map<nat, Row>, base: Option<string>, tx: Tx, draws: seq<nat>)
    ensures var t := Drive(rows, base, tx, draws);
            && t.call == tx.call && t.closed == tx.closed
            && t.session.log == tx.session.log && t.session.tenant == tx.session.tenant && t.session.lasting == tx.session.lasting
            && (tx.phase.Working? && !tx.session.aborted && !t.phase.Failing? ==> !t.session.aborted)
            && (tx.phase.Working? ==> t.phase.Working? || t.phase.Returning? || t.phase.Failing?)
    decreases |draws|
  {
    if draws != [] && tx.phase.Working? {
      var tx' := Perform(rows, base, tx, draws[0]);
      PerformKeeps(rows, base, tx, draws[0]);
      hide Perform;
      DriveKeeps(rows, base, tx', draws[1..]);
    }
  }

  lemma PerformKeeps(rows: map<nat, Row>, base: Option<string>, tx: Tx, drawn: nat)
    ensures var t := Perform(rows, base, tx, drawn);
            && t.call == tx.call && t.closed == tx.closed
            && t.session.log == tx.session.log && t.session.tenant == tx.session.tenant && t.session.lasting == tx.session.lasting
            && (tx.phase.Working? ==> t.phase.Working? || t.phase.Returning? || t.phase.Failing?)
            && (tx.phase.Working? && !tx.session.aborted && !t.phase.Failing? ==> !t.session.aborted)
  {
    hide Seen;
  }

  /** BEGIN, the setting and the log row. */
  lemma AccessOpens(s: State, c: nat, a: Access, program: Program)
    requires c in s.conns && s.conns[c] == Idle(None, None)
    ensures var call := CallOf(a, program); var steps := [Begin(c, call), SetTenant(c), LogAccess(c)];
            && Possible(s, steps) && Beside(s, After(s, steps), c, InTx(None, Start(call, AccessSession(a))))
            && After(s, steps).owner == s.owner
  {
    var call := CallOf(a, program);
    var steps := [Begin(c, call), SetTenant(c), LogAccess(c)];
    var s1 := Next(s, steps[0]);
    assert s1 == s.(conns := s.conns[c := InTx(None, Tx(call, Began, FRESH_SESSION, [], false))]);
    var s2 := Next(s1, steps[1]);
    assert s2 == s.(conns := s.conns[c := InTx(None, Tx(call, TenantSet, FRESH_SESSION.(tenant := Some(a.tenant)), [], false))]);
    assert [] + LogRowOf(call) == [LogRow(a.tenant, a.actor, a.reason)];
    var s3 := Next(s2, steps[2]);
    assert s3 == s.(conns := s.conns[c := InTx(None, Start(call, AccessSession(a)))]);
    hide Next, Enabled;
    Chain3(s, steps, s1, s2);
  }

  /** The state a call leaves: its database, its connection, and one call finished with its result. */
  ghost predicate Leaves(s: State, s': State, c: nat, call: Call, seen: seq<Obs>, o: Outcome<string>) {
    && s'.db == o.db && s'.conns == s.conns[c := if o.discarded then Discarded else Idle(o.base, o.left)]
    && s'.finished == s.finished + [Finished(call, seen, o.result)]
    && s'.commits == s.commits + if o.committed then [call] else []
  }

  /** The catch block. */
  lemma UndoRuns(s: State, c: nat, base: Option<string>, tx: Tx, committed: bool, faults: Faults)
    requires c in s.conns && s.conns[c] == InTx(base, tx) && tx.phase.Failing?
    ensures var steps := [UndoStep(c, faults)];
            var o := Abandon(Err(tx.phase.error), committed, s.db, base, if tx.closed then None else Some(tx.session), faults);
            && Possible(s, steps)
            && After(s, steps) == State(o.db, s.conns[c := if o.discarded then Discarded else Idle(o.base, o.left)],
                                        s.finished + [Finished(tx.call, tx.seen, o.result)], s.commits, s.owner)
  {
    OneStep(s, UndoStep(c, faults));
    hide Possible, After, Committed;
  }

  /** The end of a call, from where its program has returned or thrown. */
  function Closed(db: Db, base: Option<string>, tx: Tx, faults: Faults): Outcome<string> {
    if tx.phase.Failing? then Abandon(Answer(tx), false, db, base, Some(tx.session), faults)
    else match faults.commit
         case None => Outcome(Answer(tx), true, Committed(db, tx.session), AfterCommit(base, tx.session), None, false)
         case Some(fault) =>
           if fault.applied then Abandon(Err(fault.error), true, Committed(db, tx.session), AfterCommit(base, tx.session), None, faults)
           else Abandon(Err(fault.error), false, db, base, Some(tx.session), faults)
  }

  lemma CloseRuns(s: State, c: nat, base: Option<string>, tx: Tx, faults: Faults)
    requires c in s.conns && s.conns[c] == InTx(base, tx) && (tx.phase.Failing? || tx.phase.Returning?) && !tx.closed
    ensures var steps := CloseSteps(c, tx.phase, faults);
            Possible(s, steps) && Leaves(s, After(s, steps), c, tx.call, tx.seen, Closed(s.db, base, tx, faults))
  {
    hide Committed, Abandon, UndoStep, Possible, After;
    if tx.phase.Failing? {
      UndoRuns(s, c, base, tx, false, faults);
      AbandonKeeps(Answer(tx), false, s.db, base, Some(tx.session), faults);
    } else if faults.commit.None? {
      OneStep(s, Commit(c));
    } else {
      CommitFailsRuns(s, c, base, tx, faults);
    }
  }

  lemma AbandonKeeps(result: Result<string, string>, committed: bool, db: Db, base: Option<string>, open: Option<Session>, faults: Faults)
    ensures var o := Abandon(result, committed, db, base, open, faults);
            o.result == result && o.committed == committed && o.db == db && o.base == base
  {
  }

  lemma CommitFailsRuns(s: State, c: nat, base: Option<string>, tx: Tx, faults: Faults)
    requires c in s.conns && s.conns[c] == InTx(base, tx) && tx.phase.Returning? && !tx.closed && faults.commit.Some?
    ensures var steps := CloseSteps(c, tx.phase, faults);
            Possible(s, steps) && Leaves(s, After(s, steps), c, tx.call, tx.seen, Closed(s.db, base, tx, faults))
  {
    hide Committed, Abandon, UndoStep, Possible, After;
    var fault := faults.commit.value;
    var step := CommitFails(c, fault.error, fault.applied);
    var s' := Next(s, step);
    var conn := NextConn(s, step);
    UndoRuns(s', c, conn.base, conn.tx, fault.applied, faults);
    AbandonKeeps(Err(fault.error), fault.applied, s'.db, conn.base, if conn.tx.closed then None else Some(conn.tx.session), faults);
    assert s'.conns[c := Idle(None, None)] == s.conns[c := Idle(None, None)];
    var last := [UndoStep(c, faults)];
    var steps := [step] + last;
    assert steps == CloseSteps(c, tx.phase, faults) && steps[1..] == last;
    Prepend(s, steps);
    hide AfterCommit;
  }

  lemma DrivenKeepsLog(call: Call, draws: seq<nat>)
    ensures KeepsLog(Driven(call, draws))
  {
    forall db: Db, base, s: Session
      ensures Driven(call, draws)(db, base, s).0.log == s.log && Driven(call, draws)(db, base, s).0.tenant == s.tenant
              && Driven(call, draws)(db, base, s).0.lasting == s.lasting
    {
      DriveKeeps(db.rows, base, Start(call, s), draws);
      hide Drive;
    }
  }

  /** A call whose program ends, without a failing BEGIN, comes to the same end as its steps. */
  lemma ClosedIsRun(db: Db, a: Access, program: Program, draws: seq<nat>, faults: Faults)
    requires faults.begin.None? && !Drive(db.rows, None, Start(CallOf(a, program), AccessSession(a)), draws).phase.Working?
    ensures var tx := Drive(db.rows, None, Start(CallOf(a, program), AccessSession(a)), draws);
            && (tx.phase.Failing? || tx.phase.Returning?) && !tx.closed && tx.call == CallOf(a, program)
            && RunTransaction(db, None, None, WithTenant(a, Driven(CallOf(a, program), draws)), faults) == Closed(db, None, tx, faults)
  {
    DriveKeeps(db.rows, None, Start(CallOf(a, program), AccessSession(a)), draws);
    assert [] + [LogRow(a.tenant, a.actor, a.reason)] == [LogRow(a.tenant, a.actor, a.reason)];
    hide Drive, Committed, Abandon, AfterCommit;
  }

  /**
   * A call of `withTenantAccess`, whatever fails, is a run of the pool: its steps are possible one after another from
   * any state where its connection is clean, whatever all other connections are doing, and they lead to the database,
   * the connection and the result that the call gives.
   */
  lemma AccessIsARun(s: State, c: nat, a: Access, program: Program, draws: seq<nat>, faults: Faults)
    requires c in s.conns && s.conns[c] == Idle(None, None) && Fresh(draws, s.owner)
    requires !Drive(s.db.rows, None, Start(CallOf(a, program), AccessSession(a)), draws).phase.Working?
    ensures KeepsLog(Driven(CallOf(a, program), draws))
    ensures var tx := Drive(s.db.rows, None, Start(CallOf(a, program), AccessSession(a)), draws);
            var steps := AccessSteps(s, c, a, program, draws, faults);
            var o := RunTransaction(s.db, None, None, WithTenant(a, Driven(CallOf(a, program), draws)), faults);
            Possible(s, steps)
            && Leaves(s, After(s, steps), c, CallOf(a, program), if faults.begin.Some? then [] else tx.seen, o)
  {
    hide *;
    DrivenKeepsLog(CallOf(a, program), draws);
    if faults.begin.Some? {
      BeginFailsRuns(s, c, a, program, draws, faults);
    } else {
      AccessRuns(s, c, a, program, draws, faults);
    }
  }

  lemma BeginFailsRuns(s: State, c: nat, a: Access, program: Program, draws: seq<nat>, faults: Faults)
    requires c in s.conns && s.conns[c] == Idle(None, None) && faults.begin.Some?
    ensures var steps := AccessSteps(s, c, a, program, draws, faults);
            var o := RunTransaction(s.db, None, None, WithTenant(a, Driven(CallOf(a, program), draws)), faults);
            Possible(s, steps) && Leaves(s, After(s, steps), c, CallOf(a, program), [], o)
  {
    var call := CallOf(a, program);
    var step := BeginFails(c, call, faults.begin.value);
    var s' := Next(s, step);
    var tx := Tx(call, Failing(faults.begin.value), FRESH_SESSION, [], true);
    assert s' == s.(conns := s.conns[c := InTx(None, tx)]);
    var last := [UndoStep(c, faults)];
    hide Next, Enabled, Drive, UndoStep, Possible, After;
    UndoRuns(s', c, None, tx, false, faults);
    AbandonKeeps(Err(faults.begin.value), false, s.db, None, None, faults);
    hide Abandon;
    assert Enabled(s, step) by {
      BeginEnabled(s, c, call, faults.begin.value);
    }
    assert ([step] + last)[1..] == last;
    Prepend(s, [step] + last);
    assert s'.conns[c := Idle(None, None)] == s.conns[c := Idle(None, None)];
  }

  lemma BeginEnabled(s: State, c: nat, call: Call, error: string)
    requires c in s.conns && s.conns[c].Idle?
    ensures Enabled(s, BeginFails(c, call, error))
  {
  }

  lemma AccessRuns(s: State, c: nat, a: Access, program: Program, draws: seq<nat>, faults: Faults)
    requires c in s.conns && s.conns[c] == Idle(None, None) && Fresh(draws, s.owner) && faults.begin.None?
    requires !Drive(s.db.rows, None, Start(CallOf(a, program), AccessSession(a)), draws).phase.Working?
    ensures var tx := Drive(s.db.rows, None, Start(CallOf(a, program), AccessSession(a)), draws);
            var steps := AccessSteps(s, c, a, program, draws, faults);
            var o := RunTransaction(s.db, None, None, WithTenant(a, Driven(CallOf(a, program), draws)), faults);
            Possible(s, steps) && Leaves(s, After(s, steps), c, CallOf(a, program), tx.seen, o)
  {
    var call := CallOf(a, program);
    var begun := Start(call, AccessSession(a));
    var tx := Drive(s.db.rows, None, begun, draws);
    hide Drive, Next, Enabled, Possible, After, Fresh, CloseSteps, ActSteps, Closed, RunTransaction, WithTenant, Driven, CallOf, AccessSession, Start;
    var opening := [Begin(c, call), SetTenant(c), LogAccess(c)];
    AccessOpens(s, c, a, program);
    var s1 := After(s, opening);
    var acts := ActSteps(c, s.db.rows, None, begun, draws);
    ActsRun(s1, c, None, begun, draws);
    var s2 := After(s1, acts);
    ClosedIsRun(s.db, a, program, draws, faults);
    CloseRuns(s2, c, None, tx, faults);
    var closing := CloseSteps(c, tx.phase, faults);
    RunsOn(s1, acts, closing);
    RunsOn(s, opening, acts + closing);
    var o := Closed(s.db, None, tx, faults);
    var conn := if o.discarded then Discarded else Idle(o.base, o.left);
    assert s2.conns[c := conn] == s.conns[c := conn];
  }

  // ---------- What a statement does ----------

  lemma CurrentIs(rows: map<nat, Row>, s: Session, k: nat)
    ensures k in Current(rows, s) <==> if k in s.writes then s.writes[k].Some? else k in rows
    ensures k in Current(rows, s) ==> Current(rows, s)[k] == if k in s.writes then s.writes[k].value else rows[k]
  {
  }

  /** A statement sees the row of an id when the id has one and the row is the tenant's in force. */
  lemma SeenIs(rows: map<nat, Row>, s: Session, setting: Option<string>, k: nat)
    ensures k in Seen(rows, s, setting) <==> k in Current(rows, s) && setting == Some(Current(rows, s)[k].tenant)
    ensures k in Seen(rows, s, setting) ==> Seen(rows, s, setting)[k] == Current(rows, s)[k]
  {
    hide Current;
  }

  ghost predicate SameAt(before: map<nat, Row>, after: map<nat, Row>, k: nat) {
    (k in before <==> k in after) && (k in before ==> before[k] == after[k])
  }

  /** An insert: the row is under the drawn id from then on, for the transaction and after its COMMIT; no other id changes. */
  lemma InsertDoes(db: Db, base: Option<string>, tx: Tx, drawn: nat, row: Row, k: nat)
    requires tx.phase.Working? && tx.call.program(tx.seen) == Insert(row)
    ensures var t := Perform(db.rows, base, tx, drawn);
            var before, after := Current(db.rows, tx.session), Current(db.rows, t.session);
            && Committed(db, t.session).rows == after
            && if Setting(base, tx.session) != Some(row.tenant) then IsRefused(tx, t) && SameAt(before, after, k)
               else t.phase.Working? && t.seen == tx.seen + [Inserted(drawn)] && if k == drawn then k in after && after[k] == row else SameAt(before, after, k)
  {
    var t := Perform(db.rows, base, tx, drawn);
    CurrentIs(db.rows, tx.session, k);
    CurrentIs(db.rows, t.session, k);
    hide Current, Seen, Setting;
  }

  /** An update: only a row the tenant sees, and only to a row of its own; no other id changes. */
  lemma UpdateDoes(db: Db, base: Option<string>, tx: Tx, drawn: nat, key: nat, row: Row, k: nat)
    requires tx.phase.Working? && tx.call.program(tx.seen) == Update(key, row)
    ensures var t := Perform(db.rows, base, tx, drawn);
            var setting := Setting(base, tx.session);
            var before, after := Current(db.rows, tx.session), Current(db.rows, t.session);
            && Committed(db, t.session).rows == after
            && if !(key in before && setting == Some(before[key].tenant)) then t.phase.Working? && t.seen == tx.seen + [Affected(0)] && SameAt(before, after, k)
               else if setting != Some(row.tenant) then IsRefused(tx, t) && SameAt(before, after, k)
               else t.phase.Working? && t.seen == tx.seen + [Affected(1)] && if k == key then k in after && after[k] == row else SameAt(before, after, k)
  {
    var t := Perform(db.rows, base, tx, drawn);
    CurrentIs(db.rows, tx.session, k);
    CurrentIs(db.rows, t.session, k);
    SeenIs(db.rows, tx.session, Setting(base, tx.session), key);
    hide Current, Seen, Setting;
  }

  /** A delete: only a row the tenant sees, which is gone from then on; no other id changes. */
  lemma DeleteDoes(db: Db, base: Option<string>, tx: Tx, drawn: nat, key: nat, k: nat)
    requires tx.phase.Working? && tx.call.program(tx.seen) == Delete(key)
    ensures var t := Perform(db.rows, base, tx, drawn);
            var setting := Setting(base, tx.session);
            var before, after := Current(db.rows, tx.session), Current(db.rows, t.session);
            && Committed(db, t.session).rows == after
            && if !(key in before && setting == Some(before[key].tenant)) then t.phase.Working? && t.seen == tx.seen + [Affected(0)] && SameAt(before, after, k)
               else t.phase.Working? && t.seen == tx.seen + [Affected(1)] && if k == key then k !in after else SameAt(before, after, k)
  {
    var t := Perform(db.rows, base, tx, drawn);
    CurrentIs(db.rows, tx.session, k);
    CurrentIs(db.rows, t.session, k);
    SeenIs(db.rows, tx.session, Setting(base, tx.session), key);
    hide Current, Seen, Setting;
  }

  /** Refused by the row policy: the transaction is aborted and the callback gets the database's error. */
  ghost predicate IsRefused(tx: Tx, t: Tx) {
    t.phase.Failing? && t.session == tx.session.(aborted := true) && t.seen == tx.seen && t.call == tx.call
  }
}
