/** The state a tenant-filtered ORM session moves through, one step at a time.

    A row belongs to a model; the rows of scoped models carry the tenant that owns them.
    The session's own copies live in `loaded` (its identity map) and `pending`; `base` is
    the last committed database, `db` the database inside the open transaction. */
module TenantState {
  import opened Options
  import opened Uuids

  type TenantId = Uuid
  type RowId = Uuid
  type Data = string

  datatype Model = Model(name: string, scoped: bool)

  datatype Row = Row(model: Model, tenant: TenantId, data: Data)

  type Database = map<RowId, Row>

  // `session.info`; None is an absent key.
  datatype Info = Info(acting: Option<TenantId>, resolved: Option<bool>, requestScoped: bool)
  {
    predicate Resolved() { resolved == Some(true) }
  }

  // The entities a statement names, and the rows it selects.
  datatype Statement = Statement(names: seq<Model>, matches: (RowId, Row) -> bool)

  // A statement that passed the guard, with the scope it ran under.
  datatype Executed = Executed(names: seq<Model>, info: Info)

  datatype State = State(
    info: Info,
    db: Database, base: Database,
    loaded: Database, pending: Database, dirty: set<RowId>, deleted: set<RowId>,
    log: seq<Executed>)

  datatype Error =
    | TenantScopeNotResolved(model: Model)
    | CrossTenantWrite
    | Integrity
    | Stale

  datatype Outcome = Done | Rows(rows: Database) | Raised(error: Error)

  datatype Action =
    | SetActing(tenant: TenantId)
    | UseGlobal
    | Select(statement: Statement)
    | Aggregate(statement: Statement)
    | Get(model: Model, id: RowId)
    | Add(id: RowId, row: Row)
    | SetData(id: RowId, data: Data)
    | SetTenant(id: RowId, tenant: TenantId)
    | Delete(id: RowId)
    | Flush
    | Commit
    | Rollback
    | BulkSetData(statement: Statement, data: Data)
    | BulkSetTenant(statement: Statement, tenant: TenantId)
    | BulkDelete(statement: Statement)

  // ---------------------------------------------------------------------------
  // The filter
  // ---------------------------------------------------------------------------

  // Whether the loader criteria of an acting tenant let a row through.
  predicate Visible(acting: Option<TenantId>, row: Row) {
    acting.None? || !row.model.scoped || row.tenant == acting.value
  }

  function FirstScoped(names: seq<Model>): Option<Model> {
    if names == [] then None
    else if names[0].scoped then Some(names[0])
    else FirstScoped(names[1..])
  }

  // The fail-closed guard: None lets the statement run.
  function Guard(info: Info, names: seq<Model>): Option<Error> {
    if info.requestScoped && !info.Resolved() then
      match FirstScoped(names)
      case None => None
      case Some(model) => Some(TenantScopeNotResolved(model))
    else None
  }

  function Matching(s: State, q: Statement): Database {
    map id | id in s.db && q.matches(id, s.db[id]) && Visible(s.info.acting, s.db[id]) :: s.db[id]
  }

  function Logged(s: State, names: seq<Model>): State {
    s.(log := s.log + [Executed(names, s.info)])
  }

  // An object already in the identity map is returned as the session holds it.
  function SelectRows(s: State, q: Statement): (State, Outcome) {
    match Guard(s.info, q.names)
    case Some(error) => (s, Raised(error))
    case None =>
      var found := Matching(s, q);
      var objects := map id | id in found :: if id in s.loaded then s.loaded[id] else found[id];
      (Logged(s, q.names).(loaded := s.loaded + objects), Rows(objects))
  }

  function AggregateRows(s: State, q: Statement): (State, Outcome) {
    match Guard(s.info, q.names)
    case Some(error) => (s, Raised(error))
    case None => (Logged(s, q.names), Rows(Matching(s, q)))
  }

  function ById(model: Model, id: RowId): (RowId, Row) -> bool {
    (i: RowId, row: Row) => i == id && row.model == model
  }

  function GetRow(s: State, model: Model, id: RowId): (State, Outcome) {
    if id in s.loaded && s.loaded[id].model == model then (s, Rows(map[id := s.loaded[id]]))
    else SelectRows(s, Statement([model], ById(model, id)))
  }

  // ---------------------------------------------------------------------------
  // The flush
  // ---------------------------------------------------------------------------

  function Stamp(tenant: TenantId, row: Row): Row {
    if row.model.scoped then row.(tenant := tenant) else row
  }

  function Stamped(acting: Option<TenantId>, pending: Database): Database {
    match acting
    case None => pending
    case Some(tenant) => map id | id in pending :: Stamp(tenant, pending[id])
  }

  // The changed objects a flush writes: a deleted one is no longer dirty.
  function Writes(s: State): Database {
    map id | id in s.loaded && id in s.dirty && id !in s.deleted :: s.loaded[id]
  }

  // All a flush sends: the new objects and the changed ones.
  function Pushed(s: State): Database { s.pending + Writes(s) }

  predicate ForeignWrite(s: State) {
    exists id :: id in Writes(s) && !Visible(s.info.acting, Writes(s)[id])
  }

  // The open transaction is lost, and the session forgets its objects.
  function Rolledback(s: State): State {
    s.(db := s.base, loaded := map[], pending := map[], dirty := {}, deleted := {})
  }

  predicate Collides(s: State) {
    exists id :: id in s.pending && id in s.db
  }

  predicate LostRow(s: State) {
    exists id :: id in Writes(s) && id !in s.db
  }

  // The database work of a flush, once the listener has let it through.
  function WriteOut(s: State): (State, Outcome) {
    if Collides(s) then (Rolledback(s), Raised(Integrity))
    else if LostRow(s) then (Rolledback(s), Raised(Stale))
    else
      (s.(db := (s.db + Pushed(s)) - s.deleted,
          loaded := (s.loaded + s.pending) - s.deleted,
          pending := map[], dirty := {}, deleted := {}),
       Done)
  }

  function FlushAll(s: State): (State, Outcome) {
    var stamped := s.(pending := Stamped(s.info.acting, s.pending));
    if ForeignWrite(s) then (stamped, Raised(CrossTenantWrite)) else WriteOut(stamped)
  }

  function CommitAll(s: State): (State, Outcome) {
    var (after, outcome) := FlushAll(s);
    if outcome.Raised? then (after, outcome) else (after.(base := after.db), Done)
  }

  function Bulk(s: State, q: Statement, change: Row -> Row): (State, Outcome) {
    match Guard(s.info, q.names)
    case Some(error) => (s, Raised(error))
    case None =>
      var found := Matching(s, q);
      (Logged(s, q.names).(db := s.db + map id | id in found :: change(found[id])), Done)
  }

  function BulkRemove(s: State, q: Statement): (State, Outcome) {
    match Guard(s.info, q.names)
    case Some(error) => (s, Raised(error))
    case None => (Logged(s, q.names).(db := s.db - Matching(s, q).Keys), Done)
  }

  function Assign(s: State, id: RowId, change: Row -> Row): State {
    if id in s.loaded
    then s.(loaded := s.loaded[id := change(s.loaded[id])], dirty := s.dirty + {id})
    else s
  }

  function Step(s: State, action: Action): (State, Outcome) {
    match action
    case SetActing(tenant) => (s.(info := s.info.(acting := Some(tenant), resolved := Some(true))), Done)
    case UseGlobal => (s.(info := s.info.(acting := None, resolved := Some(true))), Done)
    case Select(q) => SelectRows(s, q)
    case Aggregate(q) => AggregateRows(s, q)
    case Get(model, id) => GetRow(s, model, id)
    case Add(id, row) => (s.(pending := s.pending[id := row]), Done)
    case SetData(id, data) => (Assign(s, id, (row: Row) => row.(data := data)), Done)
    case SetTenant(id, tenant) => (Assign(s, id, (row: Row) => row.(tenant := tenant)), Done)
    case Delete(id) => (if id in s.loaded then s.(deleted := s.deleted + {id}) else s, Done)
    case Flush => FlushAll(s)
    case Commit => CommitAll(s)
    case Rollback => (Rolledback(s), Done)
    case BulkSetData(q, data) => Bulk(s, q, (row: Row) => row.(data := data))
    case BulkSetTenant(q, tenant) => Bulk(s, q, (row: Row) => row.(tenant := tenant))
    case BulkDelete(q) => BulkRemove(s, q)
  }
}
