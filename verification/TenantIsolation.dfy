/** What every step and every run of a session acting in one tenant keeps. */
module TenantIsolation {
  import opened Options
  import opened TenantState
  import opened Uuids

  // ---------------------------------------------------------------------------
  // Rows out of reach
  // ---------------------------------------------------------------------------

  // Whether a session that acts only in the tenants of `reach` can reach a row: it belongs to
  // one of them, or to an unscoped model.
  predicate Reachable(reach: set<TenantId>, row: Row) {
    row.model.scoped ==> row.tenant in reach
  }

  // A scoped row of a tenant the session never acts in.
  predicate OutOfReach(db: Database, reach: set<TenantId>, id: RowId) {
    id in db && !Reachable(reach, db[id])
  }

  ghost predicate SameOutOfReach(x: Database, y: Database, reach: set<TenantId>) {
    forall id :: OutOfReach(x, reach, id) || OutOfReach(y, reach, id) ==> id in x && id in y && x[id] == y[id]
  }

  ghost predicate AllReachable(rows: Database, reach: set<TenantId>) {
    forall id :: id in rows ==> Reachable(reach, rows[id])
  }

  ghost predicate NoneOutOfReach(ids: set<RowId>, db: Database, reach: set<TenantId>) {
    forall id :: id in ids ==> !OutOfReach(db, reach, id)
  }

  // A session acting in one of the tenants, whose persistent objects all stand for rows
  // within their reach.
  ghost predicate StaysWithin(s: State, reach: set<TenantId>) {
    && s.info.acting.Some? && s.info.acting.value in reach
    && NoneOutOfReach(s.loaded.Keys, s.db, reach)
    && s.deleted <= s.loaded.Keys
    && SameOutOfReach(s.base, s.db, reach)
  }

  // An action that neither drops the acting tenant nor names a tenant out of reach as the
  // one to act in or to give rows to in bulk. An object may name any tenant.
  predicate Within(action: Action, reach: set<TenantId>) {
    match action
    case SetActing(tenant) => tenant in reach
    case UseGlobal => false
    case BulkSetTenant(_, tenant) => tenant in reach
    case _ => true
  }

  // Writing reachable rows, and deleting, where there is no row out of reach.
  lemma AfterWrites(db: Database, writes: Database, deleted: set<RowId>, reach: set<TenantId>)
    requires AllReachable(writes, reach)
    requires NoneOutOfReach(writes.Keys, db, reach) && NoneOutOfReach(deleted, db, reach)
    ensures SameOutOfReach(db, (db + writes) - deleted, reach)
    ensures NoneOutOfReach(writes.Keys, (db + writes) - deleted, reach)
    ensures forall ids :: NoneOutOfReach(ids, db, reach) ==> NoneOutOfReach(ids, (db + writes) - deleted, reach)
  {
  }

  lemma Unwritten(db: Database, reach: set<TenantId>)
    ensures SameOutOfReach(db, db, reach)
  {
  }

  // A visible row is within reach of a session acting in a tenant that is.
  lemma VisibleIsReachable(acting: Option<TenantId>, row: Row, reach: set<TenantId>)
    requires acting.Some? && acting.value in reach && Visible(acting, row)
    ensures Reachable(reach, row)
  {
  }

  // What a flush that is let through writes, wherever the objects were added or loaded.
  lemma PushedStaysWithin(s: State, reach: set<TenantId>)
    requires StaysWithin(s, reach) && !ForeignWrite(s) && !Collides(s) && AllReachable(s.pending, reach)
    ensures AllReachable(Pushed(s), reach) && NoneOutOfReach(Pushed(s).Keys, s.db, reach)
  {
    var writes := Writes(s);
    assert forall id :: id in writes ==> Visible(s.info.acting, writes[id]) && id in s.loaded.Keys;
    assert forall id :: id in s.pending ==> id !in s.db;
  }

  lemma WriteOutStaysWithin(s: State, reach: set<TenantId>)
    requires StaysWithin(s, reach) && !ForeignWrite(s) && AllReachable(s.pending, reach)
    ensures StaysWithin(WriteOut(s).0, reach) && SameOutOfReach(s.db, WriteOut(s).0.db, reach)
  {
    if !Collides(s) && !LostRow(s) {
      PushedStaysWithin(s, reach);
      var pushed := Pushed(s);
      assert NoneOutOfReach(s.deleted, s.db, reach) && s.pending.Keys <= pushed.Keys;
      hide Pushed, Collides, LostRow, ForeignWrite, AllReachable;
      AfterWrites(s.db, pushed, s.deleted, reach);
    } else {
      assert Rolledback(s).db == s.base;
      hide Pushed;
    }
  }

  lemma StampedIsReachable(pending: Database, tenant: TenantId, reach: set<TenantId>)
    requires tenant in reach
    ensures var stamped := Stamped(Some(tenant), pending);
            AllReachable(stamped, reach) && stamped.Keys == pending.Keys
  {
  }

  lemma FlushStaysWithin(s: State, reach: set<TenantId>)
    requires StaysWithin(s, reach)
    ensures StaysWithin(FlushAll(s).0, reach) && SameOutOfReach(s.db, FlushAll(s).0.db, reach)
  {
    var stamped := s.(pending := Stamped(s.info.acting, s.pending));
    StampedIsReachable(s.pending, s.info.acting.value, reach);
    assert Writes(stamped) == Writes(s);
    Unwritten(s.db, reach);
    hide WriteOut, Stamped, SameOutOfReach;
    if !ForeignWrite(s) {
      WriteOutStaysWithin(stamped, reach);
    }
  }

  // The rows a bulk update writes.
  function Changed(s: State, q: Statement, change: Row -> Row): Database {
    map id | id in Matching(s, q) :: change(Matching(s, q)[id])
  }

  lemma BulkWrites(s: State, q: Statement, change: Row -> Row)
    ensures match Guard(s.info, q.names)
            case Some(error) => Bulk(s, q, change) == (s, Raised(error))
            case None => Bulk(s, q, change) == (Logged(s, q.names).(db := s.db + Changed(s, q, change)), Done)
  {
    hide Guard, Matching;
  }

  lemma ChangedIsReachable(s: State, reach: set<TenantId>, q: Statement, change: Row -> Row)
    requires s.info.acting.Some? && s.info.acting.value in reach
    requires forall row :: Reachable(reach, row) ==> Reachable(reach, change(row))
    ensures AllReachable(Changed(s, q, change), reach) && NoneOutOfReach(Changed(s, q, change).Keys, s.db, reach)
    ensures NoneOutOfReach(Matching(s, q).Keys, s.db, reach)
  {
    forall id | id in Matching(s, q) ensures Reachable(reach, s.db[id]) && Matching(s, q)[id] == s.db[id] {
      VisibleIsReachable(s.info.acting, s.db[id], reach);
    }
  }

  lemma BulkStaysWithin(s: State, reach: set<TenantId>, q: Statement, change: Row -> Row)
    requires StaysWithin(s, reach) && forall row :: Reachable(reach, row) ==> Reachable(reach, change(row))
    ensures StaysWithin(Bulk(s, q, change).0, reach) && SameOutOfReach(s.db, Bulk(s, q, change).0.db, reach)
  {
    ChangedIsReachable(s, reach, q, change);
    BulkWrites(s, q, change);
    Unwritten(s.db, reach);
    var writes := Changed(s, q, change);
    hide Bulk, Changed, Guard, AllReachable;
    assert NoneOutOfReach({}, s.db, reach);
    AfterWrites(s.db, writes, {}, reach);
    assert s.db + writes - {} == s.db + writes;
  }

  lemma BulkRemoveStaysWithin(s: State, reach: set<TenantId>, q: Statement)
    requires StaysWithin(s, reach)
    ensures StaysWithin(BulkRemove(s, q).0, reach) && SameOutOfReach(s.db, BulkRemove(s, q).0.db, reach)
  {
    ChangedIsReachable(s, reach, q, row => row);
    Unwritten(s.db, reach);
    hide Matching, Guard, Changed;
    AfterWrites(s.db, map[], Matching(s, q).Keys, reach);
    assert s.db + map[] == s.db;
  }

  lemma ReadsStayWithin(s: State, reach: set<TenantId>, q: Statement)
    requires StaysWithin(s, reach)
    ensures StaysWithin(SelectRows(s, q).0, reach) && SelectRows(s, q).0.db == s.db
    ensures StaysWithin(AggregateRows(s, q).0, reach) && AggregateRows(s, q).0.db == s.db
  {
    ChangedIsReachable(s, reach, q, row => row);
    hide Matching, Guard, SameOutOfReach, Changed, OutOfReach;
  }

  lemma GetStaysWithin(s: State, reach: set<TenantId>, model: Model, id: RowId)
    requires StaysWithin(s, reach)
    ensures StaysWithin(GetRow(s, model, id).0, reach) && GetRow(s, model, id).0.db == s.db
  {
    ReadsStayWithin(s, reach, Statement([model], ById(model, id)));
    hide SelectRows, StaysWithin;
  }

  lemma AssignStaysWithin(s: State, reach: set<TenantId>, id: RowId, change: Row -> Row)
    requires StaysWithin(s, reach)
    ensures StaysWithin(Assign(s, id, change), reach) && Assign(s, id, change).db == s.db
  {
    assert id in s.loaded ==> s.loaded[id := change(s.loaded[id])].Keys == s.loaded.Keys;
    hide SameOutOfReach;
  }

  lemma RollbackStaysWithin(s: State, reach: set<TenantId>)
    requires StaysWithin(s, reach)
    ensures StaysWithin(Rolledback(s), reach) && SameOutOfReach(s.db, Rolledback(s).db, reach)
  {
    Unwritten(s.base, reach);
  }

  /** One step of a session that acts in any of several tenants leaves the scoped rows of
      every other tenant alone. */
  lemma StepStaysWithin(s: State, reach: set<TenantId>, action: Action)
    requires StaysWithin(s, reach) && Within(action, reach)
    ensures StaysWithin(Step(s, action).0, reach) && SameOutOfReach(s.db, Step(s, action).0.db, reach)
  {
    hide FlushAll, Bulk, BulkRemove, SelectRows, AggregateRows, GetRow, Assign, SameOutOfReach, NoneOutOfReach;
    Unwritten(s.db, reach);
    match action
    case Select(q) => ReadsStayWithin(s, reach, q);
    case Aggregate(q) => ReadsStayWithin(s, reach, q);
    case Get(model, id) => GetStaysWithin(s, reach, model, id);
    case SetData(id, data) => AssignStaysWithin(s, reach, id, (row: Row) => row.(data := data));
    case SetTenant(id, other) => AssignStaysWithin(s, reach, id, (row: Row) => row.(tenant := other));
    case Rollback => RollbackStaysWithin(s, reach);
    case Flush => FlushStaysWithin(s, reach);
    case Commit =>
      FlushStaysWithin(s, reach);
      Unwritten(FlushAll(s).0.db, reach);
    case BulkSetData(q, data) => BulkStaysWithin(s, reach, q, (row: Row) => row.(data := data));
    case BulkSetTenant(q, tenant) => BulkStaysWithin(s, reach, q, (row: Row) => row.(tenant := tenant));
    case BulkDelete(q) => BulkRemoveStaysWithin(s, reach, q);
    case _ =>
  }

  // ---------------------------------------------------------------------------
  // One tenant
  // ---------------------------------------------------------------------------

  // A row of a scoped model owned by another tenant.
  predicate ForeignRow(db: Database, tenant: TenantId, id: RowId) {
    OutOfReach(db, {tenant}, id)
  }

  // A row the tenant can reach: its own, or one of an unscoped model.
  predicate OwnRow(db: Database, tenant: TenantId, id: RowId) {
    id in db && Visible(Some(tenant), db[id])
  }

  // The other tenants' scoped rows are the same in both databases.
  ghost predicate SameForeign(x: Database, y: Database, tenant: TenantId) {
    SameOutOfReach(x, y, {tenant})
  }

  // The rows the tenant can reach are the same in both databases.
  ghost predicate SameOwn(x: Database, y: Database, tenant: TenantId) {
    forall id :: OwnRow(x, tenant, id) || OwnRow(y, tenant, id) ==> id in x && id in y && x[id] == y[id]
  }

  ghost predicate AllVisible(rows: Database, tenant: TenantId) {
    forall id :: id in rows ==> Visible(Some(tenant), rows[id])
  }

  // No id of the set is another tenant's row.
  ghost predicate NotForeign(ids: set<RowId>, db: Database, tenant: TenantId) {
    forall id :: id in ids ==> !ForeignRow(db, tenant, id)
  }

  // A session acting in `tenant` whose persistent objects all stand for rows it can reach.
  ghost predicate ActsIn(s: State, tenant: TenantId) {
    && s.info.acting == Some(tenant)
    && NotForeign(s.loaded.Keys, s.db, tenant)
    && s.deleted <= s.loaded.Keys
    && SameForeign(s.base, s.db, tenant)
  }

  // Everything a request may do short of changing scope or assigning `tenant_id` in bulk.
  predicate KeepsScope(action: Action) {
    !action.SetActing? && !action.UseGlobal? && !action.BulkSetTenant?
  }

  lemma ActsInIsReach(s: State, tenant: TenantId)
    ensures ActsIn(s, tenant) <==> StaysWithin(s, {tenant})
  {
    hide SameOutOfReach;
  }

  lemma VisibleIsOwn(rows: Database, tenant: TenantId)
    ensures AllVisible(rows, tenant) <==> AllReachable(rows, {tenant})
  {
    assert forall row: Row :: Visible(Some(tenant), row) <==> Reachable({tenant}, row);
  }

  lemma WriteOutIsolated(s: State, tenant: TenantId)
    requires ActsIn(s, tenant) && !ForeignWrite(s) && AllVisible(s.pending, tenant)
    ensures ActsIn(WriteOut(s).0, tenant) && SameForeign(s.db, WriteOut(s).0.db, tenant)
  {
    hide ActsIn, WriteOut, AllVisible, AllReachable, StaysWithin;
    ActsInIsReach(s, tenant);
    VisibleIsOwn(s.pending, tenant);
    WriteOutStaysWithin(s, {tenant});
    ActsInIsReach(WriteOut(s).0, tenant);
  }

  lemma PushedIsVisible(s: State, tenant: TenantId)
    requires ActsIn(s, tenant) && !ForeignWrite(s) && !Collides(s) && AllVisible(s.pending, tenant)
    ensures AllVisible(Pushed(s), tenant) && NotForeign(Pushed(s).Keys, s.db, tenant)
  {
    hide Pushed, ForeignWrite, Collides, SameOutOfReach, AllVisible, AllReachable;
    VisibleIsOwn(s.pending, tenant);
    PushedStaysWithin(s, {tenant});
    VisibleIsOwn(Pushed(s), tenant);
  }

  lemma StampedIsVisible(pending: Database, tenant: TenantId)
    ensures var stamped := Stamped(Some(tenant), pending);
            AllVisible(stamped, tenant) && stamped.Keys == pending.Keys
  {
  }

  lemma ChangedIsVisible(s: State, tenant: TenantId, q: Statement, change: Row -> Row)
    requires s.info.acting == Some(tenant)
    requires forall row :: change(row).model == row.model && change(row).tenant == row.tenant
    ensures AllVisible(Changed(s, q, change), tenant) && NotForeign(Changed(s, q, change).Keys, s.db, tenant)
  {
  }

  // Writing visible rows, and deleting, where no other tenant has a row.
  lemma ForeignAfterWrites(db: Database, writes: Database, deleted: set<RowId>, tenant: TenantId)
    requires AllVisible(writes, tenant) && NotForeign(writes.Keys, db, tenant) && NotForeign(deleted, db, tenant)
    ensures SameForeign(db, (db + writes) - deleted, tenant)
  {
  }

  lemma StepIsolated(s: State, tenant: TenantId, action: Action)
    requires ActsIn(s, tenant) && KeepsScope(action)
    ensures ActsIn(Step(s, action).0, tenant) && SameForeign(s.db, Step(s, action).0.db, tenant)
  {
    hide ActsIn, StaysWithin, Step;
    ActsInIsReach(s, tenant);
    StepStaysWithin(s, {tenant}, action);
    ActsInIsReach(Step(s, action).0, tenant);
  }

  // A run: the outcome of every action is what the request observes.
  function Run(s: State, actions: seq<Action>): (State, seq<Outcome>)
    decreases |actions|
  {
    if actions == [] then (s, [])
    else
      var (next, outcome) := Step(s, actions[0]);
      var (end, outcomes) := Run(next, actions[1..]);
      (end, [outcome] + outcomes)
  }

  /** Isolation over whole runs: whatever it selects, adds with a forged `tenant_id`, changes,
      deletes, flushes, commits or rolls back, a session acting in one tenant leaves the
      scoped rows of every other tenant exactly as they were. */
  lemma {:induction false} RunIsolated(s: State, tenant: TenantId, actions: seq<Action>)
    requires ActsIn(s, tenant) && forall i :: 0 <= i < |actions| ==> KeepsScope(actions[i])
    ensures ActsIn(Run(s, actions).0, tenant) && SameForeign(s.db, Run(s, actions).0.db, tenant)
    decreases |actions|
  {
    if actions != [] {
      StepIsolated(s, tenant, actions[0]);
      hide Step, KeepsScope;
      RunIsolated(Step(s, actions[0]).0, tenant, actions[1..]);
    }
  }

  // ---------------------------------------------------------------------------
  // Non-interference
  // ---------------------------------------------------------------------------

  // Two sessions that differ only in rows the tenant cannot reach.
  ghost predicate Agree(x: State, y: State, tenant: TenantId) {
    && x == y.(db := x.db, base := x.base)
    && SameOwn(x.db, y.db, tenant) && SameOwn(x.base, y.base, tenant)
  }

  // Both act in the tenant, agree, and their new objects have fresh ids.
  ghost predicate Paired(x: State, y: State, tenant: TenantId) {
    && ActsIn(x, tenant) && ActsIn(y, tenant) && Agree(x, y, tenant)
    && NotForeign(x.pending.Keys, x.db, tenant) && NotForeign(x.pending.Keys, y.db, tenant)
  }

  lemma MatchingAgrees(x: State, y: State, tenant: TenantId, q: Statement)
    requires Paired(x, y, tenant)
    ensures Matching(x, q) == Matching(y, q)
  {
    var found, found' := Matching(x, q), Matching(y, q);
    forall id ensures id in found <==> id in found'
              ensures id in found ==> found[id] == found'[id] {
      assert id in found ==> OwnRow(x.db, tenant, id);
      assert id in found' ==> OwnRow(y.db, tenant, id);
    }
  }

  lemma OwnAfterWrites(x: Database, y: Database, writes: Database, deleted: set<RowId>, tenant: TenantId)
    requires SameOwn(x, y, tenant) && AllVisible(writes, tenant)
    requires NotForeign(writes.Keys, x, tenant) && NotForeign(writes.Keys, y, tenant)
    requires NotForeign(deleted, x, tenant) && NotForeign(deleted, y, tenant)
    ensures SameOwn((x + writes) - deleted, (y + writes) - deleted, tenant)
  {
    var x', y' := (x + writes) - deleted, (y + writes) - deleted;
    forall id | OwnRow(x', tenant, id) || OwnRow(y', tenant, id) ensures id in x' && id in y' && x'[id] == y'[id] {
      if id !in writes { assert OwnRow(x, tenant, id) || OwnRow(y, tenant, id); }
    }
  }

  lemma SameIds(x: State, y: State, tenant: TenantId, ids: set<RowId>)
    requires Paired(x, y, tenant) && NotForeign(ids, x.db, tenant) && NotForeign(ids, y.db, tenant)
    ensures forall id :: id in ids ==> (id in x.db <==> id in y.db)
  {
    forall id | id in ids ensures id in x.db <==> id in y.db {
      assert id in x.db ==> OwnRow(x.db, tenant, id);
      assert id in y.db ==> OwnRow(y.db, tenant, id);
    }
  }

  lemma SameFailures(x: State, y: State, tenant: TenantId)
    requires Paired(x, y, tenant)
    ensures Collides(x) == Collides(y) && LostRow(x) == LostRow(y) && Writes(x) == Writes(y)
  {
    SameIds(x, y, tenant, x.pending.Keys);
    SameIds(x, y, tenant, x.loaded.Keys);
    assert forall id :: id in Writes(x) ==> id in x.loaded.Keys;
    assert forall id :: id in x.pending ==> id in x.pending.Keys;
  }

  lemma WrittenAgrees(x: State, y: State, tenant: TenantId)
    requires Paired(x, y, tenant) && AllVisible(x.pending, tenant)
    requires !ForeignWrite(x) && !Collides(x) && !LostRow(x)
    requires !ForeignWrite(y) && !Collides(y) && !LostRow(y)
    ensures SameOwn((x.db + Pushed(x)) - x.deleted, (y.db + Pushed(x)) - x.deleted, tenant)
  {
    PushedIsVisible(x, tenant);
    PushedIsVisible(y, tenant);
    assert Pushed(x) == Pushed(y);
    assert NotForeign(x.deleted, x.db, tenant) && NotForeign(x.deleted, y.db, tenant);
    hide Pushed, Collides, LostRow, ForeignWrite, NotForeign, SameOwn, AllVisible;
    OwnAfterWrites(x.db, y.db, Pushed(x), x.deleted, tenant);
  }

  lemma WriteOutAgrees(x: State, y: State, tenant: TenantId)
    requires Paired(x, y, tenant) && !ForeignWrite(x) && AllVisible(x.pending, tenant)
    ensures WriteOut(x).1 == WriteOut(y).1 && Agree(WriteOut(x).0, WriteOut(y).0, tenant)
    ensures ActsIn(WriteOut(x).0, tenant) && ActsIn(WriteOut(y).0, tenant) && WriteOut(x).0.pending == map[]
  {
    SameFailures(x, y, tenant);
    assert ForeignWrite(y) == ForeignWrite(x) && Pushed(x) == Pushed(y);
    WriteOutIsolated(x, tenant);
    WriteOutIsolated(y, tenant);
    if !Collides(x) && !LostRow(x) {
      WrittenAgrees(x, y, tenant);
    }
    hide Pushed, Writes, Collides, LostRow, ForeignWrite, SameOwn, AllVisible, ActsIn, NotForeign;
  }

  lemma FlushAgrees(x: State, y: State, tenant: TenantId)
    requires Paired(x, y, tenant)
    ensures FlushAll(x).1 == FlushAll(y).1 && Paired(FlushAll(x).0, FlushAll(y).0, tenant)
  {
    var pending := Stamped(x.info.acting, x.pending);
    StampedIsVisible(x.pending, tenant);
    var x', y' := x.(pending := pending), y.(pending := pending);
    SameWrites(x, y, pending);
    StampedPaired(x, y, tenant, pending);
    hide Writes, ForeignWrite, Stamped, ActsIn, NotForeign, SameOwn, WriteOut;
    if !ForeignWrite(x) {
      WriteOutAgrees(x', y', tenant);
      NothingForeign(WriteOut(x').0.db, WriteOut(y').0.db, tenant);
    }
  }

  // Neither the database nor the pending objects play a part in what is written back.
  lemma SameWrites(x: State, y: State, pending: Database)
    requires x == y.(db := x.db, base := x.base)
    ensures var x', y' := x.(pending := pending), y.(pending := pending);
            && Writes(x') == Writes(x) == Writes(y') == Writes(y)
            && ForeignWrite(x') == ForeignWrite(x) == ForeignWrite(y') == ForeignWrite(y)
  {
  }

  lemma StampedPaired(x: State, y: State, tenant: TenantId, pending: Database)
    requires Paired(x, y, tenant) && pending.Keys == x.pending.Keys
    ensures Paired(x.(pending := pending), y.(pending := pending), tenant)
  {
    hide SameOwn;
  }

  lemma NothingForeign(x: Database, y: Database, tenant: TenantId)
    ensures NotForeign({}, x, tenant) && NotForeign({}, y, tenant)
  {
  }

  lemma BulkAgrees(x: State, y: State, tenant: TenantId, q: Statement, change: Row -> Row)
    requires Paired(x, y, tenant)
    requires forall row :: change(row).model == row.model && change(row).tenant == row.tenant
    ensures Bulk(x, q, change).1 == Bulk(y, q, change).1
    ensures Agree(Bulk(x, q, change).0, Bulk(y, q, change).0, tenant)
  {
    MatchingAgrees(x, y, tenant, q);
    ChangedIsVisible(x, tenant, q, change);
    ChangedIsVisible(y, tenant, q, change);
    BulkWrites(x, q, change);
    BulkWrites(y, q, change);
    var writes := Changed(x, q, change);
    assert Changed(y, q, change) == writes;
    hide Bulk, Changed, Matching, Guard, ActsIn, NotForeign, SameOwn, AllVisible;
    NothingForeign(x.db, y.db, tenant);
    OwnAfterWrites(x.db, y.db, writes, {}, tenant);
    assert x.db + writes - {} == x.db + writes && y.db + writes - {} == y.db + writes;
  }

  lemma OwnAfterDelete(x: Database, y: Database, deleted: set<RowId>, tenant: TenantId)
    requires SameOwn(x, y, tenant)
    ensures SameOwn(x - deleted, y - deleted, tenant)
  {
    forall id | OwnRow(x - deleted, tenant, id) || OwnRow(y - deleted, tenant, id)
      ensures id in x - deleted && id in y - deleted && (x - deleted)[id] == (y - deleted)[id] {
      assert OwnRow(x, tenant, id) || OwnRow(y, tenant, id);
    }
  }

  lemma BulkRemoveAgrees(x: State, y: State, tenant: TenantId, q: Statement)
    requires Paired(x, y, tenant)
    ensures BulkRemove(x, q).1 == BulkRemove(y, q).1
    ensures Agree(BulkRemove(x, q).0, BulkRemove(y, q).0, tenant)
  {
    MatchingAgrees(x, y, tenant, q);
    hide Matching, Guard, ActsIn, NotForeign, SameOwn;
    OwnAfterDelete(x.db, y.db, Matching(x, q).Keys, tenant);
  }

  // An added object whose id is no other tenant's in either database.
  ghost predicate AddsFresh(action: Action, x: Database, y: Database, tenant: TenantId) {
    action.Add? ==> !ForeignRow(x, tenant, action.id) && !ForeignRow(y, tenant, action.id)
  }

  lemma SelectAgrees(x: State, y: State, tenant: TenantId, q: Statement)
    requires Paired(x, y, tenant)
    ensures SelectRows(x, q).1 == SelectRows(y, q).1 && Agree(SelectRows(x, q).0, SelectRows(y, q).0, tenant)
    ensures AggregateRows(x, q).1 == AggregateRows(y, q).1
    ensures Agree(AggregateRows(x, q).0, AggregateRows(y, q).0, tenant)
  {
    MatchingAgrees(x, y, tenant, q);
    hide Matching;
  }

  // Nothing but an add puts an id into the pending set.
  lemma PendingKept(s: State, q: Statement)
    ensures SelectRows(s, q).0.pending == s.pending && AggregateRows(s, q).0.pending == s.pending
    ensures BulkRemove(s, q).0.pending == s.pending
  {
    hide Guard, Matching;
  }

  lemma FlushPendingKept(s: State)
    ensures FlushAll(s).0.pending.Keys <= s.pending.Keys
  {
    hide Collides, LostRow, ForeignWrite, Pushed;
  }

  lemma BulkPendingKept(s: State, q: Statement, change: Row -> Row)
    ensures Bulk(s, q, change).0.pending == s.pending
  {
  }

  lemma GetAgrees(x: State, y: State, tenant: TenantId, model: Model, id: RowId)
    requires Paired(x, y, tenant)
    ensures GetRow(x, model, id).1 == GetRow(y, model, id).1
    ensures Agree(GetRow(x, model, id).0, GetRow(y, model, id).0, tenant)
    ensures GetRow(x, model, id).0.pending == x.pending
  {
    var q := Statement([model], ById(model, id));
    SelectAgrees(x, y, tenant, q);
    PendingKept(x, q);
    hide SelectRows, ActsIn, NotForeign, SameOwn;
  }

  lemma AssignAgrees(x: State, y: State, tenant: TenantId, id: RowId, change: Row -> Row)
    requires Agree(x, y, tenant)
    ensures Agree(Assign(x, id, change), Assign(y, id, change), tenant)
    ensures Assign(x, id, change).pending == x.pending
  {
    hide SameOwn;
  }

  lemma StepAgrees(x: State, y: State, tenant: TenantId, action: Action)
    requires Paired(x, y, tenant) && KeepsScope(action) && AddsFresh(action, x.db, y.db, tenant)
    ensures Step(x, action).1 == Step(y, action).1 && Agree(Step(x, action).0, Step(y, action).0, tenant)
    ensures var pending := Step(x, action).0.pending.Keys;
            NotForeign(pending, x.db, tenant) && NotForeign(pending, y.db, tenant)
  {
    hide FlushAll, Bulk, BulkRemove, SelectRows, AggregateRows, GetRow, Assign, ActsIn, SameOwn;
    match action
    case Select(q) => SelectAgrees(x, y, tenant, q); PendingKept(x, q);
    case Aggregate(q) => SelectAgrees(x, y, tenant, q); PendingKept(x, q);
    case Get(model, id) => GetAgrees(x, y, tenant, model, id);
    case SetData(id, data) => AssignAgrees(x, y, tenant, id, (row: Row) => row.(data := data));
    case SetTenant(id, other) => AssignAgrees(x, y, tenant, id, (row: Row) => row.(tenant := other));
    case Flush => FlushAgrees(x, y, tenant); FlushPendingKept(x);
    case Commit => FlushAgrees(x, y, tenant); FlushPendingKept(x);
    case BulkSetData(q, data) =>
      BulkAgrees(x, y, tenant, q, (row: Row) => row.(data := data));
      BulkPendingKept(x, q, (row: Row) => row.(data := data));
    case BulkDelete(q) => BulkRemoveAgrees(x, y, tenant, q); PendingKept(x, q);
    case _ =>
  }

  /** Non-interference: two databases that agree on the rows a tenant can reach give a
      session acting in it the same outcomes all along any run whose new objects have fresh
      ids, and still agree at its end. */
  lemma {:induction false} RunsAgree(x: State, y: State, tenant: TenantId, actions: seq<Action>)
    requires Paired(x, y, tenant)
    requires forall i :: 0 <= i < |actions| ==> KeepsScope(actions[i]) && AddsFresh(actions[i], x.db, y.db, tenant)
    ensures Run(x, actions).1 == Run(y, actions).1
    ensures Paired(Run(x, actions).0, Run(y, actions).0, tenant)
    decreases |actions|
  {
    if actions != [] {
      StepIsolated(x, tenant, actions[0]);
      StepIsolated(y, tenant, actions[0]);
      StepAgrees(x, y, tenant, actions[0]);
      hide Step, KeepsScope;
      var x', y' := Step(x, actions[0]).0, Step(y, actions[0]).0;
      assert Paired(x', y', tenant);
      forall i | 0 <= i < |actions[1..]| ensures AddsFresh(actions[1..][i], x'.db, y'.db, tenant) {
        assert AddsFresh(actions[i + 1], x.db, y.db, tenant);
      }
      RunsAgree(x', y', tenant, actions[1..]);
    }
  }

  /** Where the fresh-id condition is needed: the outcome of a flush tells two agreeing
      databases apart exactly when a pending id is another tenant's in one of them and free
      in the other. */
  lemma FlushTellsApart(x: State, y: State, tenant: TenantId)
    requires ActsIn(x, tenant) && ActsIn(y, tenant) && Agree(x, y, tenant)
    requires !ForeignWrite(x)
    ensures FlushAll(x).1 == FlushAll(y).1 <==>
            ((exists id :: id in x.pending && id in x.db) <==> (exists id :: id in x.pending && id in y.db))
  {
    StampedIsVisible(x.pending, tenant);
    SameLostRows(x, y, tenant);
    FlushOutcome(x);
    FlushOutcome(y);
    hide FlushAll, ActsIn, SameOwn, LostRow, ForeignWrite;
  }

  // What a flush raises, without the rows it writes.
  lemma FlushOutcome(s: State)
    ensures FlushAll(s).1 == if ForeignWrite(s) then Raised(CrossTenantWrite)
                             else if exists id :: id in s.pending && id in s.db then Raised(Integrity)
                             else if LostRow(s) then Raised(Stale) else Done
  {
    var stamped := s.(pending := Stamped(s.info.acting, s.pending));
    assert stamped.pending.Keys == s.pending.Keys;
    assert Collides(stamped) <==> exists id :: id in s.pending && id in s.db;
    assert Writes(stamped) == Writes(s);
    assert LostRow(stamped) == LostRow(s);
    hide Stamped, Collides, LostRow, ForeignWrite, Writes, Pushed;
  }

  lemma SameLostRows(x: State, y: State, tenant: TenantId)
    requires ActsIn(x, tenant) && ActsIn(y, tenant) && Agree(x, y, tenant)
    ensures Writes(x) == Writes(y) && LostRow(x) == LostRow(y) && ForeignWrite(x) == ForeignWrite(y)
  {
    forall id | id in Writes(x) ensures id in x.db <==> id in y.db {
      assert id in x.loaded.Keys;
      assert id in x.db ==> OwnRow(x.db, tenant, id);
      assert id in y.db ==> OwnRow(y.db, tenant, id);
    }
  }

  // Two agreeing sessions about to add an object: under the id of another tenant's row, and
  // where that row does not exist.
  lemma ReusedId() returns (x: State, y: State)
    ensures ActsIn(x, Uuid(1)) && ActsIn(y, Uuid(1)) && Agree(x, y, Uuid(1)) && !ForeignWrite(x)
    ensures Uuid(7) in x.pending && Uuid(7) in x.db && y.db == map[]
  {
    var lot := Model("lot", true);
    var info := Info(Some(Uuid(1)), Some(true), true);
    var db := map[Uuid(7) := Row(lot, Uuid(2), "")];
    var pending := map[Uuid(7) := Row(lot, Uuid(1), "")];
    x := State(info, db, db, map[], pending, {}, {}, []);
    y := State(info, map[], map[], map[], pending, {}, {}, []);
  }

  /** A concrete pair the condition shuts out: an object added under the id of another
      tenant's row is refused, and is inserted where that row does not exist. */
  lemma ReusedIdIsObservable()
    ensures exists x: State, y: State, action: Action ::
              ActsIn(x, Uuid(1)) && ActsIn(y, Uuid(1)) && Agree(x, y, Uuid(1)) && KeepsScope(action)
              && Step(x, action).1 != Step(y, action).1
  {
    var x, y := ReusedId();
    hide FlushAll, ActsIn, Agree, ForeignWrite;
    FlushTellsApart(x, y, Uuid(1));
    assert Step(x, Flush).1 == FlushAll(x).1 && Step(y, Flush).1 == FlushAll(y).1;
    assert KeepsScope(Flush);
  }

  // A write that gives a visible row to another tenant shows.
  lemma ForeignAppears(db: Database, writes: Database, tenant: TenantId, id: RowId)
    requires id in db && Visible(Some(tenant), db[id]) && ForeignRow(writes, tenant, id)
    ensures !SameForeign(db, db + writes, tenant)
  {
    assert ForeignRow(db + writes, tenant, id) && (db + writes)[id] != db[id];
  }

  // The rows a bulk update of `tenant_id` writes.
  function Reassigned(s: State, q: Statement, target: TenantId): Database {
    map id | id in Matching(s, q) :: Matching(s, q)[id].(tenant := target)
  }

  lemma BulkSetTenantWrites(s: State, q: Statement, target: TenantId)
    requires Guard(s.info, q.names) == None
    ensures Step(s, BulkSetTenant(q, target)).0.db == s.db + Reassigned(s, q, target)
  {
    hide Guard, Matching;
  }

  /** The one write the filter does not contain, exactly: a bulk update assigning
      `tenant_id` keeps the other tenants' rows iff it assigns the acting tenant or reaches
      no scoped row. */
  lemma BulkSetTenantKeepsForeign(s: State, tenant: TenantId, q: Statement, target: TenantId)
    requires ActsIn(s, tenant) && Guard(s.info, q.names) == None
    ensures SameForeign(s.db, Step(s, BulkSetTenant(q, target)).0.db, tenant)
            <==> target == tenant || forall id :: id in Matching(s, q) ==> !s.db[id].model.scoped
  {
    BulkSetTenantWrites(s, q, target);
    var found, writes := Matching(s, q), Reassigned(s, q, target);
    assert AllVisible(found, tenant) && NotForeign(writes.Keys, s.db, tenant);
    assert forall id :: id in found ==> id in s.db && found[id] == s.db[id];
    hide Step, Matching, Guard, SameForeign, NotForeign;
    if id :| id in found && s.db[id].model.scoped && target != tenant {
      ForeignAppears(s.db, writes, tenant, id);
    } else {
      ForeignAfterWrites(s.db, writes, {}, tenant);
      assert s.db + writes - {} == s.db + writes;
    }
  }

  /** A flush stamps every new scoped object with the acting tenant, whatever tenant it was
      given, and refuses the whole flush when a changed object names another tenant. */
  lemma FlushStampsAndRefuses(s: State, tenant: TenantId)
    requires s.info.acting == Some(tenant)
    ensures FlushAll(s).1 == Raised(CrossTenantWrite)
            <==> exists id :: id in s.dirty && id in s.loaded && id !in s.deleted
                              && s.loaded[id].model.scoped && s.loaded[id].tenant != tenant
    ensures FlushAll(s).1 == Done ==>
              forall id :: id in s.pending && id !in s.dirty && id !in s.deleted ==>
                id in FlushAll(s).0.db && FlushAll(s).0.db[id] == Stamp(tenant, s.pending[id])
  {
    var writes := Writes(s);
    if id :| id in s.dirty && id in s.loaded && id !in s.deleted
             && s.loaded[id].model.scoped && s.loaded[id].tenant != tenant {
      assert id in writes && !Visible(s.info.acting, writes[id]);
    }
  }
}
