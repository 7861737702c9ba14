/** `acting_tenant_scope` blocks, nested and sequential, left normally or by an exception. */
module TenantScope {
  import opened Options
  import opened TenantIsolation
  import opened TenantState
  import opened Uuids

  // What a scope block remembers of the session it was entered from.
  datatype Saved = Saved(hadKey: bool, previous: Option<TenantId>, wasResolved: bool)

  function Remember(info: Info): Saved {
    Saved(info.acting.Some?, info.acting, info.Resolved())
  }

  function Enter(info: Info, tenant: TenantId): Info {
    info.(acting := Some(tenant), resolved := Some(true))
  }

  function Leave(info: Info, saved: Saved): Info {
    info.(acting := if saved.hadKey then saved.previous else None, resolved := Some(saved.wasResolved))
  }

  // Code running against one session.
  datatype Program =
    | Do(action: Action)
    | Then(first: Program, second: Program)
    | Scope(tenant: TenantId, body: Program)
    | Try(body: Program)

  // The state a program ends in, and whether it ended by an exception.
  function Exec(p: Program, s: State): (State, bool)
    decreases p
  {
    match p
    case Do(action) =>
      var (after, outcome) := Step(s, action);
      (after, outcome.Raised?)
    case Then(first, second) =>
      var (middle, raised) := Exec(first, s);
      if raised then (middle, true) else Exec(second, middle)
    case Scope(tenant, body) =>
      var (after, raised) := Exec(body, s.(info := Enter(s.info, tenant)));
      (after.(info := Leave(after.info, Remember(s.info))), raised)
    case Try(body) => (Exec(body, s).0, false)
  }

  // The acting tenant and the two flags, as the helpers and the listeners read them.
  function Observed(info: Info): (Option<TenantId>, bool, bool) {
    (info.acting, info.Resolved(), info.requestScoped)
  }

  // No scope is set outside a scope block.
  predicate OnlyBlocks(p: Program) {
    match p
    case Do(action) => !action.SetActing? && !action.UseGlobal?
    case Then(first, second) => OnlyBlocks(first) && OnlyBlocks(second)
    case Scope(_, _) => true
    case Try(body) => OnlyBlocks(body)
  }

  lemma StepKeepsInfo(s: State, action: Action)
    ensures Step(s, action).0.info.requestScoped == s.info.requestScoped
    ensures !action.SetActing? && !action.UseGlobal? ==> Step(s, action).0.info == s.info
  {
  }

  lemma {:induction false} ExecKeepsRequestScope(p: Program, s: State)
    ensures Exec(p, s).0.info.requestScoped == s.info.requestScoped
    decreases p
  {
    hide Step;
    match p
    case Do(action) => StepKeepsInfo(s, action);
    case Then(first, second) =>
      ExecKeepsRequestScope(first, s);
      ExecKeepsRequestScope(second, Exec(first, s).0);
    case Scope(tenant, body) => ExecKeepsRequestScope(body, s.(info := Enter(s.info, tenant)));
    case Try(body) => ExecKeepsRequestScope(body, s);
  }

  /** However a program mixes statements, exceptions and scope blocks, and whatever scope the
      code inside a block sets or clears, each block gives back the acting tenant and the
      resolved flag it was entered with; so does any sequence of blocks. */
  lemma {:induction false} BlocksRestoreScope(p: Program, s: State)
    requires OnlyBlocks(p)
    ensures Observed(Exec(p, s).0.info) == Observed(s.info)
    decreases p
  {
    hide Step;
    match p
    case Do(action) => StepKeepsInfo(s, action);
    case Then(first, second) =>
      BlocksRestoreScope(first, s);
      BlocksRestoreScope(second, Exec(first, s).0);
    case Scope(tenant, body) => ExecKeepsRequestScope(body, s.(info := Enter(s.info, tenant)));
    case Try(body) => BlocksRestoreScope(body, s);
  }

  predicate NamesScoped(names: seq<Model>) {
    exists i :: 0 <= i < |names| && names[i].scoped
  }

  lemma {:induction false} FirstScopedFinds(names: seq<Model>)
    ensures FirstScoped(names).Some? <==> NamesScoped(names)
    ensures FirstScoped(names).Some? ==> FirstScoped(names).value.scoped && FirstScoped(names).value in names
  {
    if names != [] && !names[0].scoped {
      FirstScopedFinds(names[1..]);
      if i :| 0 <= i < |names| && names[i].scoped { assert names[1..][i - 1].scoped; }
    } else if names != [] {
      assert NamesScoped(names);
    }
  }

  /** The guard fires on exactly the statements of an unresolved request session that name a
      scoped model as an entity. */
  lemma GuardExactly(info: Info, names: seq<Model>)
    ensures Guard(info, names).Some? <==> info.requestScoped && !info.Resolved() && NamesScoped(names)
  {
    FirstScopedFinds(names);
  }

  // Every statement of a request session that named a scoped model ran in a resolved scope.
  ghost predicate FailedClosed(log: seq<Executed>) {
    forall i :: 0 <= i < |log| && log[i].info.requestScoped && NamesScoped(log[i].names) ==> log[i].info.Resolved()
  }

  lemma StepFailsClosed(s: State, action: Action)
    requires FailedClosed(s.log)
    ensures FailedClosed(Step(s, action).0.log)
  {
    hide Guard, Matching, NamesScoped, Collides, LostRow, ForeignWrite, Pushed;
    match action
    case Select(q) => GuardExactly(s.info, q.names);
    case Aggregate(q) => GuardExactly(s.info, q.names);
    case Get(model, id) => GuardExactly(s.info, [model]);
    case BulkSetData(q, _) => GuardExactly(s.info, q.names);
    case BulkSetTenant(q, _) => GuardExactly(s.info, q.names);
    case BulkDelete(q) => GuardExactly(s.info, q.names);
    case _ =>
  }

  /** In every run a request session executes no statement naming a scoped model before its
      scope is resolved. */
  lemma {:induction false} ExecFailsClosed(p: Program, s: State)
    requires FailedClosed(s.log)
    ensures FailedClosed(Exec(p, s).0.log)
    decreases p
  {
    hide Step;
    match p
    case Do(action) => StepFailsClosed(s, action);
    case Then(first, second) =>
      ExecFailsClosed(first, s);
      if !Exec(first, s).1 { ExecFailsClosed(second, Exec(first, s).0); }
    case Scope(tenant, body) => ExecFailsClosed(body, s.(info := Enter(s.info, tenant)));
    case Try(body) => ExecFailsClosed(body, s);
  }

  /** The guard reads entities only: a statement that names none is let through unresolved,
      and sees the rows of every tenant. */
  lemma UnnamedStatementIsUnfiltered(s: State, q: Statement)
    requires s.info.acting == None && q.names == []
    ensures AggregateRows(s, q).1 == Rows(map id | id in s.db && q.matches(id, s.db[id]) :: s.db[id])
  {
    assert Guard(s.info, q.names) == None;
    var all := map id | id in s.db && q.matches(id, s.db[id]) :: s.db[id];
    var found := Matching(s, q);
    assert forall id :: id in found <==> id in all;
    assert found == all;
  }

  // Statements only: no block, no scope change.
  predicate Flat(p: Program) {
    match p
    case Do(action) => !action.SetActing? && !action.UseGlobal?
    case Then(first, second) => Flat(first) && Flat(second)
    case Scope(_, _) => false
    case Try(body) => Flat(body)
  }

  ghost predicate LoggedUnder(info: Info, before: seq<Executed>, after: seq<Executed>) {
    before <= after && forall i :: |before| <= i < |after| ==> after[i].info == info
  }

  lemma StepLogs(s: State, action: Action)
    ensures LoggedUnder(s.info, s.log, Step(s, action).0.log)
  {
  }

  lemma {:induction false} FlatRunsUnder(p: Program, s: State)
    requires Flat(p)
    ensures Exec(p, s).0.info == s.info && LoggedUnder(s.info, s.log, Exec(p, s).0.log)
    decreases p
  {
    hide Step;
    match p
    case Do(action) => StepKeepsInfo(s, action); StepLogs(s, action);
    case Then(first, second) =>
      FlatRunsUnder(first, s);
      if !Exec(first, s).1 { FlatRunsUnder(second, Exec(first, s).0); }
    case Try(body) => FlatRunsUnder(body, s);
  }

  /** Every statement directly inside a block runs resolved and as the block's tenant,
      whatever the session was acting as outside. */
  lemma BlockRunsAsItsTenant(tenant: TenantId, body: Program, s: State)
    requires Flat(body)
    ensures LoggedUnder(Enter(s.info, tenant), s.log, Exec(Scope(tenant, body), s).0.log)
  {
    FlatRunsUnder(body, s.(info := Enter(s.info, tenant)));
    hide Step;
  }

  // ---------------------------------------------------------------------------
  // Isolation across blocks
  // ---------------------------------------------------------------------------

  // No block and no statement of the program names a tenant out of reach.
  predicate NamesOnly(p: Program, reach: set<TenantId>) {
    match p
    case Do(action) => Within(action, reach)
    case Then(first, second) => NamesOnly(first, reach) && NamesOnly(second, reach)
    case Scope(tenant, body) => tenant in reach && NamesOnly(body, reach)
    case Try(body) => NamesOnly(body, reach)
  }

  /** Isolation and scope blocks together. However a program nests blocks, raises inside them,
      adds an object outside a block that is flushed inside it, carries an object loaded as one
      tenant into a block of another, or deletes it there: the scoped rows of every tenant
      neither acting at the start nor named on the way stay exactly as they were. */
  lemma {:induction false} BlocksIsolate(p: Program, s: State, reach: set<TenantId>)
    requires StaysWithin(s, reach) && NamesOnly(p, reach)
    ensures StaysWithin(Exec(p, s).0, reach) && SameOutOfReach(s.db, Exec(p, s).0.db, reach)
    decreases p
  {
    assert s.info.acting.Some? && s.info.acting.value in reach;
    hide Step, StaysWithin, SameOutOfReach, Within;
    match p
    case Do(action) => StepStaysWithin(s, reach, action);
    case Then(first, second) =>
      BlocksIsolate(first, s, reach);
      if !Exec(first, s).1 {
        BlocksIsolate(second, Exec(first, s).0, reach);
        SameThroughout(s.db, Exec(first, s).0.db, Exec(p, s).0.db, reach);
      }
    case Scope(tenant, body) =>
      var inside := s.(info := Enter(s.info, tenant));
      Entered(s, inside, reach);
      BlocksIsolate(body, inside, reach);
      Entered(Exec(body, inside).0, Exec(p, s).0, reach);
    case Try(body) => BlocksIsolate(body, s, reach);
  }

  lemma SameThroughout(x: Database, y: Database, z: Database, reach: set<TenantId>)
    requires SameOutOfReach(x, y, reach) && SameOutOfReach(y, z, reach)
    ensures SameOutOfReach(x, z, reach)
  {
  }

  // Changing the scope to a tenant within reach changes nothing else.
  lemma Entered(s: State, t: State, reach: set<TenantId>)
    requires StaysWithin(s, reach) && t == s.(info := t.info)
    requires t.info.acting.Some? && t.info.acting.value in reach
    ensures StaysWithin(t, reach)
  {
    hide SameOutOfReach;
  }

  /** What the listener never looks at: an object marked deleted is deleted by the flush of
      whatever block it is flushed in, though it was loaded as another tenant. A changed one
      is refused there. */
  lemma BlockFlushDeletes(s: State, tenant: TenantId, id: RowId)
    requires s.pending == map[] && s.dirty == {} && id in s.deleted && id in s.db
    ensures var t := Exec(Scope(tenant, Do(Flush)), s).0; id !in t.db && t.info.acting == s.info.acting
  {
    var inside := s.(info := Enter(s.info, tenant));
    assert Stamped(Some(tenant), map[]) == map[];
    assert inside.(pending := map[]) == inside;
    assert Writes(inside) == map[];
    assert FlushAll(inside) == WriteOut(inside);
  }

  lemma BlockFlushRefuses(s: State, tenant: TenantId, id: RowId)
    requires id in s.dirty && id in s.loaded && id !in s.deleted
    requires s.loaded[id].model.scoped && s.loaded[id].tenant != tenant
    ensures Exec(Scope(tenant, Do(Flush)), s).1 && Exec(Scope(tenant, Do(Flush)), s).0.db == s.db
  {
    var inside := s.(info := Enter(s.info, tenant));
    FlushStampsAndRefuses(inside, tenant);
    assert ForeignWrite(inside) by { assert id in Writes(inside); }
  }
}
