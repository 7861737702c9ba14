/** The session object, its helpers and its two listeners, proved against `TenantState`. */
module TenantSession {
  import opened Options
  import opened TenantScope
  import opened TenantState

  /** The first loop of `_stamp_tenant_on_write`: every new scoped object, one by one. */
  method StampNew(tenant: TenantId, objects: Database) returns (stamped: Database)
    ensures stamped == Stamped(Some(tenant), objects)
  {
    stamped := objects;
    var waiting := objects.Keys;
    while waiting != {}
      invariant waiting <= objects.Keys == stamped.Keys
      invariant forall id :: id in objects ==>
                  stamped[id] == if id in waiting then objects[id] else Stamp(tenant, objects[id])
      decreases waiting
    {
      var id :| id in waiting;
      if stamped[id].model.scoped {
        stamped := stamped[id := stamped[id].(tenant := tenant)];
      }
      waiting := waiting - {id};
    }
  }

  /** Its second loop: whether a changed scoped object names another tenant. */
  method NamesAnotherTenant(tenant: TenantId, changed: Database) returns (foreign: bool)
    ensures foreign <==> exists id :: id in changed && !Visible(Some(tenant), changed[id])
  {
    var waiting := changed.Keys;
    while waiting != {}
      invariant waiting <= changed.Keys
      invariant forall id :: id in changed && id !in waiting ==> Visible(Some(tenant), changed[id])
      decreases waiting
    {
      var id :| id in waiting;
      if changed[id].model.scoped && changed[id].tenant != tenant { return true; }
      waiting := waiting - {id};
    }
    return false;
  }

  class Session {
    var info: Info
    var db: Database
    var base: Database
    var loaded: Database
    var pending: Database
    var dirty: set<RowId>
    var deleted: set<RowId>
    var log: seq<Executed>
    // The memoised filter of each tenant: the tenant its criteria compare with.
    var optionsCache: map<TenantId, TenantId>

    ghost predicate Valid()
      reads this
    {
      forall t :: t in optionsCache ==> optionsCache[t] == t
    }

    ghost function State(): State
      reads this
    {
      TenantState.State(info, db, base, loaded, pending, dirty, deleted, log)
    }

    // A session of the request dependency is marked request scoped; any other is not.
    constructor (db: Database, requestScoped: bool)
      ensures Valid()
      ensures State() == TenantState.State(Info(None, None, requestScoped), db, db, map[], map[], {}, {}, [])
    {
      info := Info(None, None, requestScoped);
      this.db, base := db, db;
      loaded, pending, dirty, deleted, log := map[], map[], {}, {}, [];
      optionsCache := map[];
    }

    method SetActingTenant(tenant: TenantId)
      requires Valid()
      modifies this`info
      ensures Valid() && State() == Step(old(State()), SetActing(tenant)).0
    {
      info := info.(acting := Some(tenant));
      info := info.(resolved := Some(true));
    }

    method UseGlobalScope()
      requires Valid()
      modifies this`info
      ensures Valid() && State() == Step(old(State()), UseGlobal).0
    {
      info := info.(acting := None);
      info := info.(resolved := Some(true));
    }

    method EnterScope(tenant: TenantId) returns (saved: Saved)
      requires Valid()
      modifies this`info
      ensures Valid() && saved == Remember(old(info))
      ensures State() == old(State()).(info := Enter(old(info), tenant))
    {
      saved := Saved(info.acting.Some?, info.acting, info.resolved == Some(true));
      SetActingTenant(tenant);
    }

    method LeaveScope(saved: Saved)
      requires Valid()
      modifies this`info
      ensures Valid() && State() == old(State()).(info := Leave(old(info), saved))
    {
      if saved.hadKey {
        info := info.(acting := saved.previous);
      } else {
        info := info.(acting := None);
      }
      info := info.(resolved := Some(saved.wasResolved));
    }

    /** `_options_for`: the memo never hands one tenant the filter of another. */
    method OptionsFor(tenant: TenantId) returns (criterion: TenantId)
      requires Valid()
      modifies this`optionsCache
      ensures Valid() && criterion == tenant && State() == old(State())
    {
      if tenant !in optionsCache {
        optionsCache := optionsCache[tenant := tenant];
      }
      criterion := optionsCache[tenant];
    }

    /** `_apply_tenant_filter`: the guard, then the rows the filtered statement reaches. */
    method ApplyTenantFilter(q: Statement) returns (error: Option<Error>, found: Database)
      requires Valid()
      modifies this`optionsCache, this`log
      ensures Valid() && error == Guard(old(info), q.names)
      ensures error.Some? ==> State() == old(State())
      ensures error.None? ==> State() == Logged(old(State()), q.names) && found == Matching(old(State()), q)
    {
      found := map[];
      error := None;
      if info.requestScoped && info.resolved != Some(true) {
        var i := 0;
        while i < |q.names|
          invariant 0 <= i <= |q.names|
          invariant FirstScoped(q.names) == FirstScoped(q.names[i..])
        {
          if q.names[i].scoped {
            return Some(TenantScopeNotResolved(q.names[i])), found;
          }
          i := i + 1;
        }
      }
      if info.acting.Some? {
        var criterion := OptionsFor(info.acting.value);
        found := map id | id in db && q.matches(id, db[id])
                          && (!db[id].model.scoped || db[id].tenant == criterion) :: db[id];
      } else {
        found := map id | id in db && q.matches(id, db[id]) :: db[id];
      }
      log := log + [Executed(q.names, info)];
      ghost var expected := Matching(old(State()), q);
      assert forall id :: id in found <==> id in expected;
      assert found == expected;
    }

    method Select(q: Statement) returns (outcome: Outcome)
      requires Valid()
      modifies this
      ensures Valid() && (State(), outcome) == Step(old(State()), Action.Select(q))
    {
      var error, found := ApplyTenantFilter(q);
      if error.Some? { return Raised(error.value); }
      var objects := map id | id in found :: if id in loaded then loaded[id] else found[id];
      loaded := loaded + objects;
      return Rows(objects);
    }

    /** `_stamp_tenant_on_write`: stamps every new scoped object, then refuses the flush if
        a changed one names another tenant. */
    method StampTenantOnWrite() returns (error: Option<Error>)
      requires Valid()
      modifies this`pending
      ensures Valid() && State() == old(State()).(pending := Stamped(info.acting, old(pending)))
      ensures error == if ForeignWrite(old(State())) then Some(CrossTenantWrite) else None
    {
      if info.acting.None? {
        return None;
      }
      pending := StampNew(info.acting.value, pending);
      var changed := map id | id in loaded && id in dirty && id !in deleted :: loaded[id];
      assert changed == Writes(old(State()));
      var foreign := NamesAnotherTenant(info.acting.value, changed);
      return if foreign then Some(CrossTenantWrite) else None;
    }

    // The database work of a flush the listener has let through.
    method WriteBack() returns (outcome: Outcome)
      requires Valid()
      modifies this
      ensures Valid() && (State(), outcome) == WriteOut(old(State()))
    {
      var writes := map id | id in loaded && id in dirty && id !in deleted :: loaded[id];
      assert writes == Writes(State());
      if id :| id in pending && id in db {
        db, loaded, pending, dirty, deleted := base, map[], map[], {}, {};
        return Raised(Integrity);
      }
      if id :| id in writes && id !in db {
        db, loaded, pending, dirty, deleted := base, map[], map[], {}, {};
        return Raised(Stale);
      }
      db, loaded := (db + (pending + writes)) - deleted, (loaded + pending) - deleted;
      pending, dirty, deleted := map[], {}, {};
      return Done;
    }

    method Flush() returns (outcome: Outcome)
      requires Valid()
      modifies this
      ensures Valid() && (State(), outcome) == Step(old(State()), Action.Flush)
    {
      var error := StampTenantOnWrite();
      assert Writes(State()) == Writes(old(State()));
      hide WriteOut, Stamped;
      if error.Some? { return Raised(error.value); }
      outcome := WriteBack();
    }
  }
}
