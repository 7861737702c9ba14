/** The asset service: its four writing operations on one condominium's assets, and what
    every run of them keeps. Row ids are given: `uuid4` is a parameter. */
module AssetService {
  import opened Ledger
  import opened Money
  import opened Options
  import opened Uuids

  datatype Condition = Novo | Bom | Regular | Ruim | Danificado | Baixado

  datatype Asset = Asset(tag: Option<string>, condition: Condition, isConsumable: bool, currentQuantity: int,
                         minQuantity: Option<int>, value: Option<Cents>)

  datatype AssetIn = AssetIn(tag: Option<string>, condition: Condition, isConsumable: bool, currentQuantity: int,
                             minQuantity: Option<int>, value: Option<real>)

  // A field of an update: not sent, or sent with a value.
  datatype Change<+T> = Unset | To(value: T)

  // There is no quantity among them: only a movement changes it.
  datatype Patch = Patch(tag: Change<Option<string>>, condition: Change<Condition>, isConsumable: Change<bool>,
                         minQuantity: Change<Option<int>>, value: Change<Option<real>>)

  datatype MovementIn = MovementIn(kind: MovementType, quantity: int)

  datatype Error = Invalid | Forbidden | NotFound | TagExists | Integrity | InsufficientStock

  datatype Store = Store(assets: map<Uuid, Asset>, log: Log)

  datatype Operation =
    | Create(id: Uuid, asset: AssetIn)
    | Update(id: Uuid, patch: Patch)
    | Record(id: Uuid, movement: MovementIn)
    | Remove(id: Uuid)

  type Permissions = set<string>

  // ---------------------------------------------------------------------------
  // The schemas
  // ---------------------------------------------------------------------------

  predicate AssetAllowed(a: AssetIn) {
    a.currentQuantity >= 0 && (a.minQuantity.Some? ==> a.minQuantity.value >= 0)
    && (a.value.Some? ==> a.value.value >= 0.0)
  }

  predicate PatchAllowed(p: Patch) {
    && (p.minQuantity.To? && p.minQuantity.value.Some? ==> p.minQuantity.value.value >= 0)
    && (p.value.To? && p.value.value.Some? ==> p.value.value.value >= 0.0)
  }

  // Zero is a quantity one may adjust to, never one to move.
  predicate MovementAllowed(m: MovementIn) {
    if m.kind.AjusteInventario? then m.quantity >= 0 else m.quantity > 0
  }

  function Quantized(value: Option<real>): Option<Cents> {
    if value.Some? then Some(QuantizeMoney(value.value)) else None
  }

  // ---------------------------------------------------------------------------
  // The operations as functions of the store
  // ---------------------------------------------------------------------------

  predicate TagTaken(assets: map<Uuid, Asset>, tag: string, except: Option<Uuid>) {
    exists id :: id in assets && assets[id].tag == Some(tag) && Some(id) != except
  }

  // The service looks a tag up only when it is not empty; the unique index sees them all.
  function TagError(assets: map<Uuid, Asset>, tag: Option<string>, except: Option<Uuid>): Option<Error> {
    if tag.None? || !TagTaken(assets, tag.value, except) then None
    else if tag.value != [] then Some(TagExists)
    else Some(Integrity)
  }

  function Created(s: Store, id: Uuid, a: AssetIn): Store {
    var asset := Asset(a.tag, a.condition, a.isConsumable, a.currentQuantity, a.minQuantity, Quantized(a.value));
    Store(s.assets[id := asset],
          if a.currentQuantity > 0
          then s.log + [Movement(id, Entrada, a.currentQuantity, 0, a.currentQuantity)]
          else s.log)
  }

  function Patched(asset: Asset, p: Patch): Asset {
    var tagged := if p.tag.To? then asset.(tag := p.tag.value) else asset;
    var conditioned := if p.condition.To? then tagged.(condition := p.condition.value) else tagged;
    var typed := if p.isConsumable.To? then conditioned.(isConsumable := p.isConsumable.value) else conditioned;
    var floored := if p.minQuantity.To? then typed.(minQuantity := p.minQuantity.value) else typed;
    if p.value.To? then floored.(value := Quantized(p.value.value)) else floored
  }

  // The tag an update must find free: one that is sent and differs from the present one.
  function PatchedTag(asset: Asset, p: Patch): Option<string> {
    if p.tag.To? && p.tag.value != asset.tag then p.tag.value else None
  }

  function Moved(s: Store, id: Uuid, m: MovementIn): Store
    requires id in s.assets
  {
    var asset := s.assets[id];
    var next := After(m.kind, asset.currentQuantity, m.quantity);
    var condition := if m.kind.BaixaPatrimonial? then Baixado else asset.condition;
    Store(s.assets[id := asset.(currentQuantity := next, condition := condition)],
          s.log + [Movement(id, m.kind, m.quantity, asset.currentQuantity, next)])
  }

  // The refusal of an operation, in the order the checks run.
  function Refusal(s: Store, perms: Permissions, op: Operation): Option<Error> {
    match op
    case Create(id, a) =>
      if !AssetAllowed(a) then Some(Invalid)
      else if "assets:create" !in perms then Some(Forbidden)
      else TagError(s.assets, a.tag, None)
    case Update(id, p) =>
      if !PatchAllowed(p) then Some(Invalid)
      else if "assets:update" !in perms then Some(Forbidden)
      else if id !in s.assets then Some(NotFound)
      else TagError(s.assets, PatchedTag(s.assets[id], p), Some(id))
    case Record(id, m) =>
      if !MovementAllowed(m) then Some(Invalid)
      else if "assets:movement_record" !in perms then Some(Forbidden)
      else if "assets:update" !in perms && (m.kind.AjusteInventario? || m.kind.BaixaPatrimonial?) then Some(Forbidden)
      else if id !in s.assets then Some(NotFound)
      else if m.kind.Saida? && m.quantity > s.assets[id].currentQuantity then Some(InsufficientStock)
      else None
    case Remove(id) =>
      if "assets:delete" !in perms then Some(Forbidden)
      else if id !in s.assets then Some(NotFound)
      else None
  }

  function Apply(s: Store, perms: Permissions, op: Operation): Store {
    if Refusal(s, perms, op).Some? then s
    else
      match op
      case Create(id, a) => Created(s, id, a)
      case Update(id, p) => s.(assets := s.assets[id := Patched(s.assets[id], p)])
      case Record(id, m) => Moved(s, id, m)
      case Remove(id) => Store(s.assets - {id}, Without(s.log, id))
  }

  // ---------------------------------------------------------------------------
  // The service
  // ---------------------------------------------------------------------------

  class Service {
    var assets: map<Uuid, Asset>
    var log: Log

    ghost function State(): Store
      reads this
    {
      Store(assets, log)
    }

    constructor ()
      ensures State() == Store(map[], [])
    {
      assets, log := map[], [];
    }

    method CreateAsset(perms: Permissions, id: Uuid, a: AssetIn) returns (refused: Option<Error>)
      requires id !in assets
      modifies this
      ensures refused == Refusal(old(State()), perms, Create(id, a))
      ensures State() == Apply(old(State()), perms, Create(id, a))
    {
      if !AssetAllowed(a) { return Some(Invalid); }
      if "assets:create" !in perms { return Some(Forbidden); }
      if a.tag.Some? && a.tag.value != [] && TagTaken(assets, a.tag.value, None) { return Some(TagExists); }
      var asset := Asset(a.tag, a.condition, a.isConsumable, a.currentQuantity, a.minQuantity, Quantized(a.value));
      // The flush: the unique index on the tag has the last word.
      if a.tag.Some? && TagTaken(assets, a.tag.value, None) { return Some(Integrity); }
      assets := assets[id := asset];
      if asset.currentQuantity > 0 {
        log := log + [Movement(id, Entrada, asset.currentQuantity, 0, asset.currentQuantity)];
      }
      return None;
    }

    method UpdateAsset(perms: Permissions, id: Uuid, p: Patch) returns (refused: Option<Error>)
      modifies this
      ensures refused == Refusal(old(State()), perms, Update(id, p))
      ensures State() == Apply(old(State()), perms, Update(id, p))
    {
      if !PatchAllowed(p) { return Some(Invalid); }
      if "assets:update" !in perms { return Some(Forbidden); }
      if id !in assets { return Some(NotFound); }
      var asset := assets[id];
      var tag := PatchedTag(asset, p);
      if tag.Some? && tag.value != [] && TagTaken(assets, tag.value, Some(id)) { return Some(TagExists); }
      if p.tag.To? { asset := asset.(tag := p.tag.value); }
      if p.condition.To? { asset := asset.(condition := p.condition.value); }
      if p.isConsumable.To? { asset := asset.(isConsumable := p.isConsumable.value); }
      if p.minQuantity.To? { asset := asset.(minQuantity := p.minQuantity.value); }
      if p.value.To? { asset := asset.(value := Quantized(p.value.value)); }
      if tag.Some? && TagTaken(assets, tag.value, Some(id)) { return Some(Integrity); }
      assets := assets[id := asset];
      return None;
    }

    method DeleteAsset(perms: Permissions, id: Uuid) returns (refused: Option<Error>)
      modifies this
      ensures refused == Refusal(old(State()), perms, Remove(id))
      ensures State() == Apply(old(State()), perms, Remove(id))
    {
      if "assets:delete" !in perms { return Some(Forbidden); }
      if id !in assets { return Some(NotFound); }
      assets, log := assets - {id}, Without(log, id);
      return None;
    }

    method RecordMovement(perms: Permissions, id: Uuid, m: MovementIn) returns (refused: Option<Error>)
      modifies this
      ensures refused == Refusal(old(State()), perms, Record(id, m))
      ensures State() == Apply(old(State()), perms, Record(id, m))
    {
      if !MovementAllowed(m) { return Some(Invalid); }
      if "assets:movement_record" !in perms { return Some(Forbidden); }
      if "assets:update" !in perms && (m.kind.AjusteInventario? || m.kind.BaixaPatrimonial?) {
        return Some(Forbidden);
      }
      if id !in assets { return Some(NotFound); }
      var asset := assets[id];
      var previous := asset.currentQuantity;
      var next := previous;
      match m.kind {
        case Entrada => next := asset.currentQuantity + m.quantity;
        case Saida =>
          if m.quantity > asset.currentQuantity { return Some(InsufficientStock); }
          next := asset.currentQuantity - m.quantity;
        case AjusteInventario => next := m.quantity;
        case BaixaPatrimonial =>
          next := if asset.currentQuantity - m.quantity > 0 then asset.currentQuantity - m.quantity else 0;
          asset := asset.(condition := Baixado);
      }
      asset := asset.(currentQuantity := next);
      assets := assets[id := asset];
      log := log + [Movement(id, m.kind, m.quantity, previous, next)];
      return None;
    }
  }

  // ---------------------------------------------------------------------------
  // What every run keeps
  // ---------------------------------------------------------------------------

  // The log is chained and only about present assets, each cached quantity is where its
  // asset's chain ends, and no two assets share a tag.
  ghost predicate Consistent(s: Store) {
    && Chained(s.log)
    && (forall i :: 0 <= i < |s.log| ==> s.log[i].asset in s.assets)
    && (forall id :: id in s.assets ==> s.assets[id].currentQuantity == LastNew(s.log, id))
    && TagsDistinct(s.assets)
  }

  ghost predicate TagsDistinct(assets: map<Uuid, Asset>) {
    forall x, y :: x in assets && y in assets && x != y && assets[x].tag.Some? ==> assets[x].tag != assets[y].tag
  }

  lemma TagsStayDistinct(assets: map<Uuid, Asset>, id: Uuid, asset: Asset)
    requires TagsDistinct(assets)
    requires asset.tag.Some? && (id in assets ==> asset.tag != assets[id].tag) ==>
               !TagTaken(assets, asset.tag.value, Some(id))
    ensures TagsDistinct(assets[id := asset])
  {
    forall x | x in assets && x != id && asset.tag.Some? ensures assets[x].tag != asset.tag {
      if id in assets && asset.tag == assets[id].tag { assert assets[x].tag != assets[id].tag; }
    }
  }

  lemma {:induction false} AbsentHasNoLog(log: Log, id: Uuid)
    requires forall i :: 0 <= i < |log| ==> log[i].asset != id
    ensures LastNew(log, id) == 0
  {
    if log != [] { AbsentHasNoLog(log[..|log| - 1], id); }
  }

  // Appending a movement that follows the chain.
  lemma AppendedStaysChained(log: Log, m: Movement)
    requires Chained(log) && m.previous == LastNew(log, m.asset)
    requires m.next == After(m.kind, m.previous, m.quantity) && 0 <= m.next
    ensures Chained(log + [m]) && LastNew(log + [m], m.asset) == m.next
    ensures forall other :: other != m.asset ==> LastNew(log + [m], other) == LastNew(log, other)
  {
    assert (log + [m])[..|log + [m]| - 1] == log;
  }

  // A new asset with the log that ends at its quantity.
  lemma NewAssetKeeps(s: Store, id: Uuid, asset: Asset, log: Log)
    requires Consistent(s) && id !in s.assets && TagsDistinct(s.assets[id := asset])
    requires Chained(log) && (forall i :: 0 <= i < |log| ==> log[i].asset in s.assets || log[i].asset == id)
    requires LastNew(log, id) == asset.currentQuantity
    requires forall other :: other != id ==> LastNew(log, other) == LastNew(s.log, other)
    ensures Consistent(Store(s.assets[id := asset], log))
  {
    hide TagsDistinct, Chained, LastNew;
  }

  lemma CreateKeeps(s: Store, id: Uuid, a: AssetIn)
    requires Consistent(s) && id !in s.assets && AssetAllowed(a) && TagError(s.assets, a.tag, None) == None
    ensures Consistent(Created(s, id, a))
  {
    AbsentHasNoLog(s.log, id);
    var asset, log := Created(s, id, a).assets[id], Created(s, id, a).log;
    TagsStayDistinct(s.assets, id, asset);
    if a.currentQuantity > 0 {
      AppendedStaysChained(s.log, Movement(id, Entrada, a.currentQuantity, 0, a.currentQuantity));
    }
    hide Quantized, TagsDistinct, TagTaken, Chained, LastNew, TagError, Consistent;
    NewAssetKeeps(s, id, asset, log);
  }

  lemma MoveKeeps(s: Store, id: Uuid, m: MovementIn)
    requires Consistent(s) && id in s.assets && MovementAllowed(m)
    requires !(m.kind.Saida? && m.quantity > s.assets[id].currentQuantity)
    ensures Consistent(Moved(s, id, m))
  {
    var quantity := s.assets[id].currentQuantity;
    ChainedAgrees(s.log, id);
    AppendedStaysChained(s.log, Movement(id, m.kind, m.quantity, quantity, After(m.kind, quantity, m.quantity)));
  }

  lemma RemovedLogPresent(s: Store, id: Uuid)
    requires forall i :: 0 <= i < |s.log| ==> s.log[i].asset in s.assets
    ensures var log := Without(s.log, id); forall i :: 0 <= i < |log| ==> log[i].asset in s.assets - {id}
  {
    WithoutKeepsOthers(s.log, id, id);
    hide Without;
    var log := Without(s.log, id);
    forall i | 0 <= i < |log| ensures log[i].asset in s.assets - {id} {
      assert log[i] in s.log;
    }
  }

  lemma RemovedQuantities(s: Store, id: Uuid)
    requires forall x :: x in s.assets ==> s.assets[x].currentQuantity == LastNew(s.log, x)
    ensures forall x :: x in s.assets - {id} ==> s.assets[x].currentQuantity == LastNew(Without(s.log, id), x)
  {
    forall x | x in s.assets && x != id ensures LastNew(Without(s.log, id), x) == LastNew(s.log, x) {
      WithoutKeepsOthers(s.log, id, x);
    }
  }

  lemma RemoveKeeps(s: Store, id: Uuid)
    requires Consistent(s) && id in s.assets
    ensures Consistent(Store(s.assets - {id}, Without(s.log, id)))
  {
    assert TagsDistinct(s.assets - {id});
    WithoutStaysChained(s.log, id);
    RemovedLogPresent(s, id);
    RemovedQuantities(s, id);
    hide Chained, LastNew, Without, TagsDistinct;
  }

  lemma ApplyKeeps(s: Store, perms: Permissions, op: Operation)
    requires Consistent(s) && (op.Create? ==> op.id !in s.assets)
    ensures Consistent(Apply(s, perms, op))
  {
    if Refusal(s, perms, op).None? {
      match op
      case Create(id, a) => CreateKeeps(s, id, a);
      case Update(id, p) => UpdateKeeps(s, id, p);
      case Record(id, m) => MoveKeeps(s, id, m);
      case Remove(id) => RemoveKeeps(s, id);
    }
  }

  lemma UpdateKeeps(s: Store, id: Uuid, p: Patch)
    requires Consistent(s) && id in s.assets && TagError(s.assets, PatchedTag(s.assets[id], p), Some(id)) == None
    ensures Consistent(s.(assets := s.assets[id := Patched(s.assets[id], p)]))
  {
    var asset := Patched(s.assets[id], p);
    assert asset.currentQuantity == s.assets[id].currentQuantity;
    assert asset.tag != s.assets[id].tag ==> PatchedTag(s.assets[id], p) == asset.tag;
    TagsStayDistinct(s.assets, id, asset);
  }

  // A request: who asks, and for what.
  datatype Request = Request(perms: Permissions, op: Operation)

  function RunAll(s: Store, requests: seq<Request>): Store {
    if requests == [] then s
    else
      var before := RunAll(s, requests[..|requests| - 1]);
      Apply(before, requests[|requests| - 1].perms, requests[|requests| - 1].op)
  }

  // New assets get new ids.
  ghost predicate FreshIds(s: Store, requests: seq<Request>) {
    forall i :: 0 <= i < |requests| && requests[i].op.Create? ==>
      requests[i].op.id !in RunAll(s, requests[..i]).assets
  }

  lemma {:induction false} RunKeeps(s: Store, requests: seq<Request>)
    requires Consistent(s) && FreshIds(s, requests)
    ensures Consistent(RunAll(s, requests))
    decreases |requests|
  {
    if requests != [] {
      var front := requests[..|requests| - 1];
      forall i | 0 <= i < |front| && front[i].op.Create? ensures front[i].op.id !in RunAll(s, front[..i]).assets {
        assert front[..i] == requests[..i];
      }
      RunKeeps(s, front);
      ApplyKeeps(RunAll(s, front), requests[|requests| - 1].perms, requests[|requests| - 1].op);
    }
  }

  /** In every run from an empty store, whoever asks for whatever, each asset's log is a chain
      from 0, and its cached quantity is the replay of its log, the sum of its signed deltas,
      and never negative. */
  lemma EveryRunIsConsistent(requests: seq<Request>, id: Uuid)
    requires FreshIds(Store(map[], []), requests) && id in RunAll(Store(map[], []), requests).assets
    ensures var s := RunAll(Store(map[], []), requests);
            && Chained(s.log)
            && s.assets[id].currentQuantity == Replay(s.log, id) == DeltaSum(s.log, id)
            && 0 <= s.assets[id].currentQuantity
  {
    RunKeeps(Store(map[], []), requests);
    ChainedAgrees(RunAll(Store(map[], []), requests).log, id);
  }

  /** A refused request changes nothing, and an accepted one touches no other asset and no
      other asset's movements: the log keeps them, in order. */
  lemma OthersUntouched(s: Store, perms: Permissions, op: Operation, other: Uuid)
    requires other != op.id
    ensures Refusal(s, perms, op).Some? ==> Apply(s, perms, op) == s
    ensures var t := Apply(s, perms, op);
            && (other in t.assets <==> other in s.assets)
            && (other in s.assets ==> t.assets[other] == s.assets[other])
            && MovementsOf(t.log, other) == MovementsOf(s.log, other)
            && LastNew(t.log, other) == LastNew(s.log, other) && Replay(t.log, other) == Replay(s.log, other)
  {
    if Refusal(s, perms, op).None? {
      match op
      case Create(id, a) =>
        AppendedIgnored(s.log, Movement(id, Entrada, a.currentQuantity, 0, a.currentQuantity), other);
      case Update(id, p) =>
      case Record(id, m) => AppendedIgnored(s.log, Moved(s, id, m).log[|s.log|], other);
      case Remove(id) => WithoutKeepsMovements(s.log, id, other);
    }
    hide LastNew, Replay, MovementsOf;
    MovementsDecide(s.log, other);
    MovementsDecide(Apply(s, perms, op).log, other);
  }

  lemma AppendedIgnored(log: Log, m: Movement, other: Uuid)
    requires m.asset != other
    ensures MovementsOf(log + [m], other) == MovementsOf(log, other)
  {
    assert (log + [m])[..|log + [m]| - 1] == log;
  }

  /** An exit is accepted exactly up to the stock: it never drives the quantity below zero,
      and an accepted one leaves the difference. */
  lemma ExitsStopAtStock(s: Store, perms: Permissions, id: Uuid, quantity: int)
    requires id in s.assets && quantity > 0 && "assets:movement_record" in perms
    ensures Refusal(s, perms, Record(id, MovementIn(Saida, quantity))).None?
            <==> quantity <= s.assets[id].currentQuantity
    ensures var t := Apply(s, perms, Record(id, MovementIn(Saida, quantity)));
            id in t.assets && t.assets[id].currentQuantity
            == if quantity <= s.assets[id].currentQuantity then s.assets[id].currentQuantity - quantity
               else s.assets[id].currentQuantity
  {
  }
}
