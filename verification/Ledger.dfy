/** The movement log of the assets: what it means, and that the cached quantity agrees with
    it. */
module Ledger {
  import opened Uuids

  datatype MovementType = Entrada | Saida | AjusteInventario | BaixaPatrimonial

  datatype Movement = Movement(asset: Uuid, kind: MovementType, quantity: int, previous: int, next: int)

  type Log = seq<Movement>

  // The quantity a movement leaves, from the one it finds.
  function After(kind: MovementType, previous: int, quantity: int): int {
    match kind
    case Entrada => previous + quantity
    case Saida => previous - quantity
    case AjusteInventario => quantity
    case BaixaPatrimonial => if previous - quantity > 0 then previous - quantity else 0
  }

  // The `new_quantity` of an asset's last movement; 0 before the first.
  function LastNew(log: Log, asset: Uuid): int {
    if log == [] then 0
    else if log[|log| - 1].asset == asset then log[|log| - 1].next
    else LastNew(log[..|log| - 1], asset)
  }

  // Each movement starts where its asset's previous one ended, moves by its own rule, and
  // never goes below zero.
  ghost predicate Chained(log: Log) {
    log == [] ||
    var front, last := log[..|log| - 1], log[|log| - 1];
    && Chained(front)
    && last.previous == LastNew(front, last.asset)
    && last.next == After(last.kind, last.previous, last.quantity)
    && 0 <= last.next
  }

  // The quantity obtained by applying an asset's movements in order, from 0.
  function Replay(log: Log, asset: Uuid): int {
    if log == [] then 0
    else
      var before := Replay(log[..|log| - 1], asset);
      var last := log[|log| - 1];
      if last.asset == asset then After(last.kind, before, last.quantity) else before
  }

  // The sum of the signed changes of an asset's movements.
  function DeltaSum(log: Log, asset: Uuid): int {
    if log == [] then 0
    else
      var last := log[|log| - 1];
      DeltaSum(log[..|log| - 1], asset) + if last.asset == asset then last.next - last.previous else 0
  }

  /** In a chained log the last quantity, the replay and the sum of the deltas agree, and
      are never negative. */
  lemma {:induction false} ChainedAgrees(log: Log, asset: Uuid)
    requires Chained(log)
    ensures LastNew(log, asset) == Replay(log, asset) == DeltaSum(log, asset)
    ensures 0 <= LastNew(log, asset)
  {
    if log != [] { ChainedAgrees(log[..|log| - 1], asset); }
  }

  // Movement `j` is the last one of `asset` before position `i`.
  ghost predicate JustBefore(log: Log, asset: Uuid, j: int, i: int) {
    0 <= j < i <= |log| && log[j].asset == asset && forall k :: j < k < i ==> log[k].asset != asset
  }

  /** The links of the chain, position by position: each `previous_quantity` is the
      `new_quantity` of the asset's movement just before it, and 0 at the start. */
  lemma {:induction false} ChainLinks(log: Log, i: nat)
    requires Chained(log) && i < |log|
    ensures Chained(log[..i]) && log[i].previous == LastNew(log[..i], log[i].asset)
    ensures forall j :: JustBefore(log, log[i].asset, j, i) ==> log[i].previous == log[j].next
    decreases |log|
  {
    var front := log[..|log| - 1];
    if i == |log| - 1 {
      forall j | JustBefore(log, log[i].asset, j, i) ensures log[i].previous == log[j].next {
        LastNewAt(front, log[i].asset, j);
      }
    } else {
      ChainLinks(front, i);
      assert front[..i] == log[..i];
      assert forall j :: JustBefore(log, log[i].asset, j, i) ==> JustBefore(front, log[i].asset, j, i);
    }
  }

  lemma {:induction false} LastNewAt(log: Log, asset: Uuid, j: nat)
    requires j < |log| && log[j].asset == asset && forall k :: j < k < |log| ==> log[k].asset != asset
    ensures LastNew(log, asset) == log[j].next
    decreases |log|
  {
    if j < |log| - 1 { LastNewAt(log[..|log| - 1], asset, j); }
  }

  // The log without the movements of a deleted asset.
  function Without(log: Log, asset: Uuid): Log {
    if log == [] then []
    else
      var last := log[|log| - 1];
      Without(log[..|log| - 1], asset) + if last.asset == asset then [] else [last]
  }

  lemma {:induction false} WithoutKeepsOthers(log: Log, asset: Uuid, other: Uuid)
    ensures other != asset ==> LastNew(Without(log, asset), other) == LastNew(log, other)
    ensures LastNew(Without(log, asset), asset) == 0
    ensures forall i :: 0 <= i < |Without(log, asset)| ==> Without(log, asset)[i].asset != asset
    ensures forall m :: m in Without(log, asset) ==> m in log
  {
    if log != [] {
      var front, last := log[..|log| - 1], log[|log| - 1];
      WithoutKeepsOthers(front, asset, other);
      if last.asset != asset {
        assert Without(log, asset)[..|Without(log, asset)| - 1] == Without(front, asset);
      } else {
        assert Without(log, asset) == Without(front, asset);
      }
    }
  }

  /** Deleting an asset with its movements leaves a chained log of the others. */
  lemma {:induction false} WithoutStaysChained(log: Log, asset: Uuid)
    requires Chained(log)
    ensures Chained(Without(log, asset))
  {
    if log != [] {
      var front, last := log[..|log| - 1], log[|log| - 1];
      WithoutStaysChained(front, asset);
      if last.asset != asset {
        WithoutKeepsOthers(front, asset, last.asset);
        assert Without(log, asset)[..|Without(log, asset)| - 1] == Without(front, asset);
      } else {
        assert Without(log, asset) == Without(front, asset);
      }
    }
  }

  // The movements of one asset, in order.
  function MovementsOf(log: Log, asset: Uuid): Log {
    if log == [] then []
    else
      var last := log[|log| - 1];
      MovementsOf(log[..|log| - 1], asset) + if last.asset == asset then [last] else []
  }

  // They are all its quantity depends on.
  lemma {:induction false} MovementsDecide(log: Log, asset: Uuid)
    ensures LastNew(MovementsOf(log, asset), asset) == LastNew(log, asset)
    ensures Replay(MovementsOf(log, asset), asset) == Replay(log, asset)
  {
    if log != [] {
      var front, last := log[..|log| - 1], log[|log| - 1];
      MovementsDecide(front, asset);
      if last.asset == asset {
        assert MovementsOf(log, asset)[..|MovementsOf(log, asset)| - 1] == MovementsOf(front, asset);
      } else {
        assert MovementsOf(log, asset) == MovementsOf(front, asset);
      }
    }
  }

  lemma {:induction false} WithoutKeepsMovements(log: Log, asset: Uuid, other: Uuid)
    requires other != asset
    ensures MovementsOf(Without(log, asset), other) == MovementsOf(log, other)
  {
    if log != [] {
      var front, last := log[..|log| - 1], log[|log| - 1];
      WithoutKeepsMovements(front, asset, other);
      if last.asset != asset {
        assert Without(log, asset)[..|Without(log, asset)| - 1] == Without(front, asset);
      } else {
        assert Without(log, asset) == Without(front, asset);
      }
    }
  }
}
