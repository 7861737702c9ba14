/** Module bundles, sets of modules switched as one, and the migration that makes older stored
    lists respect them. */
module Bundles {
  import opened Options
  import opened Uuids

  type ModuleName = string
  type Modules = set<ModuleName>

  // The frozen declaration of the repair, equal to the live one.
  const BUNDLES: seq<Modules> :=
    [{"tasks", "categories"}, {"reservations", "spaces"}, {"assets", "inventory"},
     {"visitors", "authorizations", "gate"}]

  predicate Split(listed: Modules, bundle: Modules) {
    0 < |listed * bundle| < |bundle|
  }

  predicate IsSplit(listed: Modules, bundles: seq<Modules>) {
    exists i :: 0 <= i < |bundles| && Split(listed, bundles[i])
  }

  ghost predicate Disjoint(bundles: seq<Modules>) {
    forall i, j :: 0 <= i < j < |bundles| ==> bundles[i] !! bundles[j]
  }

  // A set holds part of a bundle iff it has some member and lacks some member.
  lemma SplitMeans(listed: Modules, bundle: Modules)
    ensures Split(listed, bundle) <==>
            (exists x :: x in bundle && x in listed) && (exists x :: x in bundle && x !in listed)
  {
    var common := listed * bundle;
    Cardinalities(common, bundle);
    if x :| x in bundle && x in listed { assert x in common; }
    if bundle <= listed { assert common == bundle; }
    if common != {} {
      var x :| x in common;
      assert x in bundle && x in listed;
    }
  }

  lemma {:induction false} Cardinalities(part: Modules, whole: Modules)
    requires part <= whole
    ensures |part| <= |whole| && (|part| == |whole| <==> part == whole) && (|part| == 0 <==> part == {})
  {
    if part != {} {
      var x :| x in part;
      Cardinalities(part - {x}, whole - {x});
      assert part == (part - {x}) + {x} && whole == (whole - {x}) + {x};
    } else if whole != {} {
      var x :| x in whole;
      assert |whole| == |whole - {x}| + 1;
    }
  }

  // ---------------------------------------------------------------------------
  // The two repairs
  // ---------------------------------------------------------------------------

  // `disabled -= bundle` for each split bundle.
  function RepairDisabled(disabled: Modules, bundles: seq<Modules>): Modules {
    if bundles == [] then disabled
    else
      var before := RepairDisabled(disabled, bundles[..|bundles| - 1]);
      var bundle := bundles[|bundles| - 1];
      if Split(before, bundle) then before - bundle else before
  }

  // `listed |= bundle` for each split bundle.
  function RepairListed(listed: Modules, bundles: seq<Modules>): Modules {
    if bundles == [] then listed
    else
      var before := RepairListed(listed, bundles[..|bundles| - 1]);
      var bundle := bundles[|bundles| - 1];
      if Split(before, bundle) then before + bundle else before
  }

  method RepairDisabledRow(row: Modules, bundles: seq<Modules>) returns (disabled: Modules)
    ensures disabled == RepairDisabled(row, bundles)
  {
    disabled := row;
    for i := 0 to |bundles|
      invariant disabled == RepairDisabled(row, bundles[..i])
    {
      assert bundles[..i + 1][..i] == bundles[..i];
      if 0 < |disabled * bundles[i]| < |bundles[i]| {
        disabled := disabled - bundles[i];
      }
    }
    assert bundles[..|bundles|] == bundles;
  }

  method RepairListedRow(row: Modules, bundles: seq<Modules>) returns (listed: Modules)
    ensures listed == RepairListed(row, bundles)
  {
    listed := row;
    for i := 0 to |bundles|
      invariant listed == RepairListed(row, bundles[..i])
    {
      assert bundles[..i + 1][..i] == bundles[..i];
      if 0 < |listed * bundles[i]| < |bundles[i]| {
        listed := listed + bundles[i];
      }
    }
    assert bundles[..|bundles|] == bundles;
  }

  // Some bundle containing `x` has a member in the set.
  ghost predicate Touched(x: ModuleName, listed: Modules, bundles: seq<Modules>) {
    exists i :: 0 <= i < |bundles| && x in bundles[i] && bundles[i] * listed != {}
  }

  // Every bundle containing `x` lies inside the set.
  ghost predicate Enclosed(x: ModuleName, disabled: Modules, bundles: seq<Modules>) {
    forall i :: 0 <= i < |bundles| && x in bundles[i] ==> bundles[i] <= disabled
  }

  lemma {:induction false} RepairListedMeans(listed: Modules, bundles: seq<Modules>, x: ModuleName)
    requires Disjoint(bundles)
    ensures x in RepairListed(listed, bundles) <==> x in listed || Touched(x, listed, bundles)
    decreases |bundles|
  {
    if bundles != [] {
      var front, bundle := bundles[..|bundles| - 1], bundles[|bundles| - 1];
      var before := RepairListed(listed, front);
      forall y ensures y in before <==> y in listed || Touched(y, listed, front) {
        RepairListedMeans(listed, front, y);
      }
      // No earlier bundle meets this one, so this one is still as it was listed.
      forall i | 0 <= i < |front| ensures front[i] !! bundle { assert front[i] == bundles[i]; }
      assert forall y :: y in bundle ==> !Touched(y, listed, front);
      SplitMeans(before, bundle);
      if i :| 0 <= i < |bundles| && x in bundles[i] && bundles[i] * listed != {} {
        if i < |front| {
          assert front[i] == bundles[i];
        } else {
          var y :| y in bundles[i] * listed;
        }
      }
      if j :| 0 <= j < |front| && x in front[j] && front[j] * listed != {} { assert bundles[j] == front[j]; }
      if x in bundle {
        if y :| y in bundle && y in listed {
          assert y in bundle * listed;
          assert bundles[|bundles| - 1] * listed != {};
        }
      }
    }
  }

  lemma {:induction false} RepairDisabledMeans(disabled: Modules, bundles: seq<Modules>, x: ModuleName)
    requires Disjoint(bundles)
    ensures x in RepairDisabled(disabled, bundles) <==>
            x in disabled && forall i :: 0 <= i < |bundles| && x in bundles[i] ==> bundles[i] <= disabled
    decreases |bundles|
  {
    if bundles != [] {
      var front, bundle := bundles[..|bundles| - 1], bundles[|bundles| - 1];
      var before := RepairDisabled(disabled, front);
      forall y ensures y in before <==> y in disabled && Enclosed(y, disabled, front) {
        RepairDisabledMeans(disabled, front, y);
      }
      forall i | 0 <= i < |front| ensures front[i] !! bundle { assert front[i] == bundles[i]; }
      assert forall y :: y in bundle ==> Enclosed(y, disabled, front);
      SplitMeans(before, bundle);
      assert Enclosed(x, disabled, bundles) <==> Enclosed(x, disabled, front) && (x in bundle ==> bundle <= disabled);
    }
  }

  // ---------------------------------------------------------------------------
  // The repairs as closures
  // ---------------------------------------------------------------------------

  predicate Whole(listed: Modules, bundles: seq<Modules>) {
    !IsSplit(listed, bundles)
  }

  lemma WholeMeans(listed: Modules, bundles: seq<Modules>)
    ensures Whole(listed, bundles) <==>
            forall i :: 0 <= i < |bundles| ==> bundles[i] <= listed || bundles[i] !! listed
  {
    forall i | 0 <= i < |bundles|
      ensures Split(listed, bundles[i]) <==> !(bundles[i] <= listed || bundles[i] !! listed) {
      SplitMeans(listed, bundles[i]);
    }
  }

  /** The repair of a listed set is its least whole superset. */
  lemma RepairListedIsLeast(listed: Modules, bundles: seq<Modules>)
    requires Disjoint(bundles)
    ensures var r := RepairListed(listed, bundles);
            && listed <= r && Whole(r, bundles)
            && forall w :: listed <= w && Whole(w, bundles) ==> r <= w
  {
    var r := RepairListed(listed, bundles);
    forall x ensures x in r <==> x in listed || Touched(x, listed, bundles) {
      RepairListedMeans(listed, bundles, x);
    }
    forall i | 0 <= i < |bundles| ensures bundles[i] <= r || bundles[i] !! r {
      if bundles[i] * listed != {} {
        assert forall x :: x in bundles[i] ==> Touched(x, listed, bundles);
      } else {
        forall x | x in bundles[i] ensures x !in r {
          assert x !in bundles[i] * listed;
          assert forall j :: 0 <= j < |bundles| && x in bundles[j] ==> j == i;
        }
      }
    }
    WholeMeans(r, bundles);
    forall w | listed <= w && Whole(w, bundles) ensures r <= w {
      WholeMeans(w, bundles);
      forall x | x in r && x !in listed ensures x in w {
        var i :| 0 <= i < |bundles| && x in bundles[i] && bundles[i] * listed != {};
        var y :| y in bundles[i] * listed;
        assert y in bundles[i] && y in w;
      }
    }
  }

  /** The repair of a disabled set is its greatest whole subset: a bundle partly on comes
      entirely on. */
  lemma RepairDisabledIsGreatest(disabled: Modules, bundles: seq<Modules>)
    requires Disjoint(bundles)
    ensures var r := RepairDisabled(disabled, bundles);
            && r <= disabled && Whole(r, bundles)
            && forall w :: w <= disabled && Whole(w, bundles) ==> w <= r
  {
    var r := RepairDisabled(disabled, bundles);
    forall x ensures x in r <==> x in disabled && Enclosed(x, disabled, bundles) {
      RepairDisabledMeans(disabled, bundles, x);
    }
    forall i | 0 <= i < |bundles| ensures bundles[i] <= r || bundles[i] !! r {
      if bundles[i] <= disabled {
        forall x | x in bundles[i] ensures Enclosed(x, disabled, bundles) {
          forall j | 0 <= j < |bundles| && x in bundles[j] ensures bundles[j] <= disabled { assert i == j; }
        }
      }
    }
    WholeMeans(r, bundles);
    forall w | w <= disabled && Whole(w, bundles) ensures w <= r {
      WholeMeans(w, bundles);
      forall x | x in w ensures Enclosed(x, disabled, bundles) {
      }
    }
  }

  /** Both repairs are idempotent, leave a whole set alone, and do not depend on the order
      in which the bundles are visited. */
  lemma RepairsAreClosures(s: Modules, bundles: seq<Modules>, reordered: seq<Modules>)
    requires Disjoint(bundles) && Disjoint(reordered)
    requires forall b :: b in bundles <==> b in reordered
    ensures RepairListed(RepairListed(s, bundles), bundles) == RepairListed(s, bundles)
    ensures RepairDisabled(RepairDisabled(s, bundles), bundles) == RepairDisabled(s, bundles)
    ensures RepairListed(s, bundles) == RepairListed(s, reordered)
    ensures RepairDisabled(s, bundles) == RepairDisabled(s, reordered)
    ensures Whole(s, bundles) ==> RepairListed(s, bundles) == s == RepairDisabled(s, bundles)
  {
    WholeKept(s, bundles);
    RepairListedIsLeast(s, bundles);
    RepairDisabledIsGreatest(s, bundles);
    WholeKept(RepairListed(s, bundles), bundles);
    WholeKept(RepairDisabled(s, bundles), bundles);
    RepairListedIsLeast(s, reordered);
    RepairDisabledIsGreatest(s, reordered);
    forall w ensures Whole(w, bundles) == Whole(w, reordered) {
      SameWhole(w, bundles, reordered);
    }
  }

  lemma SameWhole(w: Modules, bundles: seq<Modules>, reordered: seq<Modules>)
    requires forall b :: b in bundles <==> b in reordered
    ensures Whole(w, bundles) == Whole(w, reordered)
  {
    if i :| 0 <= i < |bundles| && Split(w, bundles[i]) { assert bundles[i] in reordered; }
    if i :| 0 <= i < |reordered| && Split(w, reordered[i]) { assert reordered[i] in bundles; }
  }

  lemma WholeKept(s: Modules, bundles: seq<Modules>)
    requires Disjoint(bundles)
    ensures Whole(s, bundles) ==> RepairListed(s, bundles) == s == RepairDisabled(s, bundles)
  {
    RepairListedIsLeast(s, bundles);
    RepairDisabledIsGreatest(s, bundles);
  }

  lemma RepairListedStays(listed: Modules, bundles: seq<Modules>, universe: Modules)
    requires Disjoint(bundles) && listed <= universe
    requires forall i :: 0 <= i < |bundles| ==> bundles[i] <= universe
    ensures RepairListed(listed, bundles) <= universe
  {
    WholeMeans(universe, bundles);
    RepairListedIsLeast(listed, bundles);
  }

  /** The negative form: repairing a disabled list is repairing its complement upward. */
  lemma RepairsAreDual(universe: Modules, listed: Modules, bundles: seq<Modules>)
    requires Disjoint(bundles) && listed <= universe
    requires forall i :: 0 <= i < |bundles| ==> bundles[i] <= universe
    ensures RepairDisabled(universe - listed, bundles) == universe - RepairListed(listed, bundles)
  {
    var disabled := universe - listed;
    forall x ensures x in RepairDisabled(disabled, bundles) <==> x in universe - RepairListed(listed, bundles) {
      RepairDisabledMeans(disabled, bundles, x);
      RepairListedMeans(listed, bundles, x);
      forall i | 0 <= i < |bundles| ensures bundles[i] <= disabled <==> bundles[i] * listed == {} {
        if bundles[i] <= disabled { assert forall y :: y in bundles[i] ==> y !in listed; }
        if bundles[i] * listed == {} { assert forall y :: y in bundles[i] ==> y !in bundles[i] * listed; }
      }
      if Touched(x, listed, bundles) {
        var i :| 0 <= i < |bundles| && x in bundles[i] && bundles[i] * listed != {};
        assert x in universe;
      }
    }
  }

  // ---------------------------------------------------------------------------
  // The declaration and its check
  // ---------------------------------------------------------------------------

  datatype BundleError =
    | TooSmall(key: string)
    | UnknownModules(key: string)
    | CoreModules(key: string)
    | InTwoBundles(modules: Modules)

  // A declared bundle: its key and its members.
  datatype Declared = Declared(key: string, members: Modules)

  function Members(declared: seq<Declared>): seq<Modules> {
    seq(|declared|, i requires 0 <= i < |declared| => declared[i].members)
  }

  predicate GoodBundle(members: Modules, known: Modules, core: Modules) {
    |members| >= 2 && members <= known && members * core == {}
  }

  // What a declaration must satisfy: at least two known, non-core modules each, no module
  // in two bundles.
  ghost predicate WellDeclared(declared: seq<Declared>, known: Modules, core: Modules) {
    && (forall i :: 0 <= i < |declared| ==> GoodBundle(declared[i].members, known, core))
    && Disjoint(Members(declared))
  }

  ghost predicate SeenBefore(declared: seq<Declared>, i: nat, seen: Modules)
    requires i <= |declared|
  {
    forall x :: x in seen <==> exists j :: 0 <= j < i && x in declared[j].members
  }

  /** `_validate_bundles` accepts exactly the well-formed declarations. */
  method ValidateBundles(declared: seq<Declared>, known: Modules, core: Modules) returns (r: Option<BundleError>)
    ensures r == None <==> WellDeclared(declared, known, core)
  {
    hide Members, SeenBefore, Disjoint;
    var seen: Modules := {};
    NothingSeen(declared);
    for i := 0 to |declared|
      invariant forall j :: 0 <= j < i ==> GoodBundle(declared[j].members, known, core)
      invariant Disjoint(Members(declared[..i])) && SeenBefore(declared, i, seen)
    {
      var bundle := declared[i];
      if |bundle.members| < 2 { return Some(TooSmall(bundle.key)); }
      if !(bundle.members <= known) { return Some(UnknownModules(bundle.key)); }
      if bundle.members * core != {} { return Some(CoreModules(bundle.key)); }
      var dupes := bundle.members * seen;
      if dupes != {} {
        OverlapRefused(declared, i, seen);
        return Some(InTwoBundles(dupes));
      }
      DisjointExtends(declared, i, seen);
      SeenExtends(declared, i, seen);
      seen := seen + bundle.members;
    }
    assert declared[..|declared|] == declared;
    return None;
  }

  lemma NothingSeen(declared: seq<Declared>)
    ensures Disjoint(Members(declared[..0])) && SeenBefore(declared, 0, {})
  {
  }

  lemma SeenExtends(declared: seq<Declared>, i: nat, seen: Modules)
    requires i < |declared| && SeenBefore(declared, i, seen)
    ensures SeenBefore(declared, i + 1, seen + declared[i].members)
  {
  }

  lemma OverlapRefused(declared: seq<Declared>, i: nat, seen: Modules)
    requires i < |declared| && SeenBefore(declared, i, seen) && declared[i].members * seen != {}
    ensures !Disjoint(Members(declared))
  {
    var x :| x in declared[i].members * seen;
    var j :| 0 <= j < i && x in declared[j].members;
    assert Members(declared)[j] == declared[j].members && Members(declared)[i] == declared[i].members;
  }

  lemma DisjointExtends(declared: seq<Declared>, i: nat, seen: Modules)
    requires i < |declared| && Disjoint(Members(declared[..i]))
    requires SeenBefore(declared, i, seen) && declared[i].members * seen == {}
    ensures Disjoint(Members(declared[..i + 1]))
  {
    var more, less := Members(declared[..i + 1]), Members(declared[..i]);
    forall j, k | 0 <= j < k < |more| ensures more[j] !! more[k] {
      if k < i {
        assert more[j] == less[j] && more[k] == less[k];
      } else {
        forall x | x in more[j] ensures x !in more[k] {
          assert x in declared[j].members && x in seen;
          assert x !in declared[i].members * seen;
        }
      }
    }
  }

  /** The key of the first bundle a module belongs to; in a well-formed declaration it is
      the only one. */
  method BundleOf(declared: seq<Declared>, name: ModuleName) returns (r: Option<string>)
    ensures r == None <==> forall i :: 0 <= i < |declared| ==> name !in declared[i].members
    ensures r.Some? ==> exists i :: 0 <= i < |declared| && name in declared[i].members && r.value == declared[i].key
    ensures Disjoint(Members(declared)) ==>
              forall i :: 0 <= i < |declared| && name in declared[i].members ==> r == Some(declared[i].key)
  {
    for i := 0 to |declared|
      invariant forall j :: 0 <= j < i ==> name !in declared[j].members
    {
      if name in declared[i].members {
        forall k | 0 <= k < |declared| && name in declared[k].members && Disjoint(Members(declared))
          ensures k == i {
          assert Members(declared)[k] == declared[k].members && Members(declared)[i] == declared[i].members;
        }
        return Some(declared[i].key);
      }
    }
    return None;
  }

  // The keys of a declaration are those of a dictionary.
  predicate DistinctKeys(declared: seq<Declared>) {
    forall i, j :: 0 <= i < j < |declared| ==> declared[i].key != declared[j].key
  }

  // Each bundle only partly in the set, with the members it lacks.
  function SplitBundles(active: Modules, declared: seq<Declared>): map<string, Modules>
    requires DistinctKeys(declared)
  {
    map d | d in declared && d.members * active != {} && !(d.members <= active) :: d.key := d.members - active
  }

  /** Nothing is reported split exactly when the set is whole; the two repairs therefore
      leave nothing to report, on the listed set and on the complement of a disabled one. */
  lemma SplitBundlesEmpty(active: Modules, universe: Modules, declared: seq<Declared>)
    requires DistinctKeys(declared)
    ensures SplitBundles(active, declared) == map[] <==> Whole(active, Members(declared))
    ensures Disjoint(Members(declared)) ==>
              SplitBundles(RepairListed(active, Members(declared)), declared) == map[]
    ensures Disjoint(Members(declared)) && active <= universe
            && (forall i :: 0 <= i < |declared| ==> declared[i].members <= universe) ==>
              SplitBundles(universe - RepairDisabled(universe - active, Members(declared)), declared) == map[]
  {
    SplitBundlesMeans(active, declared);
    var bundles := Members(declared);
    if Disjoint(bundles) {
      RepairListedIsLeast(active, bundles);
      SplitBundlesMeans(RepairListed(active, bundles), declared);
      if active <= universe && forall i :: 0 <= i < |declared| ==> declared[i].members <= universe {
        RepairsAreDual(universe, active, bundles);
        RepairListedStays(active, bundles, universe);
        assert universe - RepairDisabled(universe - active, bundles) == RepairListed(active, bundles);
      }
    }
  }

  lemma SplitBundlesMeans(active: Modules, declared: seq<Declared>)
    requires DistinctKeys(declared)
    ensures SplitBundles(active, declared) == map[] <==> Whole(active, Members(declared))
  {
    var bundles, split := Members(declared), SplitBundles(active, declared);
    WholeMeans(active, bundles);
    if i :| 0 <= i < |bundles| && !(bundles[i] <= active) && !(bundles[i] !! active) {
      var d := declared[i];
      assert d in declared && bundles[i] == d.members;
      var x :| x in d.members && x in active;
      assert x in d.members * active;
      assert d.key in split;
    } else {
      forall key ensures key !in split {
        if d :| d in declared && d.key == key && d.members * active != {} && !(d.members <= active) {
          var i :| 0 <= i < |declared| && declared[i] == d;
          assert bundles[i] == d.members;
        }
      }
    }
  }

  // ---------------------------------------------------------------------------
  // The backfill of the three tables
  // ---------------------------------------------------------------------------

  // A stored list; None is a null column.
  type Column = map<Uuid, Option<Modules>>

  function Stored(cell: Option<Modules>): Modules {
    if cell.Some? then cell.value else {}
  }

  function Backfilled(table: Column, bundles: seq<Modules>, disabled: bool): Column {
    map id | id in table ::
      if !IsSplit(Stored(table[id]), bundles) then table[id]
      else Some(if disabled then RepairDisabled(Stored(table[id]), bundles)
                else RepairListed(Stored(table[id]), bundles))
  }

  class Tables {
    var disabledModules: Column
    var includedModules: Column
    var courtesyModules: Column

    constructor (disabled: Column, included: Column, courtesy: Column)
      ensures disabledModules == disabled && includedModules == included && courtesyModules == courtesy
    {
      disabledModules, includedModules, courtesyModules := disabled, included, courtesy;
    }

    /** `backfill`: tenants are repaired on their disabled list, plans and subscriptions on
        their listed one; a row that is not split is not written. */
    method Backfill(bundles: seq<Modules>)
      modifies this
      ensures disabledModules == Backfilled(old(disabledModules), bundles, true)
      ensures includedModules == Backfilled(old(includedModules), bundles, false)
      ensures courtesyModules == Backfilled(old(courtesyModules), bundles, false)
    {
      disabledModules := BackfillColumn(disabledModules, bundles, true);
      includedModules := BackfillColumn(includedModules, bundles, false);
      courtesyModules := BackfillColumn(courtesyModules, bundles, false);
    }
  }

  method BackfillColumn(table: Column, bundles: seq<Modules>, disabled: bool) returns (r: Column)
    ensures r == Backfilled(table, bundles, disabled)
  {
    hide RepairListed, RepairDisabled, Split;
    r := table;
    var expected := Backfilled(table, bundles, disabled);
    var rows := table.Keys;
    while rows != {}
      invariant rows <= table.Keys == r.Keys
      invariant forall id :: id in table ==> r[id] == if id in rows then table[id] else expected[id]
      decreases rows
    {
      var id :| id in rows;
      var stored := Stored(table[id]);
      if IsSplit(stored, bundles) {
        var repaired;
        if disabled {
          repaired := RepairDisabledRow(stored, bundles);
        } else {
          repaired := RepairListedRow(stored, bundles);
        }
        r := r[id := Some(repaired)];
      }
      rows := rows - {id};
    }
  }

  /** After the backfill every stored list is whole, so a second backfill writes nothing. */
  lemma BackfillIsIdempotent(table: Column, bundles: seq<Modules>, disabled: bool)
    requires Disjoint(bundles)
    ensures var r := Backfilled(table, bundles, disabled);
            && (forall id :: id in r ==> Whole(Stored(r[id]), bundles))
            && Backfilled(r, bundles, disabled) == r
  {
    var r := Backfilled(table, bundles, disabled);
    forall id | id in r ensures Whole(Stored(r[id]), bundles) {
      RepairListedIsLeast(Stored(table[id]), bundles);
      RepairDisabledIsGreatest(Stored(table[id]), bundles);
    }
  }

  /** The frozen declaration is pairwise disjoint, so every result above is about it. */
  lemma DeclaredBundlesAreDisjoint()
    ensures Disjoint(BUNDLES)
  {
    assert BUNDLES[0] !! BUNDLES[1] && BUNDLES[0] !! BUNDLES[2] && BUNDLES[0] !! BUNDLES[3];
    assert BUNDLES[1] !! BUNDLES[2] && BUNDLES[1] !! BUNDLES[3] && BUNDLES[2] !! BUNDLES[3];
  }
}
