/** The collision walk and the backfill of the slug migration. */
module SlugBackfill {
  import opened Decimal
  import opened Options
  import opened Slug
  import opened Uuids

  // Python's `s[:k]`: a negative bound counts from the end.
  function SliceTo(s: string, k: int): string {
    if k >= |s| then s
    else if k >= 0 then s[..k]
    else if |s| + k >= 0 then s[..|s| + k]
    else []
  }

  function Suffix(n: nat): string { "-" + Digits(n) }

  function Candidate(base: string, n: nat): string {
    StripRight(SliceTo(base, SLUG_MAX_LENGTH - |Suffix(n)|)) + Suffix(n)
  }

  /** Candidates for different numbers differ: what follows the last hyphen is the number. */
  lemma CandidatesDiffer(base: string, n: nat, k: nat)
    requires Candidate(base, n) == Candidate(base, k)
    ensures n == k
  {
    DigitsSpellTheNumber(n);
    DigitsSpellTheNumber(k);
    SameEnding(StripRight(SliceTo(base, SLUG_MAX_LENGTH - |Suffix(n)|)), Digits(n),
               StripRight(SliceTo(base, SLUG_MAX_LENGTH - |Suffix(k)|)), Digits(k));
  }

  lemma SameEnding(x: string, digits: string, y: string, digits': string)
    requires AllDigits(digits) && AllDigits(digits')
    requires x + ("-" + digits) == y + ("-" + digits')
    ensures digits == digits'
  {
    var s, t := x + ("-" + digits), y + ("-" + digits');
    assert s[|x|] == '-' && t[|y|] == '-';
    assert forall i :: |x| < i < |s| ==> s[i] == digits[i - |x| - 1];
    assert forall i :: |y| < i < |t| ==> t[i] == digits'[i - |y| - 1];
    assert |x| == |y|;
    assert digits == s[|x| + 1..] && digits' == t[|y| + 1..];
  }

  // The slug a walk from `base` ends in: the base itself if free, else the candidate of the
  // smallest number from 2 on that is.
  ghost predicate FirstFree(base: string, taken: set<string>, slug: string) {
    if base !in taken then slug == base
    else exists n: nat :: FirstFreeAt(base, taken, slug, n)
  }

  ghost predicate FirstFreeAt(base: string, taken: set<string>, slug: string, n: nat) {
    && 2 <= n <= |taken| + 2
    && slug == Candidate(base, n) && slug !in taken
    && forall k :: 2 <= k < n ==> Candidate(base, k) in taken
  }

  lemma {:induction false} SubsetCardinality(part: set<string>, whole: set<string>)
    requires part <= whole
    ensures |part| <= |whole|
  {
    if part != {} {
      var x :| x in part;
      SubsetCardinality(part - {x}, whole - {x});
    }
  }

  lemma NewCandidate(base: string, n: nat, tried: set<string>)
    requires forall x :: x in tried ==> exists k :: 2 <= k < n && x == Candidate(base, k)
    ensures Candidate(base, n) !in tried
  {
    hide Candidate;
    forall k | 2 <= k < n ensures Candidate(base, k) != Candidate(base, n) {
      if Candidate(base, k) == Candidate(base, n) { CandidatesDiffer(base, n, k); }
    }
  }

  /** `_first_free_slug`: the walk has no bound of its own; it ends because its candidates
      differ, so at most as many of them as there are taken slugs can be refused. */
  method FirstFreeSlug(base: string, taken: set<string>) returns (slug: string)
    ensures FirstFree(base, taken, slug) && slug !in taken
  {
    hide Digits, StripRight, SliceTo, IsAlnum;
    if base !in taken { return base; }
    var n := 2;
    ghost var tried: set<string> := {};
    while true
      invariant 2 <= n && |tried| == n - 2 && tried <= taken
      invariant forall x :: x in tried ==> exists k :: 2 <= k < n && x == Candidate(base, k)
      invariant forall k :: 2 <= k < n ==> Candidate(base, k) in taken
      decreases |taken - tried|
    {
      SubsetCardinality(tried, taken);
      var suffix := "-" + Digits(n);
      var head := StripRight(SliceTo(base, SLUG_MAX_LENGTH - |suffix|));
      var candidate := head + suffix;
      if candidate !in taken {
        assert FirstFreeAt(base, taken, candidate, n);
        return candidate;
      }
      NewCandidate(base, n, tried);
      assert taken - (tried + {candidate}) == (taken - tried) - {candidate};
      tried := tried + {candidate};
      n := n + 1;
    }
  }

  /** The walk has one possible result. */
  lemma FirstFreeIsUnique(base: string, taken: set<string>, x: string, y: string)
    requires FirstFree(base, taken, x) && FirstFree(base, taken, y)
    ensures x == y
  {
    if base in taken {
      var n: nat :| FirstFreeAt(base, taken, x, n);
      var k: nat :| FirstFreeAt(base, taken, y, k);
      assert n == k;
    }
  }

  // ---------------------------------------------------------------------------
  // Validity
  // ---------------------------------------------------------------------------

  lemma PrefixSpaced(s: string, k: nat)
    requires Hyphenated(s) && k <= |s|
    ensures Spaced(s[..k]) && (s[..k] != [] ==> s[..k][0] != '-')
  {
  }

  lemma SuffixedIsHyphenated(head: string, digits: string)
    requires Hyphenated(head) && head != [] && AllDigits(digits) && digits != []
    ensures Hyphenated(head + ("-" + digits))
  {
    var s := head + ("-" + digits);
    forall i | 0 <= i < |s| ensures IsAlnum(s[i]) || s[i] == '-' {
      if i > |head| { assert s[i] == digits[i - |head| - 1]; }
    }
    forall i | 0 <= i < |s| - 1 ensures s[i] != '-' || s[i + 1] != '-' {
      if i >= |head| { assert s[i + 1] == digits[i - |head|]; }
      if i + 1 == |head| { assert s[i] == head[|head| - 1]; }
    }
  }

  // What is left of a base cut to make room for a suffix.
  lemma CutIsHyphenated(base: string, room: int)
    requires Hyphenated(base) && |base| >= SLUG_MIN_LENGTH && 1 <= room
    ensures var head := StripRight(SliceTo(base, room));
            Hyphenated(head) && head != [] && |head| <= room
            && (2 <= room <= |base| ==> room - 1 <= |head|) && (|base| < room ==> head == base)
  {
    var cut := SliceTo(base, room);
    PrefixSpaced(base, |cut|);
    StripRightKeeps(cut);
  }

  /** A candidate of a valid base, numbered with at most 62 digits, is a valid slug. */
  lemma CandidateIsValid(base: string, n: nat)
    requires IsValidSlug(base) && n < Pow10(62)
    ensures IsValidSlug(Candidate(base, n))
  {
    DigitsSpellTheNumber(n);
    DigitsLength(n, 62);
    hide Pow10, Digits, MatchesPattern, Hyphenated;
    PatternMeans(base);
    var room := SLUG_MAX_LENGTH - |Suffix(n)|;
    CutIsHyphenated(base, room);
    hide StripRight, SliceTo, AllDigits;
    SuffixedIsHyphenated(StripRight(SliceTo(base, room)), Digits(n));
    PatternMeans(Candidate(base, n));
  }

  // ---------------------------------------------------------------------------
  // The backfill
  // ---------------------------------------------------------------------------

  // A tenant row as selected, in `(created_at, id)` order; the name may be null.
  datatype Tenant = Tenant(id: Uuid, createdAt: int, name: Option<string>)

  function NameOf(t: Tenant): string {
    if t.name.Some? then t.name.value else ""
  }

  function Base(u: Unicode, t: Tenant): string { Slugify(u, NameOf(t)) }

  function Taken(slugs: seq<string>): set<string> {
    set s | s in slugs
  }

  // Each row holds the first slug its walk finds free of the earlier rows' slugs.
  ghost predicate Assigned(u: Unicode, rows: seq<Tenant>, slugs: seq<string>) {
    && |slugs| == |rows|
    && forall i :: 0 <= i < |rows| ==>
         FirstFree(Base(u, rows[i]), Taken(slugs[..i]), slugs[i]) && slugs[i] !in slugs[..i]
  }

  class TenantTable {
    // The slug column, null until it is backfilled.
    var slug: map<Uuid, Option<string>>

    constructor (rows: seq<Tenant>)
      requires forall x, y :: x in rows && y in rows && x.id == y.id ==> x == y
      ensures slug == map t | t in rows :: t.id := None
    {
      slug := map t | t in rows :: t.id := None;
    }

    ghost predicate Holds(rows: seq<Tenant>, slugs: seq<string>)
      reads this
    {
      |slugs| == |rows| && forall i :: 0 <= i < |rows| ==> rows[i].id in slug && slug[rows[i].id] == Some(slugs[i])
    }

    /** The loop of `upgrade`: walk, take, update, row by row. */
    method Backfill(u: Unicode, rows: seq<Tenant>)
      requires forall i, j :: 0 <= i < j < |rows| ==> rows[i].id != rows[j].id
      modifies this
      ensures exists slugs :: Assigned(u, rows, slugs) && Holds(rows, slugs)
      ensures forall id :: id in old(slug) && (forall i :: 0 <= i < |rows| ==> rows[i].id != id) ==>
                id in slug && slug[id] == old(slug)[id]
    {
      ghost var slugs: seq<string> := [];
      var taken: set<string> := {};
      for i := 0 to |rows|
        invariant taken == Taken(slugs) && Assigned(u, rows[..i], slugs) && Holds(rows[..i], slugs)
        invariant forall id :: id in old(slug) && (forall j :: 0 <= j < i ==> rows[j].id != id) ==>
                    id in slug && slug[id] == old(slug)[id]
      {
        var free := FirstFreeSlug(Slugify(u, NameOf(rows[i])), taken);
        AssignedExtends(u, rows, i, slugs, free);
        slugs := slugs + [free];
        taken := taken + {free};
        slug := slug[rows[i].id := Some(free)];
      }
      assert rows[..|rows|] == rows;
    }
  }

  lemma AssignedExtends(u: Unicode, rows: seq<Tenant>, i: nat, slugs: seq<string>, free: string)
    requires i < |rows| && Assigned(u, rows[..i], slugs)
    requires FirstFree(Base(u, rows[i]), Taken(slugs), free) && free !in Taken(slugs)
    ensures Assigned(u, rows[..i + 1], slugs + [free]) && Taken(slugs + [free]) == Taken(slugs) + {free}
  {
    hide FirstFree, Base;
    var more := slugs + [free];
    forall j | 0 <= j < i + 1
      ensures FirstFree(Base(u, rows[..i + 1][j]), Taken(more[..j]), more[j]) && more[j] !in more[..j] {
      if j < i {
        assert more[..j] == slugs[..j] && rows[..i + 1][j] == rows[..i][j];
      } else {
        assert more[..j] == slugs;
      }
    }
  }

  lemma {:induction false} TakenSize(slugs: seq<string>)
    ensures |Taken(slugs)| <= |slugs|
  {
    if slugs != [] {
      var front := slugs[..|slugs| - 1];
      TakenSize(front);
      assert Taken(slugs) == Taken(front) + {slugs[|slugs| - 1]};
    }
  }

  /** Whatever the names, the backfill gives every row a valid slug, all different, so the
      NOT NULL unique index can be built; a row keeps its plain derived slug iff no earlier
      row was given it. */
  lemma BackfillIsUnique(u: Unicode, rows: seq<Tenant>, slugs: seq<string>)
    requires Assigned(u, rows, slugs) && |rows| < Pow10(62) - 2
    ensures forall i :: 0 <= i < |rows| ==> IsValidSlug(slugs[i])
    ensures forall i, j :: 0 <= i < j < |rows| ==> slugs[i] != slugs[j]
    ensures forall i :: 0 <= i < |rows| ==> (slugs[i] == Base(u, rows[i]) <==> Base(u, rows[i]) !in slugs[..i])
  {
    forall i | 0 <= i < |rows| ensures IsValidSlug(slugs[i]) {
      var base, taken := Base(u, rows[i]), Taken(slugs[..i]);
      SlugifyIsValid(u, NameOf(rows[i]));
      hide Slugify, Pow10;
      TakenSize(slugs[..i]);
      if base in taken {
        var n: nat :| FirstFreeAt(base, taken, slugs[i], n);
        CandidateIsValid(base, n);
      }
    }
    forall i, j | 0 <= i < j < |rows| ensures slugs[i] != slugs[j] {
      assert slugs[..j][i] == slugs[i];
    }
  }

  // ---------------------------------------------------------------------------
  // The same rows get the same slugs
  // ---------------------------------------------------------------------------

  predicate Before(x: Tenant, y: Tenant) {
    x.createdAt < y.createdAt || (x.createdAt == y.createdAt && x.id.number < y.id.number)
  }

  ghost predicate InOrder(rows: seq<Tenant>) {
    forall i, j :: 0 <= i < j < |rows| ==> Before(rows[i], rows[j])
  }

  lemma {:induction false} OrderIsUnique(x: seq<Tenant>, y: seq<Tenant>)
    requires InOrder(x) && InOrder(y) && forall t :: t in x <==> t in y
    ensures x == y
    decreases |x|
  {
    assert y != [] ==> y[0] in x;
    if x != [] {
      assert x[0] in y && (y != [] ==> y[0] in x);
      assert x[0] == y[0];
      forall t ensures t in x[1..] <==> t in y[1..] {
        if t in x[1..] { assert t in x && Before(x[0], t); }
        if t in y[1..] { assert t in y && Before(y[0], t); }
      }
      OrderIsUnique(x[1..], y[1..]);
    }
  }

  lemma {:induction false} AssignedIsUnique(u: Unicode, rows: seq<Tenant>, x: seq<string>, y: seq<string>, n: nat)
    requires Assigned(u, rows, x) && Assigned(u, rows, y) && n <= |rows|
    ensures x[..n] == y[..n]
  {
    hide FirstFree, Base;
    if n > 0 {
      AssignedIsUnique(u, rows, x, y, n - 1);
      FirstFreeIsUnique(Base(u, rows[n - 1]), Taken(x[..n - 1]), x[n - 1], y[n - 1]);
      assert x[..n] == x[..n - 1] + [x[n - 1]] && y[..n] == y[..n - 1] + [y[n - 1]];
    }
  }

  /** The slugs are a function of the set of rows: the order in which they were stored or
      selected plays no part. */
  lemma BackfillIsDeterministic(u: Unicode, rows: seq<Tenant>, slugs: seq<string>,
                                rows': seq<Tenant>, slugs': seq<string>)
    requires InOrder(rows) && InOrder(rows') && forall t :: t in rows <==> t in rows'
    requires Assigned(u, rows, slugs) && Assigned(u, rows', slugs')
    ensures rows == rows' && slugs == slugs'
  {
    hide FirstFree, Base, Taken;
    OrderIsUnique(rows, rows');
    assert |slugs| == |rows| == |slugs'|;
    hide Assigned, InOrder;
    AssignedIsUnique(u, rows, slugs, slugs', |rows|);
    assert slugs[..|rows|] == slugs && slugs'[..|rows|] == slugs';
  }
}
