/** The condominium slug: its one producer, `slugify`, and its one judge, `is_valid_slug`.
    The Unicode tables are a parameter; all that is used of them is that they leave ASCII
    text alone. */
module Slug {

  datatype Unicode = Unicode(nfkd: string -> string, combining: char -> bool)
  {
    ghost predicate Sound() {
      && (forall s :: AllAscii(s) ==> nfkd(s) == s)
      && (forall c: char :: IsAscii(c) ==> !combining(c))
    }
  }

  const SLUG_MIN_LENGTH: nat := 3
  const SLUG_MAX_LENGTH: nat := 64
  const SLUG_MAX_BASE_LENGTH: nat := 60
  const SLUG_FALLBACK_BASE := "condominio"

  predicate IsAscii(c: char) { c < '\U{80}' }

  predicate AllAscii(s: string) {
    forall i :: 0 <= i < |s| ==> IsAscii(s[i])
  }

  predicate IsAlnum(c: char) { '0' <= c <= '9' || 'a' <= c <= 'z' }

  // ---------------------------------------------------------------------------
  // The producer
  // ---------------------------------------------------------------------------

  // Combining marks and then everything outside ASCII are dropped.
  function KeepAscii(u: Unicode, s: string): string {
    if s == [] then []
    else if !u.combining(s[0]) && IsAscii(s[0]) then [s[0]] + KeepAscii(u, s[1..])
    else KeepAscii(u, s[1..])
  }

  function LowerChar(c: char): char {
    if 'A' <= c <= 'Z' then c - 'A' + 'a' else c
  }

  function Lower(s: string): string {
    if s == [] then [] else [LowerChar(s[0])] + Lower(s[1..])
  }

  // Every maximal run outside [a-z0-9] becomes one hyphen; `inRun` says that the hyphen
  // of the current run is already there.
  function Hyphenate(s: string, inRun: bool): string {
    if s == [] then []
    else if IsAlnum(s[0]) then [s[0]] + Hyphenate(s[1..], false)
    else if inRun then Hyphenate(s[1..], true)
    else "-" + Hyphenate(s[1..], true)
  }

  function StripLeft(s: string): string {
    if s != [] && s[0] == '-' then StripLeft(s[1..]) else s
  }

  function StripRight(s: string): string {
    if s != [] && s[|s| - 1] == '-' then StripRight(s[..|s| - 1]) else s
  }

  function Strip(s: string): string { StripRight(StripLeft(s)) }

  function Truncate(s: string, n: nat): string {
    if |s| <= n then s else s[..n]
  }

  function Slugify(u: Unicode, name: string): string {
    var hyphenated := Strip(Hyphenate(Lower(KeepAscii(u, u.nfkd(name))), false));
    var truncated := Strip(Truncate(hyphenated, SLUG_MAX_BASE_LENGTH));
    if |truncated| < SLUG_MIN_LENGTH then SLUG_FALLBACK_BASE else truncated
  }

  // ---------------------------------------------------------------------------
  // The judge: `^[a-z0-9]+(-[a-z0-9]+)*$`
  // ---------------------------------------------------------------------------

  predicate AllAlnum(s: string) {
    forall i :: 0 <= i < |s| ==> IsAlnum(s[i])
  }

  // `(-[a-z0-9]+)*`
  predicate MatchesTail(s: string)
    decreases |s|
  {
    s == [] || (s[0] == '-' && exists j :: 1 < j <= |s| && AllAlnum(s[1..j]) && MatchesTail(s[j..]))
  }

  predicate MatchesPattern(s: string) {
    exists i :: 0 < i <= |s| && AllAlnum(s[..i]) && MatchesTail(s[i..])
  }

  predicate IsValidSlug(value: string) {
    SLUG_MIN_LENGTH <= |value| <= SLUG_MAX_LENGTH && MatchesPattern(value)
  }

  // ---------------------------------------------------------------------------
  // The pattern, character by character
  // ---------------------------------------------------------------------------

  // Alphanumerics and hyphens, no two hyphens together.
  ghost predicate Spaced(s: string) {
    && (forall i :: 0 <= i < |s| ==> IsAlnum(s[i]) || s[i] == '-')
    && (forall i :: 0 <= i < |s| - 1 ==> s[i] != '-' || s[i + 1] != '-')
  }

  // Spaced, and neither starting nor ending in a hyphen.
  ghost predicate Hyphenated(s: string) {
    Spaced(s) && (s != [] ==> s[0] != '-' && s[|s| - 1] != '-')
  }

  // The alphanumerics at the front of a string.
  function AlnumSpan(s: string): (n: nat)
    ensures n <= |s| && AllAlnum(s[..n]) && (n < |s| ==> !IsAlnum(s[n]))
  {
    if s != [] && IsAlnum(s[0]) then 1 + AlnumSpan(s[1..]) else 0
  }

  lemma {:induction false} TailMatches(s: string)
    requires Spaced(s) && (s != [] ==> s[0] == '-' && s[|s| - 1] != '-')
    ensures MatchesTail(s)
    decreases |s|
  {
    if s != [] {
      var rest := s[1..];
      var n := AlnumSpan(rest);
      assert rest[0] == s[1] && IsAlnum(rest[0]);
      var j := n + 1;
      assert s[1..j] == rest[..n];
      assert s[j..] == rest[n..];
      TailMatches(s[j..]);
    }
  }

  lemma {:induction false} TailIsSpaced(s: string)
    requires MatchesTail(s)
    ensures Spaced(s) && (s != [] ==> s[0] == '-' && s[|s| - 1] != '-')
    decreases |s|
  {
    if s != [] {
      var j :| 1 < j <= |s| && AllAlnum(s[1..j]) && MatchesTail(s[j..]);
      TailIsSpaced(s[j..]);
      Joined(s, 1, j);
    }
  }

  // A block of alphanumerics between `i` and `j`, hyphens only before `i` and from `j` on.
  lemma Joined(s: string, i: nat, j: nat)
    requires i < j <= |s| && i <= 1 && (i == 1 ==> s[0] == '-') && AllAlnum(s[i..j])
    requires Spaced(s[j..]) && (j < |s| ==> s[|s| - 1] != '-')
    ensures Spaced(s) && s[|s| - 1] != '-'
  {
    forall k | i <= k < j ensures IsAlnum(s[k]) { assert IsAlnum(s[i..j][k - i]); }
    forall k | j <= k < |s| ensures IsAlnum(s[k]) || s[k] == '-' { assert s[j..][k - j] == s[k]; }
    forall k | 0 <= k < |s| - 1 ensures s[k] != '-' || s[k + 1] != '-' {
      if j <= k { assert s[j..][k - j] == s[k] && s[j..][k + 1 - j] == s[k + 1]; }
    }
    if j == |s| { assert s[i..j][j - 1 - i] == s[j - 1]; }
  }

  /** The regular expression accepts exactly the non-empty strings of alphanumerics and
      hyphens with no leading, trailing or doubled hyphen. */
  lemma PatternMeans(s: string)
    ensures MatchesPattern(s) <==> s != [] && Hyphenated(s)
  {
    if s != [] && Hyphenated(s) {
      var n := AlnumSpan(s);
      assert n > 0;
      TailMatches(s[n..]);
    }
    if MatchesPattern(s) {
      var i :| 0 < i <= |s| && AllAlnum(s[..i]) && MatchesTail(s[i..]);
      TailIsSpaced(s[i..]);
      assert s[0..i] == s[..i];
      if i < |s| { assert s[i..][|s[i..]| - 1] == s[|s| - 1]; }
      Joined(s, 0, i);
      assert s[..i][0] == s[0];
    }
  }

  // ---------------------------------------------------------------------------
  // Every slug is valid
  // ---------------------------------------------------------------------------

  lemma {:induction false} HyphenateSpaces(s: string, inRun: bool)
    ensures Spaced(Hyphenate(s, inRun))
    ensures inRun && Hyphenate(s, inRun) != [] ==> Hyphenate(s, inRun)[0] != '-'
  {
    if s != [] {
      HyphenateSpaces(s[1..], !IsAlnum(s[0]));
    }
  }

  lemma {:induction false} StripLeftKeeps(s: string)
    requires Spaced(s)
    ensures Spaced(StripLeft(s)) && |StripLeft(s)| <= |s| && (StripLeft(s) != [] ==> StripLeft(s)[0] != '-')
  {
    if s != [] && s[0] == '-' { StripLeftKeeps(s[1..]); }
  }

  lemma {:induction false} StripRightKeeps(s: string)
    requires Spaced(s)
    ensures StripRight(s) <= s && Spaced(StripRight(s))
    ensures StripRight(s) != [] ==> StripRight(s)[|StripRight(s)| - 1] != '-'
    ensures s != [] && s[0] != '-' ==> StripRight(s) != []
    ensures |s| <= |StripRight(s)| + 1
  {
    if s != [] && s[|s| - 1] == '-' {
      var front := s[..|s| - 1];
      StripRightKeeps(front);
      if front != [] { assert front[|front| - 1] == s[|s| - 2] != '-'; }
    }
  }

  lemma StripHyphenates(s: string)
    requires Spaced(s)
    ensures Hyphenated(Strip(s)) && |Strip(s)| <= |s|
  {
    StripLeftKeeps(s);
    StripRightKeeps(StripLeft(s));
  }

  /** The producer satisfies the judge: whatever the name, its slug is valid and leaves room
      for a suffix. */
  lemma SlugifyIsValid(u: Unicode, name: string)
    ensures IsValidSlug(Slugify(u, name)) && |Slugify(u, name)| <= SLUG_MAX_BASE_LENGTH
  {
    var spaced := Hyphenate(Lower(KeepAscii(u, u.nfkd(name))), false);
    HyphenateSpaces(Lower(KeepAscii(u, u.nfkd(name))), false);
    StripHyphenates(spaced);
    StripHyphenates(Truncate(Strip(spaced), SLUG_MAX_BASE_LENGTH));
    PatternMeans(Slugify(u, name));
  }

  // ---------------------------------------------------------------------------
  // Every short valid slug is its own slug
  // ---------------------------------------------------------------------------

  lemma {:induction false} KeepAsciiIdentity(u: Unicode, s: string)
    requires u.Sound() && AllAscii(s)
    ensures KeepAscii(u, s) == s
  {
    if s != [] {
      assert IsAscii(s[0]);
      KeepAsciiIdentity(u, s[1..]);
    }
  }

  lemma {:induction false} LowerIdentity(s: string)
    requires forall i :: 0 <= i < |s| ==> IsAlnum(s[i]) || s[i] == '-'
    ensures Lower(s) == s
  {
    if s != [] { LowerIdentity(s[1..]); }
  }

  lemma {:induction false} HyphenateIdentity(s: string, inRun: bool)
    requires Spaced(s) && (inRun && s != [] ==> s[0] != '-')
    ensures Hyphenate(s, inRun) == s
  {
    if s != [] {
      if |s| > 1 { assert s[1..][0] == s[1]; }
      HyphenateIdentity(s[1..], !IsAlnum(s[0]));
    }
  }

  /** On a valid slug the producer is the identity exactly when the slug fits the base
      length: a typed slug of 61 to 64 characters is cut. */
  lemma SlugifyIdentity(u: Unicode, slug: string)
    requires u.Sound() && IsValidSlug(slug)
    ensures Slugify(u, slug) == slug <==> |slug| <= SLUG_MAX_BASE_LENGTH
  {
    SlugifyIsValid(u, slug);
    PatternMeans(slug);
    assert AllAscii(slug);
    KeepAsciiIdentity(u, slug);
    LowerIdentity(slug);
    HyphenateIdentity(slug, false);
  }

  /** Slugging a slug changes nothing. */
  lemma SlugifyIdempotent(u: Unicode, name: string)
    requires u.Sound()
    ensures Slugify(u, Slugify(u, name)) == Slugify(u, name)
  {
    SlugifyIsValid(u, name);
    SlugifyIdentity(u, Slugify(u, name));
  }
}
