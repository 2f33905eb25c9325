// Finding a name nobody has: tmux session names and repository slugs
// (cmd/orchard-sidebar/launch.go, daemon/git/discovery.go).

module Numerals {
  function Digit(d: nat): char
    requires d < 10
  {
    "0123456789"[d]
  }

  function Value(c: char): nat { if '0' <= c <= '9' then (c as int) - ('0' as int) else 0 }

  /** Decimal, no leading zeros. */
  function Itoa(n: nat): (s: string)
    ensures s != [] && forall c <- s :: '0' <= c <= '9'
    ensures n > 0 ==> s[0] != '0'
  {
    if n < 10 then [Digit(n)] else Itoa(n / 10) + [Digit(n % 10)]
  }

  function Atoi(s: string): nat {
    if s == [] then 0 else Atoi(s[..|s| - 1]) * 10 + Value(s[|s| - 1])
  }

  lemma {:induction false} AtoiItoa(n: nat)
    ensures Atoi(Itoa(n)) == n
  {
    if n < 10 {
      assert Itoa(n)[..0] == [];
    } else {
      AtoiItoa(n / 10);
      assert Itoa(n)[..|Itoa(n)| - 1] == Itoa(n / 10);
    }
  }
}

module FreshNames {
  import opened Numerals
  import opened Options
  import opened Sequences
  import opened Text

  function Numbered(base: string, n: nat): string { base + "-" + Itoa(n) }

  lemma NumberedIsDistinct(base: string, m: nat, n: nat)
    requires m != n
    ensures Numbered(base, m) != Numbered(base, n)
    ensures Numbered(base, m) != base && Numbered(base, m) != base + "-x"
  {
    AtoiItoa(m);
    AtoiItoa(n);
    assert Numbered(base, m)[|base| + 1..] == Itoa(m) && Numbered(base, n)[|base| + 1..] == Itoa(n);
    assert (base + "-x")[|base| + 1..] == ['x'] && Itoa(m)[0] in Itoa(m);
  }

  /** base, base-2, ..., base-(hi-1). */
  function Candidates(base: string, hi: nat): (names: set<string>)
    requires hi >= 2
    ensures base in names && forall n: nat :: 2 <= n < hi ==> Numbered(base, n) in names
  {
    if hi == 2 then {base} else Candidates(base, hi - 1) + {Numbered(base, hi - 1)}
  }

  lemma {:induction false} CandidatesAreDistinct(base: string, hi: nat)
    requires hi >= 2
    ensures |Candidates(base, hi)| == hi - 1 && base + "-x" !in Candidates(base, hi)
    ensures forall n: nat :: n >= hi ==> Numbered(base, n) !in Candidates(base, hi)
  {
    if hi > 2 {
      CandidatesAreDistinct(base, hi - 1);
      forall n: nat | n >= hi
        ensures Numbered(base, n) !in Candidates(base, hi)
      {
        NumberedIsDistinct(base, n, hi - 1);
      }
      NumberedIsDistinct(base, hi - 1, hi);
    } else {
      forall n: nat | n >= hi
        ensures Numbered(base, n) !in Candidates(base, hi)
      {
        NumberedIsDistinct(base, n, 0);
      }
      assert |base + "-x"| != |base|;
    }
  }

  lemma {:induction false} CandidatesWithin(base: string, hi: nat, taken: set<string>)
    requires hi >= 2 && base in taken && forall n: nat :: 2 <= n < hi ==> Numbered(base, n) in taken
    ensures Candidates(base, hi) <= taken
  {
    if hi > 2 {
      CandidatesWithin(base, hi - 1, taken);
    }
  }

  lemma SubsetSize<T>(a: set<T>, b: set<T>)
    requires a <= b
    ensures |a| <= |b|
  {
    assert b == a + (b - a);
  }

  /** Pigeonhole: numbering cannot have got past one more than the names there are. */
  lemma Pigeonhole(base: string, hi: nat, taken: set<string>)
    requires hi >= 2 && base in taken && forall n: nat :: 2 <= n < hi ==> Numbered(base, n) in taken
    ensures hi <= |taken| + 1
  {
    CandidatesWithin(base, hi, taken);
    CandidatesAreDistinct(base, hi);
    SubsetSize(Candidates(base, hi), taken);
  }

  // ---- session names ------------------------------------------------------------------------

  predicate Structural(c: char) { c == '.' || c == ':' || c == ' ' }

  predicate IsDash(c: char) { c == '-' }

  function Replaced(s: string): (r: string)
    ensures |r| == |s| && forall i :: 0 <= i < |s| ==> r[i] == if Structural(s[i]) then '-' else s[i]
  {
    seq(|s|, i requires 0 <= i < |s| => if Structural(s[i]) then '-' else s[i])
  }

  /** What tmux reads as structure becomes a dash, and the edges are trimmed. */
  function SessionSafe(s: string): string { Trim(Replaced(TrimSpace(s)), IsDash) }

  /** Trimming keeps a stretch of the text whose edges are not cut characters. */
  lemma TrimEdges(s: string, cut: char -> bool)
    ensures var t := Trim(s, cut);
            && (t != [] ==> !cut(t[0]) && !cut(t[|t| - 1]))
            && |t| <= |s| && forall c <- t :: c in s
  {
    var left := TrimLeft(s, cut);
    var t := TrimRight(left, cut);
    hide TrimLeft, TrimRight;
    forall c | c in t
      ensures c in s
    {
      var i :| 0 <= i < |t| && t[i] == c;
      assert left[i] == s[|s| - |left| + i];
    }
  }

  lemma TrimIdentity(s: string, cut: char -> bool)
    requires s == [] || (!cut(s[0]) && !cut(s[|s| - 1]))
    ensures Trim(s, cut) == s
  {
  }

  lemma TrimShortens(s: string, cut: char -> bool)
    requires s != [] && (cut(s[0]) || cut(s[|s| - 1]))
    ensures |Trim(s, cut)| < |s|
  {
    var left := TrimLeft(s, cut);
    if left == s && cut(s[|s| - 1]) {
      assert TrimRight(s, cut) <= s[..|s| - 1];
    }
  }

  /** A safe name has nothing tmux reads as structure and no dash at its edges. */
  lemma SafeIsSafe(s: string)
    ensures var r := SessionSafe(s);
            && (forall c <- r :: c != '.' && c != ':' && c != ' ')
            && (r != [] ==> r[0] != '-' && r[|r| - 1] != '-')
  {
    hide Trim, TrimSpace;
    TrimEdges(Replaced(TrimSpace(s)), IsDash);
  }

  /** What is left between the cut characters at both ends. */
  lemma TrimIsStretch(s: string, cut: char -> bool) returns (lo: nat, hi: nat)
    ensures lo <= hi <= |s| && Trim(s, cut) == s[lo..hi]
    ensures forall k :: 0 <= k < |s| && !(lo <= k < hi) ==> cut(s[k])
  {
    var left := TrimLeft(s, cut);
    var t := TrimRight(left, cut);
    hide TrimLeft, TrimRight;
    lo, hi := |s| - |left|, |s| - |left| + |t|;
    forall k | hi <= k < |s|
      ensures cut(s[k])
    {
      assert left[k - lo] == s[k];
    }
  }

  /** It is a stretch of the text with the structure dashed, and all that is left off at either end is space,
      structure or dashes. */
  lemma SafeIsStretch(s: string) returns (lo: nat, hi: nat)
    ensures var r := SessionSafe(s);
            && lo <= hi <= |s| && |r| == hi - lo
            && (forall k :: 0 <= k < |r| ==> r[k] == if s[lo + k] in {'.', ':', ' '} then '-' else s[lo + k])
            && (forall k :: 0 <= k < |s| && !(lo <= k < hi) ==> IsSpace(s[k]) || s[k] in {'.', ':', ' ', '-'})
  {
    hide Trim, IsSpace;
    var a, b := TrimIsStretch(s, IsSpace);
    var c, d := TrimIsStretch(Replaced(TrimSpace(s)), IsDash);
    lo, hi := a + c, a + d;
    forall k | 0 <= k < |s| && !(lo <= k < hi)
      ensures IsSpace(s[k]) || s[k] in {'.', ':', ' ', '-'}
    {
      if a <= k < b {
        assert IsDash(Replaced(TrimSpace(s))[k - a]);
      }
    }
  }

  /** Making a safe name safe again changes it exactly when white space other than a blank was uncovered
      at an edge, as "a<tab>." leaves it. */
  lemma SafeTwice(s: string)
    ensures var r := SessionSafe(s);
            SessionSafe(r) == r <==> r == [] || (!IsSpace(r[0]) && !IsSpace(r[|r| - 1]))
  {
    var r := SessionSafe(s);
    SafeIsSafe(s);
    hide SessionSafe;
    SafeAgain(r);
  }

  /** "a<tab>." is such a name: it is made "a<tab>", and that "a". */
  lemma TabIsUncovered(s: string)
    requires |s| == 3 && s[0] == 'a' && s[1] == '\t' && s[2] == '.'
    ensures SessionSafe(s) == s[..2] && SessionSafe(s[..2]) == s[..1] != s[..2]
  {
    assert !IsSpace('a') && !IsSpace('.') && IsSpace('\t');
    hide IsSpace, Trim;
    var dashed := s[2 := '-'];
    TrimIdentity(s, IsSpace);
    assert Replaced(s) == dashed;
    TrimOne(dashed, s[..2], IsDash);
    TrimOne(s[..2], s[..1], IsSpace);
    assert Replaced(s[..1]) == s[..1];
    TrimIdentity(s[..1], IsDash);
  }

  /** One cut character at the end goes. */
  lemma TrimOne(s: string, t: string, cut: char -> bool)
    requires |s| == |t| + 1 && t == s[..|t|] && t != []
    requires cut(s[|t|]) && !cut(s[0]) && !cut(t[|t| - 1])
    ensures Trim(s, cut) == t
  {
    assert TrimLeft(s, cut) == s;
    assert TrimRight(t, cut) == t;
  }

  lemma SafeAgain(r: string)
    requires forall c <- r :: !Structural(c)
    requires r != [] ==> !IsDash(r[0]) && !IsDash(r[|r| - 1])
    ensures SessionSafe(r) == r <==> r == [] || (!IsSpace(r[0]) && !IsSpace(r[|r| - 1]))
  {
    hide Trim, IsSpace;
    if r == [] || (!IsSpace(r[0]) && !IsSpace(r[|r| - 1])) {
      TrimIdentity(r, IsSpace);
      assert Replaced(r) == r;
      TrimIdentity(r, IsDash);
    } else {
      TrimShortens(r, IsSpace);
      TrimEdges(Replaced(TrimSpace(r)), IsDash);
    }
  }

  function SafeBase(base: string): string { if SessionSafe(base) == [] then "session" else SessionSafe(base) }

  lemma SafeBaseIsSafe(base: string)
    ensures SafeBase(base) == if SessionSafe(base) == "" then "session" else SessionSafe(base)
    ensures SafeBase(base) != [] && forall c <- SafeBase(base) :: !Structural(c)
  {
    hide SessionSafe;
    SafeIsSafe(base);
  }

  lemma NumberedIsSafe(b: string, n: nat)
    requires forall c <- b :: !Structural(c)
    ensures Numbered(b, n) != [] && forall c <- Numbered(b, n) :: !Structural(c)
  {
    assert forall c <- Itoa(n) :: !Structural(c);
  }

  /** name is b with the least number that is free, found within one more than the number of names taken. */
  ghost predicate LeastFree(b: string, taken: set<string>, name: string) {
    exists n: nat :: 2 <= n <= |taken| + 1 && name == b + "-" + Itoa(n)
                     && forall m: nat :: 2 <= m < n ==> b + "-" + Itoa(m) in taken
  }

  lemma FirstFree(b: string, taken: set<string>, n: nat)
    requires 2 <= n <= |taken| + 1 && forall m: nat :: 2 <= m < n ==> Numbered(b, m) in taken
    ensures LeastFree(b, taken, Numbered(b, n))
  {
    NumberedForm(b);
  }

  lemma NumberedForm(b: string)
    ensures forall n: nat :: Numbered(b, n) == b + "-" + Itoa(n)
  {
  }

  /** The wanted name, or it numbered with the least free suffix; never taken, never ambiguous to tmux,
      and found before the suffix passes one more than the number of names taken. */
  method UniqueName(base: string, taken: set<string>) returns (name: string)
    ensures name !in taken && name != [] && forall c <- name :: c != '.' && c != ':' && c != ' '
    ensures var b := if SessionSafe(base) == "" then "session" else SessionSafe(base);
            if b !in taken then name == b else LeastFree(b, taken, name)
  {
    hide SafeBase, Numbered, SessionSafe, LeastFree;
    var b := SafeBase(base);
    SafeBaseIsSafe(base);
    if b !in taken {
      return b;
    }
    var i := 2;
    while Numbered(b, i) in taken
      invariant i >= 2 && forall m: nat :: 2 <= m < i ==> Numbered(b, m) in taken
      decreases |taken| + 2 - i
    {
      Pigeonhole(b, i + 1, taken);
      i := i + 1;
    }
    Pigeonhole(b, i, taken);
    NumberedIsSafe(b, i);
    FirstFree(b, taken, i);
    name := Numbered(b, i);
  }

  // ---- repository slugs ---------------------------------------------------------------------

  const SLUG_LIMIT := 1024

  predicate ParentUsable(parent: string) { parent != "" && parent != "." && parent != "/" }

  /** Every name the search may give is taken. */
  ghost predicate Exhausted(basename: string, parent: string, taken: set<string>) {
    && basename in taken
    && (ParentUsable(parent) ==> basename + "-" + parent in taken)
    && (forall n: nat :: 2 <= n < SLUG_LIMIT ==> Numbered(basename, n) in taken)
    && basename + "-x" in taken
  }

  /** The slug the search gives: the plain name, then with its parent's, then the least free number. */
  ghost predicate IsSlug(basename: string, parent: string, taken: set<string>, slug: string) {
    if basename !in taken then slug == basename
    else if parent != "" && parent != "." && parent != "/" && basename + "-" + parent !in taken then
      slug == basename + "-" + parent
    else if exists n: nat :: 2 <= n < 1024 && basename + "-" + Itoa(n) !in taken then
      exists n: nat :: 2 <= n < 1024 && slug == basename + "-" + Itoa(n) && slug !in taken
                       && forall m: nat :: 2 <= m < n ==> basename + "-" + Itoa(m) in taken
    else slug == basename + "-x"
  }

  /** The slug is fresh unless every candidate is taken. */
  method DiscoveryUniqueSlug(basename: string, parent: string, taken: set<string>) returns (slug: string)
    ensures slug in taken <==> Exhausted(basename, parent, taken)
    ensures IsSlug(basename, parent, taken, slug)
  {
    NumberedForm(basename);
    if basename !in taken {
      return basename;
    }
    if ParentUsable(parent) && basename + "-" + parent !in taken {
      return basename + "-" + parent;
    }
    for n := 2 to SLUG_LIMIT
      invariant forall m: nat :: 2 <= m < n ==> Numbered(basename, m) in taken
    {
      if Numbered(basename, n) !in taken {
        return Numbered(basename, n);
      }
    }
    slug := basename + "-x";
  }

  /** It takes 1024 names to run out, so up to 1023 taken slugs always leave a fresh one. */
  lemma ExhaustionTakes1024(basename: string, parent: string, taken: set<string>)
    requires Exhausted(basename, parent, taken)
    ensures |taken| >= SLUG_LIMIT
  {
    CandidatesWithin(basename, SLUG_LIMIT, taken);
    CandidatesAreDistinct(basename, SLUG_LIMIT);
    SubsetSize(Candidates(basename, SLUG_LIMIT) + {basename + "-x"}, taken);
  }

  /** And 1024 names do run out. */
  lemma ExhaustionHappens(basename: string)
    ensures exists taken: set<string> :: |taken| == SLUG_LIMIT && Exhausted(basename, "", taken)
  {
    CandidatesAreDistinct(basename, SLUG_LIMIT);
    var taken := Candidates(basename, SLUG_LIMIT) + {basename + "-x"};
    assert Exhausted(basename, "", taken);
  }

  // ---- the union of configured and discovered repositories ----------------------------------

  datatype Repo = Repo(id: string, slug: string, path: string)

  /** A configured repository and the canonical key of its path, None when the path is gone. */
  datatype Configured = Configured(id: string, slug: string, key: Option<string>)

  /** A discovery source: None when it failed, else its roots, None for a root that leads nowhere. */
  type Source = Option<seq<Option<string>>>

  predicate Names(sources: seq<Source>, key: string) {
    exists i, j :: 0 <= i < |sources| && sources[i].Some? && 0 <= j < |sources[i].value| && sources[i].value[j] == Some(key)
  }

  predicate IsConfigured(configured: seq<Configured>, key: string) {
    exists i :: 0 <= i < |configured| && configured[i].key == Some(key)
  }

  function ConfiguredSlugs(configured: seq<Configured>): set<string> {
    set i | 0 <= i < |configured| && configured[i].key.Some? :: configured[i].slug
  }

  /** The last configured repository at a key. */
  function LastConfigured(configured: seq<Configured>, key: string): (r: Option<Repo>)
    ensures r.Some? <==> IsConfigured(configured, key)
    ensures r.Some? ==>
              exists i :: 0 <= i < |configured| && configured[i].key == Some(key)
                          && r.value == Repo(configured[i].id, configured[i].slug, key)
                          && forall j :: i < j < |configured| ==> configured[j].key != Some(key)
  {
    if configured == [] then None
    else
      var n := |configured| - 1;
      if configured[n].key == Some(key) then Some(Repo(configured[n].id, configured[n].slug, key))
      else
        var r := LastConfigured(configured[..n], key);
        assert forall i :: 0 <= i < n ==> configured[..n][i] == configured[i];
        r
  }

  method CollectConfigured(configured: seq<Configured>) returns (byKey: map<string, Repo>, slugs: set<string>)
    ensures slugs == ConfiguredSlugs(configured)
    ensures forall key :: key in byKey <==> IsConfigured(configured, key)
    ensures forall key <- byKey :: Some(byKey[key]) == LastConfigured(configured, key)
  {
    byKey, slugs := map[], {};
    for i := 0 to |configured|
      invariant slugs == ConfiguredSlugs(configured[..i])
      invariant forall key :: key in byKey <==> IsConfigured(configured[..i], key)
      invariant forall key <- byKey :: Some(byKey[key]) == LastConfigured(configured[..i], key)
    {
      ghost var was, now := configured[..i], configured[..i + 1];
      assert now[..i] == was && now[i] == configured[i];
      assert forall j :: 0 <= j < i ==> now[j] == was[j];
      var c := configured[i];
      if c.key.Some? {
        byKey, slugs := byKey[c.key.value := Repo(c.id, c.slug, c.key.value)], slugs + {c.slug};
      }
      assert ConfiguredSlugs(now) == ConfiguredSlugs(was) + (if c.key.Some? then {c.slug} else {});
      forall key
        ensures IsConfigured(now, key) <==> IsConfigured(was, key) || c.key == Some(key)
      {
      }
    }
    assert configured[..|configured|] == configured;
  }

  /** The roots that lead somewhere but to out, in order. */
  function Eligible(roots: seq<Option<string>>, out: set<string>): seq<string> {
    if roots == [] then []
    else
      var last := roots[|roots| - 1];
      Eligible(roots[..|roots| - 1], out) + (if last.Some? && last.value !in out then [last.value] else [])
  }

  function AllEligible(sources: seq<Source>, out: set<string>): seq<string> {
    if sources == [] then []
    else
      var last := sources[|sources| - 1];
      AllEligible(sources[..|sources| - 1], out) + (if last.Some? then Eligible(last.value, out) else [])
  }

  /** The keys the sources name that are neither configured nor excluded, each once, in the order of first sight. */
  method CollectDiscovered(sources: seq<Source>, excluded: set<string>, known: set<string>) returns (found: seq<string>)
    ensures forall key :: key in found <==> Names(sources, key) && key !in excluded && key !in known
    ensures forall i, j :: 0 <= i < j < |found| ==> found[i] != found[j]
    ensures FirstSightings(AllEligible(sources, excluded + known), found)
  {
    found := [];
    var seen := known;
    NothingSighted();
    hide FirstSightings;
    for i := 0 to |sources|
      invariant forall key :: key in found <==> Names(sources[..i], key) && key !in excluded && key !in known
      invariant forall key :: key in seen <==> key in known || key in found
      invariant forall m, n :: 0 <= m < n < |found| ==> found[m] != found[n]
      invariant FirstSightings(AllEligible(sources[..i], excluded + known), found)
    {
      var before := found;
      NamesSnoc(sources, i);
      ghost var earlier := AllEligible(sources[..i], excluded + known);
      assert sources[..i + 1][..i] == sources[..i];
      assert earlier + [] == earlier;
      if sources[i].Some? {
        var roots := sources[i].value;
        for j := 0 to |roots|
          invariant forall key :: key in found <==> key in before || (Some(key) in roots[..j] && key !in excluded && key !in known)
          invariant forall key :: key in seen <==> key in known || key in found
          invariant forall m, n :: 0 <= m < n < |found| ==> found[m] != found[n]
          invariant FirstSightings(earlier + Eligible(roots[..j], excluded + known), found)
        {
          assert roots[..j + 1] == roots[..j] + [roots[j]];
          EligibleSnoc(earlier, roots, j, excluded + known, found);
          if roots[j].Some? && roots[j].value !in seen && roots[j].value !in excluded {
            found, seen := found + [roots[j].value], seen + {roots[j].value};
          }
        }
        assert roots[..|roots|] == roots;
      }
    }
    assert sources[..|sources|] == sources;
  }

  lemma NothingSighted()
    ensures forall out :: FirstSightings(AllEligible([], out), [])
  {
  }

  lemma EligibleSnoc(earlier: seq<string>, roots: seq<Option<string>>, j: nat, out: set<string>, found: seq<string>)
    requires j < |roots| && FirstSightings(earlier + Eligible(roots[..j], out), found)
    ensures var r := roots[j];
            FirstSightings(earlier + Eligible(roots[..j + 1], out),
                           if r.Some? && r.value !in out && r.value !in found then found + [r.value] else found)
  {
    var s, r := earlier + Eligible(roots[..j], out), roots[j];
    assert roots[..j + 1][..j] == roots[..j];
    if r.Some? && r.value !in out {
      assert earlier + Eligible(roots[..j + 1], out) == s + [r.value];
      assert r.value in s <==> r.value in found;
      hide FirstSightings;
      SightOneMore(s, found, r.value);
    } else {
      assert earlier + Eligible(roots[..j + 1], out) == s;
    }
  }

  lemma NamesSnoc(sources: seq<Source>, i: nat)
    requires i < |sources|
    ensures forall key :: Names(sources[..i + 1], key) <==> Names(sources[..i], key) || (sources[i].Some? && Some(key) in sources[i].value)
  {
    var was, now := sources[..i], sources[..i + 1];
    assert forall k :: 0 <= k < i ==> now[k] == was[k];
    assert now[i] == sources[i];
    forall key
      ensures Names(now, key) <==> Names(was, key) || (sources[i].Some? && Some(key) in sources[i].value)
    {
      if Names(was, key) {
        var k, j :| 0 <= k < |was| && was[k].Some? && 0 <= j < |was[k].value| && was[k].value[j] == Some(key);
        assert now[k].value[j] == Some(key);
      }
      if sources[i].Some? && Some(key) in sources[i].value {
        var j :| 0 <= j < |sources[i].value| && sources[i].value[j] == Some(key);
        assert now[i].value[j] == Some(key);
      }
    }
  }

  ghost predicate SlugsFresh(byKey: map<string, Repo>, found: seq<string>, n: nat, slugs: set<string>)
    requires n <= |found|
  {
    && (forall i :: 0 <= i < n ==> found[i] in byKey && byKey[found[i]].slug !in slugs)
    && (forall i, j :: 0 <= i < j < n ==> byKey[found[i]].slug != byKey[found[j]].slug)
  }

  /** Each root in turn gets the slug its own name and its parent's give beside those already taken. */
  ghost predicate SlugsInTurn(byKey: map<string, Repo>, found: seq<string>, slugs: set<string>, base: string -> string,
                              parent: string -> string, names: seq<string>)
  {
    && |names| <= |found|
    && forall i :: 0 <= i < |names| ==>
         && found[i] in byKey && byKey[found[i]].slug == names[i]
         && IsSlug(base(found[i]), parent(found[i]), slugs + Elements(names[..i]), names[i])
  }

  ghost function Elements(names: seq<string>): set<string> { set n | n in names }

  lemma SlugInTurn(byKey: map<string, Repo>, found: seq<string>, slugs: set<string>, base: string -> string,
                   parent: string -> string, names: seq<string>, slug: string)
    requires SlugsInTurn(byKey, found, slugs, base, parent, names) && |names| < |found|
    requires forall i, j :: 0 <= i < j < |found| ==> found[i] != found[j]
    requires IsSlug(base(found[|names|]), parent(found[|names|]), slugs + Elements(names), slug)
    ensures SlugsInTurn(byKey[found[|names|] := Repo(slug, slug, found[|names|])], found, slugs, base, parent, names + [slug])
    ensures Elements(names + [slug]) == Elements(names) + {slug}
  {
    hide IsSlug;
    var more := names + [slug];
    forall i | 0 <= i < |more|
      ensures IsSlug(base(found[i]), parent(found[i]), slugs + Elements(more[..i]), more[i])
    {
      assert more[..i] == names[..i];
    }
  }

  lemma NoNamesYet(byKey: map<string, Repo>, found: seq<string>, slugs: set<string>, base: string -> string, parent: string -> string)
    ensures SlugsInTurn(byKey, found, slugs, base, parent, []) && slugs == slugs + Elements([])
  {
  }

  lemma TakenSlug(basename: string, parent: string, taken: set<string>, slug: string)
    requires IsSlug(basename, parent, taken, slug) && |taken| < SLUG_LIMIT
    ensures slug !in taken
  {
    if slug in taken {
      NumberedForm(basename);
      ExhaustionTakes1024(basename, parent, taken);
      assert false;
    }
  }

  lemma {:induction false} ElementsSize(slugs: set<string>, names: seq<string>)
    ensures |slugs + Elements(names)| <= |slugs| + |names|
  {
    if names == [] {
      assert slugs + Elements(names) == slugs;
    } else {
      var n := |names| - 1;
      ElementsSize(slugs, names[..n]);
      assert names == names[..n] + [names[n]];
      assert slugs + Elements(names) == slugs + Elements(names[..n]) + {names[n]};
    }
  }

  /** While slugs and roots together stay within 1024, each is fresh. */
  lemma FreshInTurn(byKey: map<string, Repo>, found: seq<string>, slugs: set<string>, base: string -> string,
                    parent: string -> string, names: seq<string>)
    requires SlugsInTurn(byKey, found, slugs, base, parent, names) && |names| == |found|
    requires |slugs| + |found| <= SLUG_LIMIT
    ensures SlugsFresh(byKey, found, |found|, slugs)
  {
    hide IsSlug;
    forall i | 0 <= i < |found|
      ensures names[i] !in slugs + Elements(names[..i])
    {
      ElementsSize(slugs, names[..i]);
      TakenSlug(base(found[i]), parent(found[i]), slugs + Elements(names[..i]), names[i]);
    }
    forall i, j | 0 <= i < j < |found|
      ensures names[i] != names[j]
    {
      assert names[..j][i] == names[i];
    }
  }

  method AssignSlugs(configured: map<string, Repo>, slugs: set<string>, found: seq<string>, base: string -> string, parent: string -> string)
    returns (byKey: map<string, Repo>, ghost names: seq<string>)
    requires forall i, j :: 0 <= i < j < |found| ==> found[i] != found[j]
    requires forall i :: 0 <= i < |found| ==> found[i] !in configured
    ensures forall key :: key in byKey <==> key in configured || key in found
    ensures forall key <- configured :: byKey[key] == configured[key]
    ensures forall key <- found :: byKey[key].path == key && byKey[key].id == byKey[key].slug
    ensures |names| == |found| && SlugsInTurn(byKey, found, slugs, base, parent, names)
    ensures |slugs| + |found| <= SLUG_LIMIT ==> SlugsFresh(byKey, found, |found|, slugs)
  {
    byKey, names := configured, [];
    hide IsSlug, SlugsInTurn, Elements, SlugsFresh;
    NoNamesYet(byKey, found, slugs, base, parent);
    var taken := slugs;
    for n := 0 to |found|
      invariant forall key :: key in byKey <==> key in configured || key in found[..n]
      invariant forall key <- configured :: byKey[key] == configured[key]
      invariant forall key <- found[..n] :: byKey[key].path == key && byKey[key].id == byKey[key].slug
      invariant |names| == n && SlugsInTurn(byKey, found, slugs, base, parent, names) && taken == slugs + Elements(names)
    {
      assert found[..n + 1] == found[..n] + [found[n]];
      var slug := DiscoveryUniqueSlug(base(found[n]), parent(found[n]), taken);
      SlugInTurn(byKey, found, slugs, base, parent, names, slug);
      taken, names := taken + {slug}, names + [slug];
      byKey := byKey[found[n] := Repo(slug, slug, found[n])];
    }
    assert found[..|found|] == found;
    if |slugs| + |found| <= SLUG_LIMIT {
      FreshInTurn(byKey, found, slugs, base, parent, names);
    }
  }

  function ConfiguredKeys(configured: seq<Configured>): (keys: set<string>)
    ensures forall key :: key in keys <==> IsConfigured(configured, key)
  {
    set i | 0 <= i < |configured| && configured[i].key.Some? :: configured[i].key.value
  }

  /** The refreshed union. Every configured repository that exists is in it under its own slug; every
      other root the sources name is in it unless it is excluded; and while slugs and roots together
      stay within 1024, discovered slugs differ from each other and from the configured ones. */
  method Refresh(configured: seq<Configured>, excluded: set<string>, sources: seq<Source>,
                 base: string -> string, parent: string -> string)
    returns (byKey: map<string, Repo>, found: seq<string>, ghost names: seq<string>)
    ensures forall key :: key in byKey <==> IsConfigured(configured, key) || key in found
    ensures forall key :: key in found <==> Names(sources, key) && key !in excluded && !IsConfigured(configured, key)
    ensures forall key <- byKey :: IsConfigured(configured, key) ==> Some(byKey[key]) == LastConfigured(configured, key)
    ensures forall key <- found :: byKey[key].path == key && byKey[key].id == byKey[key].slug
    ensures |names| == |found| && SlugsInTurn(byKey, found, ConfiguredSlugs(configured), base, parent, names)
    ensures FirstSightings(AllEligible(sources, excluded + ConfiguredKeys(configured)), found)
    ensures |ConfiguredSlugs(configured)| + |found| <= SLUG_LIMIT ==>
              SlugsFresh(byKey, found, |found|, ConfiguredSlugs(configured))
  {
    ghost var keys := ConfiguredKeys(configured);
    hide IsConfigured, Names, LastConfigured, ConfiguredSlugs, SlugsFresh, SlugsInTurn, FirstSightings, AllEligible, ConfiguredKeys;
    var known, slugs := CollectConfigured(configured);
    assert known.Keys == keys;
    found := CollectDiscovered(sources, excluded, known.Keys);
    byKey, names := AssignSlugs(known, slugs, found, base, parent);
  }
}
