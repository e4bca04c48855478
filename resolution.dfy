/**
 * Name resolution and the tolerant membership queries of the analyzer
 * (internal/analyzer/analyzer.go): how a bare, cross-package or already
 * qualified type reference is turned into a registry key, and how
 * `Is{Input,Output,Type,Enum}Reachable` answer for short names.
 *
 * The Go analyzer keeps the package names in a map and iterates it in an
 * unspecified order; here `packages` is one such order (the order in which
 * the files first mention each package). The membership queries are proved
 * not to depend on it.
 */
module Resolution {
  import opened Wrappers
  import opened Strs
  import opened Registry

  /** `"." + pkg + "." + name`, the key a reference would have in package `pkg`. */
  function Qualify(pkg: string, name: string): string {
    "." + pkg + "." + name
  }

  /** A short name is a non-empty reference that does not start with a dot. */
  predicate IsShort(n: string) {
    |n| > 0 && n[0] != '.'
  }

  lemma QualifyEndsWithName(pkg: string, name: string)
    ensures HasSuffix(Qualify(pkg, name), "." + name)
  {
    assert Qualify(pkg, name) == ("." + pkg) + ("." + name);
    SuffixOfConcat("." + pkg, "." + name);
  }

  /** The loop over the known packages in `ResolveTypeName`: the first non-empty package under which `n` is registered. */
  function FirstPackageMatch(keys: set<string>, packages: seq<string>, n: string): (r: Option<string>)
    ensures r.Some? ==> r.value in keys && exists p :: p in packages && p != "" && r.value == Qualify(p, n)
    ensures r.None? ==> forall p :: p in packages && p != "" ==> Qualify(p, n) !in keys
  {
    if packages == [] then None
    else if packages[0] != "" && Qualify(packages[0], n) in keys then Some(Qualify(packages[0], n))
    else FirstPackageMatch(keys, packages[1..], n)
  }

  /**
   * `ResolveTypeName` / `ResolveEnumName` against the key set `keys`: the
   * reference itself when it is qualified and registered, else the first
   * registered of `.primary.n`, `.p.n` for the known packages, and `.n`,
   * else the reference unchanged.
   */
  function Resolve(keys: set<string>, primary: string, packages: seq<string>, n: string): (r: string)
    ensures r in keys || r == n
    ensures LeadingDot(n) && n in keys ==> r == n
    ensures r != n ==> HasSuffix(r, "." + n)
    ensures !(LeadingDot(n) && n in keys) && primary != "" && Qualify(primary, n) in keys ==> r == Qualify(primary, n)
    ensures (primary != "" && Qualify(primary, n) in keys) ==> r in keys
    ensures (exists p :: p in packages && p != "" && Qualify(p, n) in keys) ==> r in keys
    ensures "." + n in keys ==> r in keys
  {
    if LeadingDot(n) && n in keys then n
    else if primary != "" && Qualify(primary, n) in keys then
      QualifyEndsWithName(primary, n);
      Qualify(primary, n)
    else
      match FirstPackageMatch(keys, packages, n)
      case Some(q) =>
        var p :| p in packages && p != "" && q == Qualify(p, n);
        QualifyEndsWithName(p, n);
        q
      case None =>
        if "." + n in keys then
          SuffixOfConcat("", "." + n);
          "." + n
        else n
  }

  /**
   * `IsInputReachable` / `IsOutputReachable` / `IsEnumReachable` against the
   * set `s`: exact membership, and for a short name also `.primary.n`,
   * `.p.n` for the other known packages, `.n`, and any member ending in `.n`.
   */
  function Lookup(s: set<string>, primary: string, packages: seq<string>, n: string): bool {
    if n in s then true
    else if IsShort(n) then
      || (primary != "" && Qualify(primary, n) in s)
      || (exists i :: 0 <= i < |packages| && packages[i] != "" && packages[i] != primary && Qualify(packages[i], n) in s)
      || "." + n in s
      || (exists m :: m in s && HasSuffix(m, "." + n))
    else false
  }

  /**
   * `IsTypeReachable`: the same search run over the input and the output
   * sets together, each candidate tried in both.
   */
  function TypeLookup(input: set<string>, output: set<string>, primary: string, packages: seq<string>, n: string): bool {
    if n in input || n in output then true
    else if IsShort(n) then
      || (primary != "" && (Qualify(primary, n) in input || Qualify(primary, n) in output))
      || (exists i :: 0 <= i < |packages| && packages[i] != "" && packages[i] != primary
                      && (Qualify(packages[i], n) in input || Qualify(packages[i], n) in output))
      || ("." + n in input || "." + n in output)
      || (exists m :: m in input && HasSuffix(m, "." + n))
      || (exists m :: m in output && HasSuffix(m, "." + n))
    else false
  }

  /**
   * The membership queries do not depend on the order in which packages are
   * tried: a query is an exact member, or a short name that some member
   * ends with (after a dot).
   */
  lemma LookupMeans(s: set<string>, primary: string, packages: seq<string>, n: string)
    ensures Lookup(s, primary, packages, n) <==> n in s || (IsShort(n) && exists m :: m in s && HasSuffix(m, "." + n))
  {
    if n !in s && IsShort(n) && Lookup(s, primary, packages, n) {
      if primary != "" && Qualify(primary, n) in s {
        QualifyEndsWithName(primary, n);
      } else if exists i :: 0 <= i < |packages| && packages[i] != "" && packages[i] != primary && Qualify(packages[i], n) in s {
        var i :| 0 <= i < |packages| && packages[i] != "" && packages[i] != primary && Qualify(packages[i], n) in s;
        QualifyEndsWithName(packages[i], n);
      } else if "." + n in s {
        SuffixOfConcat("", "." + n);
        assert "" + ("." + n) == "." + n;
      }
    }
  }

  /** A qualified (leading-dot) or empty query is plain set membership. */
  lemma LookupQualified(s: set<string>, primary: string, packages: seq<string>, n: string)
    requires !IsShort(n)
    ensures Lookup(s, primary, packages, n) <==> n in s
  {
  }

  /** `IsTypeReachable(n)` is `IsInputReachable(n) || IsOutputReachable(n)`. */
  lemma TypeLookupIsEither(input: set<string>, output: set<string>, primary: string, packages: seq<string>, n: string)
    ensures TypeLookup(input, output, primary, packages, n)
        <==> Lookup(input, primary, packages, n) || Lookup(output, primary, packages, n)
  {
    LookupMeans(input, primary, packages, n);
    LookupMeans(output, primary, packages, n);
    if TypeLookup(input, output, primary, packages, n) && n !in input && n !in output && IsShort(n) {
      if primary != "" && (Qualify(primary, n) in input || Qualify(primary, n) in output) {
        QualifyEndsWithName(primary, n);
      } else if exists i :: 0 <= i < |packages| && packages[i] != "" && packages[i] != primary
                             && (Qualify(packages[i], n) in input || Qualify(packages[i], n) in output) {
        var i :| 0 <= i < |packages| && packages[i] != "" && packages[i] != primary
                 && (Qualify(packages[i], n) in input || Qualify(packages[i], n) in output);
        QualifyEndsWithName(packages[i], n);
      } else if "." + n in input || "." + n in output {
        SuffixOfConcat("", "." + n);
        assert "" + ("." + n) == "." + n;
      }
    }
  }

  /**
   * Resolution and lookup agree on short names and on registered qualified
   * names: once the resolved key is in a set, the tolerant query for the
   * original reference finds it. (A qualified reference that is not
   * registered as written can still resolve, to `.pkg` followed by the
   * reference, which the exact-match query for it then misses.)
   */
  lemma LookupFindsResolved(s: set<string>, keys: set<string>, primary: string, packages: seq<string>, n: string)
    requires IsShort(n) || (LeadingDot(n) && n in keys)
    requires Resolve(keys, primary, packages, n) in s
    ensures Lookup(s, primary, packages, n)
  {
    LookupMeans(s, primary, packages, n);
  }

  /** The case the previous lemma excludes: a query by the reference as written misses the key it resolved to. */
  lemma QualifiedUnregisteredMissed()
    ensures Resolve({".p..x.T"}, "p", ["p"], ".x.T") == ".p..x.T"
    ensures !Lookup({".p..x.T"}, "p", ["p"], ".x.T")
  {
    assert Qualify("p", ".x.T") == ".p..x.T";
    assert ".x.T" != ".p..x.T" by { assert ".x.T"[1] != ".p..x.T"[1]; }
  }
}
