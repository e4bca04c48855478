/**
 * The two scenarios of internal/analyzer/analyzer_test.go, run against the
 * `TypeAnalyzer` class: one file of field-less messages, a few marking
 * calls, and the membership queries the tests check. Each scenario is
 * stated for any package and any message names without dots that are
 * pairwise distinct; lemmas show the tests' own names are such names.
 */
module Scenarios {
  import opened Wrappers
  import opened Descriptors
  import opened Strs
  import opened Registry
  import opened Resolution
  import opened Reachability
  import opened Analyzer

  function Leaf(name: string): Message {
    Message(name, [], [], [])
  }

  predicate IsLeaf(m: Message) {
    m.fields == [] && m.nested == [] && m.enums == []
  }

  /** A file whose top-level messages have no nested messages registers each message under its own key, in order. */
  lemma {:induction false} FlatTypeWrites(ms: seq<Message>, pkg: string)
    requires forall i :: 0 <= i < |ms| ==> ms[i].nested == []
    ensures TypeWrites(ms, "", pkg) == seq(|ms|, i requires 0 <= i < |ms| => (FullName("", pkg, ms[i].name), ms[i]))
  {
    if ms != [] {
      var n := |ms| - 1;
      FlatTypeWrites(ms[..n], pkg);
      assert TypeWrites(ms[n].nested, FullName("", pkg, ms[n].name), pkg) == [];
    }
  }

  /** A file in package `pkg` declaring one field-less message per name, in order. */
  function LeafFile(fileName: string, pkg: string, names: seq<string>): (f: ProtoFile)
    ensures PackageOf(f) == pkg && |f.messages| == |names|
    ensures forall i :: 0 <= i < |names| ==> f.messages[i] == Leaf(names[i])
  {
    ProtoFile(fileName, Some(pkg), seq(|names|, i requires 0 <= i < |names| => Leaf(names[i])), [], [])
  }

  /**
   * Registering a single file of field-less messages: each message is
   * registered under its top-level key, and every registered message is
   * field-less.
   */
  lemma LeafFileRegistry(fileName: string, pkg: string, names: seq<string>)
    requires pkg != ""
    ensures var reg := Apply(map[], FileTypeWrites([LeafFile(fileName, pkg, names)]));
            && (forall i :: 0 <= i < |names| ==> Qualify(pkg, names[i]) in reg)
            && (forall k :: k in reg ==> IsLeaf(reg[k]))
  {
    var f := LeafFile(fileName, pkg, names);
    var ms := f.messages;
    assert [f][..0] == [];
    FlatTypeWrites(ms, pkg);
    var tw := TypeWrites(ms, "", pkg);
    assert FileTypeWrites([f]) == tw;
    var reg := Apply(map[], tw);
    ApplyKeys(map[], tw);
    forall i | 0 <= i < |names| ensures Qualify(pkg, names[i]) in reg {
      assert tw[i].0 == Qualify(pkg, names[i]);
    }
    forall k | k in reg ensures IsLeaf(reg[k]) {
      var i := ApplyOrigin(map[], tw, k);
    }
  }

  /** `NewTypeAnalyzer` over one file of field-less messages, as the tests build it. */
  method NewLeafAnalyzer(fileName: string, pkg: string, names: seq<string>) returns (ta: TypeAnalyzer)
    requires pkg != ""
    ensures fresh(ta) && ta.Valid() && ta.packageName == pkg
    ensures ta.inputReachableTypes == {} && ta.outputReachableTypes == {} && ta.reachableEnums == {}
    ensures ta.inProgressInput == {} && ta.inProgressOutput == {}
    ensures forall i :: 0 <= i < |names| ==> Qualify(pkg, names[i]) in ta.typeRegistry
    ensures forall k :: k in ta.typeRegistry ==> IsLeaf(ta.typeRegistry[k])
  {
    ta := new TypeAnalyzer([LeafFile(fileName, pkg, names)]);
    LeafFileRegistry(fileName, pkg, names);
  }

  /** Marking the key of a registered message that has no fields, nested messages or nested enums reaches that key alone. */
  lemma MarkLeaf(sc: Scope, t: string, R: set<string>, E: set<string>)
    requires R <= sc.types.Keys
    requires LeadingDot(t) && t in sc.types
    requires IsLeaf(sc.types[t])
    ensures Mark(sc, t, R, E) == Marks(R + {t}, E)
  {
    assert ResolveType(sc, t) == t;
    if t !in R {
      MarkUnfold(sc, t, R, E);
      assert NestedWork(t, []) + EnumWork(t, []) + FieldWork(sc, []) == [];
    } else {
      assert R + {t} == R;
    }
  }

  /** Non-empty, dot-free, pairwise distinct message names. */
  predicate PlainNames(names: seq<string>) {
    && (forall i :: 0 <= i < |names| ==> IsShort(names[i]) && '.' !in names[i])
    && (forall i, j :: 0 <= i < j < |names| ==> names[i] != names[j])
  }

  lemma QualifyInjective(pkg: string, a: string, b: string)
    requires a != b
    ensures Qualify(pkg, a) != Qualify(pkg, b)
  {
    assert Qualify(pkg, a)[|pkg| + 2..] == a;
    assert Qualify(pkg, b)[|pkg| + 2..] == b;
  }

  /** The key of `x` ends with a dot and `y` only when `x` is `y` or one of them holds a dot. */
  lemma DottedTail(pkg: string, x: string, y: string)
    ensures HasSuffix(Qualify(pkg, x), "." + y) ==> x == y || '.' in x || '.' in y
  {
    var s := Qualify(pkg, x);
    var n := |s|;
    if HasSuffix(s, "." + y) {
      assert s[n - |y| - 1..] == "." + y;
      assert s[n - |x|..] == x;
      if |y| > |x| {
        assert y[|y| - |x| - 1] == s[n - |x| - 1] == '.';
      } else if |y| < |x| {
        assert x[|x| - |y| - 1] == s[n - |y| - 1] == '.';
      }
    }
  }

  /** A short query misses a set none of whose members ends with a dot and the query. */
  lemma ShortMiss(s: set<string>, primary: string, packages: seq<string>, n: string)
    requires IsShort(n) && n !in s
    requires forall m :: m in s ==> !HasSuffix(m, "." + n)
    ensures !Lookup(s, primary, packages, n)
  {
    LookupMeans(s, primary, packages, n);
  }

  /** Marking two field-less messages one after the other in the same context reaches exactly the two. */
  lemma MarkTwoLeaves(sc: Scope, a: string, b: string)
    requires forall k :: k in sc.types ==> IsLeaf(sc.types[k])
    requires a in sc.types && b in sc.types && LeadingDot(a) && LeadingDot(b)
    ensures Mark(sc, a, {}, {}) == Marks({a}, {}) && Mark(sc, b, {a}, {}) == Marks({a, b}, {})
  {
    MarkLeaf(sc, a, {}, {});
    MarkLeaf(sc, b, {a}, {});
  }

  /** The queries of the separation test against the sets its four marking calls leave. */
  lemma SeparationQueries(pkg: string, input: string, output: string, shared: string, packages: seq<string>,
                          inp: set<string>, out: set<string>)
    requires PlainNames([input, output, shared])
    requires inp == {Qualify(pkg, input), Qualify(pkg, shared)} && out == {Qualify(pkg, output), Qualify(pkg, shared)}
    ensures Lookup(inp, pkg, packages, Qualify(pkg, input)) && !Lookup(out, pkg, packages, Qualify(pkg, input))
    ensures !Lookup(inp, pkg, packages, Qualify(pkg, output)) && Lookup(out, pkg, packages, Qualify(pkg, output))
    ensures Lookup(inp, pkg, packages, Qualify(pkg, shared)) && Lookup(out, pkg, packages, Qualify(pkg, shared))
    ensures Lookup(inp, pkg, packages, input) && !Lookup(out, pkg, packages, input)
  {
    var names := [input, output, shared];
    assert names[0] == input && names[1] == output && names[2] == shared;
    QualifyInjective(pkg, input, output);
    QualifyInjective(pkg, input, shared);
    QualifyInjective(pkg, output, shared);
    LookupQualified(out, pkg, packages, Qualify(pkg, input));
    LookupQualified(inp, pkg, packages, Qualify(pkg, output));
    DottedTail(pkg, output, input);
    DottedTail(pkg, shared, input);
    ShortMiss(out, pkg, packages, input);
    QualifyEndsWithName(pkg, input);
    LookupMeans(inp, pkg, packages, input);
  }

  /**
   * `TestInputOutputSeparation`: in a file of package `pkg` with three
   * field-less messages, the first marked as input, the second as output
   * and the third as both. Each is reachable exactly in its own contexts by
   * full name, and the input message is found by its short name as input
   * only.
   */
  method InputOutputSeparation(pkg: string, input: string, output: string, shared: string) returns (ta: TypeAnalyzer)
    requires pkg != "" && PlainNames([input, output, shared])
    ensures ta.IsInputReachable(Qualify(pkg, input)) && !ta.IsOutputReachable(Qualify(pkg, input))
    ensures !ta.IsInputReachable(Qualify(pkg, output)) && ta.IsOutputReachable(Qualify(pkg, output))
    ensures ta.IsInputReachable(Qualify(pkg, shared)) && ta.IsOutputReachable(Qualify(pkg, shared))
    ensures ta.IsInputReachable(input) && !ta.IsOutputReachable(input)
  {
    var names := [input, output, shared];
    ta := NewLeafAnalyzer("test.proto", pkg, names);
    var i, o, sh := Qualify(pkg, input), Qualify(pkg, output), Qualify(pkg, shared);
    assert i in ta.typeRegistry && o in ta.typeRegistry && sh in ta.typeRegistry by {
      assert names[0] == input && names[1] == output && names[2] == shared;
    }
    ghost var sc := ta.CurrentScope();
    MarkTwoLeaves(sc, i, sh);
    MarkTwoLeaves(sc, o, sh);
    ta.MarkTypeReachableAsInput(i);
    assert ta.CurrentScope() == sc;
    ta.MarkTypeReachableAsOutput(o);
    assert ta.CurrentScope() == sc;
    ta.MarkTypeReachableAsInput(sh);
    assert ta.CurrentScope() == sc;
    ta.MarkTypeReachableAsOutput(sh);
    assert ta.CurrentScope() == sc;
    assert ta.inputReachableTypes == {i, sh};
    assert ta.outputReachableTypes == {o, sh};
    SeparationQueries(pkg, input, output, shared, ta.packageNames, ta.inputReachableTypes, ta.outputReachableTypes);
  }

  /** The separation test's own names are plain. */
  lemma SeparationNames()
    ensures PlainNames(["InputMessage", "OutputMessage", "SharedMessage"])
  {
    var names := ["InputMessage", "OutputMessage", "SharedMessage"];
    assert names[0][0] != names[1][0] && names[0][0] != names[2][0] && names[1][0] != names[2][0];
  }

  /** The queries of the package-reachability test against the sets its four marking calls leave. */
  lemma DietureQueries(pkg: string, request: string, response: string, payload: string, empty: string, packages: seq<string>,
                       inp: set<string>, out: set<string>)
    requires PlainNames([request, response, payload, empty])
    requires inp == {Qualify(pkg, payload), Qualify(pkg, request)} && out == {Qualify(pkg, empty), Qualify(pkg, response)}
    ensures Lookup(inp, pkg, packages, request) && !Lookup(out, pkg, packages, request)
    ensures !Lookup(inp, pkg, packages, response) && Lookup(out, pkg, packages, response)
    ensures !Lookup(out, pkg, packages, Qualify(pkg, request)) && !Lookup(inp, pkg, packages, Qualify(pkg, response))
  {
    var names := [request, response, payload, empty];
    assert names[0] == request && names[1] == response && names[2] == payload && names[3] == empty;
    QualifyInjective(pkg, request, empty);
    QualifyInjective(pkg, request, response);
    QualifyInjective(pkg, response, payload);
    DottedTail(pkg, empty, request);
    DottedTail(pkg, response, request);
    DottedTail(pkg, payload, response);
    DottedTail(pkg, request, response);
    ShortMiss(out, pkg, packages, request);
    ShortMiss(inp, pkg, packages, response);
    LookupQualified(out, pkg, packages, Qualify(pkg, request));
    LookupQualified(inp, pkg, packages, Qualify(pkg, response));
    QualifyEndsWithName(pkg, request);
    LookupMeans(inp, pkg, packages, request);
    QualifyEndsWithName(pkg, response);
    LookupMeans(out, pkg, packages, response);
  }

  /**
   * `TestDieturePackageReachability`: in a file of package `pkg` with a
   * request, a response, a payload and an empty message, the payload and
   * the request are marked as input and the empty message and the response
   * as output. The request is reachable as input only and the response as
   * output only, by short and by full name.
   */
  method DieturePackageReachability(pkg: string, request: string, response: string, payload: string, empty: string)
    returns (ta: TypeAnalyzer)
    requires pkg != "" && PlainNames([request, response, payload, empty])
    ensures ta.IsInputReachable(request) && !ta.IsOutputReachable(request)
    ensures !ta.IsInputReachable(response) && ta.IsOutputReachable(response)
    ensures !ta.IsOutputReachable(Qualify(pkg, request)) && !ta.IsInputReachable(Qualify(pkg, response))
  {
    var names := [request, response, payload, empty];
    ta := NewLeafAnalyzer("hello.proto", pkg, names);
    var rq, rs, p, e := Qualify(pkg, request), Qualify(pkg, response), Qualify(pkg, payload), Qualify(pkg, empty);
    assert rq in ta.typeRegistry && rs in ta.typeRegistry && p in ta.typeRegistry && e in ta.typeRegistry by {
      assert names[0] == request && names[1] == response && names[2] == payload && names[3] == empty;
    }
    ghost var sc := ta.CurrentScope();
    MarkTwoLeaves(sc, p, rq);
    MarkTwoLeaves(sc, e, rs);
    ta.MarkTypeReachableAsInput(p);
    assert ta.CurrentScope() == sc;
    ta.MarkTypeReachableAsInput(rq);
    assert ta.CurrentScope() == sc;
    assert ta.inputReachableTypes == {p, rq};
    ta.MarkTypeReachableAsOutput(e);
    assert ta.CurrentScope() == sc;
    ta.MarkTypeReachableAsOutput(rs);
    assert ta.CurrentScope() == sc;
    assert ta.outputReachableTypes == {e, rs};
    DietureQueries(pkg, request, response, payload, empty, ta.packageNames, ta.inputReachableTypes, ta.outputReachableTypes);
  }

  /** The package-reachability test's own names are plain. */
  lemma DietureNames()
    ensures PlainNames(["OrderRequest", "OrderResponse", "PolygonPayload", "Empty"])
  {
    var names := ["OrderRequest", "OrderResponse", "PolygonPayload", "Empty"];
    assert |names[0]| != |names[1]|;
    assert names[0][0] != names[2][0] && names[0][0] != names[3][0];
    assert names[1][0] != names[2][0] && names[1][0] != names[3][0] && names[2][0] != names[3][0];
  }
}
