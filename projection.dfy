/**
 * What one file's schema holds, as values, and the rules of
 * internal/schema.go that decide it: which object types and enums a file
 * emits once the analyzer has marked what its admitted methods use, and how
 * those methods split into queries and mutations.
 *
 * The rendering of these lists into GraphQL text (`schema.generate()`) is
 * not part of this model; the lists themselves are.
 */
module Projection {
  import opened Wrappers
  import opened Descriptors
  import opened Registry
  import opened Resolution
  import opened Analysis
  import opened Naming

  /** The plugin's parsed command-line arguments that the projection reads. */
  datatype Args = Args(target: string, combineOutput: bool, outputFileNames: seq<string>)

  /** An emitted field: its GraphQL name; the type information stays that of the proto field. */
  datatype Field = Field(name: string, source: FieldDecl)

  /** The emitted records. Names are optional because Go holds them as pointers and the merge checks for nil. */
  datatype ObjectType = ObjectType(name: Option<string>, fields: seq<Field>)
  datatype Enumeration = Enumeration(name: Option<string>, values: seq<string>)
  datatype InputType = InputType(name: Option<string>)
  datatype Operation = Operation(name: Option<string>, input: GqlInput, payload: string)

  /**
   * The two reachability questions emission asks about a key: may an
   * object type be emitted for it, and may an enum.
   */
  datatype Gate = Gate(typeOk: string -> bool, enumOk: string -> bool)

  /** The analyzer's answers: `IsTypeReachable` and `IsEnumReachable` over its three sets and its package names. */
  function AnalyzerGate(st: Reach, primary: string, packages: seq<string>): Gate {
    Gate(k => TypeLookup(st.input, st.output, primary, packages, k),
         k => Lookup(st.enums, primary, packages, k))
  }

  /** On fully qualified keys the gate is exact membership in `types` and `enums`. */
  ghost predicate ExactOn(g: Gate, types: set<string>, enums: set<string>) {
    forall k :: LeadingDot(k) ==> (g.typeOk(k) <==> k in types) && (g.enumOk(k) <==> k in enums)
  }

  /** The object types and the enums appended by one emission step. */
  datatype Emission = Emission(objects: seq<ObjectType>, enums: seq<Enumeration>) {
    function Then(next: Emission): Emission {
      Emission(objects + next.objects, enums + next.enums)
    }
  }

  const Nothing := Emission([], [])

  lemma ThenAssociative(a: Emission, b: Emission, c: Emission)
    ensures a.Then(b).Then(c) == a.Then(b.Then(c))
  {
    assert a.objects + b.objects + c.objects == a.objects + (b.objects + c.objects);
    assert a.enums + b.enums + c.enums == a.enums + (b.enums + c.enums);
  }

  // ---------------------------------------------------------------------
  // Fields, object types and enums

  function FieldName(f: FieldDecl, camel: string -> string): string {
    if f.keepCase then f.name else camel(f.name)
  }

  /** `generateFields`: one field per proto field, in order, camel-cased unless `keep_case` is set. */
  function FieldsOf(fields: seq<FieldDecl>, camel: string -> string): (r: seq<Field>)
    ensures |r| == |fields|
    ensures forall i :: 0 <= i < |fields| ==> r[i].source == fields[i]
    ensures forall i :: 0 <= i < |fields| ==> fields[i].keepCase ==> r[i].name == fields[i].name
    ensures forall i :: 0 <= i < |fields| ==> !fields[i].keepCase ==> r[i].name == camel(fields[i].name)
  {
    seq(|fields|, i requires 0 <= i < |fields| => Field(FieldName(fields[i], camel), fields[i]))
  }

  function ObjectOf(m: Message, camel: string -> string): ObjectType {
    ObjectType(Some(m.name), FieldsOf(m.fields, camel))
  }

  function EnumerationOf(e: EnumDecl): Enumeration {
    Enumeration(Some(e.name), e.values)
  }

  /**
   * The enums of `es` whose key under `prefix` (and, at the top level, the
   * package) passes the enum question, in declaration order. Both the
   * nested enums of an emitted message and the file's top-level enums go
   * through this rule.
   */
  function ReachableEnums(g: Gate, prefix: string, pkg: string, es: seq<EnumDecl>): (r: seq<Enumeration>)
    ensures |r| <= |es|
  {
    if es == [] then []
    else
      var e := es[|es| - 1];
      ReachableEnums(g, prefix, pkg, es[..|es| - 1])
        + (if g.enumOk(FullName(prefix, pkg, e.name)) then [EnumerationOf(e)] else [])
  }

  /**
   * `makeObjectTypesWithPrefix(ms, prefix)`: the emissions of the messages
   * of `ms`, in order.
   */
  function Emit(g: Gate, prefix: string, pkg: string, ms: seq<Message>, camel: string -> string): Emission
    decreases ms
  {
    if ms == [] then Nothing
    else Emit(g, prefix, pkg, ms[..|ms| - 1], camel).Then(EmitMessage(g, prefix, pkg, ms[|ms| - 1], camel))
  }

  /**
   * One message under `prefix`: when its key passes the type question and
   * it has at least one field, its nested messages are emitted first (under
   * its key), then its nested enums that pass the enum question, then the
   * message itself. Nothing below a message that is not emitted is visited.
   */
  function EmitMessage(g: Gate, prefix: string, pkg: string, m: Message, camel: string -> string): Emission
    decreases m
  {
    var k := FullName(prefix, pkg, m.name);
    if g.typeOk(k) && |m.fields| > 0 then
      Emit(g, k, pkg, m.nested, camel).Then(Emission([ObjectOf(m, camel)], ReachableEnums(g, k, pkg, m.enums)))
    else Nothing
  }

  /** The measure the emission methods decrease: the number of messages, nested ones included. */
  function Size(ms: seq<Message>): nat
    decreases ms
  {
    if ms == [] then 0 else Size(ms[..|ms| - 1]) + 1 + Size(ms[|ms| - 1].nested)
  }

  lemma {:induction false} SizeOfElement(ms: seq<Message>, i: int)
    requires 0 <= i < |ms|
    ensures Size([ms[i]]) <= Size(ms)
    ensures Size(ms[i].nested) < Size(ms)
    decreases ms
  {
    assert [ms[i]][..0] == [];
    if i < |ms| - 1 {
      assert ms[..|ms| - 1][i] == ms[i];
      SizeOfElement(ms[..|ms| - 1], i);
    }
  }

  /** Emission of a list is the emission of its prefix followed by that of its last element. */
  lemma EmitSnoc(g: Gate, prefix: string, pkg: string, ms: seq<Message>, m: Message, camel: string -> string)
    ensures Emit(g, prefix, pkg, ms + [m], camel) == Emit(g, prefix, pkg, ms, camel).Then(EmitMessage(g, prefix, pkg, m, camel))
  {
    assert (ms + [m])[..|ms|] == ms;
  }

  /** A one-message list emits what that message emits. */
  lemma EmitSingle(g: Gate, prefix: string, pkg: string, m: Message, camel: string -> string)
    ensures Emit(g, prefix, pkg, [m], camel) == EmitMessage(g, prefix, pkg, m, camel)
  {
    assert [m][..0] == [];
    var e := EmitMessage(g, prefix, pkg, m, camel);
    assert Nothing.Then(e) == e by {
      assert [] + e.objects == e.objects;
      assert [] + e.enums == e.enums;
    }
  }

  /** Emission of a list prefix grows by the emission of the next message as a one-message list. */
  lemma EmitPrefixStep(g: Gate, prefix: string, pkg: string, ms: seq<Message>, j: int, camel: string -> string)
    requires 0 <= j < |ms|
    ensures Emit(g, prefix, pkg, ms[..j + 1], camel) == Emit(g, prefix, pkg, ms[..j], camel).Then(Emit(g, prefix, pkg, [ms[j]], camel))
  {
    assert ms[..j + 1] == ms[..j] + [ms[j]];
    EmitSnoc(g, prefix, pkg, ms[..j], ms[j], camel);
    EmitSingle(g, prefix, pkg, ms[j], camel);
  }

  lemma ReachableEnumsSnoc(g: Gate, prefix: string, pkg: string, es: seq<EnumDecl>, e: EnumDecl)
    ensures ReachableEnums(g, prefix, pkg, es + [e])
            == ReachableEnums(g, prefix, pkg, es) + (if g.enumOk(FullName(prefix, pkg, e.name)) then [EnumerationOf(e)] else [])
  {
    assert (es + [e])[..|es|] == es;
  }

  // ---------------------------------------------------------------------
  // What emission guarantees

  /**
   * The analyzer's answers on a fully qualified key are exact membership:
   * the tolerant short-name search never applies to the keys emission asks
   * about.
   */
  lemma AnalyzerGateExact(st: Reach, primary: string, packages: seq<string>)
    ensures ExactOn(AnalyzerGate(st, primary, packages), st.input + st.output, st.enums)
  {
  }

  /** On an exact gate an enum is emitted exactly when its key is among the reachable enums. */
  lemma {:induction false} ReachableEnumsMeans(g: Gate, types: set<string>, enums: set<string>, prefix: string, pkg: string, es: seq<EnumDecl>)
    requires ExactOn(g, types, enums) && (prefix == "" || LeadingDot(prefix))
    ensures forall x :: x in ReachableEnums(g, prefix, pkg, es) ==>
              exists i :: 0 <= i < |es| && x == EnumerationOf(es[i]) && FullName(prefix, pkg, es[i].name) in enums
    ensures forall i :: 0 <= i < |es| && FullName(prefix, pkg, es[i].name) in enums ==>
              EnumerationOf(es[i]) in ReachableEnums(g, prefix, pkg, es)
    decreases |es|
  {
    if es != [] {
      var n := |es| - 1;
      ReachableEnumsMeans(g, types, enums, prefix, pkg, es[..n]);
      FullNameLeadingDot(prefix, pkg, es[n].name);
      forall x | x in ReachableEnums(g, prefix, pkg, es)
        ensures exists i :: 0 <= i < |es| && x == EnumerationOf(es[i]) && FullName(prefix, pkg, es[i].name) in enums
      {
        if x in ReachableEnums(g, prefix, pkg, es[..n]) {
          var i :| 0 <= i < n && x == EnumerationOf(es[..n][i]) && FullName(prefix, pkg, es[..n][i].name) in enums;
          assert es[..n][i] == es[i];
        }
      }
      forall i | 0 <= i < n && FullName(prefix, pkg, es[i].name) in enums
        ensures EnumerationOf(es[i]) in ReachableEnums(g, prefix, pkg, es)
      {
        assert es[..n][i] == es[i];
      }
    }
  }

  /** An object built from a registry write whose key is in `types` and whose message has a field. */
  ghost predicate FromWrite(o: ObjectType, ws: seq<(string, Message)>, types: set<string>, camel: string -> string) {
    exists i :: 0 <= i < |ws| && ws[i].0 in types && |ws[i].1.fields| > 0 && o == ObjectOf(ws[i].1, camel)
  }

  lemma FromWriteWidens(o: ObjectType, a: seq<(string, Message)>, b: seq<(string, Message)>, types: set<string>, camel: string -> string)
    ensures FromWrite(o, a, types, camel) ==> FromWrite(o, a + b, types, camel) && FromWrite(o, b + a, types, camel)
  {
    if FromWrite(o, a, types, camel) {
      var i :| 0 <= i < |a| && a[i].0 in types && |a[i].1.fields| > 0 && o == ObjectOf(a[i].1, camel);
      assert (a + b)[i] == a[i];
      assert (b + a)[|b| + i] == a[i];
    }
  }

  /** The registry writes of a list are those of its prefix followed by those of its last message and its nested ones. */
  lemma WritesOfLast(ms: seq<Message>, prefix: string, pkg: string)
    requires ms != []
    ensures var m := ms[|ms| - 1];
            var k := FullName(prefix, pkg, m.name);
            TypeWrites(ms, prefix, pkg) == TypeWrites(ms[..|ms| - 1], prefix, pkg) + ([(k, m)] + TypeWrites(m.nested, k, pkg))
  {
    var m := ms[|ms| - 1];
    var k := FullName(prefix, pkg, m.name);
    var front, below := TypeWrites(ms[..|ms| - 1], prefix, pkg), TypeWrites(m.nested, k, pkg);
    assert front + [(k, m)] + below == front + ([(k, m)] + below);
  }

  lemma EnumWritesOfLast(ms: seq<Message>, prefix: string, pkg: string)
    requires ms != []
    ensures var m := ms[|ms| - 1];
            var k := FullName(prefix, pkg, m.name);
            TypeEnumWrites(ms, prefix, pkg)
            == TypeEnumWrites(ms[..|ms| - 1], prefix, pkg) + (TypeEnumWrites(m.nested, k, pkg) + EnumWrites(m.enums, k, pkg))
  {
    var m := ms[|ms| - 1];
    var k := FullName(prefix, pkg, m.name);
    var front, below, mine := TypeEnumWrites(ms[..|ms| - 1], prefix, pkg), TypeEnumWrites(m.nested, k, pkg), EnumWrites(m.enums, k, pkg);
    assert front + below + mine == front + (below + mine);
  }

  lemma SourcesJoin(early: seq<ObjectType>, late: seq<ObjectType>, a: seq<(string, Message)>, b: seq<(string, Message)>,
                    types: set<string>, camel: string -> string)
    requires forall o :: o in early ==> FromWrite(o, a, types, camel)
    requires forall o :: o in late ==> FromWrite(o, b, types, camel)
    ensures forall o :: o in early + late ==> FromWrite(o, a + b, types, camel)
  {
    forall o | o in early + late
      ensures FromWrite(o, a + b, types, camel)
    {
      FromWriteWidens(o, a, b, types, camel);
      FromWriteWidens(o, b, a, types, camel);
    }
  }

  /**
   * On an exact gate every emitted object type is built from a message
   * registered under a key in `types`, and that message has a field.
   */
  lemma {:induction false} EmitSound(g: Gate, types: set<string>, enums: set<string>, prefix: string, pkg: string, ms: seq<Message>, camel: string -> string)
    requires ExactOn(g, types, enums) && (prefix == "" || LeadingDot(prefix))
    ensures forall o :: o in Emit(g, prefix, pkg, ms, camel).objects ==> FromWrite(o, TypeWrites(ms, prefix, pkg), types, camel)
    decreases ms
  {
    if ms != [] {
      var n := |ms| - 1;
      var m := ms[n];
      var k := FullName(prefix, pkg, m.name);
      var front, own := TypeWrites(ms[..n], prefix, pkg), [(k, m)] + TypeWrites(m.nested, k, pkg);
      WritesOfLast(ms, prefix, pkg);
      var early, late := Emit(g, prefix, pkg, ms[..n], camel).objects, EmitMessage(g, prefix, pkg, m, camel).objects;
      assert Emit(g, prefix, pkg, ms, camel).objects == early + late;
      EmitSound(g, types, enums, prefix, pkg, ms[..n], camel);
      EmitMessageSound(g, types, enums, prefix, pkg, m, camel);
      SourcesJoin(early, late, front, own, types, camel);
    }
  }

  lemma {:induction false} EmitMessageSound(g: Gate, types: set<string>, enums: set<string>, prefix: string, pkg: string, m: Message, camel: string -> string)
    requires ExactOn(g, types, enums) && (prefix == "" || LeadingDot(prefix))
    ensures var k := FullName(prefix, pkg, m.name);
            forall o :: o in EmitMessage(g, prefix, pkg, m, camel).objects ==> FromWrite(o, [(k, m)] + TypeWrites(m.nested, k, pkg), types, camel)
    decreases m
  {
    var k := FullName(prefix, pkg, m.name);
    FullNameLeadingDot(prefix, pkg, m.name);
    if g.typeOk(k) && |m.fields| > 0 {
      var below := TypeWrites(m.nested, k, pkg);
      EmitSound(g, types, enums, k, pkg, m.nested, camel);
      forall o | o in EmitMessage(g, prefix, pkg, m, camel).objects
        ensures FromWrite(o, [(k, m)] + below, types, camel)
      {
        FromWriteWidens(o, below, [(k, m)], types, camel);
        assert ([(k, m)] + below)[0] == (k, m);
      }
    }
  }

  /** An enumeration built from a registry enum write whose key is in `enums`. */
  ghost predicate FromEnumWrite(x: Enumeration, ws: seq<(string, EnumDecl)>, enums: set<string>) {
    exists i :: 0 <= i < |ws| && ws[i].0 in enums && x == EnumerationOf(ws[i].1)
  }

  lemma FromEnumWriteWidens(x: Enumeration, a: seq<(string, EnumDecl)>, b: seq<(string, EnumDecl)>, enums: set<string>)
    ensures FromEnumWrite(x, a, enums) ==> FromEnumWrite(x, a + b, enums) && FromEnumWrite(x, b + a, enums)
  {
    if FromEnumWrite(x, a, enums) {
      var i :| 0 <= i < |a| && a[i].0 in enums && x == EnumerationOf(a[i].1);
      assert (a + b)[i] == a[i];
      assert (b + a)[|b| + i] == a[i];
    }
  }

  lemma EnumSourcesJoin(early: seq<Enumeration>, late: seq<Enumeration>, a: seq<(string, EnumDecl)>, b: seq<(string, EnumDecl)>,
                        enums: set<string>)
    requires forall x :: x in early ==> FromEnumWrite(x, a, enums)
    requires forall x :: x in late ==> FromEnumWrite(x, b, enums)
    ensures forall x :: x in early + late ==> FromEnumWrite(x, a + b, enums)
  {
    forall x | x in early + late
      ensures FromEnumWrite(x, a + b, enums)
    {
      FromEnumWriteWidens(x, a, b, enums);
      FromEnumWriteWidens(x, b, a, enums);
    }
  }

  /** On an exact gate every emitted enum comes from a registry enum write whose key is in `enums`. */
  lemma {:induction false} EmitEnumsSound(g: Gate, types: set<string>, enums: set<string>, prefix: string, pkg: string, ms: seq<Message>, camel: string -> string)
    requires ExactOn(g, types, enums) && (prefix == "" || LeadingDot(prefix))
    ensures forall x :: x in Emit(g, prefix, pkg, ms, camel).enums ==> FromEnumWrite(x, TypeEnumWrites(ms, prefix, pkg), enums)
    decreases ms
  {
    if ms != [] {
      var n := |ms| - 1;
      var m := ms[n];
      var k := FullName(prefix, pkg, m.name);
      var front, own := TypeEnumWrites(ms[..n], prefix, pkg), TypeEnumWrites(m.nested, k, pkg) + EnumWrites(m.enums, k, pkg);
      EnumWritesOfLast(ms, prefix, pkg);
      var early, late := Emit(g, prefix, pkg, ms[..n], camel).enums, EmitMessage(g, prefix, pkg, m, camel).enums;
      assert Emit(g, prefix, pkg, ms, camel).enums == early + late;
      EmitEnumsSound(g, types, enums, prefix, pkg, ms[..n], camel);
      EmitMessageEnumsSound(g, types, enums, prefix, pkg, m, camel);
      EnumSourcesJoin(early, late, front, own, enums);
    }
  }

  lemma {:induction false} EmitMessageEnumsSound(g: Gate, types: set<string>, enums: set<string>, prefix: string, pkg: string, m: Message, camel: string -> string)
    requires ExactOn(g, types, enums) && (prefix == "" || LeadingDot(prefix))
    ensures var k := FullName(prefix, pkg, m.name);
            forall x :: x in EmitMessage(g, prefix, pkg, m, camel).enums ==>
              FromEnumWrite(x, TypeEnumWrites(m.nested, k, pkg) + EnumWrites(m.enums, k, pkg), enums)
    decreases m
  {
    var k := FullName(prefix, pkg, m.name);
    FullNameLeadingDot(prefix, pkg, m.name);
    if g.typeOk(k) && |m.fields| > 0 {
      var below := TypeEnumWrites(m.nested, k, pkg);
      var mine := EnumWrites(m.enums, k, pkg);
      assert EmitMessage(g, prefix, pkg, m, camel).enums
          == Emit(g, k, pkg, m.nested, camel).enums + ReachableEnums(g, k, pkg, m.enums);
      EmitEnumsSound(g, types, enums, k, pkg, m.nested, camel);
      ReachableEnumsFromWrites(g, types, enums, k, pkg, m.enums);
      EnumSourcesJoin(Emit(g, k, pkg, m.nested, camel).enums, ReachableEnums(g, k, pkg, m.enums), below, mine, enums);
    }
  }

  /** On an exact gate every enum kept at one level comes from that level's enum writes, with its key in `enums`. */
  lemma ReachableEnumsFromWrites(g: Gate, types: set<string>, enums: set<string>, k: string, pkg: string, es: seq<EnumDecl>)
    requires ExactOn(g, types, enums) && (k == "" || LeadingDot(k))
    ensures forall x :: x in ReachableEnums(g, k, pkg, es) ==> FromEnumWrite(x, EnumWrites(es, k, pkg), enums)
  {
    ReachableEnumsMeans(g, types, enums, k, pkg, es);
    var ws := EnumWrites(es, k, pkg);
    forall x | x in ReachableEnums(g, k, pkg, es)
      ensures FromEnumWrite(x, ws, enums)
    {
      var i :| 0 <= i < |es| && x == EnumerationOf(es[i]) && FullName(k, pkg, es[i].name) in enums;
      assert ws[i].0 in enums && x == EnumerationOf(ws[i].1);
    }
  }

  /**
   * On an exact gate every message of `ms` whose key is in `types` and
   * which has a field is emitted.
   */
  lemma {:induction false} EmitComplete(g: Gate, types: set<string>, enums: set<string>, prefix: string, pkg: string, ms: seq<Message>, camel: string -> string)
    requires ExactOn(g, types, enums) && (prefix == "" || LeadingDot(prefix))
    ensures forall i :: 0 <= i < |ms| && |ms[i].fields| > 0 && FullName(prefix, pkg, ms[i].name) in types ==>
              ObjectOf(ms[i], camel) in Emit(g, prefix, pkg, ms, camel).objects
    decreases |ms|
  {
    if ms != [] {
      var n := |ms| - 1;
      EmitComplete(g, types, enums, prefix, pkg, ms[..n], camel);
      FullNameLeadingDot(prefix, pkg, ms[n].name);
      forall i | 0 <= i < n && |ms[i].fields| > 0 && FullName(prefix, pkg, ms[i].name) in types
        ensures ObjectOf(ms[i], camel) in Emit(g, prefix, pkg, ms, camel).objects
      {
        assert ms[..n][i] == ms[i];
      }
    }
  }

  /**
   * The nested messages of an emitted message are visited under its key:
   * whatever they emit is part of the emission of the list.
   */
  lemma {:induction false} EmitNestedIncluded(g: Gate, prefix: string, pkg: string, ms: seq<Message>, i: int, camel: string -> string)
    requires 0 <= i < |ms|
    requires g.typeOk(FullName(prefix, pkg, ms[i].name)) && |ms[i].fields| > 0
    ensures var below := Emit(g, FullName(prefix, pkg, ms[i].name), pkg, ms[i].nested, camel);
            var all := Emit(g, prefix, pkg, ms, camel);
            (forall o :: o in below.objects ==> o in all.objects) && (forall x :: x in below.enums ==> x in all.enums)
    decreases |ms|
  {
    var n := |ms| - 1;
    if i < n {
      assert ms[..n][i] == ms[i];
      EmitNestedIncluded(g, prefix, pkg, ms[..n], i, camel);
    }
  }

  // ---------------------------------------------------------------------
  // Queries and mutations

  predicate IsMutation(kind: string) {
    kind == "mutation" || kind == "Mutation"
  }

  /** The query or mutation a method becomes: its name, its input shape and its payload type. */
  function OperationOf(m: MethodDecl, pkg: Option<string>, h: Helpers): Operation {
    Operation(Some(m.name),
              InputTypeOf(m.options.gqlInput, m.inputType, pkg, h),
              OutputTypeName(m.options.gqlOutput, m.outputType, pkg, h.upperFirst))
  }

  function OperationsOf(ms: seq<MethodDecl>, pkg: Option<string>, h: Helpers): (r: seq<Operation>)
    ensures |r| == |ms|
    ensures forall i :: 0 <= i < |ms| ==> r[i] == OperationOf(ms[i], pkg, h)
  {
    seq(|ms|, i requires 0 <= i < |ms| => OperationOf(ms[i], pkg, h))
  }

  /** The methods `AddQueriesAndMutations` turns into queries: not skipped, and of a kind other than a mutation, in order. */
  function QueryMethods(target: string, ms: seq<MethodDecl>): seq<MethodDecl> {
    if ms == [] then []
    else
      var m := ms[|ms| - 1];
      QueryMethods(target, ms[..|ms| - 1])
        + (if !SkipMethod(target, m.options) && !IsMutation(m.options.kind) then [m] else [])
  }

  /** The methods `AddQueriesAndMutations` turns into mutations: not skipped, and of kind `mutation` or `Mutation`, in order. */
  function MutationMethods(target: string, ms: seq<MethodDecl>): seq<MethodDecl> {
    if ms == [] then []
    else
      var m := ms[|ms| - 1];
      MutationMethods(target, ms[..|ms| - 1])
        + (if !SkipMethod(target, m.options) && IsMutation(m.options.kind) then [m] else [])
  }

  /** The queries follow the method order: those of two method lists are those of the first, then those of the second. */
  lemma {:induction false} QueryMethodsAppend(target: string, a: seq<MethodDecl>, b: seq<MethodDecl>)
    ensures QueryMethods(target, a + b) == QueryMethods(target, a) + QueryMethods(target, b)
    decreases |b|
  {
    if b == [] {
      assert a + b == a;
    } else {
      var n := |b| - 1;
      QueryMethodsAppend(target, a, b[..n]);
      assert (a + b)[..|a + b| - 1] == a + b[..n];
    }
  }

  /** The mutations follow the method order in the same way. */
  lemma {:induction false} MutationMethodsAppend(target: string, a: seq<MethodDecl>, b: seq<MethodDecl>)
    ensures MutationMethods(target, a + b) == MutationMethods(target, a) + MutationMethods(target, b)
    decreases |b|
  {
    if b == [] {
      assert a + b == a;
    } else {
      var n := |b| - 1;
      MutationMethodsAppend(target, a, b[..n]);
      assert (a + b)[..|a + b| - 1] == a + b[..n];
    }
  }

  /**
   * Each method the target admits lands in exactly one of the two lists,
   * and a method it does not admit in neither: together they are as long
   * as the admitted methods.
   */
  lemma {:induction false} OperationsPartition(target: string, ms: seq<MethodDecl>)
    ensures |QueryMethods(target, ms)| + |MutationMethods(target, ms)| == |Admitted(target, ms)|
    decreases |ms|
  {
    if ms != [] {
      OperationsPartition(target, ms[..|ms| - 1]);
      SkipMethodAgrees(target, ms[|ms| - 1].options);
    }
  }

  /** A method is a query method exactly when the target admits it and its kind is not a mutation. */
  lemma {:induction false} QueryMethodsMeans(target: string, ms: seq<MethodDecl>)
    ensures forall m :: m in QueryMethods(target, ms) <==>
              m in ms && ShouldIncludeMethod(target, m.options) && !IsMutation(m.options.kind)
    decreases |ms|
  {
    if ms != [] {
      var n := |ms| - 1;
      QueryMethodsMeans(target, ms[..n]);
      SkipMethodAgrees(target, ms[n].options);
      assert ms == ms[..n] + [ms[n]];
    }
  }

  /** A method is a mutation method exactly when the target admits it and its kind is `mutation` or `Mutation`. */
  lemma {:induction false} MutationMethodsMeans(target: string, ms: seq<MethodDecl>)
    ensures forall m :: m in MutationMethods(target, ms) <==>
              m in ms && ShouldIncludeMethod(target, m.options) && IsMutation(m.options.kind)
    decreases |ms|
  {
    if ms != [] {
      var n := |ms| - 1;
      MutationMethodsMeans(target, ms[..n]);
      SkipMethodAgrees(target, ms[n].options);
      assert ms == ms[..n] + [ms[n]];
    }
  }

  /** The queries and the mutations of a schema, side by side. */
  datatype Operations = Operations(queries: seq<Operation>, mutations: seq<Operation>) {
    function Then(next: Operations): Operations {
      Operations(queries + next.queries, mutations + next.mutations)
    }
  }

  /** The queries and mutations `AddQueriesAndMutations` builds from `ms`. */
  function OperationsFor(target: string, ms: seq<MethodDecl>, pkg: Option<string>, h: Helpers): Operations {
    Operations(OperationsOf(QueryMethods(target, ms), pkg, h), OperationsOf(MutationMethods(target, ms), pkg, h))
  }

  lemma OperationsThenAssociative(a: Operations, b: Operations, c: Operations)
    ensures a.Then(b).Then(c) == a.Then(b.Then(c))
  {
    assert a.queries + b.queries + c.queries == a.queries + (b.queries + c.queries);
    assert a.mutations + b.mutations + c.mutations == a.mutations + (b.mutations + c.mutations);
  }

  lemma OperationsOfAppend(a: seq<MethodDecl>, b: seq<MethodDecl>, pkg: Option<string>, h: Helpers)
    ensures OperationsOf(a + b, pkg, h) == OperationsOf(a, pkg, h) + OperationsOf(b, pkg, h)
  {
  }

  /** The operations of two method lists are those of the first, then those of the second. */
  lemma OperationsForAppend(target: string, a: seq<MethodDecl>, b: seq<MethodDecl>, pkg: Option<string>, h: Helpers)
    ensures OperationsFor(target, a + b, pkg, h) == OperationsFor(target, a, pkg, h).Then(OperationsFor(target, b, pkg, h))
  {
    QueryMethodsAppend(target, a, b);
    MutationMethodsAppend(target, a, b);
    OperationsOfAppend(QueryMethods(target, a), QueryMethods(target, b), pkg, h);
    OperationsOfAppend(MutationMethods(target, a), MutationMethods(target, b), pkg, h);
  }

  /** What one method contributes: nothing when skipped, else one mutation or one query. */
  function OperationStep(target: string, m: MethodDecl, pkg: Option<string>, h: Helpers): Operations {
    if SkipMethod(target, m.options) then Operations([], [])
    else if IsMutation(m.options.kind) then Operations([], [OperationOf(m, pkg, h)])
    else Operations([OperationOf(m, pkg, h)], [])
  }

  lemma OperationsForSnoc(target: string, ms: seq<MethodDecl>, m: MethodDecl, pkg: Option<string>, h: Helpers)
    ensures OperationsFor(target, ms + [m], pkg, h) == OperationsFor(target, ms, pkg, h).Then(OperationStep(target, m, pkg, h))
  {
    OperationsForAppend(target, ms, [m], pkg, h);
    assert [m][..0] == [];
  }
}
