/**
 * The per-file `Schema` of internal/schema.go as a class: the lists it
 * fills (object types, enums, queries, mutations), the text builder its
 * output helpers append to, the output file name, and `CreateSchema`,
 * which builds the analyzer over every file of the request, marks what the
 * file's admitted methods use and then fills the lists.
 */
module Schemas {
  import opened Wrappers
  import opened Strs
  import opened Descriptors
  import opened Registry
  import opened Resolution
  import opened Reachability
  import opened Analysis
  import opened Analyzer
  import opened Naming
  import opened Projection

  // ---------------------------------------------------------------------
  // Output file names and the text helpers

  /**
   * `filepath.Ext` with `/` as the separator: the suffix of the last path
   * element from its final dot on, or "" when that element has no dot.
   */
  function Ext(path: string): (e: string)
    ensures e == "" || (e[0] == '.' && HasSuffix(path, e))
  {
    if path == [] || path[|path| - 1] == '/' then ""
    else if path[|path| - 1] == '.' then
      SuffixOfConcat(path[..|path| - 1], ".");
      assert path == path[..|path| - 1] + ".";
      "."
    else
      var e := Ext(path[..|path| - 1]);
      if e == "" then ""
      else
        assert path[..|path| - 1] == path[..|path| - 1 - |e|] + e;
        assert path == path[..|path| - 1 - |e|] + (e + [path[|path| - 1]]);
        SuffixOfConcat(path[..|path| - 1 - |e|], e + [path[|path| - 1]]);
        e + [path[|path| - 1]]
  }

  /** The name `FileName` gives a file's schema: its extension replaced by `.graphql`. */
  function GraphqlFileName(filename: string): string {
    TrimSuffix(filename, Ext(filename)) + ".graphql"
  }

  predicate PlainSegment(e: string) {
    forall i :: 0 <= i < |e| ==> e[i] != '.' && e[i] != '/'
  }

  lemma {:induction false} ExtOfPlainTail(stem: string, e: string)
    requires PlainSegment(e)
    ensures Ext(stem + "." + e) == "." + e
    decreases |e|
  {
    if e == [] {
      assert stem + "." + e == stem + ".";
      assert (stem + ".")[..|stem|] == stem;
    } else {
      var p := stem + "." + e;
      var front := e[..|e| - 1];
      assert p[..|p| - 1] == stem + "." + front;
      assert p[|p| - 1] == e[|e| - 1];
      ExtOfPlainTail(stem, front);
      assert "." + front + [e[|e| - 1]] == "." + e;
    }
  }

  lemma {:induction false} ExtOfPlain(name: string)
    requires PlainSegment(name)
    ensures Ext(name) == ""
    decreases |name|
  {
    if name != [] {
      ExtOfPlain(name[..|name| - 1]);
    }
  }

  /** A name whose last element has an extension gets that extension replaced by `.graphql`. */
  lemma FileNameReplacesExtension(stem: string, e: string)
    requires PlainSegment(e)
    ensures GraphqlFileName(stem + "." + e) == stem + ".graphql"
  {
    ExtOfPlainTail(stem, e);
    SuffixOfConcat(stem, "." + e);
    assert stem + "." + e == stem + ("." + e);
    assert (stem + ("." + e))[..|stem|] == stem;
  }

  /** A name without any dot or slash keeps its whole text and gains `.graphql`. */
  lemma FileNameAppendsExtension(name: string)
    requires PlainSegment(name)
    ensures GraphqlFileName(name) == name + ".graphql"
  {
    ExtOfPlain(name);
    assert HasSuffix(name, "") by {
      assert name[|name|..] == "";
    }
    assert name[..|name|] == name;
  }

  /** The last path element carries no dot: no extension, whatever the directory holds. */
  lemma {:induction false} ExtAfterSlash(dir: string, name: string)
    requires PlainSegment(name)
    ensures Ext(dir + "/" + name) == ""
    decreases |name|
  {
    var p := dir + "/" + name;
    if name != [] {
      var front := name[..|name| - 1];
      assert p[..|p| - 1] == dir + "/" + front;
      assert p[|p| - 1] == name[|name| - 1];
      ExtAfterSlash(dir, front);
    }
  }

  /**
   * A last path element without a dot keeps the whole path and gains
   * `.graphql`, even when a directory above it has a dot in its name.
   */
  lemma FileNameInDirectory(dir: string, name: string)
    requires PlainSegment(name)
    ensures GraphqlFileName(dir + "/" + name) == dir + "/" + name + ".graphql"
  {
    var p := dir + "/" + name;
    ExtAfterSlash(dir, name);
    assert HasSuffix(p, "") by {
      assert p[|p|..] == "";
    }
    assert p[..|p|] == p;
  }

  /** `n` copies of `c`, none when `n` is not positive. */
  function Repeat(c: char, n: int): (r: string)
    ensures |r| == (if n > 0 then n else 0)
    ensures forall i :: 0 <= i < |r| ==> r[i] == c
    decreases n
  {
    if n <= 0 then "" else Repeat(c, n - 1) + [c]
  }

  /** `generateFields`: one field per proto field, in order, camel-cased unless `keep_case` is set. */
  method GenerateFields(fields: seq<FieldDecl>, camel: string -> string) returns (result: seq<Field>)
    ensures |result| == |fields|
    ensures forall i :: 0 <= i < |fields| ==> result[i].source == fields[i]
    ensures forall i :: 0 <= i < |fields| ==> result[i].name == (if fields[i].keepCase then fields[i].name else camel(fields[i].name))
    ensures result == FieldsOf(fields, camel)
  {
    result := [];
    for i := 0 to |fields|
      invariant |result| == i
      invariant forall j :: 0 <= j < i ==> result[j] == Field(FieldName(fields[j], camel), fields[j])
    {
      var f := Field(fields[i].name, fields[i]);
      if !fields[i].keepCase {
        f := f.(name := camel(fields[i].name));
      }
      result := result + [f];
    }
  }

  // ---------------------------------------------------------------------
  // What `CreateSchema` builds, as values

  /** The analyzer scope `NewTypeAnalyzer` builds over every file of the request. */
  function ScopeOf(files: seq<ProtoFile>): Scope {
    Scope(Apply(map[], FileTypeWrites(files)), Apply(map[], FileEnumWrites(files)),
          if |files| > 0 then PackageOf(files[0]) else "", KnownPackages(files))
  }

  /** The reachable sets after `AnalyzeRPCDependencies` over the services of `f`, from empty sets. */
  function MarksOf(files: seq<ProtoFile>, f: ProtoFile, target: string): Reach {
    AnalyzeMethods(ScopeOf(files), target, AllMethods(f.services), Reach({}, {}, {}))
  }

  function GateOf(files: seq<ProtoFile>, f: ProtoFile, target: string): Gate {
    var sc := ScopeOf(files);
    AnalyzerGate(MarksOf(files, f, target), sc.primary, sc.packages)
  }

  /** The five lists of one schema, as the combined output and the response files see them. */
  datatype SchemaBody = SchemaBody(
    objects: seq<ObjectType>,
    enums: seq<Enumeration>,
    inputTypes: seq<InputType>,
    mutations: seq<Operation>,
    queries: seq<Operation>)

  /**
   * The lists a schema for `f` holds once filled under the gate `g`: the
   * emitted object types, the emitted nested enums followed by the
   * top-level enums `g` lets through, no input types, and the admitted
   * methods split into mutations and queries.
   */
  function Layout(g: Gate, f: ProtoFile, args: Args, h: Helpers): SchemaBody {
    var e := Emit(g, "", PackageOf(f), f.messages, h.camelCase);
    var o := OperationsFor(args.target, AllMethods(f.services), f.package, h);
    SchemaBody(e.objects, e.enums + ReachableEnums(g, "", PackageOf(f), f.enums), [], o.mutations, o.queries)
  }

  /** The lists `CreateSchema` fills for `f` within the request `files`. */
  function Generated(files: seq<ProtoFile>, f: ProtoFile, args: Args, h: Helpers): SchemaBody {
    Layout(GateOf(files, f, args.target), f, args, h)
  }

  lemma LayoutOfViews(e: Emission, o: Operations, g: Gate, f: ProtoFile, args: Args, h: Helpers)
    requires e == Nothing.Then(Emit(g, "", PackageOf(f), f.messages, h.camelCase))
                         .Then(Emission([], ReachableEnums(g, "", PackageOf(f), f.enums)))
    requires o == Operations([], []).Then(OperationsFor(args.target, AllMethods(f.services), f.package, h))
    ensures SchemaBody(e.objects, e.enums, [], o.mutations, o.queries) == Layout(g, f, args, h)
  {
    var x := Emit(g, "", PackageOf(f), f.messages, h.camelCase);
    var y := OperationsFor(args.target, AllMethods(f.services), f.package, h);
    assert [] + x.objects + [] == x.objects;
    assert [] + x.enums + ReachableEnums(g, "", PackageOf(f), f.enums) == x.enums + ReachableEnums(g, "", PackageOf(f), f.enums);
    assert [] + y.queries == y.queries && [] + y.mutations == y.mutations;
  }

  // ---------------------------------------------------------------------
  // What a schema holds

  /** Every message of every file of the request is registered under its own key. */
  lemma {:induction false} FileTypeWritesCover(files: seq<ProtoFile>, i: int)
    requires 0 <= i < |files|
    ensures KeysOf(TypeWrites(files[i].messages, "", PackageOf(files[i]))) <= KeysOf(FileTypeWrites(files))
    decreases |files|
  {
    var n := |files| - 1;
    KeysOfAppend(FileTypeWrites(files[..n]), TypeWrites(files[n].messages, "", PackageOf(files[n])));
    if i < n {
      assert files[..n][i] == files[i];
      FileTypeWritesCover(files[..n], i);
    }
  }

  /**
   * Every object type of a schema is built from a message of its own file
   * (top-level or nested) that has a field and whose key one of the two
   * analyses reached.
   */
  lemma GeneratedObjectsSound(files: seq<ProtoFile>, f: ProtoFile, args: Args, h: Helpers)
    ensures var st := MarksOf(files, f, args.target);
            forall o :: o in Generated(files, f, args, h).objects ==>
              FromWrite(o, TypeWrites(f.messages, "", PackageOf(f)), st.input + st.output, h.camelCase)
  {
    var st, sc := MarksOf(files, f, args.target), ScopeOf(files);
    AnalyzerGateExact(st, sc.primary, sc.packages);
    EmitSound(GateOf(files, f, args.target), st.input + st.output, st.enums, "", PackageOf(f), f.messages, h.camelCase);
  }

  /**
   * Every enum of a schema is an enum of its own file (nested in a message
   * or top-level) whose key the analyses reached.
   */
  lemma GeneratedEnumsSound(files: seq<ProtoFile>, f: ProtoFile, args: Args, h: Helpers)
    ensures var st := MarksOf(files, f, args.target);
            forall x :: x in Generated(files, f, args, h).enums ==>
              FromEnumWrite(x, TypeEnumWrites(f.messages, "", PackageOf(f)) + EnumWrites(f.enums, "", PackageOf(f)), st.enums)
  {
    var st, sc := MarksOf(files, f, args.target), ScopeOf(files);
    var g, pkg := GateOf(files, f, args.target), PackageOf(f);
    var nested, top := TypeEnumWrites(f.messages, "", pkg), EnumWrites(f.enums, "", pkg);
    AnalyzerGateExact(st, sc.primary, sc.packages);
    EmitEnumsSound(g, st.input + st.output, st.enums, "", pkg, f.messages, h.camelCase);
    ReachableEnumsFromWrites(g, st.input + st.output, st.enums, "", pkg, f.enums);
    var early, late := Emit(g, "", pkg, f.messages, h.camelCase).enums, ReachableEnums(g, "", pkg, f.enums);
    assert Generated(files, f, args, h).enums == early + late;
    EnumSourcesJoin(early, late, nested, top, st.enums);
  }

  /**
   * The guarantee the analysis exists for: a top-level message with a
   * field that an admitted method of the file takes or returns, named by
   * its fully qualified key, is in the file's schema.
   */
  lemma ServiceTypesEmitted(files: seq<ProtoFile>, fi: int, args: Args, h: Helpers, k: int, j: int)
    requires 0 <= fi < |files|
    requires 0 <= k < |AllMethods(files[fi].services)| && 0 <= j < |files[fi].messages|
    requires ShouldIncludeMethod(args.target, AllMethods(files[fi].services)[k].options)
    requires var key := FullName("", PackageOf(files[fi]), files[fi].messages[j].name);
             AllMethods(files[fi].services)[k].inputType == key || AllMethods(files[fi].services)[k].outputType == key
    requires |files[fi].messages[j].fields| > 0
    ensures ObjectOf(files[fi].messages[j], h.camelCase) in Generated(files, files[fi], args, h).objects
  {
    var f := files[fi];
    var pkg, ms := PackageOf(f), AllMethods(f.services);
    var st, sc := MarksOf(files, f, args.target), ScopeOf(files);
    var key := FullName("", pkg, f.messages[j].name);
    assert key in sc.types by {
      TypeWritesCover(f.messages, "", pkg, j);
      FileTypeWritesCover(files, fi);
      ApplyKeys(map[], FileTypeWrites(files));
    }
    FullNameLeadingDot("", pkg, f.messages[j].name);
    AnalyzeSound(sc, args.target, ms, Reach({}, {}, {}));
    assert key in st.input + st.output;
    AnalyzerGateExact(st, sc.primary, sc.packages);
    EmitComplete(GateOf(files, f, args.target), st.input + st.output, st.enums, "", pkg, f.messages, h.camelCase);
  }

  /**
   * The two analyzer steps of `CreateSchema`: `NewTypeAnalyzer` over every
   * file of the request, then `AnalyzeRPCDependencies` over the services
   * of the file the schema is for.
   */
  method AnalyzedFor(files: seq<ProtoFile>, f: ProtoFile, target: string) returns (ta: TypeAnalyzer)
    ensures fresh(ta)
    ensures ta.CurrentScope() == ScopeOf(files)
    ensures ta.State() == MarksOf(files, f, target)
  {
    ta := new TypeAnalyzer(files);
    assert ta.CurrentScope() == ScopeOf(files);
    assert ta.State() == Reach({}, {}, {});
    ta.AnalyzeRPCDependencies(f.services, target);
  }

  /**
   * `CreateSchema`: the schema of `protoFile` within the request `files`:
   * its output name, the analyzer over every file marked from this file's
   * admitted methods, and the lists that analysis lets through.
   */
  method CreateSchema(args: Args, files: seq<ProtoFile>, protoFile: ProtoFile, helpers: Helpers) returns (schema: Schema)
    ensures fresh(schema) && fresh(schema.typeAnalyzer)
    ensures schema.args == args && schema.helpers == helpers && schema.protoFile == protoFile
    ensures schema.packageName == protoFile.package
    ensures schema.fileName == GraphqlFileName(protoFile.name)
    ensures schema.typeAnalyzer.CurrentScope() == ScopeOf(files)
    ensures schema.typeAnalyzer.State() == MarksOf(files, protoFile, args.target)
    ensures schema.Body() == Generated(files, protoFile, args, helpers)
    ensures schema.content == ""
  {
    var analyzer := AnalyzedFor(files, protoFile, args.target);
    schema := new Schema(args, protoFile, helpers, analyzer);
    schema.Populate();
    assert schema.Answers() == GateOf(files, protoFile, args.target);
    LayoutOfViews(schema.Emitted(), schema.Ops(), schema.Answers(), protoFile, args, helpers);
  }

  // ---------------------------------------------------------------------
  // The schema

  class Schema {
    var args: Args
    var helpers: Helpers
    var protoFile: ProtoFile
    var packageName: Option<string>
    var fileName: string
    var typeAnalyzer: TypeAnalyzer
    var objectTypes: seq<ObjectType>
    var enums: seq<Enumeration>
    var inputTypes: seq<InputType>
    var mutations: seq<Operation>
    var queries: seq<Operation>
    var content: string

    /** The fields `CreateSchema` sets before it fills the schema: every list and the text start empty. */
    constructor (args: Args, protoFile: ProtoFile, helpers: Helpers, analyzer: TypeAnalyzer)
      ensures this.args == args && this.helpers == helpers && this.protoFile == protoFile
      ensures packageName == protoFile.package && typeAnalyzer == analyzer
      ensures fileName == "" && content == ""
      ensures objectTypes == [] && enums == [] && inputTypes == [] && mutations == [] && queries == []
    {
      this.args := args;
      this.helpers := helpers;
      this.protoFile := protoFile;
      packageName := protoFile.package;
      fileName := "";
      typeAnalyzer := analyzer;
      objectTypes, enums, inputTypes, mutations, queries := [], [], [], [], [];
      content := "";
    }

    /** The part of `CreateSchema` after the analyzer is ready: the output name, then the four lists. */
    method Populate()
      modifies this`fileName, this`objectTypes, this`enums, this`queries, this`mutations
      ensures fileName == GraphqlFileName(protoFile.name)
      ensures Emitted() == old(Emitted()).Then(Emit(Answers(), "", Pkg(), protoFile.messages, helpers.camelCase))
                                         .Then(Emission([], ReachableEnums(Answers(), "", Pkg(), protoFile.enums)))
      ensures Ops() == old(Ops()).Then(OperationsFor(args.target, AllMethods(protoFile.services), packageName, helpers))
    {
      FileName(protoFile.name);
      EmitLists();
      AddQueriesAndMutations();
    }

    /** The object types of the file's messages, then its reachable top-level enums. */
    method EmitLists()
      modifies this`objectTypes, this`enums
      ensures Emitted() == old(Emitted()).Then(Emit(Answers(), "", Pkg(), protoFile.messages, helpers.camelCase))
                                         .Then(Emission([], ReachableEnums(Answers(), "", Pkg(), protoFile.enums)))
    {
      MakeObjectTypes(protoFile.messages);
      Enums();
    }

    function Body(): SchemaBody
      reads this`objectTypes, this`enums, this`inputTypes, this`mutations, this`queries
    {
      SchemaBody(objectTypes, enums, inputTypes, mutations, queries)
    }

    function Pkg(): string
      reads this`packageName
    {
      packageName.GetOr("")
    }

    /** The analyzer's answers to `IsTypeReachable` and `IsEnumReachable`. */
    function Answers(): Gate
      reads this`typeAnalyzer, typeAnalyzer`inputReachableTypes, typeAnalyzer`outputReachableTypes,
            typeAnalyzer`reachableEnums, typeAnalyzer`packageName, typeAnalyzer`packageNames
    {
      AnalyzerGate(typeAnalyzer.State(), typeAnalyzer.packageName, typeAnalyzer.packageNames)
    }

    /** `Write`: appends `s`; an empty `s` leaves the text as it is. */
    method Write(s: string)
      modifies this`content
      ensures content == old(content) + s
    {
      if |s| == 0 {
        return;
      }
      content := content + s;
    }

    /** `NewLine(length...)`: one newline without an argument, else `length[0]` of them. */
    method NewLine(length: seq<int>)
      modifies this`content
      ensures content == old(content) + Repeat('\n', if |length| == 0 then 1 else length[0])
    {
      if |length| == 0 {
        Write("\n");
        return;
      }
      var i := 0;
      while i < length[0]
        invariant (if length[0] > 0 then 0 <= i <= length[0] else i == 0)
        invariant content == old(content) + Repeat('\n', i)
      {
        Write("\n");
        i := i + 1;
      }
    }

    /** `Space(length...)`: one space without an argument, else `length[0]` of them. */
    method Space(length: seq<int>)
      modifies this`content
      ensures content == old(content) + Repeat(' ', if |length| == 0 then 1 else length[0])
    {
      if |length| == 0 {
        Write(" ");
        return;
      }
      var i := 0;
      while i < length[0]
        invariant (if length[0] > 0 then 0 <= i <= length[0] else i == 0)
        invariant content == old(content) + Repeat(' ', i)
      {
        Write(" ");
        i := i + 1;
      }
    }

    /** `Comment`: a `#`, a space, then the text. */
    method Comment(s: string)
      modifies this`content
      ensures content == old(content) + "# " + s
    {
      Write("#");
      Space([]);
      Write(s);
    }

    /** `FileName`: the schema's output name is the proto file's name with its extension replaced by `.graphql`. */
    method FileName(filename: string)
      modifies this`fileName
      ensures fileName == GraphqlFileName(filename)
    {
      var ext := Ext(filename);
      fileName := TrimSuffix(filename, ext) + ".graphql";
    }

    /** The object types and enums emitted so far. */
    function Emitted(): Emission
      reads this`objectTypes, this`enums
    {
      Emission(objectTypes, enums)
    }

    /** `makeObjectTypes`: the top-level messages, without a prefix. */
    method MakeObjectTypes(messages: seq<Message>)
      modifies this`objectTypes, this`enums
      ensures Emitted() == old(Emitted()).Then(Emit(Answers(), "", Pkg(), messages, helpers.camelCase))
    {
      MakeObjectTypesWithPrefix(messages, "");
    }

    /** `makeObjectTypesWithPrefix`: the loop over `messages`, one `MakeObjectType` per message. */
    method MakeObjectTypesWithPrefix(messages: seq<Message>, prefix: string)
      modifies this`objectTypes, this`enums
      ensures Emitted() == old(Emitted()).Then(Emit(Answers(), prefix, Pkg(), messages, helpers.camelCase))
      decreases Size(messages), 2
    {
      ghost var g, pkg, camel := Answers(), Pkg(), helpers.camelCase;
      ghost var start := Emitted();
      var i := 0;
      while i < |messages|
        invariant 0 <= i <= |messages|
        invariant Emitted() == start.Then(Emit(g, prefix, pkg, messages[..i], camel))
      {
        SizeOfElement(messages, i);
        ghost var done := Emit(g, prefix, pkg, messages[..i], camel);
        MakeObjectType(messages[i], prefix);
        assert Answers() == g;
        ghost var step := EmitMessage(g, prefix, pkg, messages[i], camel);
        assert Emit(g, prefix, pkg, messages[..i + 1], camel) == done.Then(step) by {
          assert messages[..i + 1] == messages[..i] + [messages[i]];
          EmitSnoc(g, prefix, pkg, messages[..i], messages[i], camel);
        }
        ThenAssociative(start, done, step);
        i := i + 1;
      }
      assert messages[..i] == messages;
    }

    /**
     * The body of `makeObjectTypesWithPrefix`'s loop for one message: the
     * key is computed as the analyzer registered it; a reachable message
     * with fields gets its nested messages, its reachable nested enums and
     * then its own object type.
     */
    method MakeObjectType(message: Message, prefix: string)
      modifies this`objectTypes, this`enums
      ensures Emitted() == old(Emitted()).Then(EmitMessage(Answers(), prefix, Pkg(), message, helpers.camelCase))
      decreases Size([message]), 1
    {
      var fullName: string;
      if prefix == "" {
        if packageName.Some? && packageName.value != "" {
          fullName := "." + packageName.value + "." + message.name;
        } else {
          fullName := "." + message.name;
        }
      } else {
        fullName := prefix + "." + message.name;
      }
      assert fullName == FullName(prefix, Pkg(), message.name);
      if !typeAnalyzer.IsTypeReachable(fullName) {
        assert Emitted() == old(Emitted()).Then(Nothing);
        return;
      }
      if |message.fields| > 0 {
        ghost var g, pkg, camel := Answers(), Pkg(), helpers.camelCase;
        ghost var start := Emitted();
        var fields := GenerateFields(message.fields, helpers.camelCase);
        var objectType := ObjectType(Some(message.name), fields);
        assert Size(message.nested) < Size([message]) by {
          assert [message][..0] == [];
        }
        MakeNested(message.nested, fullName);
        ghost var below := Emit(g, fullName, pkg, message.nested, camel);
        assert Answers() == g;
        AppendReachableEnums(message.enums, fullName);
        objectTypes := objectTypes + [objectType];
        ghost var own := Emission([objectType], ReachableEnums(g, fullName, pkg, message.enums));
        assert Emitted() == start.Then(below).Then(own);
        ThenAssociative(start, below, own);
      } else {
        assert Emitted() == old(Emitted()).Then(Nothing);
      }
    }

    /** The nested-message loop: one `makeObjectTypesWithPrefix` call per nested message, under the parent's key. */
    method MakeNested(nested: seq<Message>, key: string)
      modifies this`objectTypes, this`enums
      ensures Emitted() == old(Emitted()).Then(Emit(Answers(), key, Pkg(), nested, helpers.camelCase))
      decreases Size(nested), 3
    {
      ghost var g, pkg, camel := Answers(), Pkg(), helpers.camelCase;
      ghost var start := Emitted();
      var j := 0;
      while j < |nested|
        invariant 0 <= j <= |nested|
        invariant Emitted() == start.Then(Emit(g, key, pkg, nested[..j], camel))
      {
        SizeOfElement(nested, j);
        ghost var done := Emit(g, key, pkg, nested[..j], camel);
        MakeObjectTypesWithPrefix([nested[j]], key);
        assert Answers() == g;
        ghost var step := Emit(g, key, pkg, [nested[j]], camel);
        EmitPrefixStep(g, key, pkg, nested, j, camel);
        ThenAssociative(start, done, step);
        j := j + 1;
      }
      assert nested[..j] == nested;
    }

    /** The loop over a message's nested enums: those whose key under the message's key is enum-reachable, in order. */
    method AppendReachableEnums(es: seq<EnumDecl>, prefix: string)
      modifies this`enums
      ensures enums == old(enums) + ReachableEnums(Answers(), prefix, Pkg(), es)
    {
      ghost var g, pkg := Answers(), Pkg();
      for i := 0 to |es|
        invariant enums == old(enums) + ReachableEnums(g, prefix, pkg, es[..i])
      {
        var enumFullName := FullName(prefix, Pkg(), es[i].name);
        ReachableEnumsSnoc(g, prefix, pkg, es[..i], es[i]);
        assert es[..i + 1] == es[..i] + [es[i]];
        if typeAnalyzer.IsEnumReachable(enumFullName) {
          enums := enums + [Enumeration(Some(es[i].name), es[i].values)];
        }
      }
      assert es[..|es|] == es;
    }

    /** `Enums`: the file's top-level enums whose keys are enum-reachable, in order. */
    method Enums()
      modifies this`enums
      ensures Emitted() == old(Emitted()).Then(Emission([], ReachableEnums(Answers(), "", Pkg(), protoFile.enums)))
    {
      ghost var g, pkg := Answers(), Pkg();
      ghost var start := enums;
      var es := protoFile.enums;
      for i := 0 to |es|
        invariant enums == start + ReachableEnums(g, "", pkg, es[..i])
      {
        ReachableEnumsSnoc(g, "", pkg, es[..i], es[i]);
        assert es[..i + 1] == es[..i] + [es[i]];
        AppendTopEnum(es[i]);
      }
      assert es[..|es|] == es;
    }

    /** The body of the loop in `Enums`: the enum's key in the file's package, and the enum if that key is enum-reachable. */
    method AppendTopEnum(enumType: EnumDecl)
      modifies this`enums
      ensures enums == old(enums) + (if Answers().enumOk(FullName("", Pkg(), enumType.name)) then [EnumerationOf(enumType)] else [])
    {
      var fullName: string;
      if packageName.Some? && packageName.value != "" {
        fullName := "." + packageName.value + "." + enumType.name;
      } else {
        fullName := "." + enumType.name;
      }
      assert fullName == FullName("", Pkg(), enumType.name);
      if typeAnalyzer.IsEnumReachable(fullName) {
        enums := enums + [Enumeration(Some(enumType.name), enumType.values)];
      }
    }

    /** The queries and mutations so far. */
    function Ops(): Operations
      reads this`queries, this`mutations
    {
      Operations(queries, mutations)
    }

    /** `AddQueriesAndMutations`: service by service, each method not skipped becomes a query or a mutation. */
    method AddQueriesAndMutations()
      modifies this`queries, this`mutations
      ensures Ops() == old(Ops()).Then(OperationsFor(args.target, AllMethods(protoFile.services), packageName, helpers))
    {
      ghost var target, pkg, h := args.target, packageName, helpers;
      ghost var start := Ops();
      var services := protoFile.services;
      for i := 0 to |services|
        invariant Ops() == start.Then(OperationsFor(target, AllMethods(services[..i]), pkg, h))
      {
        ghost var done := OperationsFor(target, AllMethods(services[..i]), pkg, h);
        AddServiceMethods(services[i].methods);
        ghost var step := OperationsFor(target, services[i].methods, pkg, h);
        assert AllMethods(services[..i + 1]) == AllMethods(services[..i]) + services[i].methods by {
          assert services[..i + 1][..i] == services[..i];
        }
        OperationsForAppend(target, AllMethods(services[..i]), services[i].methods, pkg, h);
        OperationsThenAssociative(start, done, step);
      }
      assert services[..|services|] == services;
    }

    /** The method loop of one service. */
    method AddServiceMethods(methods: seq<MethodDecl>)
      modifies this`queries, this`mutations
      ensures Ops() == old(Ops()).Then(OperationsFor(args.target, methods, packageName, helpers))
    {
      ghost var start := Ops();
      for j := 0 to |methods|
        invariant Ops() == start.Then(OperationsFor(args.target, methods[..j], packageName, helpers))
      {
        ghost var done := OperationsFor(args.target, methods[..j], packageName, helpers);
        AddMethod(methods[j]);
        assert methods[..j + 1] == methods[..j] + [methods[j]];
        OperationsForSnoc(args.target, methods[..j], methods[j], packageName, helpers);
        OperationsThenAssociative(start, done, OperationStep(args.target, methods[j], packageName, helpers));
      }
      assert methods[..|methods|] == methods;
    }

    /**
     * The loop body for one method: a skipped method contributes nothing;
     * otherwise its `GqlInput` option is rewritten in place (or created) by
     * `getGqlInputType`, and the method becomes a mutation or a query.
     */
    method AddMethod(method_: MethodDecl)
      modifies this`queries, this`mutations
      ensures Ops() == old(Ops()).Then(OperationStep(args.target, method_, packageName, helpers))
    {
      var methodOptions := method_.options;
      if SkipMethod(args.target, methodOptions) {
        assert Ops() == old(Ops()).Then(Operations([], []));
        return;
      }
      var option: GqlInputRecord? := null;
      if methodOptions.gqlInput.Some? {
        option := new GqlInputRecord(methodOptions.gqlInput.value);
      }
      var input := GetGqlInputType(option, method_.inputType, packageName, helpers);
      var payload := OutputTypeName(methodOptions.gqlOutput, method_.outputType, packageName, helpers.upperFirst);
      var op := Operation(Some(method_.name), input.Value(), payload);
      assert op == OperationOf(method_, packageName, helpers);
      if IsMutation(methodOptions.kind) {
        mutations := mutations + [op];
      } else {
        queries := queries + [op];
      }
    }
  }
}
