/**
 * The plugin's run (internal/execute.go): one schema per file the request
 * names explicitly, then either one response file per schema or a single
 * combined file in which each of the five lists keeps only the first item
 * of each name across all schemas.
 */
module Execute {
  import opened Wrappers
  import opened Descriptors
  import opened Naming
  import opened Projection
  import opened Schemas
  import opened Dedup

  /** The parts of a `CodeGeneratorRequest` the run reads. */
  datatype Request = Request(fileToGenerate: seq<string>, protoFile: seq<ProtoFile>)

  /**
   * A response file: its name and the lists whose rendering is its
   * content.
   */
  datatype ResponseFile = ResponseFile(name: string, body: SchemaBody)

  // ---------------------------------------------------------------------
  // The run as values

  /** The request's files whose name is among the files to generate, in request order. */
  function ExplicitFiles(files: seq<ProtoFile>, names: seq<string>): seq<ProtoFile> {
    if files == [] then []
    else
      var f := files[|files| - 1];
      ExplicitFiles(files[..|files| - 1], names) + (if f.name in names then [f] else [])
  }

  /** The schema `CreateSchema` builds for a file, analysed against all files `all` of the request. */
  function SchemaOf(all: seq<ProtoFile>, args: Args, h: Helpers): ProtoFile -> SchemaBody {
    f => Generated(all, f, args, h)
  }

  /** The schemas that response files hold, in order. */
  function BodiesIn(rs: seq<ResponseFile>): (bs: seq<SchemaBody>)
    ensures |bs| == |rs| && forall i :: 0 <= i < |rs| ==> bs[i] == rs[i].body
  {
    seq(|rs|, i requires 0 <= i < |rs| => rs[i].body)
  }

  /** One response file per file of `es`: the proto file's name with a `.graphql` extension, and its schema. */
  function FilesBy(es: seq<ProtoFile>, gen: ProtoFile -> SchemaBody): (rs: seq<ResponseFile>)
    ensures |rs| == |es|
  {
    if es == [] then []
    else
      var e := es[|es| - 1];
      FilesBy(es[..|es| - 1], gen) + [ResponseFile(GraphqlFileName(e.name), gen(e))]
  }

  /** The i-th response file is named after the i-th file and holds its schema. */
  lemma {:induction false} FilesByMeans(es: seq<ProtoFile>, gen: ProtoFile -> SchemaBody)
    ensures forall i :: 0 <= i < |es| ==> FilesBy(es, gen)[i] == ResponseFile(GraphqlFileName(es[i].name), gen(es[i]))
    decreases |es|
  {
    if es != [] {
      var k := |es| - 1;
      var front := es[..k];
      FilesByMeans(front, gen);
      forall i | 0 <= i < |es|
        ensures FilesBy(es, gen)[i] == ResponseFile(GraphqlFileName(es[i].name), gen(es[i]))
      {
        if i < k {
          assert front[i] == es[i];
          assert FilesBy(es, gen)[i] == FilesBy(front, gen)[i];
        }
      }
    }
  }

  function ObjectsOf(b: SchemaBody): seq<ObjectType> { b.objects }
  function EnumsOf(b: SchemaBody): seq<Enumeration> { b.enums }
  function InputTypesOf(b: SchemaBody): seq<InputType> { b.inputTypes }
  function MutationsOf(b: SchemaBody): seq<Operation> { b.mutations }
  function QueriesOf(b: SchemaBody): seq<Operation> { b.queries }

  function ObjectName(o: ObjectType): Option<string> { o.name }
  function EnumName(e: Enumeration): Option<string> { e.name }
  function InputTypeName(t: InputType): Option<string> { t.name }
  function OperationName(o: Operation): Option<string> { o.name }

  /** One list of every schema, schema after schema. */
  function Flatten<T>(bs: seq<SchemaBody>, part: SchemaBody -> seq<T>): seq<T> {
    if bs == [] then [] else Flatten(bs[..|bs| - 1], part) + part(bs[|bs| - 1])
  }

  /** The combined schema: each list of all schemas, first item of each name only. */
  function Combined(bs: seq<SchemaBody>): SchemaBody {
    SchemaBody(Unseen(Flatten(bs, ObjectsOf), ObjectName, {}),
               Unseen(Flatten(bs, EnumsOf), EnumName, {}),
               Unseen(Flatten(bs, InputTypesOf), InputTypeName, {}),
               Unseen(Flatten(bs, MutationsOf), OperationName, {}),
               Unseen(Flatten(bs, QueriesOf), OperationName, {}))
  }

  /** The combined file's name: the first `output_filename` given, else `schema.graphql`. */
  function CombinedFileName(args: Args): string {
    if |args.outputFileNames| > 0 then args.outputFileNames[0] else "schema.graphql"
  }

  /**
   * The response of a run: one file per explicit proto file, or a single
   * file merging the schemas those files would hold.
   */
  function Response(req: Request, args: Args, h: Helpers): seq<ResponseFile> {
    var separate := FilesBy(ExplicitFiles(req.protoFile, req.fileToGenerate), SchemaOf(req.protoFile, args, h));
    if args.combineOutput then [ResponseFile(CombinedFileName(args), Combined(BodiesIn(separate)))]
    else separate
  }

  // ---------------------------------------------------------------------
  // Properties of the run

  /** A file gets a schema exactly when it is in the request and named among the files to generate. */
  lemma {:induction false} ExplicitFilesMeans(files: seq<ProtoFile>, names: seq<string>)
    ensures forall f :: f in ExplicitFiles(files, names) <==> f in files && f.name in names
    decreases |files|
  {
    if files != [] {
      var k := |files| - 1;
      ExplicitFilesMeans(files[..k], names);
      assert files == files[..k] + [files[k]];
    }
  }

  lemma FlattenSnoc<T>(bs: seq<SchemaBody>, b: SchemaBody, part: SchemaBody -> seq<T>)
    ensures Flatten(bs + [b], part) == Flatten(bs, part) + part(b)
  {
    assert (bs + [b])[..|bs|] == bs;
  }

  /** An item of any schema's list is in the concatenation of that list over all schemas. */
  lemma {:induction false} FlattenHolds<T>(bs: seq<SchemaBody>, part: SchemaBody -> seq<T>, i: int, x: T)
    requires 0 <= i < |bs| && x in part(bs[i])
    ensures x in Flatten(bs, part)
    decreases |bs|
  {
    var k := |bs| - 1;
    if i < k {
      assert bs[..k][i] == bs[i];
      FlattenHolds(bs[..k], part, i, x);
    }
  }

  /**
   * In the combined schema no two object types, enums, input types,
   * mutations or queries share a name.
   */
  lemma CombinedDistinct(bs: seq<SchemaBody>)
    ensures var c := Combined(bs);
            NamesDistinct(c.objects, ObjectName) && NamesDistinct(c.enums, EnumName)
            && NamesDistinct(c.inputTypes, InputTypeName)
            && NamesDistinct(c.mutations, OperationName) && NamesDistinct(c.queries, OperationName)
  {
    UnseenDistinct(Flatten(bs, ObjectsOf), ObjectName, {});
    UnseenDistinct(Flatten(bs, EnumsOf), EnumName, {});
    UnseenDistinct(Flatten(bs, InputTypesOf), InputTypeName, {});
    UnseenDistinct(Flatten(bs, MutationsOf), OperationName, {});
    UnseenDistinct(Flatten(bs, QueriesOf), OperationName, {});
  }

  /**
   * No name is lost: every object type name of any schema names an object
   * type of the combined schema, and every object type there comes from
   * some schema (the same holds of the other four lists through `Unseen`).
   */
  lemma CombinedObjectNames(bs: seq<SchemaBody>)
    ensures NamesOf(Combined(bs).objects, ObjectName) == NamesOf(Flatten(bs, ObjectsOf), ObjectName)
    ensures forall o :: o in Combined(bs).objects ==> o in Flatten(bs, ObjectsOf)
  {
    UnseenNames(Flatten(bs, ObjectsOf), ObjectName, {});
    UnseenSound(Flatten(bs, ObjectsOf), ObjectName, {});
  }

  /** An object type of the first schema that declares its name is the one the combined schema keeps. */
  lemma CombinedKeepsFirstObject(bs: seq<SchemaBody>, i: int)
    requires 0 <= i < |Flatten(bs, ObjectsOf)| && FirstOfItsName(Flatten(bs, ObjectsOf), ObjectName, {}, i)
    ensures Flatten(bs, ObjectsOf)[i] in Combined(bs).objects
  {
    UnseenKeepsFirst(Flatten(bs, ObjectsOf), ObjectName, {}, i);
  }

  /**
   * Each list of the combined schema is the corresponding list of all the
   * schemas, in file order, filtered to the first item of each name: the
   * merge keeps the order of the files and of each file's lists.
   */
  lemma CombinedInOrder(bs: seq<SchemaBody>)
    ensures var os := Flatten(bs, ObjectsOf); Combined(bs).objects == FirstsUpTo(os, ObjectName, {}, |os|)
    ensures var es := Flatten(bs, EnumsOf); Combined(bs).enums == FirstsUpTo(es, EnumName, {}, |es|)
    ensures var ts := Flatten(bs, InputTypesOf); Combined(bs).inputTypes == FirstsUpTo(ts, InputTypeName, {}, |ts|)
    ensures var ms := Flatten(bs, MutationsOf); Combined(bs).mutations == FirstsUpTo(ms, OperationName, {}, |ms|)
    ensures var qs := Flatten(bs, QueriesOf); Combined(bs).queries == FirstsUpTo(qs, OperationName, {}, |qs|)
  {
    UnseenInOrder(Flatten(bs, ObjectsOf), ObjectName, {});
    UnseenInOrder(Flatten(bs, EnumsOf), EnumName, {});
    UnseenInOrder(Flatten(bs, InputTypesOf), InputTypeName, {});
    UnseenInOrder(Flatten(bs, MutationsOf), OperationName, {});
    UnseenInOrder(Flatten(bs, QueriesOf), OperationName, {});
  }

  /** A single schema whose object type names are distinct keeps all its object types when combined. */
  lemma CombinedSingle(b: SchemaBody)
    requires forall i :: 0 <= i < |b.objects| ==> b.objects[i].name.Some?
    requires forall i, j :: 0 <= i < j < |b.objects| ==> b.objects[i].name != b.objects[j].name
    ensures Combined([b]).objects == b.objects
  {
    assert [b][..0] == [];
    assert Flatten([b], ObjectsOf) == b.objects;
    assert AllNamedUnseen(b.objects, ObjectName, {}) && NamesDistinct(b.objects, ObjectName);
    UnseenKeepsDistinct(b.objects, ObjectName, {});
  }

  /** Combined output is a single file named by the first `output_filename`, or `schema.graphql`. */
  lemma CombinedResponseShape(req: Request, args: Args, h: Helpers)
    requires args.combineOutput
    ensures |Response(req, args, h)| == 1
    ensures Response(req, args, h)[0].name == (if |args.outputFileNames| > 0 then args.outputFileNames[0] else "schema.graphql")
  {
  }

  /** Separate output has one file per explicit proto file, in request order, named after it with `.graphql`. */
  lemma SeparateResponseShape(req: Request, args: Args, h: Helpers)
    requires !args.combineOutput
    ensures var es := ExplicitFiles(req.protoFile, req.fileToGenerate);
            |Response(req, args, h)| == |es|
            && forall i :: 0 <= i < |es| ==>
                 Response(req, args, h)[i].name == GraphqlFileName(es[i].name)
                 && Response(req, args, h)[i].body == Generated(req.protoFile, es[i], args, h)
  {
    FilesByMeans(ExplicitFiles(req.protoFile, req.fileToGenerate), SchemaOf(req.protoFile, args, h));
  }

  // ---------------------------------------------------------------------
  // The plugin

  /** One response file per schema, named by the schema's file name. */
  ghost function FilesOf(ss: seq<Schema>): (rs: seq<ResponseFile>)
    reads ss
    ensures |rs| == |ss| && forall i :: 0 <= i < |ss| ==> rs[i] == ResponseFile(ss[i].fileName, ss[i].Body())
  {
    if ss == [] then [] else FilesOf(ss[..|ss| - 1]) + [ResponseFile(ss[|ss| - 1].fileName, ss[|ss| - 1].Body())]
  }

  class Plugin {
    var request: Request
    var args: Args
    var helpers: Helpers
    var schema: seq<Schema>
    var responseFiles: seq<ResponseFile>

    constructor (request: Request, args: Args, helpers: Helpers)
      ensures this.request == request && this.args == args && this.helpers == helpers
      ensures schema == [] && responseFiles == []
    {
      this.request := request;
      this.args := args;
      this.helpers := helpers;
      schema := [];
      responseFiles := [];
    }

    /** `isFileExplicit`: the file's name is among the files to generate. */
    method IsFileExplicit(protoFile: ProtoFile) returns (b: bool)
      ensures b <==> protoFile.name in request.fileToGenerate
    {
      var names := request.fileToGenerate;
      for i := 0 to |names|
        invariant protoFile.name !in names[..i]
      {
        if names[i] == protoFile.name {
          return true;
        }
        assert names[..i + 1] == names[..i] + [names[i]];
      }
      assert names[..|names|] == names;
      return false;
    }

    /** `processProtoFiles`: a schema for each explicit file, appended in request order. */
    method ProcessProtoFiles()
      modifies this`schema
      ensures FilesOf(schema) == old(FilesOf(schema))
                + FilesBy(ExplicitFiles(request.protoFile, request.fileToGenerate), SchemaOf(request.protoFile, args, helpers))
    {
      var files, names := request.protoFile, request.fileToGenerate;
      ghost var gen := SchemaOf(files, args, helpers);
      ghost var files0 := FilesOf(schema);
      for i := 0 to |files|
        invariant FilesOf(schema) == files0 + FilesBy(ExplicitFiles(files[..i], names), gen)
      {
        ghost var made := FilesOf(schema);
        ProcessFile(files[i], gen);
        ProcessStep(files, names, i, gen, files0, made, FilesOf(schema));
      }
      assert files[..|files|] == files;
    }

    /** The body of `processProtoFiles`' loop: a schema for the file when it is explicit, none otherwise. */
    method ProcessFile(protoFile: ProtoFile, ghost gen: ProtoFile -> SchemaBody)
      requires gen == SchemaOf(request.protoFile, args, helpers)
      modifies this`schema
      ensures protoFile.name in request.fileToGenerate ==>
                FilesOf(schema) == old(FilesOf(schema)) + [ResponseFile(GraphqlFileName(protoFile.name), gen(protoFile))]
      ensures protoFile.name !in request.fileToGenerate ==> FilesOf(schema) == old(FilesOf(schema))
    {
      var explicit := IsFileExplicit(protoFile);
      if explicit {
        AppendSchema(protoFile, gen);
      }
    }

    /** `CreateSchema` for the file, appended to the schemas. */
    method AppendSchema(protoFile: ProtoFile, ghost gen: ProtoFile -> SchemaBody)
      requires gen == SchemaOf(request.protoFile, args, helpers)
      modifies this`schema
      ensures FilesOf(schema) == old(FilesOf(schema)) + [ResponseFile(GraphqlFileName(protoFile.name), gen(protoFile))]
    {
      ghost var files := FilesOf(schema);
      var s := SchemaFor(args, request.protoFile, protoFile, helpers, gen);
      assert FilesOf(schema) == files;
      SchemasSnoc(schema, s);
      schema := schema + [s];
    }

    /** `generateSeparateOutputs`: one response file per schema, named by the schema's file name. */
    method GenerateSeparateOutputs()
      modifies this`responseFiles
      ensures responseFiles == old(responseFiles) + old(FilesOf(schema))
    {
      ghost var files := FilesOf(schema);
      for i := 0 to |schema|
        invariant responseFiles == old(responseFiles) + files[..i]
      {
        var s := schema[i];
        assert files[..i + 1] == files[..i] + [ResponseFile(s.fileName, s.Body())];
        responseFiles := responseFiles + [ResponseFile(s.fileName, s.Body())];
      }
      assert files[..|schema|] == files;
    }

    /**
     * `generateCombinedOutput`: every schema's lists merged in schema order,
     * each keeping the first item of each name, in one file.
     */
    method GenerateCombinedOutput()
      modifies this`responseFiles
      ensures responseFiles == old(responseFiles) + [ResponseFile(CombinedFileName(args), Combined(BodiesIn(old(FilesOf(schema)))))]
    {
      var combined := MergeAll();
      var outputFileName := "schema.graphql";
      if |args.outputFileNames| > 0 {
        outputFileName := args.outputFileNames[0];
      }
      responseFiles := responseFiles + [ResponseFile(outputFileName, combined)];
    }

    /** The merge loop of `generateCombinedOutput`: each schema's lists in turn, each name's first item kept. */
    method MergeAll() returns (combined: SchemaBody)
      ensures combined == Combined(BodiesIn(FilesOf(schema)))
    {
      ghost var bodies := BodiesIn(FilesOf(schema));
      combined := SchemaBody([], [], [], [], []);
      var seen := Seen({}, {}, {}, {}, {});
      for i := 0 to |schema|
        invariant combined == Combined(bodies[..i]) && seen == SeenOf(bodies[..i])
      {
        assert bodies[..i + 1] == bodies[..i] + [schema[i].Body()];
        combined, seen := MergeSchema(bodies[..i], combined, seen, schema[i].Body());
      }
      assert bodies[..|schema|] == bodies;
    }

    /** `generateOutput`: the combined file when `combine_output` is set, else one file per schema. */
    method GenerateOutput()
      modifies this`responseFiles
      ensures responseFiles == old(responseFiles)
                + if args.combineOutput then [ResponseFile(CombinedFileName(args), Combined(BodiesIn(old(FilesOf(schema)))))]
                  else old(FilesOf(schema))
    {
      if args.combineOutput {
        GenerateCombinedOutput();
        return;
      }
      GenerateSeparateOutputs();
    }

    /** `Execute`: the schemas of the explicit files, then the response files; a fresh plugin answers `Response`. */
    method Execute()
      modifies this`schema, this`responseFiles
      ensures old(schema) == [] && old(responseFiles) == [] ==> responseFiles == Response(request, args, helpers)
    {
      ghost var initial := schema == [] && responseFiles == [];
      ProcessProtoFiles();
      ghost var files := FilesOf(schema);
      GenerateOutput();
      if initial {
        assert files == FilesBy(ExplicitFiles(request.protoFile, request.fileToGenerate), SchemaOf(request.protoFile, args, helpers));
      }
    }
  }

  /** `CreateSchema`, seen from the plugin: a new schema holding the file's lists and output name. */
  method SchemaFor(args: Args, files: seq<ProtoFile>, protoFile: ProtoFile, helpers: Helpers, ghost gen: ProtoFile -> SchemaBody)
    returns (s: Schema)
    requires gen == SchemaOf(files, args, helpers)
    ensures fresh(s)
    ensures s.Body() == gen(protoFile) && s.fileName == GraphqlFileName(protoFile.name)
  {
    s := CreateSchema(args, files, protoFile, helpers);
  }

  /** One turn of `processProtoFiles`' loop, on the response files its schemas will give. */
  lemma ProcessStep(files: seq<ProtoFile>, names: seq<string>, i: int, gen: ProtoFile -> SchemaBody,
                    files0: seq<ResponseFile>, made: seq<ResponseFile>, made': seq<ResponseFile>)
    requires 0 <= i < |files|
    requires made == files0 + FilesBy(ExplicitFiles(files[..i], names), gen)
    requires files[i].name in names ==> made' == made + [ResponseFile(GraphqlFileName(files[i].name), gen(files[i]))]
    requires files[i].name !in names ==> made' == made
    ensures made' == files0 + FilesBy(ExplicitFiles(files[..i + 1], names), gen)
  {
    var es, es' := ExplicitFiles(files[..i], names), ExplicitFiles(files[..i + 1], names);
    ExplicitFilesSnoc(files, names, i);
    if files[i].name in names {
      assert es' == es + [files[i]];
      BySnoc(es, files[i], gen);
      AppendAssoc(files0, FilesBy(es, gen), [ResponseFile(GraphqlFileName(files[i].name), gen(files[i]))]);
    } else {
      assert es' == es;
    }
  }

  lemma ExplicitFilesSnoc(files: seq<ProtoFile>, names: seq<string>, i: int)
    requires 0 <= i < |files|
    ensures files[i].name in names ==> ExplicitFiles(files[..i + 1], names) == ExplicitFiles(files[..i], names) + [files[i]]
    ensures files[i].name !in names ==> ExplicitFiles(files[..i + 1], names) == ExplicitFiles(files[..i], names)
  {
    assert files[..i + 1][..i] == files[..i];
  }

  lemma AppendAssoc<T>(a: seq<T>, b: seq<T>, c: seq<T>)
    ensures a + (b + c) == a + b + c
  {
  }

  lemma SchemasSnoc(ss: seq<Schema>, s: Schema)
    ensures FilesOf(ss + [s]) == FilesOf(ss) + [ResponseFile(s.fileName, s.Body())]
  {
    assert (ss + [s])[..|ss|] == ss;
  }

  lemma BySnoc(es: seq<ProtoFile>, e: ProtoFile, gen: ProtoFile -> SchemaBody)
    ensures FilesBy(es + [e], gen) == FilesBy(es, gen) + [ResponseFile(GraphqlFileName(e.name), gen(e))]
  {
    assert (es + [e])[..|es|] == es;
  }

  /** The names `generateCombinedOutput` has recorded, one set per list. */
  datatype Seen = Seen(objects: set<string>, enums: set<string>, inputTypes: set<string>, mutations: set<string>, queries: set<string>)

  /** The names recorded after merging the schemas `bs`. */
  function SeenOf(bs: seq<SchemaBody>): Seen {
    Seen(NamesOf(Flatten(bs, ObjectsOf), ObjectName),
         NamesOf(Flatten(bs, EnumsOf), EnumName),
         NamesOf(Flatten(bs, InputTypesOf), InputTypeName),
         NamesOf(Flatten(bs, MutationsOf), OperationName),
         NamesOf(Flatten(bs, QueriesOf), OperationName))
  }

  /** Merging one list of the next schema continues the merge of the earlier ones. */
  lemma MergeStep<T>(bs: seq<SchemaBody>, b: SchemaBody, part: SchemaBody -> seq<T>, nameOf: T -> Option<string>)
    ensures Unseen(Flatten(bs + [b], part), nameOf, {})
         == Unseen(Flatten(bs, part), nameOf, {}) + Unseen(part(b), nameOf, NamesOf(Flatten(bs, part), nameOf))
    ensures NamesOf(Flatten(bs + [b], part), nameOf) == NamesOf(Flatten(bs, part), nameOf) + NamesOf(part(b), nameOf)
  {
    FlattenSnoc(bs, b, part);
    UnseenAppend(Flatten(bs, part), part(b), nameOf, {});
    assert {} + NamesOf(Flatten(bs, part), nameOf) == NamesOf(Flatten(bs, part), nameOf);
    NamesOfAppend(Flatten(bs, part), part(b), nameOf);
  }

  /** The body of `generateCombinedOutput`'s schema loop: the five dedup loops over one schema. */
  method MergeSchema(ghost bs: seq<SchemaBody>, combined: SchemaBody, seen: Seen, b: SchemaBody)
    returns (combined': SchemaBody, seen': Seen)
    requires combined == Combined(bs) && seen == SeenOf(bs)
    ensures combined' == Combined(bs + [b]) && seen' == SeenOf(bs + [b])
  {
    var objects, enums, inputTypes, mutations, queries;
    var seenObjects, seenEnums, seenInputTypes, seenMutations, seenQueries;
    seenObjects, objects := AppendUnseen(b.objects, ObjectName, seen.objects, combined.objects);
    seenEnums, enums := AppendUnseen(b.enums, EnumName, seen.enums, combined.enums);
    seenInputTypes, inputTypes := AppendUnseen(b.inputTypes, InputTypeName, seen.inputTypes, combined.inputTypes);
    seenMutations, mutations := AppendUnseen(b.mutations, OperationName, seen.mutations, combined.mutations);
    seenQueries, queries := AppendUnseen(b.queries, OperationName, seen.queries, combined.queries);
    MergeStep(bs, b, ObjectsOf, ObjectName);
    MergeStep(bs, b, EnumsOf, EnumName);
    MergeStep(bs, b, InputTypesOf, InputTypeName);
    MergeStep(bs, b, MutationsOf, OperationName);
    MergeStep(bs, b, QueriesOf, OperationName);
    combined' := SchemaBody(objects, enums, inputTypes, mutations, queries);
    seen' := Seen(seenObjects, seenEnums, seenInputTypes, seenMutations, seenQueries);
  }

  /**
   * The plugin run: a plugin over the request, `Execute`, and the response
   * files it collected.
   */
  method Run(request: Request, args: Args, helpers: Helpers) returns (files: seq<ResponseFile>)
    ensures files == Response(request, args, helpers)
  {
    var plugin := new Plugin(request, args, helpers);
    plugin.Execute();
    files := plugin.responseFiles;
  }
}
