/**
 * The parts of the protobuf descriptors (descriptor.proto) and of the
 * generator's own annotation options that the projector reads.
 */
module Descriptors {
  import opened Wrappers

  /** What `FieldDescriptorProto.GetType()` says about a field: a message, an enum, or some scalar. */
  datatype FieldKind = MessageKind | EnumKind | ScalarKind(protoType: int)

  /**
   * A message field. `typeName` is the referenced type as protoc wrote it
   * (empty for scalars); `keepCase` is the field's `keep_case` option,
   * false when the option is absent.
   */
  datatype FieldDecl = FieldDecl(
    name: string,
    kind: FieldKind,
    typeName: string,
    repeated: bool,
    required: bool,
    keepCase: bool)

  /** An enum declaration with its value names in declaration order. */
  datatype EnumDecl = EnumDecl(name: string, values: seq<string>)

  /** A message declaration with its nested messages and nested enums. */
  datatype Message = Message(
    name: string,
    fields: seq<FieldDecl>,
    nested: seq<Message>,
    enums: seq<EnumDecl>)

  /** The `gql_input` method option; the projector rewrites it into the emitted input shape. */
  datatype GqlInput = GqlInput(
    param: string,
    typ: string,
    optional: bool,
    primitive: bool,
    isArray: bool,
    empty: bool)

  /**
   * The method-level annotation record. A method without the annotation
   * gets the record with every field at its zero value.
   */
  datatype MethodOptions = MethodOptions(
    kind: string,
    target: string,
    skip: bool,
    gqlInput: Option<GqlInput>,
    gqlOutput: string)

  const NoOptions := MethodOptions("", "", false, None, "")

  datatype MethodDecl = MethodDecl(
    name: string,
    inputType: string,
    outputType: string,
    options: MethodOptions)

  datatype Service = Service(name: string, methods: seq<MethodDecl>)

  /** A `FileDescriptorProto`; `package` is None when the file declares no package. */
  datatype ProtoFile = ProtoFile(
    name: string,
    package: Option<string>,
    messages: seq<Message>,
    enums: seq<EnumDecl>,
    services: seq<Service>)

  /** `GetPackage()`: the empty string for a file without a package. */
  function PackageOf(f: ProtoFile): string {
    f.package.GetOr("")
  }
}
