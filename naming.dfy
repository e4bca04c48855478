/**
 * The naming rules of internal/schema.go: how a method's `gql_input` and
 * `gql_output` options and its input and output type references become the
 * names in the emitted query or mutation, and which methods the target
 * filter lets through.
 *
 * Three helpers whose source is not part of this model are parameters
 * here, never given behaviour of their own: `utils.UppercaseFirst`,
 * `utils.CamelCase` and the constant `syntax.Input`.
 */
module Naming {
  import opened Wrappers
  import opened Strs
  import opened Descriptors
  import opened Registry
  import opened Analysis

  /** The helpers from packages outside this model. */
  datatype Helpers = Helpers(
    upperFirst: string -> string,
    camelCase: string -> string,
    inputParam: string)

  /** `isPrimitive`: the five scalar names GraphQL has built in (with `Bool` as an alias). */
  predicate IsPrimitive(t: string) {
    t == "String" || t == "Boolean" || t == "Bool" || t == "Int" || t == "Float"
  }

  /** `isEmpty`: only the exact name `Empty`. */
  predicate IsEmpty(t: string) {
    t == "Empty"
  }

  /** `isArray`: the type is written in brackets. Go slices the first and the last byte, so the caller must not pass "". */
  predicate IsArray(t: string)
    requires |t| > 0
  {
    t[0] == '[' && t[|t| - 1] == ']'
  }

  /**
   * `parseType`, which Go applies in place to the `GqlInput` record: an
   * empty type is left alone; otherwise brackets are stripped (setting
   * `Array`), the first letter is upper-cased, a primitive sets `Primitive`
   * (with `Bool` spelled `Boolean`), and failing that `Empty` sets `Empty`.
   * Flags already set stay set; the other fields do not change.
   */
  function ParseType(g: GqlInput, upper: string -> string): (r: GqlInput)
    ensures g.typ == "" ==> r == g
    ensures r.param == g.param && r.optional == g.optional
    ensures g.typ != "" ==> (r.isArray <==> g.isArray || IsArray(g.typ))
    ensures g.typ != "" ==>
              var u := upper(if IsArray(g.typ) then g.typ[1..|g.typ| - 1] else g.typ);
              && (r.primitive <==> g.primitive || IsPrimitive(u))
              && (r.empty <==> g.empty || (!IsPrimitive(u) && IsEmpty(u)))
              && r.typ == (if u == "Bool" then "Boolean" else u)
  {
    if g.typ == "" then g
    else
      var arr := IsArray(g.typ);
      var u := upper(if arr then g.typ[1..|g.typ| - 1] else g.typ);
      var g1 := g.(isArray := g.isArray || arr, typ := u);
      if IsPrimitive(u) then g1.(primitive := true, typ := if u == "Bool" then "Boolean" else u)
      else if IsEmpty(u) then g1.(empty := true)
      else g1
  }

  /**
   * A record whose flags start clear comes out of `parseType` with at most
   * one of `Primitive` and `Empty` set, a primitive spelled one of the four
   * GraphQL names, and an empty input named `Empty`.
   */
  lemma ParseTypeFlags(g: GqlInput, upper: string -> string)
    requires !g.primitive && !g.empty
    ensures var r := ParseType(g, upper);
            && !(r.primitive && r.empty)
            && (r.primitive ==> r.typ in {"String", "Boolean", "Int", "Float"})
            && (r.empty ==> r.typ == "Empty")
  {
  }

  /** `getGqlInputParam`: the option's parameter name, or `syntax.Input` when it is blank. */
  function InputParam(g: GqlInput, inputParam: string): (p: string)
    ensures g.param != "" ==> p == g.param
    ensures g.param == "" ==> p == inputParam
  {
    if g.param != "" then g.param else inputParam
  }

  /**
   * The package qualifier that a type reference of the file loses in the
   * emitted name: `.pkg.` for a file with a package, and `.` for a file
   * without one (whose top-level keys are `.Name`).
   */
  function Qualifier(pkg: Option<string>): string {
    if pkg.GetOr("") != "" then "." + pkg.value + "." else "."
  }

  /** A type reference with the file's package qualifier trimmed. */
  function BareName(ref: string, pkg: Option<string>): string {
    TrimPrefix(ref, Qualifier(pkg))
  }

  /** The registry key of a top-level message of the file loses exactly its qualifier. */
  lemma BareNameOfKey(pkg: Option<string>, name: string)
    ensures BareName(FullName("", pkg.GetOr(""), name), pkg) == name
  {
    var q := Qualifier(pkg);
    var k := FullName("", pkg.GetOr(""), name);
    assert k == q + name;
    PrefixOfConcat(q, name);
    assert k[|q|..] == name;
  }

  /**
   * `getGqlOutputType`: an explicit `gql_output` with its first letter
   * upper-cased, else the output type reference with the package qualifier
   * trimmed.
   */
  function OutputTypeName(gqlOutput: string, outputType: string, pkg: Option<string>, upper: string -> string): (r: string)
    ensures gqlOutput != "" ==> r == upper(gqlOutput)
    ensures gqlOutput == "" ==> r == BareName(outputType, pkg)
  {
    if gqlOutput != "" then upper(gqlOutput) else BareName(outputType, pkg)
  }

  /**
   * `getGqlInputType`: with no override, or one with an empty type, the
   * name is `I` followed by the bare input type name. An override is parsed
   * first; a parsed type that is neither primitive nor `Empty` gets the `I`
   * prefix, a primitive or `Empty` array is wrapped in brackets, and any
   * other primitive or `Empty` override falls back to the derived name. The
   * parameter name defaults to `syntax.Input`.
   */
  function InputTypeOf(input: Option<GqlInput>, inputType: string, pkg: Option<string>, h: Helpers): (r: GqlInput)
    ensures input.None? ==> r.param == h.inputParam && !r.optional && !r.isArray && !r.primitive && !r.empty
    ensures input.Some? ==> r.param == InputParam(input.value, h.inputParam)
    ensures input.Some? ==>
              var p := ParseType(input.value, h.upperFirst);
              && r.optional == input.value.optional
              && r.isArray == p.isArray && r.primitive == p.primitive && r.empty == p.empty
    ensures (input.None? || input.value.typ == "") ==> r.typ == "I" + BareName(inputType, pkg)
    ensures input.Some? && input.value.typ != "" ==>
              var p := ParseType(input.value, h.upperFirst);
              r.typ == (if !p.primitive && !p.empty then "I" + p.typ
                        else if p.isArray then "[" + p.typ + "]"
                        else "I" + BareName(inputType, pkg))
  {
    var derived := "I" + BareName(inputType, pkg);
    var g :=
      match input
      case None => GqlInput("", derived, false, false, false, false)
      case Some(i) =>
        if i.typ != "" then
          var p := ParseType(i, h.upperFirst);
          if !p.primitive && !p.empty then p.(typ := "I" + p.typ)
          else if p.isArray then p.(typ := "[" + p.typ + "]")
          else p.(typ := derived)
        else i.(typ := derived);
    g.(param := InputParam(g, h.inputParam))
  }

  /** A method with no `gql_input` whose input is a top-level message of the file gets `I` and the message's name. */
  lemma DerivedInputName(pkg: Option<string>, name: string, h: Helpers)
    ensures InputTypeOf(None, FullName("", pkg.GetOr(""), name), pkg, h).typ == "I" + name
    ensures InputTypeOf(None, FullName("", pkg.GetOr(""), name), pkg, h).param == h.inputParam
  {
    BareNameOfKey(pkg, name);
  }

  /** A method with no `gql_output` whose output is a top-level message of the file returns the message's name. */
  lemma DerivedOutputName(pkg: Option<string>, name: string, upper: string -> string)
    ensures OutputTypeName("", FullName("", pkg.GetOr(""), name), pkg, upper) == name
  {
    BareNameOfKey(pkg, name);
  }

  /**
   * The `GqlInput` options record as Go holds it: a pointer whose fields
   * `parseType` and `getGqlInputType` rewrite in place.
   */
  class GqlInputRecord {
    var param: string
    var typ: string
    var optional: bool
    var primitive: bool
    var isArray: bool
    var empty: bool

    function Value(): GqlInput
      reads this
    {
      GqlInput(param, typ, optional, primitive, isArray, empty)
    }

    constructor (g: GqlInput)
      ensures Value() == g
    {
      param, typ, optional := g.param, g.typ, g.optional;
      primitive, isArray, empty := g.primitive, g.isArray, g.empty;
    }

    /** `parseType`, in place. */
    method Parse(upper: string -> string)
      modifies this
      ensures Value() == ParseType(old(Value()), upper)
    {
      if typ == "" {
        return;
      }
      if IsArray(typ) {
        isArray := true;
        typ := upper(typ[1..|typ| - 1]);
      } else {
        typ := upper(typ);
      }
      if IsPrimitive(typ) {
        primitive := true;
        if typ == "Bool" {
          typ := "Boolean";
        }
      } else if IsEmpty(typ) {
        empty := true;
      }
    }
  }

  /**
   * `getGqlInputType`: rewrites the method's own record when it has one and
   * returns that same record, or returns a new one; the record then holds
   * the input shape `InputTypeOf` describes.
   */
  method GetGqlInputType(input: GqlInputRecord?, mi: string, pkg: Option<string>, h: Helpers) returns (r: GqlInputRecord)
    modifies input
    ensures input != null ==> r == input
    ensures input == null ==> fresh(r)
    ensures r.Value() == InputTypeOf(if input == null then None else Some(old(input.Value())), mi, pkg, h)
  {
    if input == null {
      r := new GqlInputRecord(GqlInput("", "I" + BareName(mi, pkg), false, false, false, false));
    } else if input.typ != "" {
      input.Parse(h.upperFirst);
      if !input.primitive && !input.empty {
        input.typ := "I" + input.typ;
      } else if input.isArray {
        input.typ := "[" + input.typ + "]";
      } else {
        input.typ := "I" + BareName(mi, pkg);
      }
      r := input;
    } else {
      input.typ := "I" + BareName(mi, pkg);
      r := input;
    }
    r.param := InputParam(r.Value(), h.inputParam);
  }

  // ---------------------------------------------------------------------
  // The naming functions as written, for a file without a package or with
  // an empty one.

  /**
   * `strings.TrimPrefix(*mi, "."+*packageName+".")` as written: `None`
   * stands for the nil dereference when the file has no package.
   */
  function BareNameAsWritten(ref: string, pkg: Option<string>): (r: Option<string>)
    ensures pkg.None? <==> r.None?
  {
    match pkg
    case None => None
    case Some(p) => Some(TrimPrefix(ref, "." + p + "."))
  }

  /** `getGqlOutputType` as written; `None` is the nil dereference. */
  function OutputTypeNameAsWritten(gqlOutput: string, outputType: string, pkg: Option<string>, upper: string -> string): (r: Option<string>)
    ensures r.None? <==> gqlOutput == "" && pkg.None?
  {
    if gqlOutput != "" then Some(upper(gqlOutput)) else BareNameAsWritten(outputType, pkg)
  }

  /** `getGqlInputType` as written; `None` is the nil dereference on every branch that derives the name. */
  function InputTypeOfAsWritten(input: Option<GqlInput>, inputType: string, pkg: Option<string>, h: Helpers): (r: Option<GqlInput>)
    ensures r.None? ==> pkg.None?
  {
    var derived := match BareNameAsWritten(inputType, pkg)
                   case None => None
                   case Some(b) => Some("I" + b);
    var g :=
      match input
      case None =>
        (match derived
         case None => None
         case Some(d) => Some(GqlInput("", d, false, false, false, false)))
      case Some(i) =>
        if i.typ != "" then
          var p := ParseType(i, h.upperFirst);
          if !p.primitive && !p.empty then Some(p.(typ := "I" + p.typ))
          else if p.isArray then Some(p.(typ := "[" + p.typ + "]"))
          else
            (match derived
             case None => None
             case Some(d) => Some(p.(typ := d)))
        else
          (match derived
           case None => None
           case Some(d) => Some(i.(typ := d)));
    match g
    case None => None
    case Some(x) => Some(x.(param := InputParam(x, h.inputParam)))
  }

  /** For a file with a non-empty package the functions as written and the corrected ones agree. */
  lemma AsWrittenAgreesWithPackage(input: Option<GqlInput>, inputType: string, gqlOutput: string, outputType: string,
                                   p: string, h: Helpers)
    requires p != ""
    ensures InputTypeOfAsWritten(input, inputType, Some(p), h) == Some(InputTypeOf(input, inputType, Some(p), h))
    ensures OutputTypeNameAsWritten(gqlOutput, outputType, Some(p), h.upperFirst)
            == Some(OutputTypeName(gqlOutput, outputType, Some(p), h.upperFirst))
  {
  }

  /**
   * A file without a `package` line and an admitted method `Get(.Req)
   * returns (.Res)` with no naming options: as written, both names
   * dereference the nil package; the corrected functions name them `IReq`
   * and `Res`.
   */
  lemma NoPackageNames(h: Helpers)
    ensures InputTypeOfAsWritten(None, ".Req", None, h).None?
    ensures OutputTypeNameAsWritten("", ".Res", None, h.upperFirst).None?
    ensures InputTypeOf(None, ".Req", None, h).typ == "IReq"
    ensures OutputTypeName("", ".Res", None, h.upperFirst) == "Res"
  {
    DerivedInputName(None, "Req", h);
    DerivedOutputName(None, "Res", h.upperFirst);
    assert FullName("", "", "Req") == ".Req";
    assert FullName("", "", "Res") == ".Res";
  }

  /**
   * The same method in a file whose package is set but empty: its keys are
   * `.Req` and `.Res`, which the qualifier `..` as written does not trim,
   * so the names keep their dot (`I.Req`, `.Res`, not GraphQL names); the
   * corrected functions trim the single dot.
   */
  lemma EmptyPackageNames(h: Helpers)
    ensures InputTypeOfAsWritten(None, ".Req", Some(""), h).Some?
    ensures InputTypeOfAsWritten(None, ".Req", Some(""), h).value.typ == "I.Req"
    ensures OutputTypeNameAsWritten("", ".Res", Some(""), h.upperFirst) == Some(".Res")
    ensures InputTypeOf(None, ".Req", Some(""), h).typ == "IReq"
    ensures OutputTypeName("", ".Res", Some(""), h.upperFirst) == "Res"
  {
    DerivedInputName(Some(""), "Req", h);
    DerivedOutputName(Some(""), "Res", h.upperFirst);
    assert FullName("", "", "Req") == ".Req";
    assert FullName("", "", "Res") == ".Res";
    assert !HasPrefix(".Req", "..") by {
      assert ".Req"[..2][1] == 'R';
    }
    assert !HasPrefix(".Res", "..") by {
      assert ".Res"[..2][1] == 'R';
    }
  }

  // ---------------------------------------------------------------------
  // The target filter.

  /** `checkCompilerTarget`: a wildcard command-line target matches every method, otherwise the targets must be equal. */
  function CheckCompilerTarget(compilerTarget: string, o: MethodOptions): (b: bool)
    ensures b <==> IsWildcard(compilerTarget) || compilerTarget == o.target
  {
    if compilerTarget == "all" || compilerTarget == "*" then true
    else compilerTarget == o.target
  }

  /** `skipMethod`: skipped when marked `skip`, else kept when the targets match or the method's target is a wildcard. */
  function SkipMethod(compilerTarget: string, o: MethodOptions): bool {
    if o.skip then true
    else if CheckCompilerTarget(compilerTarget, o) then false
    else if o.target == "all" || o.target == "*" then false
    else true
  }

  /** The schema's filter and the analyzer's filter agree on every target and every options record. */
  lemma SkipMethodAgrees(compilerTarget: string, o: MethodOptions)
    ensures SkipMethod(compilerTarget, o) == !ShouldIncludeMethod(compilerTarget, o)
  {
  }
}
