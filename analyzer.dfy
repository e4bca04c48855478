/**
 * The `TypeAnalyzer` of internal/analyzer/analyzer.go: a registry of every
 * message and enum under its dotted key, two reachable sets (input and
 * output), the enum set they share, and the in-progress sets that guard
 * the recursive marking against cycles.
 *
 * Go's `map[string]bool` sets only ever store `true` and drop keys with
 * `delete`, so they are `set<string>` fields here. The `packageNames` map
 * is a `seq<string>` holding each package once, in the order the files
 * first mention it: one of the orders in which Go may iterate the map.
 */
module Analyzer {
  import opened Descriptors
  import opened Registry
  import opened Resolution
  import opened Reachability
  import opened Analysis

  /** The packages of `files`, in order of first appearance (`KnownPackagesMeans` states what it holds). */
  function KnownPackages(files: seq<ProtoFile>): seq<string> {
    if files == [] then []
    else
      var init := KnownPackages(files[..|files| - 1]);
      var p := PackageOf(files[|files| - 1]);
      if p in init then init else init + [p]
  }

  /** One more file: its package is appended unless already known. */
  lemma KnownPackagesStep(files: seq<ProtoFile>, i: int)
    requires 0 <= i < |files|
    ensures KnownPackages(files[..i + 1])
            == if PackageOf(files[i]) in KnownPackages(files[..i]) then KnownPackages(files[..i])
               else KnownPackages(files[..i]) + [PackageOf(files[i])]
  {
    assert files[..i + 1][..i] == files[..i];
  }

  /** The known packages are exactly the files' packages, the empty one included, each once. */
  lemma {:induction false} KnownPackagesMeans(files: seq<ProtoFile>)
    ensures forall p :: p in KnownPackages(files) <==> exists i :: 0 <= i < |files| && PackageOf(files[i]) == p
    ensures forall i, j :: 0 <= i < j < |KnownPackages(files)| ==> KnownPackages(files)[i] != KnownPackages(files)[j]
  {
    if files != [] {
      var n := |files| - 1;
      KnownPackagesMeans(files[..n]);
      assert forall i :: 0 <= i < n ==> files[..n][i] == files[i];
    }
  }

  class TypeAnalyzer {
    var typeRegistry: map<string, Message>
    var enumRegistry: map<string, EnumDecl>
    var inputReachableTypes: set<string>
    var outputReachableTypes: set<string>
    var reachableEnums: set<string>
    var inProgressInput: set<string>
    var inProgressOutput: set<string>
    var packageName: string
    var packageNames: seq<string>

    /**
     * The marking invariant: each context holds only registered keys, and
     * its in-progress keys among its reached ones.
     */
    ghost predicate Valid()
      reads this`inProgressInput, this`inputReachableTypes, this`inProgressOutput, this`outputReachableTypes, this`typeRegistry
    {
      ValidInput() && ValidOutput()
    }

    ghost predicate ValidInput()
      reads this`inProgressInput, this`inputReachableTypes, this`typeRegistry
    {
      inProgressInput <= inputReachableTypes <= typeRegistry.Keys
    }

    ghost predicate ValidOutput()
      reads this`inProgressOutput, this`outputReachableTypes, this`typeRegistry
    {
      inProgressOutput <= outputReachableTypes <= typeRegistry.Keys
    }

    function CurrentScope(): Scope
      reads this`typeRegistry, this`enumRegistry, this`packageName, this`packageNames
    {
      Scope(typeRegistry, enumRegistry, packageName, packageNames)
    }

    function State(): Reach
      reads this`inputReachableTypes, this`outputReachableTypes, this`reachableEnums
    {
      Reach(inputReachableTypes, outputReachableTypes, reachableEnums)
    }

    /**
     * `NewTypeAnalyzer`: the primary package is the first file's, every
     * file's package is known, and each file's messages and then its enums
     * are registered, file by file.
     */
    constructor (protoFiles: seq<ProtoFile>)
      ensures typeRegistry == Apply(map[], FileTypeWrites(protoFiles))
      ensures enumRegistry == Apply(map[], FileEnumWrites(protoFiles))
      ensures packageName == (if |protoFiles| > 0 then PackageOf(protoFiles[0]) else "")
      ensures packageNames == KnownPackages(protoFiles)
      ensures inputReachableTypes == {} && outputReachableTypes == {} && reachableEnums == {}
      ensures inProgressInput == {} && inProgressOutput == {}
      ensures WellFormed(typeRegistry, enumRegistry)
      ensures Valid()
    {
      typeRegistry := map[];
      enumRegistry := map[];
      inputReachableTypes := {};
      outputReachableTypes := {};
      reachableEnums := {};
      inProgressInput := {};
      inProgressOutput := {};
      packageName := "";
      packageNames := [];
      new;
      if |protoFiles| > 0 {
        packageName := PackageOf(protoFiles[0]);
      }
      RegisterFiles(protoFiles);
      assert WellFormed(typeRegistry, enumRegistry) by {
        FileRegistryWellFormed(protoFiles);
      }
    }

    /** The loop of `NewTypeAnalyzer`: each file's package becomes known, then its messages and its enums are registered. */
    method RegisterFiles(protoFiles: seq<ProtoFile>)
      requires typeRegistry == map[] && enumRegistry == map[] && packageNames == []
      modifies this`typeRegistry, this`enumRegistry, this`packageNames
      ensures typeRegistry == Apply(map[], FileTypeWrites(protoFiles))
      ensures enumRegistry == Apply(map[], FileEnumWrites(protoFiles))
      ensures packageNames == KnownPackages(protoFiles)
    {
      for i := 0 to |protoFiles|
        invariant typeRegistry == Apply(map[], FileTypeWrites(protoFiles[..i]))
        invariant enumRegistry == Apply(map[], FileEnumWrites(protoFiles[..i]))
        invariant packageNames == KnownPackages(protoFiles[..i])
      {
        var protoFile := protoFiles[i];
        var pkgName := PackageOf(protoFile);
        if pkgName !in packageNames {
          packageNames := packageNames + [pkgName];
        }
        assert packageNames == KnownPackages(protoFiles[..i + 1]) by {
          KnownPackagesStep(protoFiles, i);
        }
        ghost var t0, e0 := typeRegistry, enumRegistry;
        RegisterTypesFromFile(protoFile.messages, "", pkgName);
        RegisterEnumsFromFile(protoFile.enums, "", pkgName);
        assert typeRegistry == Apply(map[], FileTypeWrites(protoFiles[..i + 1]))
            && enumRegistry == Apply(map[], FileEnumWrites(protoFiles[..i + 1])) by {
          FileRegistrationStep(protoFiles, i, t0, e0);
        }
      }
      assert protoFiles[..|protoFiles|] == protoFiles;
    }

    /** `RegisterTypesFromFile`: each message under its key, then its nested messages and its nested enums. */
    method RegisterTypesFromFile(messages: seq<Message>, prefix: string, pkgName: string)
      modifies this`typeRegistry, this`enumRegistry
      ensures typeRegistry == Apply(old(typeRegistry), TypeWrites(messages, prefix, pkgName))
      ensures enumRegistry == Apply(old(enumRegistry), TypeEnumWrites(messages, prefix, pkgName))
      decreases messages
    {
      for i := 0 to |messages|
        invariant typeRegistry == Apply(old(typeRegistry), TypeWrites(messages[..i], prefix, pkgName))
        invariant enumRegistry == Apply(old(enumRegistry), TypeEnumWrites(messages[..i], prefix, pkgName))
      {
        var message := messages[i];
        var fullName;
        if prefix == "" {
          if pkgName != "" {
            fullName := "." + pkgName + "." + message.name;
          } else {
            fullName := "." + message.name;
          }
        } else {
          fullName := prefix + "." + message.name;
        }
        assert fullName == FullName(prefix, pkgName, message.name);
        ghost var t0, e0 := typeRegistry, enumRegistry;

        typeRegistry := typeRegistry[fullName := message];

        if |message.nested| > 0 {
          RegisterTypesFromFile(message.nested, fullName, pkgName);
        }
        ghost var e1 := enumRegistry;
        assert typeRegistry == Apply(t0[fullName := message], TypeWrites(message.nested, fullName, pkgName))
            && e1 == Apply(e0, TypeEnumWrites(message.nested, fullName, pkgName));

        if |message.enums| > 0 {
          RegisterNestedEnums(message.enums, fullName);
        }
        assert enumRegistry == Apply(e1, EnumWrites(message.enums, fullName, pkgName)) by {
          assert EnumWrites(message.enums, fullName, "") == EnumWrites(message.enums, fullName, pkgName);
        }
        RegisterMessageStep(messages, i, prefix, pkgName, old(typeRegistry), old(enumRegistry), t0, e0);
      }
      assert messages[..|messages|] == messages;
    }

    /** `registerNestedEnums`: each enum under `prefix + "." + name`. */
    method RegisterNestedEnums(enums: seq<EnumDecl>, prefix: string)
      modifies this`enumRegistry
      ensures enumRegistry == Apply(old(enumRegistry), EnumWrites(enums, prefix, ""))
    {
      ghost var ws := EnumWrites(enums, prefix, "");
      for i := 0 to |enums|
        invariant enumRegistry == Apply(old(enumRegistry), ws[..i])
      {
        var enum := enums[i];
        var fullName := prefix + "." + enum.name;
        if prefix == "" {
          assert fullName == "." + enum.name;
        }
        assert ws[i] == (fullName, enum);
        ApplyAppend(old(enumRegistry), ws[..i], [ws[i]]);
        assert ws[..i + 1] == ws[..i] + [ws[i]];
        enumRegistry := enumRegistry[fullName := enum];
      }
      assert ws[..|enums|] == ws;
    }

    /** `RegisterEnumsFromFile`: each enum under its key, as for messages. */
    method RegisterEnumsFromFile(enums: seq<EnumDecl>, prefix: string, pkgName: string)
      modifies this`enumRegistry
      ensures enumRegistry == Apply(old(enumRegistry), EnumWrites(enums, prefix, pkgName))
    {
      ghost var ws := EnumWrites(enums, prefix, pkgName);
      for i := 0 to |enums|
        invariant enumRegistry == Apply(old(enumRegistry), ws[..i])
      {
        var enum := enums[i];
        var fullName;
        if prefix == "" {
          if pkgName != "" {
            fullName := "." + pkgName + "." + enum.name;
          } else {
            fullName := "." + enum.name;
          }
        } else {
          fullName := prefix + "." + enum.name;
        }
        assert fullName == FullName(prefix, pkgName, enum.name);
        assert ws[i] == (fullName, enum);
        ApplyAppend(old(enumRegistry), ws[..i], [ws[i]]);
        assert ws[..i + 1] == ws[..i] + [ws[i]];
        enumRegistry := enumRegistry[fullName := enum];
      }
      assert ws[..|enums|] == ws;
    }

    /** `ResolveTypeName`. */
    function ResolveTypeName(typeName: string): string
      reads this`typeRegistry, this`packageName, this`packageNames
    {
      Resolve(typeRegistry.Keys, packageName, packageNames, typeName)
    }

    /** `ResolveEnumName`. */
    function ResolveEnumName(enumName: string): string
      reads this`enumRegistry, this`packageName, this`packageNames
    {
      Resolve(enumRegistry.Keys, packageName, packageNames, enumName)
    }

    function IsInputReachable(typeName: string): bool
      reads this`inputReachableTypes, this`packageName, this`packageNames
    {
      Lookup(inputReachableTypes, packageName, packageNames, typeName)
    }

    function IsOutputReachable(typeName: string): bool
      reads this`outputReachableTypes, this`packageName, this`packageNames
    {
      Lookup(outputReachableTypes, packageName, packageNames, typeName)
    }

    function IsTypeReachable(typeName: string): bool
      reads this`inputReachableTypes, this`outputReachableTypes, this`packageName, this`packageNames
    {
      TypeLookup(inputReachableTypes, outputReachableTypes, packageName, packageNames, typeName)
    }

    function IsEnumReachable(enumName: string): bool
      reads this`reachableEnums, this`packageName, this`packageNames
    {
      Lookup(reachableEnums, packageName, packageNames, enumName)
    }

    /**
     * `MarkTypeReachableAsInput`: carries out `Mark` on the input set and
     * the enum set, and touches nothing of the output context. Its three
     * loops are `MarkNestedAsInput`, `RegisterReachableNestedEnums` and
     * `MarkFieldTypesAsInput`.
     */
    method MarkTypeReachableAsInput(typeName: string)
      requires ValidInput()
      modifies this`inputReachableTypes, this`inProgressInput, this`reachableEnums
      ensures ValidInput()
      ensures Marks(inputReachableTypes, reachableEnums)
              == Mark(CurrentScope(), typeName, old(inputReachableTypes), old(reachableEnums))
      ensures inProgressInput == old(inProgressInput)
      decreases |typeRegistry.Keys - inputReachableTypes|, 0
    {
      var resolvedName := ResolveTypeName(typeName);
      if resolvedName in inputReachableTypes || resolvedName in inProgressInput || resolvedName !in typeRegistry {
        MarkSkip(CurrentScope(), typeName, inputReachableTypes, reachableEnums);
        return;
      }
      var descriptor := typeRegistry[resolvedName];
      ghost var sc, K := CurrentScope(), typeRegistry.Keys;
      ghost var R0, E0 := inputReachableTypes, reachableEnums;
      ghost var R1 := R0 + {resolvedName};
      assert resolvedName == ResolveType(sc, typeName) && descriptor == sc.types[resolvedName];

      inProgressInput := inProgressInput + {resolvedName};
      inputReachableTypes := inputReachableTypes + {resolvedName};
      CardDrop(K, R0, resolvedName);

      MarkNestedAsInput(resolvedName, descriptor.nested);
      assert CurrentScope() == sc;
      ghost var afterNested := Marks(inputReachableTypes, reachableEnums);
      assert afterNested == Run(sc, NestedWork(resolvedName, descriptor.nested), R1, E0);
      RegisterReachableNestedEnums(resolvedName, descriptor.enums);
      assert inputReachableTypes == afterNested.reached && reachableEnums == afterNested.enums + EnumKeys(resolvedName, descriptor.enums);
      SubsetCard(K - inputReachableTypes, K - R1);
      MarkFieldTypesAsInput(descriptor.fields);
      assert CurrentScope() == sc;
      ghost var afterFields := Marks(inputReachableTypes, reachableEnums);
      assert afterFields == Run(sc, FieldWork(sc, descriptor.fields), afterNested.reached, afterNested.enums + EnumKeys(resolvedName, descriptor.enums));
      MarkInPasses(sc, typeName, R0, E0, afterNested, afterFields);

      inProgressInput := inProgressInput - {resolvedName};
      assert Marks(inputReachableTypes, reachableEnums) == afterFields;
    }

    /** The nested-message loop of `MarkTypeReachableAsInput`: marks `key.N` for each nested message `N`, in order. */
    method MarkNestedAsInput(key: string, nested: seq<Message>)
      requires ValidInput()
      modifies this`inputReachableTypes, this`inProgressInput, this`reachableEnums
      ensures ValidInput()
      ensures Marks(inputReachableTypes, reachableEnums)
              == Run(CurrentScope(), NestedWork(key, nested), old(inputReachableTypes), old(reachableEnums))
      ensures inProgressInput == old(inProgressInput)
      decreases |typeRegistry.Keys - inputReachableTypes|, 1
    {
      ghost var sc, K, nw := CurrentScope(), typeRegistry.Keys, NestedWork(key, nested);
      ghost var R0, E0 := inputReachableTypes, reachableEnums;
      for i := 0 to |nested|
        invariant ValidInput() && inProgressInput == old(inProgressInput) && R0 <= inputReachableTypes
        invariant Marks(inputReachableTypes, reachableEnums) == Run(sc, nw[..i], R0, E0)
      {
        var nestedName := key + "." + nested[i].name;
        SubsetCard(K - inputReachableTypes, K - R0);
        ghost var before := Marks(inputReachableTypes, reachableEnums);
        MarkTypeReachableAsInput(nestedName);
        assert Marks(inputReachableTypes, reachableEnums) == Mark(sc, nestedName, before.reached, before.enums);
        assert Marks(inputReachableTypes, reachableEnums) == Run(sc, nw[..i + 1], R0, E0) by {
          RunNestedStep(sc, key, nested, i, R0, E0);
        }
      }
      assert nw[..|nested|] == nw;
    }

    /** The field loop of `MarkTypeReachableAsInput`: marks each message field's type and adds each enum field's resolved enum. */
    method MarkFieldTypesAsInput(fields: seq<FieldDecl>)
      requires ValidInput()
      modifies this`inputReachableTypes, this`inProgressInput, this`reachableEnums
      ensures ValidInput()
      ensures Marks(inputReachableTypes, reachableEnums)
              == Run(CurrentScope(), FieldWork(CurrentScope(), fields), old(inputReachableTypes), old(reachableEnums))
      ensures inProgressInput == old(inProgressInput)
      decreases |typeRegistry.Keys - inputReachableTypes|, 1
    {
      ghost var sc, K := CurrentScope(), typeRegistry.Keys;
      ghost var R0, E0, fw := inputReachableTypes, reachableEnums, FieldWork(sc, fields);
      for i := 0 to |fields|
        invariant ValidInput() && inProgressInput == old(inProgressInput) && R0 <= inputReachableTypes
        invariant Marks(inputReachableTypes, reachableEnums) == Run(sc, fw[..i], R0, E0)
      {
        var field := fields[i];
        ghost var before := Marks(inputReachableTypes, reachableEnums);
        if field.kind == MessageKind {
          SubsetCard(K - inputReachableTypes, K - R0);
          MarkTypeReachableAsInput(field.typeName);
        }
        if field.kind == EnumKind {
          var resolvedEnumName := ResolveEnumName(field.typeName);
          reachableEnums := reachableEnums + {resolvedEnumName};
        }
        assert Marks(inputReachableTypes, reachableEnums) == Step(sc, FieldAction(sc, field), before.reached, before.enums);
        assert Marks(inputReachableTypes, reachableEnums) == Run(sc, fw[..i + 1], R0, E0) by {
          RunFieldStep(sc, fields, i, R0, E0);
        }
      }
      assert fw[..|fields|] == fw;
    }

    /**
     * `MarkTypeReachableAsOutput`: carries out `Mark` on the output set and
     * the enum set, and touches nothing of the input context. Its three
     * loops are `MarkNestedAsOutput`, `RegisterReachableNestedEnums` and
     * `MarkFieldTypesAsOutput`.
     */
    method MarkTypeReachableAsOutput(typeName: string)
      requires ValidOutput()
      modifies this`outputReachableTypes, this`inProgressOutput, this`reachableEnums
      ensures ValidOutput()
      ensures Marks(outputReachableTypes, reachableEnums)
              == Mark(CurrentScope(), typeName, old(outputReachableTypes), old(reachableEnums))
      ensures inProgressOutput == old(inProgressOutput)
      decreases |typeRegistry.Keys - outputReachableTypes|, 0
    {
      var resolvedName := ResolveTypeName(typeName);
      if resolvedName in outputReachableTypes || resolvedName in inProgressOutput || resolvedName !in typeRegistry {
        MarkSkip(CurrentScope(), typeName, outputReachableTypes, reachableEnums);
        return;
      }
      var descriptor := typeRegistry[resolvedName];
      ghost var sc, K := CurrentScope(), typeRegistry.Keys;
      ghost var R0, E0 := outputReachableTypes, reachableEnums;
      ghost var R1 := R0 + {resolvedName};
      assert resolvedName == ResolveType(sc, typeName) && descriptor == sc.types[resolvedName];

      inProgressOutput := inProgressOutput + {resolvedName};
      outputReachableTypes := outputReachableTypes + {resolvedName};
      CardDrop(K, R0, resolvedName);

      MarkNestedAsOutput(resolvedName, descriptor.nested);
      assert CurrentScope() == sc;
      ghost var afterNested := Marks(outputReachableTypes, reachableEnums);
      assert afterNested == Run(sc, NestedWork(resolvedName, descriptor.nested), R1, E0);
      RegisterReachableNestedEnums(resolvedName, descriptor.enums);
      assert outputReachableTypes == afterNested.reached && reachableEnums == afterNested.enums + EnumKeys(resolvedName, descriptor.enums);
      SubsetCard(K - outputReachableTypes, K - R1);
      MarkFieldTypesAsOutput(descriptor.fields);
      assert CurrentScope() == sc;
      ghost var afterFields := Marks(outputReachableTypes, reachableEnums);
      assert afterFields == Run(sc, FieldWork(sc, descriptor.fields), afterNested.reached, afterNested.enums + EnumKeys(resolvedName, descriptor.enums));
      MarkInPasses(sc, typeName, R0, E0, afterNested, afterFields);

      inProgressOutput := inProgressOutput - {resolvedName};
      assert Marks(outputReachableTypes, reachableEnums) == afterFields;
    }

    /** The nested-message loop of `MarkTypeReachableAsOutput`: marks `key.N` for each nested message `N`, in order. */
    method MarkNestedAsOutput(key: string, nested: seq<Message>)
      requires ValidOutput()
      modifies this`outputReachableTypes, this`inProgressOutput, this`reachableEnums
      ensures ValidOutput()
      ensures Marks(outputReachableTypes, reachableEnums)
              == Run(CurrentScope(), NestedWork(key, nested), old(outputReachableTypes), old(reachableEnums))
      ensures inProgressOutput == old(inProgressOutput)
      decreases |typeRegistry.Keys - outputReachableTypes|, 1
    {
      ghost var sc, K, nw := CurrentScope(), typeRegistry.Keys, NestedWork(key, nested);
      ghost var R0, E0 := outputReachableTypes, reachableEnums;
      for i := 0 to |nested|
        invariant ValidOutput() && inProgressOutput == old(inProgressOutput) && R0 <= outputReachableTypes
        invariant Marks(outputReachableTypes, reachableEnums) == Run(sc, nw[..i], R0, E0)
      {
        var nestedName := key + "." + nested[i].name;
        SubsetCard(K - outputReachableTypes, K - R0);
        ghost var before := Marks(outputReachableTypes, reachableEnums);
        MarkTypeReachableAsOutput(nestedName);
        assert Marks(outputReachableTypes, reachableEnums) == Mark(sc, nestedName, before.reached, before.enums);
        assert Marks(outputReachableTypes, reachableEnums) == Run(sc, nw[..i + 1], R0, E0) by {
          RunNestedStep(sc, key, nested, i, R0, E0);
        }
      }
      assert nw[..|nested|] == nw;
    }

    /** The field loop of `MarkTypeReachableAsOutput`: marks each message field's type and adds each enum field's resolved enum. */
    method MarkFieldTypesAsOutput(fields: seq<FieldDecl>)
      requires ValidOutput()
      modifies this`outputReachableTypes, this`inProgressOutput, this`reachableEnums
      ensures ValidOutput()
      ensures Marks(outputReachableTypes, reachableEnums)
              == Run(CurrentScope(), FieldWork(CurrentScope(), fields), old(outputReachableTypes), old(reachableEnums))
      ensures inProgressOutput == old(inProgressOutput)
      decreases |typeRegistry.Keys - outputReachableTypes|, 1
    {
      ghost var sc, K := CurrentScope(), typeRegistry.Keys;
      ghost var R0, E0, fw := outputReachableTypes, reachableEnums, FieldWork(sc, fields);
      for i := 0 to |fields|
        invariant ValidOutput() && inProgressOutput == old(inProgressOutput) && R0 <= outputReachableTypes
        invariant Marks(outputReachableTypes, reachableEnums) == Run(sc, fw[..i], R0, E0)
      {
        var field := fields[i];
        ghost var before := Marks(outputReachableTypes, reachableEnums);
        if field.kind == MessageKind {
          SubsetCard(K - outputReachableTypes, K - R0);
          MarkTypeReachableAsOutput(field.typeName);
        }
        if field.kind == EnumKind {
          var resolvedEnumName := ResolveEnumName(field.typeName);
          reachableEnums := reachableEnums + {resolvedEnumName};
        }
        assert Marks(outputReachableTypes, reachableEnums) == Step(sc, FieldAction(sc, field), before.reached, before.enums);
        assert Marks(outputReachableTypes, reachableEnums) == Run(sc, fw[..i + 1], R0, E0) by {
          RunFieldStep(sc, fields, i, R0, E0);
        }
      }
      assert fw[..|fields|] == fw;
    }

    /** The nested-enum loop shared by both marking methods: adds `key.E` for each nested enum `E`. */
    method RegisterReachableNestedEnums(key: string, enums: seq<EnumDecl>)
      modifies this`reachableEnums
      ensures reachableEnums == old(reachableEnums) + EnumKeys(key, enums)
    {
      for i := 0 to |enums|
        invariant reachableEnums == old(reachableEnums) + EnumKeys(key, enums[..i])
      {
        var enumName := key + "." + enums[i].name;
        assert EnumKeys(key, enums[..i + 1]) == EnumKeys(key, enums[..i]) + {enumName} by {
          assert enums[..i + 1][i] == enums[i];
          forall x | x in EnumKeys(key, enums[..i + 1]) ensures x in EnumKeys(key, enums[..i]) + {enumName} {
            var j :| 0 <= j < i + 1 && x == key + "." + enums[..i + 1][j].name;
            if j < i { assert enums[..i + 1][j] == enums[..i][j]; }
          }
          forall x | x in EnumKeys(key, enums[..i]) ensures x in EnumKeys(key, enums[..i + 1]) {
            var j :| 0 <= j < i && x == key + "." + enums[..i][j].name;
            assert enums[..i + 1][j] == enums[..i][j];
          }
        }
        reachableEnums := reachableEnums + {enumName};
      }
      assert enums[..|enums|] == enums;
    }

    /**
     * `AnalyzeRPCDependencies`: every method of every service, in order,
     * through `AnalyzeMethod`. The inner loop, over one service's methods,
     * is `AnalyzeServiceMethods`.
     */
    method AnalyzeRPCDependencies(services: seq<Service>, target: string)
      requires Valid()
      modifies this`inputReachableTypes, this`outputReachableTypes, this`reachableEnums,
               this`inProgressInput, this`inProgressOutput
      ensures Valid()
      ensures State() == AnalyzeMethods(CurrentScope(), target, AllMethods(services), old(State()))
      ensures inProgressInput == old(inProgressInput) && inProgressOutput == old(inProgressOutput)
    {
      ghost var sc, st0 := CurrentScope(), State();
      for i := 0 to |services|
        invariant Valid()
        invariant inProgressInput == old(inProgressInput) && inProgressOutput == old(inProgressOutput)
        invariant State() == AnalyzeMethods(sc, target, AllMethods(services[..i]), st0)
      {
        var service := services[i];
        AnalyzeServiceMethods(service.methods, target);
        assert State() == AnalyzeMethods(sc, target, AllMethods(services[..i + 1]), st0) by {
          assert services[..i + 1][..i] == services[..i];
          AnalyzeMethodsAppend(sc, target, AllMethods(services[..i]), service.methods, st0);
        }
      }
      assert services[..|services|] == services;
    }

    /** The loop over one service's methods: skipped ones change nothing, admitted ones mark their input and output types. */
    method AnalyzeServiceMethods(methods: seq<MethodDecl>, target: string)
      requires Valid()
      modifies this`inputReachableTypes, this`outputReachableTypes, this`reachableEnums,
               this`inProgressInput, this`inProgressOutput
      ensures Valid()
      ensures State() == AnalyzeMethods(CurrentScope(), target, methods, old(State()))
      ensures inProgressInput == old(inProgressInput) && inProgressOutput == old(inProgressOutput)
    {
      ghost var sc, st0 := CurrentScope(), State();
      for j := 0 to |methods|
        invariant Valid()
        invariant inProgressInput == old(inProgressInput) && inProgressOutput == old(inProgressOutput)
        invariant State() == AnalyzeMethods(sc, target, methods[..j], st0)
      {
        var m := methods[j];
        ghost var before := State();
        AnalyzeMethodsSnoc(sc, target, methods, j, st0);
        var methodOptions := m.options;
        if !ShouldIncludeMethod(target, methodOptions) {
          continue;
        }
        if m.inputType != "" {
          MarkTypeReachableAsInput(m.inputType);
          assert State() == MarkInput(sc, m.inputType, before);
        }
        ghost var afterInput := State();
        if m.outputType != "" {
          MarkTypeReachableAsOutput(m.outputType);
          assert State() == MarkOutput(sc, m.outputType, afterInput);
        }
      }
      assert methods[..|methods|] == methods;
    }
  }
}
