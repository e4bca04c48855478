/**
 * The argument parser of the `generate` subcommand (generate.go): a walk
 * over the arguments that builds the output directory, the import paths,
 * the plugin options and the proto files. The arguments are a parameter
 * rather than the process's command line.
 */
module Generate {
  import opened Wrappers
  import opened Strs

  /** `generateConfig`. */
  datatype Config = Config(protoFiles: seq<string>, outputDir: string, protoPaths: seq<string>, pluginOpts: seq<string>)

  /** The configuration before any argument: output to the current directory, nothing else. */
  const Initial := Config([], ".", [], [])

  // ---------------------------------------------------------------------
  // The parser as a specification: arguments grouped by kind

  /** Where a flag's value goes. */
  datatype Dest = OutputDir | ProtoPaths | PluginOpt(key: string)

  /** The flags that take the next argument as their value. */
  const ValueFlags: map<string, Dest> := map[
    "-o" := OutputDir, "--out" := OutputDir,
    "-I" := ProtoPaths, "--proto_path" := ProtoPaths,
    "--target" := PluginOpt("target="),
    "--output_filename" := PluginOpt("output_filenames="),
    "--input_naming" := PluginOpt("input_naming="),
    "--affix" := PluginOpt("affix=")]

  /** The flags that take no value, and the plugin option each adds. */
  const Switches: map<string, string> := map[
    "--keep_case" := "keep_case",
    "--keep_prefix" := "keep_prefix=true",
    "--combine_output" := "combine_output",
    "--all" := "all=true"]

  /** A flag written with its value attached (`--out=dir`, `-Idir`): where the value goes, and the value. */
  function Attached(arg: string): Option<(Dest, string)> {
    if HasPrefix(arg, "-o=") then Some((OutputDir, arg[3..]))
    else if HasPrefix(arg, "--out=") then Some((OutputDir, arg[6..]))
    else if HasPrefix(arg, "-I") then Some((ProtoPaths, arg[2..]))
    else if HasPrefix(arg, "--proto_path=") then Some((ProtoPaths, arg[13..]))
    else if HasPrefix(arg, "--target=") then Some((PluginOpt("target="), arg[9..]))
    else if HasPrefix(arg, "--output_filename=") then Some((PluginOpt("output_filenames="), arg[18..]))
    else if HasPrefix(arg, "--input_naming=") then Some((PluginOpt("input_naming="), arg[15..]))
    else if HasPrefix(arg, "--affix=") then Some((PluginOpt("affix="), arg[8..]))
    else None
  }

  /** The configuration with `v` stored where `d` says. */
  function Put(c: Config, d: Dest, v: string): Config {
    match d
    case OutputDir => c.(outputDir := v)
    case ProtoPaths => c.(protoPaths := c.protoPaths + [v])
    case PluginOpt(key) => c.(pluginOpts := c.pluginOpts + [key + v])
  }

  /**
   * The argument at `i`: the index of the next unread argument and the
   * configuration after it. A value flag with no argument after it is
   * dropped; an unknown argument starting with `-` is skipped.
   */
  function Step(args: seq<string>, i: nat, c: Config): (r: (nat, Config))
    requires i < |args|
    ensures i < r.0 <= |args|
  {
    var arg := args[i];
    if arg in ValueFlags then
      if i + 1 < |args| then (i + 2, Put(c, ValueFlags[arg], args[i + 1])) else (i + 1, c)
    else if Attached(arg).Some? then (i + 1, Put(c, Attached(arg).value.0, Attached(arg).value.1))
    else if arg in Switches then (i + 1, c.(pluginOpts := c.pluginOpts + [Switches[arg]]))
    else if !HasPrefix(arg, "-") then (i + 1, c.(protoFiles := c.protoFiles + [arg]))
    else (i + 1, c)
  }

  /** The configuration after reading the arguments from `i` on, starting from `c`. */
  function ParseFrom(args: seq<string>, i: nat, c: Config): Config
    requires i <= |args|
    decreases |args| - i
  {
    if i == |args| then c
    else
      var r := Step(args, i, c);
      ParseFrom(args, r.0, r.1)
  }

  function Parse(args: seq<string>): Config {
    ParseFrom(args, 0, Initial)
  }

  // ---------------------------------------------------------------------
  // The parser as written

  /** The switches carry no attached value and take none. */
  lemma SwitchesPlain()
    ensures forall f :: f in Switches ==> f !in ValueFlags && Attached(f).None?
  {
    forall f | f in Switches
      ensures f !in ValueFlags && Attached(f).None?
    {
      assert f == "--keep_case" || f == "--keep_prefix" || f == "--combine_output" || f == "--all";
      NotValueFlag(f);
      LongFlagPlain(f);
    }
  }

  /** The value flags are told apart by length, and `--out` by its third character. */
  lemma NotValueFlag(f: string)
    requires |f| !in {2, 7, 8, 12, 14, 17} && (|f| == 5 ==> f[2] != 'o')
    ensures f !in ValueFlags
  {
    assert ValueFlags.Keys == {"-o", "--out", "-I", "--proto_path", "--target", "--output_filename", "--input_naming", "--affix"};
  }

  /** A `--` argument whose name starts with none of the attached forms' letters has no attached value. */
  lemma LongFlagPlain(f: string)
    requires |f| >= 4 && f[0] == '-' && f[1] == '-'
    requires f[2] !in {'o', 'p', 't', 'i'} && !(f[2] == 'a' && f[3] == 'f')
    ensures Attached(f).None?
  {
    NotPrefix(f, "-o=", 1);
    NotPrefix(f, "-I", 1);
    NotPrefix(f, "--out=", 2);
    NotPrefix(f, "--proto_path=", 2);
    NotPrefix(f, "--target=", 2);
    NotPrefix(f, "--output_filename=", 2);
    NotPrefix(f, "--input_naming=", 2);
    if f[2] == 'a' {
      NotPrefix(f, "--affix=", 3);
    } else {
      NotPrefix(f, "--affix=", 2);
    }
  }

  lemma NotPrefix(s: string, p: string, k: int)
    requires 0 <= k < |p| && k < |s| && s[k] != p[k]
    ensures !HasPrefix(s, p)
  {
    if HasPrefix(s, p) {
      PrefixChar(s, p, k);
    }
  }

  lemma PrefixChar(s: string, p: string, k: int)
    requires HasPrefix(s, p) && 0 <= k < |p|
    ensures s[k] == p[k]
  {
    assert s[..|p|][k] == s[k];
  }

  /**
   * `parseGenerateArgs`: the cases in the order the source tests them;
   * a value flag moves the index past its value.
   */
  method ParseGenerateArgs(args: seq<string>) returns (config: Config)
    ensures config == Parse(args)
  {
    config := Config([], ".", [], []);
    var i := 0;
    while i < |args|
      invariant 0 <= i <= |args|
      invariant ParseFrom(args, i, config) == Parse(args)
      decreases |args| - i
    {
      ghost var r := Step(args, i, config);
      i, config := Consume(args, i, config);
      assert (i, config) == r;
    }
  }

  /** The body of the source's loop: one case of the switch, and the loop's own increment. */
  method Consume(args: seq<string>, i0: nat, config0: Config) returns (i: nat, config: Config)
    requires i0 < |args|
    ensures (i, config) == Step(args, i0, config0)
  {
    var arg := args[i0];
    if arg == "-o" || arg == "--out" || HasPrefix(arg, "-o=") || HasPrefix(arg, "--out=") {
      i, config := ConsumeOutputDir(args, i0, config0);
    } else if arg == "-I" || arg == "--proto_path" || HasPrefix(arg, "-I") || HasPrefix(arg, "--proto_path=") {
      i, config := ConsumeProtoPath(args, i0, config0);
    } else {
      i, config := ConsumeOption(args, i0, config0);
    }
  }

  /** The output directory cases. */
  method ConsumeOutputDir(args: seq<string>, i0: nat, config0: Config) returns (i: nat, config: Config)
    requires i0 < |args|
    requires var arg := args[i0]; arg == "-o" || arg == "--out" || HasPrefix(arg, "-o=") || HasPrefix(arg, "--out=")
    ensures (i, config) == Step(args, i0, config0)
  {
    i, config := i0, config0;
    var arg := args[i];
    FlagKeys();
    if arg == "-o" || arg == "--out" {
      StepValueFlag(args, i0, config0);
      if i + 1 < |args| {
        i := i + 1;
        config := config.(outputDir := args[i]);
      }
    } else if HasPrefix(arg, "-o=") {
      PrefixChar(arg, "-o=", 1);
      StepAttached(args, i0, config0);
      config := config.(outputDir := TrimPrefix(arg, "-o="));
    } else {
      PrefixChar(arg, "--out=", 5);
      PrefixChar(arg, "--out=", 2);
      StepAttached(args, i0, config0);
      config := config.(outputDir := TrimPrefix(arg, "--out="));
    }
    i := i + 1;
  }

  /** The import path cases. */
  method ConsumeProtoPath(args: seq<string>, i0: nat, config0: Config) returns (i: nat, config: Config)
    requires i0 < |args|
    requires var arg := args[i0];
             !(arg == "-o" || arg == "--out" || HasPrefix(arg, "-o=") || HasPrefix(arg, "--out="))
             && (arg == "-I" || arg == "--proto_path" || HasPrefix(arg, "-I") || HasPrefix(arg, "--proto_path="))
    ensures (i, config) == Step(args, i0, config0)
  {
    i, config := i0, config0;
    var arg := args[i];
    FlagKeys();
    if arg == "-I" || arg == "--proto_path" {
      StepValueFlag(args, i0, config0);
      if i + 1 < |args| {
        i := i + 1;
        config := config.(protoPaths := config.protoPaths + [args[i]]);
      }
    } else if HasPrefix(arg, "-I") {
      PrefixChar(arg, "-I", 1);
      StepAttached(args, i0, config0);
      config := config.(protoPaths := config.protoPaths + [TrimPrefix(arg, "-I")]);
    } else {
      PrefixChar(arg, "--proto_path=", 2);
      StepAttached(args, i0, config0);
      config := config.(protoPaths := config.protoPaths + [TrimPrefix(arg, "--proto_path=")]);
    }
    i := i + 1;
  }

  /** The target and switch option cases. */
  method ConsumeOption(args: seq<string>, i0: nat, config0: Config) returns (i: nat, config: Config)
    requires i0 < |args|
    requires var arg := args[i0];
             !(arg == "-o" || arg == "--out" || HasPrefix(arg, "-o=") || HasPrefix(arg, "--out="))
             && !(arg == "-I" || arg == "--proto_path" || HasPrefix(arg, "-I") || HasPrefix(arg, "--proto_path="))
    ensures (i, config) == Step(args, i0, config0)
  {
    i, config := i0, config0;
    var arg := args[i];
    FlagKeys();
    if arg == "--target" {
      StepValueFlag(args, i0, config0);
      if i + 1 < |args| {
        i := i + 1;
        config := config.(pluginOpts := config.pluginOpts + ["target=" + args[i]]);
      }
    } else if HasPrefix(arg, "--target=") {
      PrefixChar(arg, "--target=", 2);
      StepAttached(args, i0, config0);
      config := config.(pluginOpts := config.pluginOpts + ["target=" + TrimPrefix(arg, "--target=")]);
    } else if arg == "--keep_case" || arg == "--keep_prefix" || arg == "--combine_output" {
      StepSwitch(args, i0, config0);
      if arg == "--keep_case" {
        config := config.(pluginOpts := config.pluginOpts + ["keep_case"]);
      } else if arg == "--keep_prefix" {
        config := config.(pluginOpts := config.pluginOpts + ["keep_prefix=true"]);
      } else {
        config := config.(pluginOpts := config.pluginOpts + ["combine_output"]);
      }
    } else {
      i, config := ConsumeNamingOption(args, i0, config0);
      return;
    }
    i := i + 1;
  }

  /** The naming option cases, then a proto file; any other argument is skipped. */
  method ConsumeNamingOption(args: seq<string>, i0: nat, config0: Config) returns (i: nat, config: Config)
    requires i0 < |args|
    requires var arg := args[i0];
             !(arg == "-o" || arg == "--out" || HasPrefix(arg, "-o=") || HasPrefix(arg, "--out="))
             && !(arg == "-I" || arg == "--proto_path" || HasPrefix(arg, "-I") || HasPrefix(arg, "--proto_path="))
             && !(arg == "--target" || HasPrefix(arg, "--target=") || arg == "--keep_case" || arg == "--keep_prefix"
                  || arg == "--combine_output")
    ensures (i, config) == Step(args, i0, config0)
  {
    i, config := i0, config0;
    var arg := args[i];
    FlagKeys();
    if arg == "--output_filename" || arg == "--input_naming" || arg == "--affix" {
      StepValueFlag(args, i0, config0);
      if i + 1 < |args| {
        if arg == "--output_filename" {
          config := config.(pluginOpts := config.pluginOpts + ["output_filenames=" + args[i + 1]]);
        } else if arg == "--input_naming" {
          config := config.(pluginOpts := config.pluginOpts + ["input_naming=" + args[i + 1]]);
        } else {
          config := config.(pluginOpts := config.pluginOpts + ["affix=" + args[i + 1]]);
        }
        i := i + 1;
      }
    } else if HasPrefix(arg, "--output_filename=") {
      PrefixChar(arg, "--output_filename=", 2);
      StepAttached(args, i0, config0);
      config := config.(pluginOpts := config.pluginOpts + ["output_filenames=" + TrimPrefix(arg, "--output_filename=")]);
    } else if HasPrefix(arg, "--input_naming=") {
      PrefixChar(arg, "--input_naming=", 2);
      StepAttached(args, i0, config0);
      config := config.(pluginOpts := config.pluginOpts + ["input_naming=" + TrimPrefix(arg, "--input_naming=")]);
    } else if HasPrefix(arg, "--affix=") {
      PrefixChar(arg, "--affix=", 2);
      StepAttached(args, i0, config0);
      config := config.(pluginOpts := config.pluginOpts + ["affix=" + TrimPrefix(arg, "--affix=")]);
    } else if arg == "--all" {
      StepSwitch(args, i0, config0);
      config := config.(pluginOpts := config.pluginOpts + ["all=true"]);
    } else if !HasPrefix(arg, "-") {
      NoDashNoFlag(arg);
      config := config.(protoFiles := config.protoFiles + [arg]);
    } else {
      assert Attached(arg).None?;
    }
    i := i + 1;
  }

  /** The keys of the two flag tables. */
  lemma FlagKeys()
    ensures forall f :: f in ValueFlags <==> f in {"-o", "--out", "-I", "--proto_path", "--target", "--output_filename", "--input_naming", "--affix"}
    ensures forall f :: f in Switches <==> f in {"--keep_case", "--keep_prefix", "--combine_output", "--all"}
  {
    assert ValueFlags.Keys == {"-o", "--out", "-I", "--proto_path", "--target", "--output_filename", "--input_naming", "--affix"};
    assert Switches.Keys == {"--keep_case", "--keep_prefix", "--combine_output", "--all"};
  }

  /** `Step` on a value flag. */
  lemma StepValueFlag(args: seq<string>, i: nat, c: Config)
    requires i < |args| && args[i] in ValueFlags
    ensures i + 1 < |args| ==> Step(args, i, c) == (i + 2, Put(c, ValueFlags[args[i]], args[i + 1]))
    ensures i + 1 == |args| ==> Step(args, i, c) == (i + 1, c)
  {
  }

  /** `Step` on a flag with its value attached. */
  lemma StepAttached(args: seq<string>, i: nat, c: Config)
    requires i < |args| && args[i] !in ValueFlags && Attached(args[i]).Some?
    ensures Step(args, i, c) == (i + 1, Put(c, Attached(args[i]).value.0, Attached(args[i]).value.1))
  {
  }

  /** `Step` on a switch. */
  lemma StepSwitch(args: seq<string>, i: nat, c: Config)
    requires i < |args| && args[i] in Switches
    ensures Step(args, i, c) == (i + 1, c.(pluginOpts := c.pluginOpts + [Switches[args[i]]]))
  {
    SwitchesPlain();
  }

  // ---------------------------------------------------------------------
  // Properties of the parser

  /** The arguments that set the output directory. */
  predicate OutForm(arg: string) {
    arg == "-o" || arg == "--out" || HasPrefix(arg, "-o=") || HasPrefix(arg, "--out=")
  }

  /** Reading `a` from `i` on never leaves a value flag waiting for a value past the end of `a`. */
  predicate CleanFrom(a: seq<string>, i: nat)
    decreases |a| - i
  {
    i >= |a| || (if a[i] in ValueFlags then i + 1 < |a| && CleanFrom(a, i + 2) else CleanFrom(a, i + 1))
  }

  predicate Clean(a: seq<string>) {
    CleanFrom(a, 0)
  }

  /** Reading `b` after `a` from index `|a| + j` is reading `b` from `j`. */
  lemma {:induction false} ParseShift(a: seq<string>, b: seq<string>, j: nat, c: Config)
    requires j <= |b|
    ensures ParseFrom(a + b, |a| + j, c) == ParseFrom(b, j, c)
    decreases |b| - j
  {
    if j < |b| {
      assert (a + b)[|a| + j] == b[j];
      if j + 1 < |b| {
        assert (a + b)[|a| + j + 1] == b[j + 1];
      }
      var r := Step(b, j, c);
      assert Step(a + b, |a| + j, c) == (|a| + r.0, r.1);
      ParseShift(a, b, r.0, r.1);
    }
  }

  /** Arguments that end cleanly are read the same way whatever follows them. */
  lemma {:induction false} ParseConcat(a: seq<string>, b: seq<string>, i: nat, c: Config)
    requires i <= |a| && CleanFrom(a, i)
    ensures ParseFrom(a + b, i, c) == ParseFrom(b, 0, ParseFrom(a, i, c))
    decreases |a| - i
  {
    if i == |a| {
      ParseShift(a, b, 0, c);
    } else {
      assert (a + b)[i] == a[i];
      if i + 1 < |a| {
        assert (a + b)[i + 1] == a[i + 1];
      }
      var r := Step(a, i, c);
      assert Step(a + b, i, c) == r;
      ParseConcat(a, b, r.0, r.1);
    }
  }

  /** A value flag stores the argument after it where the flag's table entry says. */
  lemma ValueFlagTakesNext(f: string, v: string, b: seq<string>, c: Config)
    requires f in ValueFlags
    ensures ParseFrom([f, v] + b, 0, c) == ParseFrom(b, 0, Put(c, ValueFlags[f], v))
  {
    ParseShift([f, v], b, 0, Put(c, ValueFlags[f], v));
  }

  /** A value flag that is the last argument is ignored. */
  lemma DanglingFlagIgnored(a: seq<string>, f: string)
    requires Clean(a) && f in ValueFlags
    ensures Parse(a + [f]) == Parse(a)
  {
    ParseConcat(a, [f], 0, Initial);
  }

  /** A flag with its value attached stores that value where the flag says. */
  lemma AttachedStores(arg: string, b: seq<string>, c: Config)
    requires arg !in ValueFlags && Attached(arg).Some?
    ensures ParseFrom([arg] + b, 0, c) == ParseFrom(b, 0, Put(c, Attached(arg).value.0, Attached(arg).value.1))
  {
    ParseShift([arg], b, 0, Put(c, Attached(arg).value.0, Attached(arg).value.1));
  }

  /** A switch appends its plugin option. */
  lemma SwitchAppends(s: string, b: seq<string>, c: Config)
    requires s in Switches
    ensures ParseFrom([s] + b, 0, c) == ParseFrom(b, 0, c.(pluginOpts := c.pluginOpts + [Switches[s]]))
  {
    var c' := c.(pluginOpts := c.pluginOpts + [Switches[s]]);
    SwitchesPlain();
    assert s !in ValueFlags && Attached(s).None?;
    assert ([s] + b)[0] == s;
    assert Step([s] + b, 0, c) == (1, c');
    ParseShift([s], b, 0, c');
  }

  /** An argument starting with `-` that is no flag, switch or attached form is skipped, and nothing changes. */
  lemma UnknownFlagIgnored(arg: string, b: seq<string>, c: Config)
    requires HasPrefix(arg, "-") && arg !in ValueFlags && arg !in Switches && Attached(arg).None?
    ensures ParseFrom([arg] + b, 0, c) == ParseFrom(b, 0, c)
  {
    assert ([arg] + b)[0] == arg;
    assert Step([arg] + b, 0, c) == (1, c);
    ParseShift([arg], b, 0, c);
  }

  /** `--verbose` is such an argument: `--verbose a.proto` reads as `a.proto` alone. */
  lemma VerboseIgnored()
    ensures Parse(["--verbose", "a.proto"]) == Config(["a.proto"], ".", [], [])
  {
    var v := "--verbose";
    NotValueFlag(v);
    LongFlagPlain(v);
    assert v !in Switches by {
      FlagKeys();
    }
    assert HasPrefix(v, "-");
    UnknownFlagIgnored(v, ["a.proto"], Initial);
    assert ["--verbose", "a.proto"] == [v] + ["a.proto"];
    PlainFilesKept(["a.proto"]);
  }

  /** An argument that is not an output form leaves the output directory alone. */
  lemma StepKeepsOutput(args: seq<string>, i: nat, c: Config)
    requires i < |args| && !OutForm(args[i])
    ensures Step(args, i, c).1.outputDir == c.outputDir
  {
    assert ValueFlags.Keys == {"-o", "--out", "-I", "--proto_path", "--target", "--output_filename", "--input_naming", "--affix"};
  }

  /** Arguments without an output form leave the output directory alone. */
  lemma {:induction false} OutputUntouched(args: seq<string>, i: nat, c: Config)
    requires i <= |args|
    requires forall k :: i <= k < |args| ==> !OutForm(args[k])
    ensures ParseFrom(args, i, c).outputDir == c.outputDir
    decreases |args| - i
  {
    if i < |args| {
      StepKeepsOutput(args, i, c);
      var r := Step(args, i, c);
      OutputUntouched(args, r.0, r.1);
    }
  }

  /** Without an output form the output directory is the current one. */
  lemma DefaultOutputDir(args: seq<string>)
    requires forall k :: 0 <= k < |args| ==> !OutForm(args[k])
    ensures Parse(args).outputDir == "."
  {
    OutputUntouched(args, 0, Initial);
  }

  /** The last `-o X` or `--out X` wins. */
  lemma LastOutWins(a: seq<string>, flag: string, x: string, b: seq<string>)
    requires Clean(a) && (flag == "-o" || flag == "--out")
    requires forall k :: 0 <= k < |b| ==> !OutForm(b[k])
    ensures Parse(a + [flag, x] + b).outputDir == x
  {
    assert a + [flag, x] + b == a + ([flag, x] + b);
    ParseConcat(a, [flag, x] + b, 0, Initial);
    var c := Parse(a);
    ValueFlagTakesNext(flag, x, b, c);
    OutputUntouched(b, 0, Put(c, OutputDir, x));
  }

  /** The last `-o=X` or `--out=X` wins. */
  lemma LastAttachedOutWins(a: seq<string>, arg: string, b: seq<string>)
    requires Clean(a) && (HasPrefix(arg, "-o=") || HasPrefix(arg, "--out="))
    requires forall k :: 0 <= k < |b| ==> !OutForm(b[k])
    ensures HasPrefix(arg, "-o=") ==> Parse(a + [arg] + b).outputDir == TrimPrefix(arg, "-o=")
    ensures HasPrefix(arg, "--out=") ==> Parse(a + [arg] + b).outputDir == TrimPrefix(arg, "--out=")
  {
    assert a + [arg] + b == a + ([arg] + b);
    ParseConcat(a, [arg] + b, 0, Initial);
    var c := Parse(a);
    AttachedOutNotFlag(arg);
    if HasPrefix(arg, "-o=") {
      NotPrefix(arg, "--out=", 1);
    }
    AttachedStores(arg, b, c);
    OutputUntouched(b, 0, Put(c, Attached(arg).value.0, Attached(arg).value.1));
  }

  lemma AttachedOutNotFlag(arg: string)
    requires HasPrefix(arg, "-o=") || HasPrefix(arg, "--out=")
    ensures arg !in ValueFlags
  {
    assert ValueFlags.Keys == {"-o", "--out", "-I", "--proto_path", "--target", "--output_filename", "--input_naming", "--affix"};
    if HasPrefix(arg, "-o=") {
      PrefixChar(arg, "-o=", 2);
    } else {
      PrefixChar(arg, "--out=", 5);
    }
  }

  /** An argument not starting with `-` (the empty one included) is no flag of any kind. */
  lemma NoDashNoFlag(arg: string)
    requires !HasPrefix(arg, "-")
    ensures arg !in ValueFlags && arg !in Switches && Attached(arg).None?
  {
    assert ValueFlags.Keys == {"-o", "--out", "-I", "--proto_path", "--target", "--output_filename", "--input_naming", "--affix"};
    assert Switches.Keys == {"--keep_case", "--keep_prefix", "--combine_output", "--all"};
    if arg != [] {
      NotPrefix(arg, "-o=", 0);
      NotPrefix(arg, "--out=", 0);
      NotPrefix(arg, "-I", 0);
      NotPrefix(arg, "--proto_path=", 0);
      NotPrefix(arg, "--target=", 0);
      NotPrefix(arg, "--output_filename=", 0);
      NotPrefix(arg, "--input_naming=", 0);
      NotPrefix(arg, "--affix=", 0);
    }
  }

  /** Arguments none of which starts with `-` are all proto files, in order. */
  lemma {:induction false} PlainArgsAreFiles(args: seq<string>, i: nat, c: Config)
    requires i <= |args|
    requires forall k :: i <= k < |args| ==> !HasPrefix(args[k], "-")
    ensures ParseFrom(args, i, c) == c.(protoFiles := c.protoFiles + args[i..])
    decreases |args| - i
  {
    if i == |args| {
      assert args[i..] == [];
    } else {
      NoDashNoFlag(args[i]);
      var c' := c.(protoFiles := c.protoFiles + [args[i]]);
      assert Step(args, i, c) == (i + 1, c');
      PlainArgsAreFiles(args, i + 1, c');
      assert args[i..] == [args[i]] + args[i + 1..];
    }
  }

  /** Only file arguments: the configuration lists them and is otherwise the initial one. */
  lemma PlainFilesKept(args: seq<string>)
    requires forall k :: 0 <= k < |args| ==> !HasPrefix(args[k], "-")
    ensures Parse(args) == Config(args, ".", [], [])
  {
    PlainArgsAreFiles(args, 0, Initial);
    assert args[0..] == args;
  }

  /** `-IX` and `--proto_path=X` add `X` to the import paths. */
  lemma ProtoPathForms(x: string)
    ensures x != [] ==> Attached("-I" + x) == Some((ProtoPaths, x))
    ensures Attached("--proto_path=" + x) == Some((ProtoPaths, x))
  {
    var short, long := "-I" + x, "--proto_path=" + x;
    PrefixOfConcat("-I", x);
    PrefixOfConcat("--proto_path=", x);
    assert short[2..] == x && long[13..] == x;
    NotPrefix(short, "-o=", 1);
    NotPrefix(short, "--out=", 1);
    NotPrefix(long, "-o=", 1);
    NotPrefix(long, "--out=", 2);
    NotPrefix(long, "-I", 1);
  }

  /** The plugin-option flags with their value attached add `key=value`. */
  lemma OptionForms(x: string)
    ensures Attached("--target=" + x) == Some((PluginOpt("target="), x))
    ensures Attached("--output_filename=" + x) == Some((PluginOpt("output_filenames="), x))
    ensures Attached("--input_naming=" + x) == Some((PluginOpt("input_naming="), x))
    ensures Attached("--affix=" + x) == Some((PluginOpt("affix="), x))
  {
    var target, output, naming, affix := "--target=" + x, "--output_filename=" + x, "--input_naming=" + x, "--affix=" + x;
    PrefixOfConcat("--target=", x);
    PrefixOfConcat("--output_filename=", x);
    PrefixOfConcat("--input_naming=", x);
    PrefixOfConcat("--affix=", x);
    assert target[9..] == x && output[18..] == x && naming[15..] == x && affix[8..] == x;
    LongFormSkipsShort(target);
    LongFormSkipsShort(output);
    LongFormSkipsShort(naming);
    LongFormSkipsShort(affix);
    NotPrefix(target, "--out=", 2);
    NotPrefix(target, "--proto_path=", 2);
    NotPrefix(output, "--out=", 5);
    NotPrefix(output, "--proto_path=", 2);
    NotPrefix(output, "--target=", 2);
    NotPrefix(naming, "--out=", 2);
    NotPrefix(naming, "--proto_path=", 2);
    NotPrefix(naming, "--target=", 2);
    NotPrefix(naming, "--output_filename=", 2);
    NotPrefix(affix, "--out=", 2);
    NotPrefix(affix, "--proto_path=", 2);
    NotPrefix(affix, "--target=", 2);
    NotPrefix(affix, "--output_filename=", 2);
    NotPrefix(affix, "--input_naming=", 2);
  }

  /** An argument starting with `--` is neither `-o=...` nor `-I...`. */
  lemma LongFormSkipsShort(arg: string)
    requires |arg| >= 2 && arg[1] == '-'
    ensures !HasPrefix(arg, "-o=") && !HasPrefix(arg, "-I")
  {
    NotPrefix(arg, "-o=", 1);
    NotPrefix(arg, "-I", 1);
  }

  /** The number of entries in the configuration's lists. */
  function Size(c: Config): nat {
    |c.protoFiles| + |c.protoPaths| + |c.pluginOpts|
  }

  /** `d` keeps every list entry of `c` in place. */
  predicate Extends(c: Config, d: Config) {
    c.protoFiles <= d.protoFiles && c.protoPaths <= d.protoPaths && c.pluginOpts <= d.pluginOpts
  }

  /** How many of the four fields differ between `c` and `d`. */
  function ChangedFields(c: Config, d: Config): nat {
    (if c.protoFiles != d.protoFiles then 1 else 0) + (if c.outputDir != d.outputDir then 1 else 0)
      + (if c.protoPaths != d.protoPaths then 1 else 0) + (if c.pluginOpts != d.pluginOpts then 1 else 0)
  }

  /** One argument (with the value it takes) changes at most one field, and adds at most one entry. */
  lemma StepChangesOneField(args: seq<string>, i: nat, c: Config)
    requires i < |args|
    ensures var d := Step(args, i, c).1;
            ChangedFields(c, d) <= 1 && Extends(c, d) && Size(d) <= Size(c) + 1
  {
  }

  /** Reading arguments only appends to the lists, at most one entry per argument. */
  lemma {:induction false} ParseGrows(args: seq<string>, i: nat, c: Config)
    requires i <= |args|
    ensures Extends(c, ParseFrom(args, i, c))
    ensures Size(ParseFrom(args, i, c)) <= Size(c) + |args| - i
    decreases |args| - i
  {
    if i < |args| {
      StepChangesOneField(args, i, c);
      var r := Step(args, i, c);
      ParseGrows(args, r.0, r.1);
    }
  }
}
