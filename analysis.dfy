/**
 * `AnalyzeRPCDependencies` and `shouldIncludeMethod`
 * (internal/analyzer/analyzer.go): which RPC methods are admitted for a
 * target, and what the two reachable sets and the enum set are after
 * marking the input and output types of the admitted methods, in order.
 */
module Analysis {
  import opened Descriptors
  import opened Reachability

  /** `"all"` and `"*"` match every target. */
  predicate IsWildcard(t: string) {
    t == "all" || t == "*"
  }

  /**
   * `shouldIncludeMethod`: a skipped method is never admitted; otherwise a
   * wildcard on either side admits it, and failing that the command-line
   * target must equal the method's target.
   */
  function ShouldIncludeMethod(cliTarget: string, o: MethodOptions): (b: bool)
    ensures o.skip ==> !b
    ensures !o.skip && (IsWildcard(cliTarget) || IsWildcard(o.target)) ==> b
    ensures b <==> !o.skip && (IsWildcard(cliTarget) || IsWildcard(o.target) || cliTarget == o.target)
  {
    if o.skip then false
    else if cliTarget == "all" || cliTarget == "*" || o.target == "all" || o.target == "*" then true
    else cliTarget == o.target
  }

  /** The input-reachable set, the output-reachable set and the enum set they share. */
  datatype Reach = Reach(input: set<string>, output: set<string>, enums: set<string>)

  predicate Bounded(sc: Scope, st: Reach) {
    st.input <= sc.types.Keys && st.output <= sc.types.Keys
  }

  /** `MarkTypeReachableAsInput(t)` on the whole state: the output set is left alone. */
  function MarkInput(sc: Scope, t: string, st: Reach): (res: Reach)
    requires Bounded(sc, st)
    ensures Bounded(sc, res) && res.output == st.output
    ensures st.input <= res.input && st.enums <= res.enums
  {
    var mk := Mark(sc, t, st.input, st.enums);
    Reach(mk.reached, st.output, mk.enums)
  }

  /** `MarkTypeReachableAsOutput(t)` on the whole state: the input set is left alone. */
  function MarkOutput(sc: Scope, t: string, st: Reach): (res: Reach)
    requires Bounded(sc, st)
    ensures Bounded(sc, res) && res.input == st.input
    ensures st.output <= res.output && st.enums <= res.enums
  {
    var mk := Mark(sc, t, st.output, st.enums);
    Reach(st.input, mk.reached, mk.enums)
  }

  /** One method: unless it is filtered out, mark its non-empty input type as input and then its non-empty output type as output. */
  function AnalyzeMethod(sc: Scope, target: string, m: MethodDecl, st: Reach): (res: Reach)
    requires Bounded(sc, st)
    ensures Bounded(sc, res)
    ensures st.input <= res.input && st.output <= res.output && st.enums <= res.enums
  {
    if !ShouldIncludeMethod(target, m.options) then st
    else
      var afterInput := if m.inputType != "" then MarkInput(sc, m.inputType, st) else st;
      if m.outputType != "" then MarkOutput(sc, m.outputType, afterInput) else afterInput
  }

  function AnalyzeMethods(sc: Scope, target: string, ms: seq<MethodDecl>, st: Reach): (res: Reach)
    requires Bounded(sc, st)
    ensures Bounded(sc, res)
    ensures st.input <= res.input && st.output <= res.output && st.enums <= res.enums
  {
    if ms == [] then st
    else AnalyzeMethod(sc, target, ms[|ms| - 1], AnalyzeMethods(sc, target, ms[..|ms| - 1], st))
  }

  /** One more method, analysed after the earlier ones. */
  lemma AnalyzeMethodsSnoc(sc: Scope, target: string, ms: seq<MethodDecl>, j: int, st: Reach)
    requires Bounded(sc, st) && 0 <= j < |ms|
    ensures AnalyzeMethods(sc, target, ms[..j + 1], st) == AnalyzeMethod(sc, target, ms[j], AnalyzeMethods(sc, target, ms[..j], st))
  {
    assert ms[..j + 1][..j] == ms[..j];
  }

  /** Analysing two lists of methods one after the other. */
  lemma {:induction false} AnalyzeMethodsAppend(sc: Scope, target: string, a: seq<MethodDecl>, b: seq<MethodDecl>, st: Reach)
    requires Bounded(sc, st)
    ensures AnalyzeMethods(sc, target, a + b, st) == AnalyzeMethods(sc, target, b, AnalyzeMethods(sc, target, a, st))
    decreases |b|
  {
    if b == [] {
      assert a + b == a;
    } else {
      var n := |b| - 1;
      assert (a + b)[..|a + b| - 1] == a + b[..n];
      assert (a + b)[|a + b| - 1] == b[n];
      AnalyzeMethodsAppend(sc, target, a, b[..n], st);
    }
  }

  /** The methods of all services, service by service. */
  function AllMethods(services: seq<Service>): seq<MethodDecl> {
    if services == [] then []
    else AllMethods(services[..|services| - 1]) + services[|services| - 1].methods
  }

  /** The admitted methods, in order. */
  function Admitted(target: string, ms: seq<MethodDecl>): (r: seq<MethodDecl>)
    ensures forall i :: 0 <= i < |r| ==> ShouldIncludeMethod(target, r[i].options)
    ensures forall m :: m in r ==> m in ms
  {
    if ms == [] then []
    else
      var m := ms[|ms| - 1];
      Admitted(target, ms[..|ms| - 1]) + (if ShouldIncludeMethod(target, m.options) then [m] else [])
  }

  /** The input types the admitted methods mark, in order. */
  function InputSeeds(target: string, ms: seq<MethodDecl>): seq<Action> {
    if ms == [] then []
    else
      var m := ms[|ms| - 1];
      InputSeeds(target, ms[..|ms| - 1])
        + (if ShouldIncludeMethod(target, m.options) && m.inputType != "" then [MarkType(m.inputType)] else [])
  }

  /** The output types the admitted methods mark, in order. */
  function OutputSeeds(target: string, ms: seq<MethodDecl>): seq<Action> {
    if ms == [] then []
    else
      var m := ms[|ms| - 1];
      OutputSeeds(target, ms[..|ms| - 1])
        + (if ShouldIncludeMethod(target, m.options) && m.outputType != "" then [MarkType(m.outputType)] else [])
  }

  /** Every admitted input (output) type of `ms` is taken care of in `st`'s input (output) set. */
  predicate SeedsReached(sc: Scope, target: string, ms: seq<MethodDecl>, st: Reach) {
    forall j :: 0 <= j < |ms| && ShouldIncludeMethod(target, ms[j].options) ==>
      (ms[j].inputType != "" ==> Reached(sc, ms[j].inputType, st.input))
      && (ms[j].outputType != "" ==> Reached(sc, ms[j].outputType, st.output))
  }

  // ---------------------------------------------------------------------

  /** Filtered-out methods contribute nothing: analyzing all methods is analyzing the admitted ones. */
  lemma {:induction false} AnalyzeOnlyAdmitted(sc: Scope, target: string, ms: seq<MethodDecl>, st: Reach)
    requires Bounded(sc, st)
    ensures AnalyzeMethods(sc, target, ms, st) == AnalyzeMethods(sc, target, Admitted(target, ms), st)
    decreases |ms|
  {
    if ms != [] {
      var n := |ms| - 1;
      var m := ms[n];
      var a := Admitted(target, ms[..n]);
      AnalyzeOnlyAdmitted(sc, target, ms[..n], st);
      if ShouldIncludeMethod(target, m.options) {
        assert Admitted(target, ms) == a + [m];
        assert (a + [m])[..|a|] == a;
      } else {
        assert Admitted(target, ms) == a;
      }
    }
  }

  /** Every admitted method's non-empty input type is input-reached and its non-empty output type output-reached. */
  lemma {:induction false} AnalyzeSound(sc: Scope, target: string, ms: seq<MethodDecl>, st: Reach)
    requires Bounded(sc, st)
    ensures SeedsReached(sc, target, ms, AnalyzeMethods(sc, target, ms, st))
    decreases |ms|
  {
    if ms != [] {
      var n := |ms| - 1;
      var m := ms[n];
      var prev := AnalyzeMethods(sc, target, ms[..n], st);
      var res := AnalyzeMethods(sc, target, ms, st);
      AnalyzeSound(sc, target, ms[..n], st);
      assert res == AnalyzeMethod(sc, target, m, prev);
      forall j | 0 <= j < |ms| && ShouldIncludeMethod(target, ms[j].options)
        ensures ms[j].inputType != "" ==> Reached(sc, ms[j].inputType, res.input)
        ensures ms[j].outputType != "" ==> Reached(sc, ms[j].outputType, res.output)
      {
        if j < n {
          assert ms[..n][j] == ms[j];
          ReachedGrows(sc, ms[j].inputType, prev.input, res.input);
          ReachedGrows(sc, ms[j].outputType, prev.output, res.output);
        } else {
          var afterInput := if m.inputType != "" then MarkInput(sc, m.inputType, prev) else prev;
          assert res == (if m.outputType != "" then MarkOutput(sc, m.outputType, afterInput) else afterInput);
          if m.inputType != "" {
            MarkReaches(sc, m.inputType, prev.input, prev.enums);
            ReachedGrows(sc, m.inputType, afterInput.input, res.input);
          }
          if m.outputType != "" {
            MarkReaches(sc, m.outputType, afterInput.output, afterInput.enums);
          }
        }
      }
    }
  }

  /** Analyzing from a state that already covers every admitted type changes nothing. */
  lemma {:induction false} AnalyzeStable(sc: Scope, target: string, ms: seq<MethodDecl>, st: Reach)
    requires Bounded(sc, st) && SeedsReached(sc, target, ms, st)
    ensures AnalyzeMethods(sc, target, ms, st) == st
    decreases |ms|
  {
    if ms != [] {
      var n := |ms| - 1;
      assert forall j :: 0 <= j < n ==> ms[..n][j] == ms[j];
      AnalyzeStable(sc, target, ms[..n], st);
    }
  }

  /** Running the analysis a second time over the same methods changes nothing. */
  lemma AnalyzeIdempotent(sc: Scope, target: string, ms: seq<MethodDecl>, st: Reach)
    requires Bounded(sc, st)
    ensures AnalyzeMethods(sc, target, ms, AnalyzeMethods(sc, target, ms, st)) == AnalyzeMethods(sc, target, ms, st)
  {
    AnalyzeSound(sc, target, ms, st);
    AnalyzeStable(sc, target, ms, AnalyzeMethods(sc, target, ms, st));
  }

  /** Analysis keeps both contexts closed under the dependency relation. */
  lemma {:induction false} AnalyzeClosed(sc: Scope, target: string, ms: seq<MethodDecl>, st: Reach)
    requires Bounded(sc, st) && Closed(sc, st.input, st.enums) && Closed(sc, st.output, st.enums)
    ensures Closed(sc, AnalyzeMethods(sc, target, ms, st).input, AnalyzeMethods(sc, target, ms, st).enums)
    ensures Closed(sc, AnalyzeMethods(sc, target, ms, st).output, AnalyzeMethods(sc, target, ms, st).enums)
    decreases |ms|
  {
    if ms != [] {
      var n := |ms| - 1;
      var m := ms[n];
      var prev := AnalyzeMethods(sc, target, ms[..n], st);
      AnalyzeClosed(sc, target, ms[..n], st);
      if ShouldIncludeMethod(target, m.options) {
        var afterInput := prev;
        if m.inputType != "" {
          afterInput := MarkInput(sc, m.inputType, prev);
          MarkClosed(sc, m.inputType, prev.input, prev.enums);
          ClosedEnumsGrow(sc, prev.output, prev.enums, afterInput.enums);
        }
        if m.outputType != "" {
          var res := MarkOutput(sc, m.outputType, afterInput);
          MarkClosed(sc, m.outputType, afterInput.output, afterInput.enums);
          ClosedEnumsGrow(sc, afterInput.input, afterInput.enums, res.enums);
        }
      }
    }
  }

  /**
   * Context separation: the input-reachable set is determined by the input
   * types of the admitted methods alone, and the output-reachable set by
   * their output types alone; neither depends on the other context or on
   * the enum set.
   */
  lemma {:induction false} AnalyzeSeparates(sc: Scope, target: string, ms: seq<MethodDecl>, st: Reach)
    requires Bounded(sc, st)
    ensures AnalyzeMethods(sc, target, ms, st).input == Run(sc, InputSeeds(target, ms), st.input, {}).reached
    ensures AnalyzeMethods(sc, target, ms, st).output == Run(sc, OutputSeeds(target, ms), st.output, {}).reached
    decreases |ms|
  {
    if ms != [] {
      var n := |ms| - 1;
      var m := ms[n];
      var prev := AnalyzeMethods(sc, target, ms[..n], st);
      AnalyzeSeparates(sc, target, ms[..n], st);
      var si, so := InputSeeds(target, ms[..n]), OutputSeeds(target, ms[..n]);
      var ri, ro := Run(sc, si, st.input, {}), Run(sc, so, st.output, {});
      var admitted := ShouldIncludeMethod(target, m.options);
      var afterInput := if admitted && m.inputType != "" then MarkInput(sc, m.inputType, prev) else prev;
      if admitted && m.inputType != "" {
        RunSnoc(sc, si, MarkType(m.inputType), st.input, {});
        MarkSeparates(sc, m.inputType, prev.input, prev.enums);
        MarkSeparates(sc, m.inputType, ri.reached, ri.enums);
      } else {
        assert InputSeeds(target, ms) == si + [];
        assert si + [] == si;
      }
      if admitted && m.outputType != "" {
        RunSnoc(sc, so, MarkType(m.outputType), st.output, {});
        MarkSeparates(sc, m.outputType, afterInput.output, afterInput.enums);
        MarkSeparates(sc, m.outputType, ro.reached, ro.enums);
      } else {
        assert OutputSeeds(target, ms) == so + [];
        assert so + [] == so;
      }
    }
  }

  /**
   * The input-reachable set is the least one that works: it is contained in
   * every closed set (with its enum set) that holds the starting set and
   * takes care of every admitted input type. Symmetrically for outputs.
   */
  lemma AnalyzeInputLeast(sc: Scope, target: string, ms: seq<MethodDecl>, st: Reach, S: set<string>, F: set<string>)
    requires Bounded(sc, st) && st.input <= S && Closed(sc, S, F)
    requires forall j :: 0 <= j < |ms| && ShouldIncludeMethod(target, ms[j].options) && ms[j].inputType != "" ==>
               Reached(sc, ms[j].inputType, S)
    ensures AnalyzeMethods(sc, target, ms, st).input <= S
  {
    AnalyzeSeparates(sc, target, ms, st);
    InputSeedsDone(sc, target, ms, S, F);
    RunLeast(sc, InputSeeds(target, ms), st.input, {}, S, F);
  }

  lemma AnalyzeOutputLeast(sc: Scope, target: string, ms: seq<MethodDecl>, st: Reach, S: set<string>, F: set<string>)
    requires Bounded(sc, st) && st.output <= S && Closed(sc, S, F)
    requires forall j :: 0 <= j < |ms| && ShouldIncludeMethod(target, ms[j].options) && ms[j].outputType != "" ==>
               Reached(sc, ms[j].outputType, S)
    ensures AnalyzeMethods(sc, target, ms, st).output <= S
  {
    AnalyzeSeparates(sc, target, ms, st);
    OutputSeedsDone(sc, target, ms, S, F);
    RunLeast(sc, OutputSeeds(target, ms), st.output, {}, S, F);
  }

  lemma {:induction false} InputSeedsDone(sc: Scope, target: string, ms: seq<MethodDecl>, S: set<string>, F: set<string>)
    requires forall j :: 0 <= j < |ms| && ShouldIncludeMethod(target, ms[j].options) && ms[j].inputType != "" ==>
               Reached(sc, ms[j].inputType, S)
    ensures forall i :: 0 <= i < |InputSeeds(target, ms)| ==> ActionDone(sc, InputSeeds(target, ms)[i], S, F)
    decreases |ms|
  {
    if ms != [] {
      var n := |ms| - 1;
      assert forall j :: 0 <= j < n ==> ms[..n][j] == ms[j];
      InputSeedsDone(sc, target, ms[..n], S, F);
    }
  }

  lemma {:induction false} OutputSeedsDone(sc: Scope, target: string, ms: seq<MethodDecl>, S: set<string>, F: set<string>)
    requires forall j :: 0 <= j < |ms| && ShouldIncludeMethod(target, ms[j].options) && ms[j].outputType != "" ==>
               Reached(sc, ms[j].outputType, S)
    ensures forall i :: 0 <= i < |OutputSeeds(target, ms)| ==> ActionDone(sc, OutputSeeds(target, ms)[i], S, F)
    decreases |ms|
  {
    if ms != [] {
      var n := |ms| - 1;
      assert forall j :: 0 <= j < n ==> ms[..n][j] == ms[j];
      OutputSeedsDone(sc, target, ms[..n], S, F);
    }
  }
}
