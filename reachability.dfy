/**
 * What marking a type reachable means (internal/analyzer/analyzer.go,
 * `MarkTypeReachableAsInput` / `MarkTypeReachableAsOutput`), stated as pure
 * functions over the reachable set of one context and the shared enum set.
 *
 * Marking the registered message `r` queues a list of actions, in the order
 * the analyzer performs them: mark each nested message `r.N`, add each
 * nested enum key `r.E`, then for each field mark its message type or add
 * its resolved enum type. `Mark`, `Step` and `Run` carry these actions out
 * one after the other; a type is added to the reachable set before its
 * actions run, which is what stops the recursion on cyclic message graphs
 * and what the termination measure `|registry keys - reachable|` counts.
 */
module Reachability {
  import opened Descriptors
  import opened Registry
  import opened Resolution

  /** What marking reads: both registries, the primary package and the known packages in the order they are tried. */
  datatype Scope = Scope(
    types: map<string, Message>,
    enums: map<string, EnumDecl>,
    primary: string,
    packages: seq<string>)

  function ResolveType(sc: Scope, n: string): string {
    Resolve(sc.types.Keys, sc.primary, sc.packages, n)
  }

  function ResolveEnum(sc: Scope, n: string): string {
    Resolve(sc.enums.Keys, sc.primary, sc.packages, n)
  }

  /** One unit of marking work: mark a message reference, add an enum key to the enum set, or nothing (a scalar field). */
  datatype Action = MarkType(name: string) | AddEnum(key: string) | Skip

  /** The reachable set of the context being marked, and the enum set shared by both contexts. */
  datatype Marks = Marks(reached: set<string>, enums: set<string>)

  function NestedWork(key: string, nested: seq<Message>): (w: seq<Action>)
    ensures |w| == |nested|
    ensures forall j :: 0 <= j < |nested| ==> w[j] == MarkType(key + "." + nested[j].name)
  {
    seq(|nested|, j requires 0 <= j < |nested| => MarkType(key + "." + nested[j].name))
  }

  function EnumWork(key: string, enums: seq<EnumDecl>): (w: seq<Action>)
    ensures |w| == |enums|
    ensures forall j :: 0 <= j < |enums| ==> w[j] == AddEnum(key + "." + enums[j].name)
  {
    seq(|enums|, j requires 0 <= j < |enums| => AddEnum(key + "." + enums[j].name))
  }

  /** A message field marks its type, an enum field adds its resolved enum, a scalar field does nothing. */
  function FieldAction(sc: Scope, f: FieldDecl): Action {
    if f.kind == MessageKind then MarkType(f.typeName)
    else if f.kind == EnumKind then AddEnum(ResolveEnum(sc, f.typeName))
    else Skip
  }

  function FieldWork(sc: Scope, fields: seq<FieldDecl>): (w: seq<Action>)
    ensures |w| == |fields|
    ensures forall j :: 0 <= j < |fields| ==> w[j] == FieldAction(sc, fields[j])
  {
    seq(|fields|, j requires 0 <= j < |fields| => FieldAction(sc, fields[j]))
  }

  /** The actions queued by marking the message `m` registered under `key`. */
  function Work(sc: Scope, key: string, m: Message): seq<Action> {
    NestedWork(key, m.nested) + EnumWork(key, m.enums) + FieldWork(sc, m.fields)
  }

  /** After marking, reference `n` needs nothing more: it resolves to a reached key or to no registered message. */
  predicate Reached(sc: Scope, n: string, R: set<string>) {
    ResolveType(sc, n) in R || ResolveType(sc, n) !in sc.types
  }

  /** A reference taken care of stays so as the reached set grows. */
  lemma ReachedGrows(sc: Scope, n: string, R: set<string>, S: set<string>)
    requires R <= S
    ensures Reached(sc, n, R) ==> Reached(sc, n, S)
  {
  }

  /**
   * Marking reference `t` in a context whose reachable set is `R`, with
   * enum set `E`: nothing happens when `t` resolves to an already reached
   * or an unregistered name; otherwise the resolved key is added and the
   * actions of its message are run.
   */
  function Mark(sc: Scope, t: string, R: set<string>, E: set<string>): (res: Marks)
    requires R <= sc.types.Keys
    ensures R <= res.reached <= sc.types.Keys && E <= res.enums
    decreases |sc.types.Keys - R|, 0, 0
  {
    var r := ResolveType(sc, t);
    if r in R || r !in sc.types then Marks(R, E)
    else
      CardDrop(sc.types.Keys, R, r);
      Run(sc, Work(sc, r, sc.types[r]), R + {r}, E)
  }

  /** After marking `t`, it needs nothing more. */
  lemma MarkReaches(sc: Scope, t: string, R: set<string>, E: set<string>)
    requires R <= sc.types.Keys
    ensures Reached(sc, t, Mark(sc, t, R, E).reached)
  {
  }

  function Step(sc: Scope, a: Action, R: set<string>, E: set<string>): (res: Marks)
    requires R <= sc.types.Keys
    ensures R <= res.reached <= sc.types.Keys && E <= res.enums
    decreases |sc.types.Keys - R|, 1, 0
  {
    match a
    case MarkType(n) => Mark(sc, n, R, E)
    case AddEnum(k) => Marks(R, E + {k})
    case Skip => Marks(R, E)
  }

  /** Runs the actions in order, each on the state the previous ones left. */
  function Run(sc: Scope, acts: seq<Action>, R: set<string>, E: set<string>): (res: Marks)
    requires R <= sc.types.Keys
    ensures R <= res.reached <= sc.types.Keys && E <= res.enums
    decreases |sc.types.Keys - R|, 2, |acts|
  {
    if acts == [] then Marks(R, E)
    else
      var m := Run(sc, acts[..|acts| - 1], R, E);
      SubsetCard(sc.types.Keys - m.reached, sc.types.Keys - R);
      Step(sc, acts[|acts| - 1], m.reached, m.enums)
  }

  // ---------------------------------------------------------------------
  // Cardinality facts behind the termination measure

  lemma {:induction false} SubsetCard(A: set<string>, B: set<string>)
    requires A <= B
    ensures |A| <= |B|
    decreases |A|
  {
    if A != {} {
      var x :| x in A;
      SubsetCard(A - {x}, B - {x});
    }
  }

  /** Adding an unreached registered key shrinks the measure. */
  lemma CardDrop(K: set<string>, R: set<string>, r: string)
    requires r in K && r !in R
    ensures |K - (R + {r})| < |K - R|
  {
    assert K - (R + {r}) == (K - R) - {r};
  }

  /** The measure at any point inside the marking of `r` is below the one on entry. */
  lemma MeasureDrop(K: set<string>, R0: set<string>, r: string, R: set<string>)
    requires r in K && r !in R0 && R0 + {r} <= R
    ensures |K - R| < |K - R0|
  {
    CardDrop(K, R0, r);
    SubsetCard(K - R, K - (R0 + {r}));
  }

  /** Running one more action is one more step on the state the others left. */
  lemma RunSnoc(sc: Scope, acts: seq<Action>, a: Action, R: set<string>, E: set<string>)
    requires R <= sc.types.Keys
    ensures Run(sc, acts + [a], R, E) == Step(sc, a, Run(sc, acts, R, E).reached, Run(sc, acts, R, E).enums)
  {
    assert (acts + [a])[..|acts|] == acts;
  }

  /** A type already marked, or not registered, marks nothing. */
  lemma MarkSkip(sc: Scope, t: string, R: set<string>, E: set<string>)
    requires R <= sc.types.Keys
    requires ResolveType(sc, t) in R || ResolveType(sc, t) !in sc.types
    ensures Mark(sc, t, R, E) == Marks(R, E)
  {
  }

  /** Marking a reference that resolves to an unreached registered key runs that message's actions. */
  lemma MarkUnfold(sc: Scope, t: string, R: set<string>, E: set<string>)
    requires R <= sc.types.Keys
    requires ResolveType(sc, t) !in R && ResolveType(sc, t) in sc.types
    ensures var r := ResolveType(sc, t);
            var m := sc.types[r];
            Mark(sc, t, R, E) == Run(sc, (NestedWork(r, m.nested) + EnumWork(r, m.enums)) + FieldWork(sc, m.fields), R + {r}, E)
  {
  }

  /**
   * Marking a reference that resolves to an unreached registered key, in
   * the three passes of the marking loop: its nested messages, then its
   * nested enums, then its fields.
   */
  lemma MarkInPasses(sc: Scope, t: string, R: set<string>, E: set<string>, afterNested: Marks, afterFields: Marks)
    requires R <= sc.types.Keys
    requires ResolveType(sc, t) !in R && ResolveType(sc, t) in sc.types
    requires var r := ResolveType(sc, t);
             afterNested == Run(sc, NestedWork(r, sc.types[r].nested), R + {r}, E)
    requires var r := ResolveType(sc, t);
             afterFields == Run(sc, FieldWork(sc, sc.types[r].fields), afterNested.reached, afterNested.enums + EnumKeys(r, sc.types[r].enums))
    ensures afterFields == Mark(sc, t, R, E)
  {
    var r := ResolveType(sc, t);
    var m := sc.types[r];
    var nw, ew := NestedWork(r, m.nested), EnumWork(r, m.enums);
    MarkUnfold(sc, t, R, E);
    RunEnumWork(sc, r, m.enums, afterNested.reached, afterNested.enums);
    RunAppend(sc, nw, ew, R + {r}, E);
    RunAppend(sc, nw + ew, FieldWork(sc, m.fields), R + {r}, E);
  }

  /** One more nested message, marked after the earlier ones. */
  lemma RunNestedStep(sc: Scope, key: string, nested: seq<Message>, i: int, R: set<string>, E: set<string>)
    requires 0 <= i < |nested| && R <= sc.types.Keys
    ensures var before := Run(sc, NestedWork(key, nested)[..i], R, E);
            Run(sc, NestedWork(key, nested)[..i + 1], R, E) == Mark(sc, key + "." + nested[i].name, before.reached, before.enums)
  {
    var nw := NestedWork(key, nested);
    assert nw[..i + 1] == nw[..i] + [nw[i]];
    RunSnoc(sc, nw[..i], nw[i], R, E);
  }

  /** The nested-enum actions of a message add exactly its nested enum keys. */
  lemma {:induction false} RunEnumWork(sc: Scope, key: string, enums: seq<EnumDecl>, R: set<string>, E: set<string>)
    requires R <= sc.types.Keys
    ensures Run(sc, EnumWork(key, enums), R, E) == Marks(R, E + EnumKeys(key, enums))
    decreases |enums|
  {
    if enums != [] {
      var n := |enums| - 1;
      var ew := EnumWork(key, enums);
      assert ew[..n] == EnumWork(key, enums[..n]);
      RunEnumWork(sc, key, enums[..n], R, E);
      assert EnumKeys(key, enums) == EnumKeys(key, enums[..n]) + {key + "." + enums[n].name} by {
        forall x | x in EnumKeys(key, enums) ensures x in EnumKeys(key, enums[..n]) + {key + "." + enums[n].name} {
          var j :| 0 <= j < |enums| && x == key + "." + enums[j].name;
          if j < n { assert enums[..n][j] == enums[j]; }
        }
        forall x | x in EnumKeys(key, enums[..n]) ensures x in EnumKeys(key, enums) {
          var j :| 0 <= j < n && x == key + "." + enums[..n][j].name;
          assert enums[..n][j] == enums[j];
        }
      }
    }
  }

  /** The keys of a message's nested enums. */
  function EnumKeys(key: string, enums: seq<EnumDecl>): set<string> {
    set j | 0 <= j < |enums| :: key + "." + enums[j].name
  }

  /** Running two lists of actions one after the other. */
  lemma {:induction false} RunAppend(sc: Scope, a: seq<Action>, b: seq<Action>, R: set<string>, E: set<string>)
    requires R <= sc.types.Keys
    ensures Run(sc, a + b, R, E) == Run(sc, b, Run(sc, a, R, E).reached, Run(sc, a, R, E).enums)
    decreases |b|
  {
    if b == [] {
      assert a + b == a;
    } else {
      var n := |b| - 1;
      assert (a + b)[..|a + b| - 1] == a + b[..n];
      assert (a + b)[|a + b| - 1] == b[n];
      RunAppend(sc, a, b[..n], R, E);
    }
  }

  /** One more field, handled after the earlier ones. */
  lemma RunFieldStep(sc: Scope, fields: seq<FieldDecl>, i: int, R: set<string>, E: set<string>)
    requires 0 <= i < |fields| && R <= sc.types.Keys
    ensures var before := Run(sc, FieldWork(sc, fields)[..i], R, E);
            Run(sc, FieldWork(sc, fields)[..i + 1], R, E) == Step(sc, FieldAction(sc, fields[i]), before.reached, before.enums)
  {
    var fw := FieldWork(sc, fields);
    assert fw[..i + 1] == fw[..i] + [fw[i]];
    RunSnoc(sc, fw[..i], fw[i], R, E);
  }



  // ---------------------------------------------------------------------
  // Closure: every reached message has had all of its actions carried out

  predicate ActionDone(sc: Scope, a: Action, R: set<string>, E: set<string>) {
    match a
    case MarkType(n) => Reached(sc, n, R)
    case AddEnum(k) => k in E
    case Skip => true
  }

  predicate KeyDone(sc: Scope, k: string, R: set<string>, E: set<string>) {
    k in sc.types && forall i :: 0 <= i < |Work(sc, k, sc.types[k])| ==> ActionDone(sc, Work(sc, k, sc.types[k])[i], R, E)
  }

  /** A state in which no reached message has work left outside the keys `P` still in progress. */
  predicate ClosedOutside(sc: Scope, R: set<string>, E: set<string>, P: set<string>) {
    forall k :: k in R && k !in P ==> KeyDone(sc, k, R, E)
  }

  /** A state closed under the dependency relation: every reached message has all its work done. */
  predicate Closed(sc: Scope, R: set<string>, E: set<string>) {
    forall k :: k in R ==> KeyDone(sc, k, R, E)
  }

  lemma ActionDoneGrows(sc: Scope, a: Action, R: set<string>, E: set<string>, R': set<string>, E': set<string>)
    requires ActionDone(sc, a, R, E) && R <= R' && E <= E'
    ensures ActionDone(sc, a, R', E')
  {
  }

  lemma KeyDoneGrows(sc: Scope, k: string, R: set<string>, E: set<string>, R': set<string>, E': set<string>)
    requires KeyDone(sc, k, R, E) && R <= R' && E <= E'
    ensures KeyDone(sc, k, R', E')
  {
    var w := Work(sc, k, sc.types[k]);
    forall i | 0 <= i < |w| ensures ActionDone(sc, w[i], R', E') {
      assert ActionDone(sc, w[i], R, E);
    }
  }

  /** After running a list of actions, each of them is done. */
  lemma {:induction false} RunDoesAll(sc: Scope, acts: seq<Action>, R: set<string>, E: set<string>)
    requires R <= sc.types.Keys
    ensures forall i :: 0 <= i < |acts| ==> ActionDone(sc, acts[i], Run(sc, acts, R, E).reached, Run(sc, acts, R, E).enums)
    decreases |acts|
  {
    if acts != [] {
      var n := |acts| - 1;
      var m := Run(sc, acts[..n], R, E);
      var res := Run(sc, acts, R, E);
      RunDoesAll(sc, acts[..n], R, E);
      forall i | 0 <= i < |acts| ensures ActionDone(sc, acts[i], res.reached, res.enums) {
        if i < n {
          assert acts[..n][i] == acts[i];
          ActionDoneGrows(sc, acts[i], m.reached, m.enums, res.reached, res.enums);
        } else {
          assert res == Step(sc, acts[n], m.reached, m.enums);
          match acts[n]
          case MarkType(x) =>
            assert res == Mark(sc, x, m.reached, m.enums);
            MarkReaches(sc, x, m.reached, m.enums);
          case AddEnum(k) =>
          case Skip =>
        }
      }
    }
  }

  lemma {:induction false} MarkClosedOutside(sc: Scope, t: string, R: set<string>, E: set<string>, P: set<string>)
    requires R <= sc.types.Keys && ClosedOutside(sc, R, E, P)
    ensures ClosedOutside(sc, Mark(sc, t, R, E).reached, Mark(sc, t, R, E).enums, P)
    decreases |sc.types.Keys - R|, 0, 0
  {
    var r := ResolveType(sc, t);
    if r !in R && r in sc.types {
      CardDrop(sc.types.Keys, R, r);
      var w := Work(sc, r, sc.types[r]);
      forall k | k in R + {r} && k !in P + {r} ensures KeyDone(sc, k, R + {r}, E) {
        KeyDoneGrows(sc, k, R, E, R + {r}, E);
      }
      RunClosedOutside(sc, w, R + {r}, E, P + {r});
      RunDoesAll(sc, w, R + {r}, E);
    }
  }

  lemma {:induction false} StepClosedOutside(sc: Scope, a: Action, R: set<string>, E: set<string>, P: set<string>)
    requires R <= sc.types.Keys && ClosedOutside(sc, R, E, P)
    ensures ClosedOutside(sc, Step(sc, a, R, E).reached, Step(sc, a, R, E).enums, P)
    decreases |sc.types.Keys - R|, 1, 0
  {
    match a
    case MarkType(n) =>
      MarkClosedOutside(sc, n, R, E, P);
    case AddEnum(k) =>
      forall x | x in R && x !in P ensures KeyDone(sc, x, R, E + {k}) {
        KeyDoneGrows(sc, x, R, E, R, E + {k});
      }
    case Skip =>
  }

  lemma {:induction false} RunClosedOutside(sc: Scope, acts: seq<Action>, R: set<string>, E: set<string>, P: set<string>)
    requires R <= sc.types.Keys && ClosedOutside(sc, R, E, P)
    ensures ClosedOutside(sc, Run(sc, acts, R, E).reached, Run(sc, acts, R, E).enums, P)
    decreases |sc.types.Keys - R|, 2, |acts|
  {
    if acts != [] {
      var m := Run(sc, acts[..|acts| - 1], R, E);
      RunClosedOutside(sc, acts[..|acts| - 1], R, E, P);
      SubsetCard(sc.types.Keys - m.reached, sc.types.Keys - R);
      StepClosedOutside(sc, acts[|acts| - 1], m.reached, m.enums, P);
    }
  }

  /** Marking from a closed state ends in a closed state: the transitive dependencies are all marked. */
  lemma MarkClosed(sc: Scope, t: string, R: set<string>, E: set<string>)
    requires R <= sc.types.Keys && Closed(sc, R, E)
    ensures Closed(sc, Mark(sc, t, R, E).reached, Mark(sc, t, R, E).enums)
  {
    MarkClosedOutside(sc, t, R, E, {});
  }

  /** Adding enum keys keeps a closed state closed. */
  lemma ClosedEnumsGrow(sc: Scope, R: set<string>, E: set<string>, E': set<string>)
    requires Closed(sc, R, E) && E <= E'
    ensures Closed(sc, R, E')
  {
    forall k | k in R ensures KeyDone(sc, k, R, E') {
      KeyDoneGrows(sc, k, R, E, R, E');
    }
  }

  /**
   * What closure means for one reached message under a well-formed
   * registry: its nested messages are reached, its nested enums are in the
   * enum set, each message-typed field resolves to a reached or an
   * unregistered name, and each enum-typed field's resolved enum is in the
   * enum set.
   */
  lemma ClosedMeans(sc: Scope, R: set<string>, E: set<string>, k: string)
    requires WellFormed(sc.types, sc.enums) && Closed(sc, R, E) && k in R
    ensures forall j :: 0 <= j < |sc.types[k].nested| ==> k + "." + sc.types[k].nested[j].name in R
    ensures forall j :: 0 <= j < |sc.types[k].enums| ==> k + "." + sc.types[k].enums[j].name in E
    ensures forall j :: 0 <= j < |sc.types[k].fields| && sc.types[k].fields[j].kind == MessageKind ==>
                          Reached(sc, sc.types[k].fields[j].typeName, R)
    ensures forall j :: 0 <= j < |sc.types[k].fields| && sc.types[k].fields[j].kind == EnumKind ==>
                          ResolveEnum(sc, sc.types[k].fields[j].typeName) in E
  {
    var m := sc.types[k];
    var nw, ew, fw := NestedWork(k, m.nested), EnumWork(k, m.enums), FieldWork(sc, m.fields);
    var w := Work(sc, k, m);
    assert KeyDone(sc, k, R, E);
    forall j | 0 <= j < |m.nested| ensures k + "." + m.nested[j].name in R {
      var key := k + "." + m.nested[j].name;
      assert w[j] == nw[j];
      assert ActionDone(sc, w[j], R, E);
      assert key in sc.types && LeadingDot(key);
    }
    forall j | 0 <= j < |m.enums| ensures k + "." + m.enums[j].name in E {
      assert w[|nw| + j] == ew[j];
      assert ActionDone(sc, w[|nw| + j], R, E);
    }
    forall j | 0 <= j < |m.fields| ensures ActionDone(sc, FieldAction(sc, m.fields[j]), R, E) {
      assert w[|nw| + |ew| + j] == fw[j];
    }
  }

  // ---------------------------------------------------------------------
  // Least fixpoint: marking adds nothing that a closed state need not hold

  lemma {:induction false} MarkLeast(sc: Scope, t: string, R: set<string>, E: set<string>, S: set<string>, F: set<string>)
    requires R <= sc.types.Keys && R <= S && E <= F && Closed(sc, S, F) && Reached(sc, t, S)
    ensures Mark(sc, t, R, E).reached <= S && Mark(sc, t, R, E).enums <= F
    decreases |sc.types.Keys - R|, 0, 0
  {
    var r := ResolveType(sc, t);
    if r !in R && r in sc.types {
      CardDrop(sc.types.Keys, R, r);
      assert KeyDone(sc, r, S, F);
      RunLeast(sc, Work(sc, r, sc.types[r]), R + {r}, E, S, F);
    }
  }

  lemma {:induction false} StepLeast(sc: Scope, a: Action, R: set<string>, E: set<string>, S: set<string>, F: set<string>)
    requires R <= sc.types.Keys && R <= S && E <= F && Closed(sc, S, F) && ActionDone(sc, a, S, F)
    ensures Step(sc, a, R, E).reached <= S && Step(sc, a, R, E).enums <= F
    decreases |sc.types.Keys - R|, 1, 0
  {
    match a
    case MarkType(n) => MarkLeast(sc, n, R, E, S, F);
    case AddEnum(k) =>
    case Skip =>
  }

  lemma {:induction false} RunLeast(sc: Scope, acts: seq<Action>, R: set<string>, E: set<string>, S: set<string>, F: set<string>)
    requires R <= sc.types.Keys && R <= S && E <= F && Closed(sc, S, F)
    requires forall i :: 0 <= i < |acts| ==> ActionDone(sc, acts[i], S, F)
    ensures Run(sc, acts, R, E).reached <= S && Run(sc, acts, R, E).enums <= F
    decreases |sc.types.Keys - R|, 2, |acts|
  {
    if acts != [] {
      var n := |acts| - 1;
      var m := Run(sc, acts[..n], R, E);
      assert forall i :: 0 <= i < n ==> acts[..n][i] == acts[i];
      RunLeast(sc, acts[..n], R, E, S, F);
      SubsetCard(sc.types.Keys - m.reached, sc.types.Keys - R);
      StepLeast(sc, acts[n], m.reached, m.enums, S, F);
    }
  }

  // ---------------------------------------------------------------------
  // Separation: the reachable set of a context never depends on the enum set

  lemma {:induction false} MarkSeparates(sc: Scope, t: string, R: set<string>, E: set<string>)
    requires R <= sc.types.Keys
    ensures Mark(sc, t, R, E).reached == Mark(sc, t, R, {}).reached
    ensures Mark(sc, t, R, E).enums == E + Mark(sc, t, R, {}).enums
    decreases |sc.types.Keys - R|, 0, 0
  {
    var r := ResolveType(sc, t);
    if r !in R && r in sc.types {
      CardDrop(sc.types.Keys, R, r);
      RunSeparates(sc, Work(sc, r, sc.types[r]), R + {r}, E);
    }
  }

  lemma {:induction false} StepSeparates(sc: Scope, a: Action, R: set<string>, E: set<string>)
    requires R <= sc.types.Keys
    ensures Step(sc, a, R, E).reached == Step(sc, a, R, {}).reached
    ensures Step(sc, a, R, E).enums == E + Step(sc, a, R, {}).enums
    decreases |sc.types.Keys - R|, 1, 0
  {
    match a
    case MarkType(n) => MarkSeparates(sc, n, R, E);
    case AddEnum(k) =>
    case Skip =>
  }

  lemma {:induction false} RunSeparates(sc: Scope, acts: seq<Action>, R: set<string>, E: set<string>)
    requires R <= sc.types.Keys
    ensures Run(sc, acts, R, E).reached == Run(sc, acts, R, {}).reached
    ensures Run(sc, acts, R, E).enums == E + Run(sc, acts, R, {}).enums
    decreases |sc.types.Keys - R|, 2, |acts|
  {
    if acts != [] {
      var n := |acts| - 1;
      var m := Run(sc, acts[..n], R, E);
      var m0 := Run(sc, acts[..n], R, {});
      RunSeparates(sc, acts[..n], R, E);
      SubsetCard(sc.types.Keys - m.reached, sc.types.Keys - R);
      // both runs continue from the same reachable set, with enum sets E + m0.enums and m0.enums
      StepSeparates(sc, acts[n], m.reached, m.enums);
      StepSeparates(sc, acts[n], m0.reached, m0.enums);
    }
  }
}
