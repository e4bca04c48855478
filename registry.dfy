/**
 * The type registry of the analyzer (internal/analyzer/analyzer.go): how
 * every message and enum, nested ones included, gets its dotted fully
 * qualified key, and what the registry maps hold after a sequence of
 * registrations. A registration is a list of writes `(key, declaration)`
 * applied in order to a map, so a key written twice keeps its last value.
 */
module Registry {
  import opened Strs
  import opened Descriptors

  /**
   * The key of a declaration called `name`: `.pkg.name` at the top level of
   * a file with a package, `.name` at the top level of a file without one,
   * and `prefix.name` inside the declaration whose key is `prefix`.
   */
  function FullName(prefix: string, pkg: string, name: string): (k: string)
    ensures prefix == "" && pkg != "" ==> k == "." + pkg + "." + name
    ensures prefix == "" && pkg == "" ==> k == "." + name
    ensures prefix != "" ==> k == prefix + "." + name
  {
    if prefix == "" then
      if pkg != "" then "." + pkg + "." + name else "." + name
    else
      prefix + "." + name
  }

  predicate LeadingDot(k: string) {
    |k| > 0 && k[0] == '.'
  }

  /** Applies the writes in order: a later write to a key replaces an earlier one. */
  function Apply<T>(m: map<string, T>, ws: seq<(string, T)>): map<string, T>
    decreases |ws|
  {
    if ws == [] then m else Apply(m[ws[0].0 := ws[0].1], ws[1..])
  }

  /** The keys that a list of writes touches. */
  function KeysOf<T>(ws: seq<(string, T)>): set<string> {
    set i | 0 <= i < |ws| :: ws[i].0
  }

  /** The enum writes of `RegisterEnumsFromFile(es, prefix, pkg)` and of `registerNestedEnums(es, prefix)`. */
  function EnumWrites(es: seq<EnumDecl>, prefix: string, pkg: string): (ws: seq<(string, EnumDecl)>)
    ensures |ws| == |es|
    ensures forall i :: 0 <= i < |es| ==> ws[i] == (FullName(prefix, pkg, es[i].name), es[i])
  {
    seq(|es|, i requires 0 <= i < |es| => (FullName(prefix, pkg, es[i].name), es[i]))
  }

  /**
   * The type writes of `RegisterTypesFromFile(ms, prefix, pkg)`: each message
   * under its key, followed at once by the writes of its nested messages.
   */
  function TypeWrites(ms: seq<Message>, prefix: string, pkg: string): seq<(string, Message)>
    decreases ms
  {
    if ms == [] then []
    else
      var m := ms[|ms| - 1];
      var k := FullName(prefix, pkg, m.name);
      TypeWrites(ms[..|ms| - 1], prefix, pkg) + [(k, m)] + TypeWrites(m.nested, k, pkg)
  }

  /**
   * The enum writes of `RegisterTypesFromFile(ms, prefix, pkg)`: for each
   * message, those of its nested messages first, then its own nested enums.
   */
  function TypeEnumWrites(ms: seq<Message>, prefix: string, pkg: string): seq<(string, EnumDecl)>
    decreases ms
  {
    if ms == [] then []
    else
      var m := ms[|ms| - 1];
      var k := FullName(prefix, pkg, m.name);
      TypeEnumWrites(ms[..|ms| - 1], prefix, pkg) + TypeEnumWrites(m.nested, k, pkg) + EnumWrites(m.enums, k, pkg)
  }

  /** All type writes of `NewTypeAnalyzer(files)`, file by file. */
  function FileTypeWrites(files: seq<ProtoFile>): seq<(string, Message)> {
    if files == [] then []
    else
      var f := files[|files| - 1];
      FileTypeWrites(files[..|files| - 1]) + TypeWrites(f.messages, "", PackageOf(f))
  }

  /** All enum writes of `NewTypeAnalyzer(files)`: per file, the nested enums, then the top-level ones. */
  function FileEnumWrites(files: seq<ProtoFile>): seq<(string, EnumDecl)> {
    if files == [] then []
    else
      var f := files[|files| - 1];
      FileEnumWrites(files[..|files| - 1])
        + TypeEnumWrites(f.messages, "", PackageOf(f)) + EnumWrites(f.enums, "", PackageOf(f))
  }

  /**
   * The registry invariant: every key starts with a dot, and every nested
   * message and nested enum of a registered message is registered under
   * the parent's key followed by `.` and its own name.
   */
  ghost predicate WellFormed(types: map<string, Message>, enums: map<string, EnumDecl>) {
    && (forall k :: k in types ==> LeadingDot(k))
    && (forall k, j :: k in types && 0 <= j < |types[k].nested| ==> k + "." + types[k].nested[j].name in types)
    && (forall k, j :: k in types && 0 <= j < |types[k].enums| ==> k + "." + types[k].enums[j].name in enums)
  }

  /**
   * The same invariant stated of the writes themselves: every written key
   * starts with a dot, and the keys of a written message's nested messages
   * and nested enums are among `typeKeys` and `enumKeys`.
   */
  ghost predicate WritesWellFormedIn(tw: seq<(string, Message)>, typeKeys: set<string>, enumKeys: set<string>) {
    && (forall i :: 0 <= i < |tw| ==> LeadingDot(tw[i].0))
    && (forall i, j :: 0 <= i < |tw| && 0 <= j < |tw[i].1.nested| ==> tw[i].0 + "." + tw[i].1.nested[j].name in typeKeys)
    && (forall i, j :: 0 <= i < |tw| && 0 <= j < |tw[i].1.enums| ==> tw[i].0 + "." + tw[i].1.enums[j].name in enumKeys)
  }

  ghost predicate WritesWellFormed(tw: seq<(string, Message)>, ew: seq<(string, EnumDecl)>) {
    WritesWellFormedIn(tw, KeysOf(tw), KeysOf(ew))
  }

  lemma {:induction false} ApplyAppend<T>(m: map<string, T>, a: seq<(string, T)>, b: seq<(string, T)>)
    ensures Apply(m, a + b) == Apply(Apply(m, a), b)
    decreases |a|
  {
    if a == [] {
      assert a + b == b;
    } else {
      assert (a + b)[0] == a[0];
      assert (a + b)[1..] == a[1..] + b;
      ApplyAppend(m[a[0].0 := a[0].1], a[1..], b);
      assert Apply(m, a + b) == Apply(m[a[0].0 := a[0].1], a[1..] + b);
    }
  }

  lemma KeysOfAppend<T>(a: seq<(string, T)>, b: seq<(string, T)>)
    ensures KeysOf(a + b) == KeysOf(a) + KeysOf(b)
  {
    forall k | k in KeysOf(a + b) ensures k in KeysOf(a) + KeysOf(b) {
      var i :| 0 <= i < |a + b| && (a + b)[i].0 == k;
      if i >= |a| { assert b[i - |a|].0 == k; }
    }
    forall k | k in KeysOf(a) + KeysOf(b) ensures k in KeysOf(a + b) {
      if k in KeysOf(a) {
        var i :| 0 <= i < |a| && a[i].0 == k;
        assert (a + b)[i].0 == k;
      } else {
        var i :| 0 <= i < |b| && b[i].0 == k;
        assert (a + b)[|a| + i].0 == k;
      }
    }
  }

  lemma KeysOfSingleton<T>(k: string, v: T)
    ensures KeysOf([(k, v)]) == {k}
  {
    assert [(k, v)][0].0 == k;
  }

  /** Registration never removes a key: the keys afterwards are the old ones plus every key written. */
  lemma {:induction false} ApplyKeys<T>(m: map<string, T>, ws: seq<(string, T)>)
    ensures Apply(m, ws).Keys == m.Keys + KeysOf(ws)
    decreases |ws|
  {
    if ws != [] {
      ApplyKeys(m[ws[0].0 := ws[0].1], ws[1..]);
      assert ws == [ws[0]] + ws[1..];
      KeysOfAppend([ws[0]], ws[1..]);
      KeysOfSingleton(ws[0].0, ws[0].1);
    }
  }

  /** Last write wins: the value under a key is the one its last write stored. */
  lemma {:induction false} ApplyLastWins<T>(m: map<string, T>, ws: seq<(string, T)>, i: int)
    requires 0 <= i < |ws|
    requires forall j :: i < j < |ws| ==> ws[j].0 != ws[i].0
    ensures ws[i].0 in Apply(m, ws) && Apply(m, ws)[ws[i].0] == ws[i].1
    decreases |ws|
  {
    if i == 0 {
      ApplyUnwritten(m[ws[0].0 := ws[0].1], ws[1..], ws[0].0);
    } else {
      ApplyLastWins(m[ws[0].0 := ws[0].1], ws[1..], i - 1);
    }
  }

  /** A key no write touches keeps its presence and its value. */
  lemma {:induction false} ApplyUnwritten<T>(m: map<string, T>, ws: seq<(string, T)>, k: string)
    requires k !in KeysOf(ws)
    ensures k in Apply(m, ws) <==> k in m
    ensures k in m ==> Apply(m, ws)[k] == m[k]
    decreases |ws|
  {
    if ws != [] {
      assert ws[0].0 != k;
      assert KeysOf(ws[1..]) <= KeysOf(ws) by {
        forall x | x in KeysOf(ws[1..]) ensures x in KeysOf(ws) {
          var j :| 0 <= j < |ws[1..]| && ws[1..][j].0 == x;
          assert ws[j + 1].0 == x;
        }
      }
      ApplyUnwritten(m[ws[0].0 := ws[0].1], ws[1..], k);
    }
  }

  /**
   * Where a registered value comes from: either the key was never written
   * and the value is the old one, or the value is that of some write to the key.
   */
  lemma {:induction false} ApplyOrigin<T>(m: map<string, T>, ws: seq<(string, T)>, k: string) returns (i: int)
    requires k in Apply(m, ws)
    ensures i == -1 ==> k in m && Apply(m, ws)[k] == m[k]
    ensures i != -1 ==> 0 <= i < |ws| && ws[i].0 == k && ws[i].1 == Apply(m, ws)[k]
    decreases |ws|
  {
    if ws == [] {
      i := -1;
    } else {
      var j := ApplyOrigin(m[ws[0].0 := ws[0].1], ws[1..], k);
      if j != -1 {
        i := j + 1;
      } else if k == ws[0].0 {
        i := 0;
      } else {
        i := -1;
      }
    }
  }

  lemma FullNameLeadingDot(prefix: string, pkg: string, name: string)
    requires prefix == "" || LeadingDot(prefix)
    ensures LeadingDot(FullName(prefix, pkg, name))
  {
  }

  /** Every message of `ms` is written by `TypeWrites` under its own key. */
  lemma {:induction false} TypeWritesCover(ms: seq<Message>, prefix: string, pkg: string, j: int)
    requires 0 <= j < |ms|
    ensures FullName(prefix, pkg, ms[j].name) in KeysOf(TypeWrites(ms, prefix, pkg))
    decreases ms
  {
    var n := |ms| - 1;
    var m := ms[n];
    var k := FullName(prefix, pkg, m.name);
    var init := TypeWrites(ms[..n], prefix, pkg);
    var tail := TypeWrites(m.nested, k, pkg);
    KeysOfAppend(init + [(k, m)], tail);
    KeysOfAppend(init, [(k, m)]);
    KeysOfSingleton(k, m);
    if j < n {
      assert ms[..n][j] == ms[j];
      TypeWritesCover(ms[..n], prefix, pkg, j);
    }
  }

  lemma WritesWellFormedInAppend(tw1: seq<(string, Message)>, tw2: seq<(string, Message)>,
                                 typeKeys: set<string>, enumKeys: set<string>)
    requires WritesWellFormedIn(tw1, typeKeys, enumKeys) && WritesWellFormedIn(tw2, typeKeys, enumKeys)
    ensures WritesWellFormedIn(tw1 + tw2, typeKeys, enumKeys)
  {
    var tw := tw1 + tw2;
    forall i | 0 <= i < |tw| ensures LeadingDot(tw[i].0) {
      if i >= |tw1| { assert tw[i] == tw2[i - |tw1|]; }
    }
    forall i, j | 0 <= i < |tw| && 0 <= j < |tw[i].1.nested|
      ensures tw[i].0 + "." + tw[i].1.nested[j].name in typeKeys
    {
      if i >= |tw1| { assert tw[i] == tw2[i - |tw1|]; }
    }
    forall i, j | 0 <= i < |tw| && 0 <= j < |tw[i].1.enums|
      ensures tw[i].0 + "." + tw[i].1.enums[j].name in enumKeys
    {
      if i >= |tw1| { assert tw[i] == tw2[i - |tw1|]; }
    }
  }

  lemma WritesWellFormedInWeaken(tw: seq<(string, Message)>, tk: set<string>, ek: set<string>,
                                 tk': set<string>, ek': set<string>)
    requires WritesWellFormedIn(tw, tk, ek) && tk <= tk' && ek <= ek'
    ensures WritesWellFormedIn(tw, tk', ek')
  {
  }

  /** The writes of one registration pass satisfy the registry invariant. */
  lemma {:induction false} TypeWritesWellFormed(ms: seq<Message>, prefix: string, pkg: string)
    requires prefix == "" || LeadingDot(prefix)
    ensures WritesWellFormed(TypeWrites(ms, prefix, pkg), TypeEnumWrites(ms, prefix, pkg))
    decreases ms
  {
    if ms != [] {
      var n := |ms| - 1;
      var m := ms[n];
      var k := FullName(prefix, pkg, m.name);
      FullNameLeadingDot(prefix, pkg, m.name);
      TypeWritesWellFormed(ms[..n], prefix, pkg);
      TypeWritesWellFormed(m.nested, k, pkg);
      var tInit, tNest := TypeWrites(ms[..n], prefix, pkg), TypeWrites(m.nested, k, pkg);
      var eInit, eNest, eOwn := TypeEnumWrites(ms[..n], prefix, pkg), TypeEnumWrites(m.nested, k, pkg), EnumWrites(m.enums, k, pkg);
      var tw, ew := TypeWrites(ms, prefix, pkg), TypeEnumWrites(ms, prefix, pkg);
      assert tw == tInit + [(k, m)] + tNest;
      assert ew == eInit + eNest + eOwn;
      KeysOfAppend(tInit + [(k, m)], tNest);
      KeysOfAppend(tInit, [(k, m)]);
      KeysOfAppend(eInit + eNest, eOwn);
      KeysOfAppend(eInit, eNest);
      var TK, EK := KeysOf(tw), KeysOf(ew);
      // the write of m itself: its nested messages and enums are written right after it
      forall j | 0 <= j < |m.nested| ensures k + "." + m.nested[j].name in TK {
        TypeWritesCover(m.nested, k, pkg, j);
      }
      forall j | 0 <= j < |m.enums| ensures k + "." + m.enums[j].name in EK {
        assert eOwn[j].0 == k + "." + m.enums[j].name;
      }
      assert WritesWellFormedIn([(k, m)], TK, EK);
      WritesWellFormedInWeaken(tInit, KeysOf(tInit), KeysOf(eInit), TK, EK);
      WritesWellFormedInWeaken(tNest, KeysOf(tNest), KeysOf(eNest), TK, EK);
      WritesWellFormedInAppend(tInit, [(k, m)], TK, EK);
      WritesWellFormedInAppend(tInit + [(k, m)], tNest, TK, EK);
    }
  }

  /** Applying well-formed writes to a well-formed registry keeps it well formed. */
  lemma ApplyWellFormed(types: map<string, Message>, enums: map<string, EnumDecl>,
                        tw: seq<(string, Message)>, ew: seq<(string, EnumDecl)>)
    requires WellFormed(types, enums) && WritesWellFormed(tw, ew)
    ensures WellFormed(Apply(types, tw), Apply(enums, ew))
  {
    var t2, e2 := Apply(types, tw), Apply(enums, ew);
    ApplyKeys(types, tw);
    ApplyKeys(enums, ew);
    forall k | k in t2
      ensures LeadingDot(k)
      && (forall j :: 0 <= j < |t2[k].nested| ==> k + "." + t2[k].nested[j].name in t2)
      && (forall j :: 0 <= j < |t2[k].enums| ==> k + "." + t2[k].enums[j].name in e2)
    {
      var i := ApplyOrigin(types, tw, k);
    }
  }

  /** Registering only more enums keeps the registry well formed. */
  lemma ApplyEnumsWellFormed(types: map<string, Message>, enums: map<string, EnumDecl>, ew: seq<(string, EnumDecl)>)
    requires WellFormed(types, enums)
    ensures WellFormed(types, Apply(enums, ew))
  {
    ApplyKeys(enums, ew);
  }

  /**
   * One more message in `RegisterTypesFromFile`'s loop: after the writes of
   * the first `i` messages, writing message `i`, then its nested messages,
   * then its nested enums gives the writes of the first `i + 1`.
   */
  lemma RegisterMessageStep(ms: seq<Message>, i: int, prefix: string, pkg: string,
                            T: map<string, Message>, En: map<string, EnumDecl>,
                            t0: map<string, Message>, e0: map<string, EnumDecl>)
    requires 0 <= i < |ms|
    requires t0 == Apply(T, TypeWrites(ms[..i], prefix, pkg)) && e0 == Apply(En, TypeEnumWrites(ms[..i], prefix, pkg))
    ensures var k := FullName(prefix, pkg, ms[i].name);
            Apply(t0[k := ms[i]], TypeWrites(ms[i].nested, k, pkg)) == Apply(T, TypeWrites(ms[..i + 1], prefix, pkg))
    ensures var k := FullName(prefix, pkg, ms[i].name);
            Apply(Apply(e0, TypeEnumWrites(ms[i].nested, k, pkg)), EnumWrites(ms[i].enums, k, pkg))
            == Apply(En, TypeEnumWrites(ms[..i + 1], prefix, pkg))
  {
    var m, k := ms[i], FullName(prefix, pkg, ms[i].name);
    var tw, tew, ew := TypeWrites(m.nested, k, pkg), TypeEnumWrites(m.nested, k, pkg), EnumWrites(m.enums, k, pkg);
    assert ms[..i + 1][..i] == ms[..i];
    assert TypeWrites(ms[..i + 1], prefix, pkg) == TypeWrites(ms[..i], prefix, pkg) + [(k, m)] + tw;
    assert TypeEnumWrites(ms[..i + 1], prefix, pkg) == TypeEnumWrites(ms[..i], prefix, pkg) + tew + ew;
    assert Apply(t0, [(k, m)]) == t0[k := m];
    ApplyAppend(T, TypeWrites(ms[..i], prefix, pkg), [(k, m)]);
    ApplyAppend(T, TypeWrites(ms[..i], prefix, pkg) + [(k, m)], tw);
    ApplyAppend(En, TypeEnumWrites(ms[..i], prefix, pkg), tew);
    ApplyAppend(En, TypeEnumWrites(ms[..i], prefix, pkg) + tew, ew);
  }

  /** The writes of the first `i + 1` files: those of the first `i`, then file `i`'s. */
  lemma FileWritesSnoc(files: seq<ProtoFile>, i: int)
    requires 0 <= i < |files|
    ensures var f, pkg := files[i], PackageOf(files[i]);
            && FileTypeWrites(files[..i + 1]) == FileTypeWrites(files[..i]) + TypeWrites(f.messages, "", pkg)
            && FileEnumWrites(files[..i + 1])
               == FileEnumWrites(files[..i]) + (TypeEnumWrites(f.messages, "", pkg) + EnumWrites(f.enums, "", pkg))
  {
    assert files[..i + 1][..i] == files[..i];
  }

  /**
   * One more file in `NewTypeAnalyzer`'s loop: the registries built from the
   * first `i` files, after that file's message and then enum writes, are
   * those built from the first `i + 1` files.
   */
  lemma FileRegistrationStep(files: seq<ProtoFile>, i: int, t0: map<string, Message>, e0: map<string, EnumDecl>)
    requires 0 <= i < |files|
    requires t0 == Apply(map[], FileTypeWrites(files[..i])) && e0 == Apply(map[], FileEnumWrites(files[..i]))
    ensures Apply(t0, TypeWrites(files[i].messages, "", PackageOf(files[i]))) == Apply(map[], FileTypeWrites(files[..i + 1]))
    ensures Apply(Apply(e0, TypeEnumWrites(files[i].messages, "", PackageOf(files[i]))), EnumWrites(files[i].enums, "", PackageOf(files[i])))
            == Apply(map[], FileEnumWrites(files[..i + 1]))
  {
    var f, pkg := files[i], PackageOf(files[i]);
    var tw, tew, ew := TypeWrites(f.messages, "", pkg), TypeEnumWrites(f.messages, "", pkg), EnumWrites(f.enums, "", pkg);
    FileWritesSnoc(files, i);
    ApplyAppend(map[], FileTypeWrites(files[..i]), tw);
    ApplyAppend(e0, tew, ew);
    ApplyAppend(map[], FileEnumWrites(files[..i]), tew + ew);
  }

  /** The registry built from any list of files is well formed. */
  lemma {:induction false} FileRegistryWellFormed(files: seq<ProtoFile>)
    ensures WellFormed(Apply(map[], FileTypeWrites(files)), Apply(map[], FileEnumWrites(files)))
    decreases |files|
  {
    if files != [] {
      var n := |files| - 1;
      var f, pkg := files[n], PackageOf(files[n]);
      var tw, tew, ew := TypeWrites(f.messages, "", pkg), TypeEnumWrites(f.messages, "", pkg), EnumWrites(f.enums, "", pkg);
      var t0, e0 := Apply(map[], FileTypeWrites(files[..n])), Apply(map[], FileEnumWrites(files[..n]));
      FileRegistryWellFormed(files[..n]);
      assert WritesWellFormed(tw, tew + ew) by {
        TypeWritesWellFormed(f.messages, "", pkg);
        KeysOfAppend(tew, ew);
        WritesWellFormedInWeaken(tw, KeysOf(tw), KeysOf(tew), KeysOf(tw), KeysOf(tew + ew));
      }
      ApplyWellFormed(t0, e0, tw, tew + ew);
      assert Apply(map[], FileTypeWrites(files)) == Apply(t0, tw)
          && Apply(map[], FileEnumWrites(files)) == Apply(e0, tew + ew) by {
        assert files[..n + 1] == files;
        FileWritesSnoc(files, n);
        ApplyAppend(map[], FileTypeWrites(files[..n]), tw);
        ApplyAppend(map[], FileEnumWrites(files[..n]), tew + ew);
      }
    }
  }

}
