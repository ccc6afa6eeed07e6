/** The manifest writer `Package.ToXsbAircraft` (CSLService/CSLService.cs:75-153), and the
    proof that the reader gives back every canonical package it writes. */
module Xsb {
  import opened Wrappers
  import opened Text
  import opened Records
  import opened Manifest

  /** The words an optional value contributes: none when it is absent or empty. */
  function Present(x: Option<string>): seq<string> {
    if x.Some? && x.value != "" then [x.value] else []
  }

  function ExportLine(e: string): string {
    Line(["EXPORT_NAME", e])
  }

  function DependencyLine(d: string): string {
    Line(["DEPENDENCY", d])
  }

  function AircraftLine(id: string): string {
    Line(["OBJ8_AIRCRAFT", id])
  }

  /** `OBJ8 SOLID YES package/path[ texture][ lit]`. */
  function Obj8Words(o: Obj8): seq<string> {
    ["OBJ8", "SOLID", "YES", o.package + "/" + o.path] + Present(o.texture) + Present(o.textureLit)
  }

  function VertOffsetLine(v: Offset): string {
    Line(["VERT_OFFSET", v])
  }

  /** `MATCHES icao[ operator][ livery]`, where a livery without an operator is written after a `-`. */
  function MatchesWords(m: Selector): seq<string> {
    ["MATCHES", m.icao] + Present(m.operator)
      + (if Present(m.livery) == [] then [] else if Present(m.operator) == [] then ["-"] + Present(m.livery) else Present(m.livery))
  }

  /** The diagnostics the reader logs for `n` DEPENDENCY lines following line `start`. */
  function DependencyLog(start: nat, n: nat): seq<Diagnostic> {
    seq(n, (i: nat) => Deprecated(start + 1 + i, "DEPENDENCY"))
  }

  /** The number of lines written for the definitions `s`. */
  function AircraftLineCount(s: seq<Obj8Aircraft>): nat
    decreases |s|
  {
    if s == [] then 0
    else
      var a := s[|s| - 1];
      AircraftLineCount(s[..|s| - 1]) + 1 + |a.obj8s| + (if a.vertOffset.Some? then 1 else 0) + |a.matches|
  }

  lemma RunSnoc(st: Parser, lines: seq<string>, line: string)
    ensures Run(st, lines + [line]) == Step(Run(st, lines), line)
  {
    assert (lines + [line])[..|lines|] == lines;
  }

  lemma {:induction false} RunConcat(st: Parser, xs: seq<string>, ys: seq<string>)
    ensures Run(st, xs + ys) == Run(Run(st, xs), ys)
    decreases |ys|
  {
    if ys == [] {
      assert xs + ys == xs;
    } else {
      var n := |ys| - 1;
      assert xs + ys == (xs + ys[..n]) + [ys[n]];
      RunSnoc(st, xs + ys[..n], ys[n]);
      RunConcat(st, xs, ys[..n]);
      assert ys == ys[..n] + [ys[n]];
      RunSnoc(Run(st, xs), ys[..n], ys[n]);
    }
  }

  /** Reading a line written from proper words runs the command those words name. */
  lemma StepLine(st: Parser, ts: seq<string>)
    requires forall k :: 0 <= k < |ts| ==> IsToken(ts[k])
    ensures Step(st, Line(ts)) == StepWords(st, ts)
  {
    TokensLine(ts);
  }

  lemma StepExport(st: Parser, e: string)
    requires IsToken(e)
    ensures Step(st, ExportLine(e))
         == st.(lineNumber := st.lineNumber + 1, package := st.package.(exportNames := st.package.exportNames + {e}))
  {
    var ts := ["EXPORT_NAME", e];
    StepLine(st, ts);
    assert ts[0] == "EXPORT_NAME" && ts[1..] == [e];
    assert "EXPORT_NAME" !in MatchKeys;
  }

  lemma StepDependency(st: Parser, d: string)
    requires IsToken(d)
    ensures Step(st, DependencyLine(d))
         == st.(lineNumber := st.lineNumber + 1, log := st.log + [Deprecated(st.lineNumber + 1, "DEPENDENCY")])
  {
    var ts := ["DEPENDENCY", d];
    StepLine(st, ts);
    assert ts[0] == "DEPENDENCY" && ts[1..] == [d];
    assert "DEPENDENCY" !in MatchKeys;
  }

  lemma StepAircraft(st: Parser, id: string)
    requires IsToken(id)
    ensures Step(st, AircraftLine(id))
         == Flush(st).(lineNumber := st.lineNumber + 1, current := Some(Obj8Aircraft(st.package.root, id, {}, None, {})))
  {
    var ts := ["OBJ8_AIRCRAFT", id];
    StepLine(st, ts);
    var st1 := st.(lineNumber := st.lineNumber + 1);
    assert ts[0] == "OBJ8_AIRCRAFT" && ts[1..] == [id];
    assert StepWords(st, ts) == Command(st1, "OBJ8_AIRCRAFT", [id]);
    assert Flush(st1) == Flush(st).(lineNumber := st.lineNumber + 1);
  }

  lemma IndexOfFirstSeparator(pkg: string, path: string)
    requires |pkg| > 0 && NoSeparator(pkg)
    ensures IndexOfSeparator(pkg + "/" + path) == |pkg|
  {
    var s := pkg + "/" + path;
    var i := IndexOfSeparator(s);
    assert s[|pkg|] == '/';
  }

  /** `package/path` is a word, and the reader splits it back at its first separator. */
  lemma JoinedPath(pkg: string, path: string)
    requires IsToken(pkg) && NoSeparator(pkg) && TokenChars(path)
    ensures IsToken(pkg + "/" + path)
    ensures IndexOfSeparator(pkg + "/" + path) == |pkg|
    ensures (pkg + "/" + path)[..|pkg|] == pkg && (pkg + "/" + path)[|pkg| + 1..] == path
  {
    var s := pkg + "/" + path;
    TokenCharsConcat(pkg, "/");
    TokenCharsConcat(pkg + "/", path);
    IndexOfFirstSeparator(pkg, path);
    assert s[..|pkg|] == pkg;
    assert s[|pkg| + 1..] == path;
  }

  /** The reader gives back the model reference it reads from `Obj8Words(o)`. */
  lemma ParseObj8Words(o: Obj8)
    requires Obj8Ok(o)
    ensures ParseObj8(Obj8Words(o)[1..]) == Some(o)
  {
    var q := o.package + "/" + o.path;
    JoinedPath(o.package, o.path);
    assert Replace(o.path, '\\', '/') == o.path;
    assert Replace(o.path, ':', '/') == o.path;
    var values := Obj8Words(o)[1..];
    if o.texture.None? {
      assert values == ["SOLID", "YES", q];
    } else if o.textureLit.None? {
      assert values == ["SOLID", "YES", q, o.texture.value];
    } else {
      assert values == ["SOLID", "YES", q, o.texture.value, o.textureLit.value];
    }
  }

  /** Every word of `Obj8Words(o)` is a word the tokeniser gives back. */
  lemma Obj8WordsTokens(o: Obj8)
    requires Obj8Ok(o)
    ensures forall k :: 0 <= k < |Obj8Words(o)| ==> IsToken(Obj8Words(o)[k])
  {
    JoinedPath(o.package, o.path);
  }

  lemma StepObj8(st: Parser, o: Obj8)
    requires st.current.Some? && Obj8Ok(o)
    ensures Step(st, Line(Obj8Words(o)))
         == st.(lineNumber := st.lineNumber + 1, current := Some(st.current.value.(obj8s := st.current.value.obj8s + {o})))
  {
    var ts := Obj8Words(o);
    ParseObj8Words(o);
    Obj8WordsTokens(o);
    StepLine(st, ts);
    assert ts[0] == "OBJ8" && |ts| >= 2;
    assert StepWords(st, ts) == Command(st.(lineNumber := st.lineNumber + 1), "OBJ8", ts[1..]);
  }

  lemma StepVertOffset(st: Parser, v: Offset)
    requires st.current.Some?
    ensures Step(st, VertOffsetLine(v))
         == st.(lineNumber := st.lineNumber + 1, current := Some(st.current.value.(vertOffset := Some(v))))
  {
    OffsetRoundTrip(v);
    StepLine(st, ["VERT_OFFSET", v]);
  }

  lemma StepMatches(st: Parser, m: Selector)
    requires st.current.Some? && SelectorOk(m)
    ensures Step(st, Line(MatchesWords(m)))
         == st.(lineNumber := st.lineNumber + 1, current := Some(st.current.value.(matches := st.current.value.matches + {m})))
  {
    var ts := MatchesWords(m);
    MatchesWordsRead(m);
    StepLine(st, ts);
    assert "MATCHES" in MatchKeys;
  }

  /** The words written for a selector are proper words, and read back as that selector. */
  lemma MatchesWordsRead(m: Selector)
    requires SelectorOk(m)
    ensures 2 <= |MatchesWords(m)| <= 4 && MatchesWords(m)[0] == "MATCHES"
    ensures forall k :: 0 <= k < |MatchesWords(m)| ==> IsToken(MatchesWords(m)[k])
    ensures ParseSelector(MatchesWords(m)[1..]) == m
  {
    var ts := MatchesWords(m);
    match (m.operator, m.livery) {
      case (None, None) =>
        assert ts == ["MATCHES", m.icao];
      case (Some(op), None) =>
        assert ts == ["MATCHES", m.icao, op];
      case (None, Some(lv)) =>
        assert ts == ["MATCHES", m.icao, "-", lv];
      case (Some(op), Some(lv)) =>
        assert ts == ["MATCHES", m.icao, op, lv];
    }
  }

  /** Every package a canonical package depends on is a word. */
  lemma {:induction false} DependencyIsToken(s: seq<Obj8Aircraft>, root: string, d: string)
    requires forall i :: 0 <= i < |s| ==> DefinitionOk(root, s[i])
    requires d in Collect(s, DependenciesOf)
    ensures IsToken(d)
    decreases |s|
  {
    var n := |s| - 1;
    if d in DependenciesOf(s[n]) {
      var o :| o in s[n].obj8s && o.package == d;
      assert Obj8Ok(o);
    } else {
      DependencyIsToken(s[..n], root, d);
    }
  }

  lemma SetStep<T>(all: set<T>, todo: set<T>, x: T)
    requires x in todo && todo <= all
    ensures all - (todo - {x}) == (all - todo) + {x}
    ensures |all - (todo - {x})| == |all - todo| + 1
  {
    assert all - (todo - {x}) == (all - todo) + {x} && x !in all - todo;
  }

  /** Reading one more EXPORT_NAME line after `out`. */
  lemma RunExport(st: Parser, out: seq<string>, x: Parser, e: string)
    requires IsToken(e) && Run(st, out) == x
    ensures Run(st, out + [ExportLine(e)])
         == x.(lineNumber := x.lineNumber + 1, package := x.package.(exportNames := x.package.exportNames + {e}))
  {
    RunSnoc(st, out, ExportLine(e));
    StepExport(x, e);
  }

  /** After the lines for `names - todo`, one more export name is recorded. */
  lemma ExportNext(st: Parser, x: Parser, n: nat, names: set<string>, todo: set<string>, e: string)
    requires e in todo && todo <= names
    requires x == st.(lineNumber := st.lineNumber + n, package := st.package.(exportNames := st.package.exportNames + (names - todo)))
    ensures x.(lineNumber := x.lineNumber + 1, package := x.package.(exportNames := x.package.exportNames + {e}))
         == st.(lineNumber := st.lineNumber + n + 1, package := st.package.(exportNames := st.package.exportNames + (names - (todo - {e}))))
  {
    SetStep(names, todo, e);
    assert st.package.exportNames + (names - (todo - {e})) == (st.package.exportNames + (names - todo)) + {e};
  }

  /** One iteration of the EXPORT_NAME loop: the line for `e` moves `e` from `todo` to the
      names read. */
  lemma ExportLoopStep(st: Parser, out: seq<string>, names: set<string>, todo: set<string>, e: string)
    requires e in todo && todo <= names
    requires ExportInvariant(st, out, names, todo)
    ensures ExportInvariant(st, out + [ExportLine(e)], names, todo - {e})
  {
    SetStep(names, todo, e);
    if forall e :: e in names ==> IsToken(e) {
      RunExport(st, out, Run(st, out), e);
      ExportNext(st, Run(st, out), |out|, names, todo, e);
    }
  }

  /** What the EXPORT_NAME loop keeps: one line per name read, and, when every name is a word,
      the reader has recorded exactly the names read. */
  ghost predicate ExportInvariant(st: Parser, out: seq<string>, names: set<string>, todo: set<string>) {
    && |out| == |names - todo|
    && ((forall e :: e in names ==> IsToken(e))
        ==> Run(st, out) == st.(lineNumber := st.lineNumber + |out|,
                                package := st.package.(exportNames := st.package.exportNames + (names - todo))))
  }

  /** The EXPORT_NAME lines: reading them adds exactly `names` to the package. */
  method ExportLines(names: set<string>, ghost st: Parser) returns (out: seq<string>)
    ensures |out| == |names|
    ensures (forall e :: e in names ==> IsToken(e))
        ==> Run(st, out) == st.(lineNumber := st.lineNumber + |out|,
                                package := st.package.(exportNames := st.package.exportNames + names))
  {
    out := [];
    var todo := names;
    while todo != {}
      invariant todo <= names
      invariant ExportInvariant(st, out, names, todo)
      decreases |todo|
    {
      var e :| e in todo;
      ExportLoopStep(st, out, names, todo, e);
      out := out + [ExportLine(e)];
      todo := todo - {e};
    }
    assert names - todo == names;
  }

  /** Reading one more DEPENDENCY line after `out`. */
  lemma RunDependency(st: Parser, out: seq<string>, x: Parser, d: string)
    requires IsToken(d) && Run(st, out) == x
    ensures Run(st, out + [DependencyLine(d)])
         == x.(lineNumber := x.lineNumber + 1, log := x.log + [Deprecated(x.lineNumber + 1, "DEPENDENCY")])
  {
    RunSnoc(st, out, DependencyLine(d));
    StepDependency(x, d);
  }

  lemma DependencyNext(st: Parser, x: Parser, n: nat)
    requires x == st.(lineNumber := st.lineNumber + n, log := st.log + DependencyLog(st.lineNumber, n))
    ensures x.(lineNumber := x.lineNumber + 1, log := x.log + [Deprecated(x.lineNumber + 1, "DEPENDENCY")])
         == st.(lineNumber := st.lineNumber + n + 1, log := st.log + DependencyLog(st.lineNumber, n + 1))
  {
    assert DependencyLog(st.lineNumber, n) + [Deprecated(st.lineNumber + n + 1, "DEPENDENCY")]
        == DependencyLog(st.lineNumber, n + 1);
  }

  /** What the DEPENDENCY loop keeps: one line per name written, and, when every name is a
      word, the reader has only counted the lines and logged each as deprecated. */
  ghost predicate DependencyInvariant(st: Parser, out: seq<string>, deps: set<string>, todo: set<string>) {
    && |out| == |deps - todo|
    && ((forall d :: d in deps ==> IsToken(d))
        ==> Run(st, out) == st.(lineNumber := st.lineNumber + |out|, log := st.log + DependencyLog(st.lineNumber, |out|)))
  }

  lemma DependencyLoopStep(st: Parser, out: seq<string>, deps: set<string>, todo: set<string>, d: string)
    requires d in todo && todo <= deps
    requires DependencyInvariant(st, out, deps, todo)
    ensures DependencyInvariant(st, out + [DependencyLine(d)], deps, todo - {d})
  {
    SetStep(deps, todo, d);
    if forall d :: d in deps ==> IsToken(d) {
      var x := Run(st, out);
      RunDependency(st, out, x, d);
      DependencyNext(st, x, |out|);
    }
  }

  /** The DEPENDENCY lines: the reader logs each as deprecated and changes nothing else. */
  method DependencyLines(deps: set<string>, ghost st: Parser) returns (out: seq<string>)
    ensures |out| == |deps|
    ensures (forall d :: d in deps ==> IsToken(d))
        ==> Run(st, out) == st.(lineNumber := st.lineNumber + |out|, log := st.log + DependencyLog(st.lineNumber, |deps|))
  {
    out := [];
    var todo := deps;
    while todo != {}
      invariant todo <= deps
      invariant DependencyInvariant(st, out, deps, todo)
      decreases |todo|
    {
      var d :| d in todo;
      DependencyLoopStep(st, out, deps, todo, d);
      out := out + [DependencyLine(d)];
      todo := todo - {d};
    }
    assert deps - todo == deps;
  }

  /** Reading the OBJ8_AIRCRAFT line of `a` as the first of `out`. */
  lemma RunAircraft(st: Parser, a: Obj8Aircraft)
    requires IsToken(a.id) && a.root == st.package.root
    ensures Run(st, [AircraftLine(a.id)])
         == Flush(st).(lineNumber := st.lineNumber + 1, current := Some(a.(obj8s := {}, vertOffset := None, matches := {})))
  {
    RunSnoc(st, [], AircraftLine(a.id));
    StepAircraft(st, a.id);
  }

  /** Reading one more OBJ8 line after `out`. */
  lemma RunObj8(st: Parser, out: seq<string>, x: Parser, o: Obj8)
    requires x.current.Some? && Obj8Ok(o) && Run(st, out) == x
    ensures Run(st, out + [Line(Obj8Words(o))])
         == x.(lineNumber := x.lineNumber + 1, current := Some(x.current.value.(obj8s := x.current.value.obj8s + {o})))
  {
    RunSnoc(st, out, Line(Obj8Words(o)));
    StepObj8(x, o);
  }

  /** Reading one more MATCHES line after `out`. */
  lemma RunMatches(st: Parser, out: seq<string>, x: Parser, m: Selector)
    requires x.current.Some? && SelectorOk(m) && Run(st, out) == x
    ensures Run(st, out + [Line(MatchesWords(m))])
         == x.(lineNumber := x.lineNumber + 1, current := Some(x.current.value.(matches := x.current.value.matches + {m})))
  {
    RunSnoc(st, out, Line(MatchesWords(m)));
    StepMatches(x, m);
  }

  /** Reading the VERT_OFFSET line after `out`. */
  lemma RunVertOffset(st: Parser, out: seq<string>, x: Parser, v: Offset)
    requires x.current.Some? && Run(st, out) == x
    ensures Run(st, out + [VertOffsetLine(v)])
         == x.(lineNumber := x.lineNumber + 1, current := Some(x.current.value.(vertOffset := Some(v))))
  {
    RunSnoc(st, out, VertOffsetLine(v));
    StepVertOffset(x, v);
  }

  /** The reader's state while the lines of `a` are read: `a` with only part of its content. */
  function Partial(f: Parser, lineNumber: nat, a: Obj8Aircraft): Parser {
    f.(lineNumber := lineNumber, current := Some(a))
  }

  /** What the OBJ8 loop keeps. */
  ghost predicate Obj8Invariant(st: Parser, out: seq<string>, a: Obj8Aircraft, todo: set<Obj8>) {
    && |out| == 1 + |a.obj8s - todo|
    && (DefinitionOk(st.package.root, a)
        ==> Run(st, out) == Partial(Flush(st), st.lineNumber + |out|, a.(obj8s := a.obj8s - todo, vertOffset := None, matches := {})))
  }

  lemma Obj8LoopStep(st: Parser, out: seq<string>, a: Obj8Aircraft, todo: set<Obj8>, o: Obj8)
    requires o in todo && todo <= a.obj8s
    requires Obj8Invariant(st, out, a, todo)
    ensures Obj8Invariant(st, out + [Line(Obj8Words(o))], a, todo - {o})
  {
    SetStep(a.obj8s, todo, o);
    if DefinitionOk(st.package.root, a) {
      var x := Run(st, out);
      RunObj8(st, out, x, o);
      assert (a.obj8s - todo) + {o} == a.obj8s - (todo - {o});
    }
  }

  /** What the MATCHES loop keeps. */
  ghost predicate MatchesInvariant(st: Parser, out: seq<string>, a: Obj8Aircraft, todo: set<Selector>) {
    && |out| == 1 + |a.obj8s| + (if a.vertOffset.Some? then 1 else 0) + |a.matches - todo|
    && (DefinitionOk(st.package.root, a)
        ==> Run(st, out) == Partial(Flush(st), st.lineNumber + |out|, a.(matches := a.matches - todo)))
  }

  lemma MatchesLoopStep(st: Parser, out: seq<string>, a: Obj8Aircraft, todo: set<Selector>, m: Selector)
    requires m in todo && todo <= a.matches
    requires MatchesInvariant(st, out, a, todo)
    ensures MatchesInvariant(st, out + [Line(MatchesWords(m))], a, todo - {m})
  {
    SetStep(a.matches, todo, m);
    if DefinitionOk(st.package.root, a) {
      var x := Run(st, out);
      RunMatches(st, out, x, m);
      assert (a.matches - todo) + {m} == a.matches - (todo - {m});
    }
  }

  /** From the end of the OBJ8 lines to the start of the MATCHES lines. */
  lemma MatchesLoopStart(st: Parser, out: seq<string>, a: Obj8Aircraft)
    requires Obj8Invariant(st, out, a, {})
    ensures a.vertOffset.None? ==> MatchesInvariant(st, out, a, a.matches)
    ensures a.vertOffset.Some? ==> MatchesInvariant(st, out + [VertOffsetLine(a.vertOffset.value)], a, a.matches)
  {
    assert a.obj8s - {} == a.obj8s;
    assert a.matches - a.matches == {};
    if DefinitionOk(st.package.root, a) && a.vertOffset.Some? {
      RunVertOffset(st, out, Run(st, out), a.vertOffset.value);
    }
  }

  lemma Obj8LoopStart(st: Parser, a: Obj8Aircraft)
    ensures Obj8Invariant(st, [AircraftLine(a.id)], a, a.obj8s)
  {
    assert a.obj8s - a.obj8s == {};
    if DefinitionOk(st.package.root, a) {
      RunAircraft(st, a);
    }
  }

  lemma MatchesLoopEnd(st: Parser, out: seq<string>, a: Obj8Aircraft)
    requires MatchesInvariant(st, out, a, {})
    ensures |out| == 1 + |a.obj8s| + (if a.vertOffset.Some? then 1 else 0) + |a.matches|
    ensures DefinitionOk(st.package.root, a)
        ==> Run(st, out) == Flush(st).(lineNumber := st.lineNumber + |out|, current := Some(a))
  {
    assert a.matches - {} == a.matches;
  }

  /** The lines of one definition: reading them commits the definition read before and makes
      `a` the current one. */
  method AircraftLines(a: Obj8Aircraft, ghost st: Parser) returns (out: seq<string>)
    ensures |out| == 1 + |a.obj8s| + (if a.vertOffset.Some? then 1 else 0) + |a.matches|
    ensures DefinitionOk(st.package.root, a)
        ==> Run(st, out) == Flush(st).(lineNumber := st.lineNumber + |out|, current := Some(a))
  {
    out := Obj8Lines(a, st);
    MatchesLoopStart(st, out, a);
    if a.vertOffset.Some? {
      out := out + [VertOffsetLine(a.vertOffset.value)];
    }
    out := MatchesLines(a, st, out);
    MatchesLoopEnd(st, out, a);
  }

  /** The OBJ8_AIRCRAFT line of `a` and one OBJ8 line per model. */
  method Obj8Lines(a: Obj8Aircraft, ghost st: Parser) returns (out: seq<string>)
    ensures Obj8Invariant(st, out, a, {})
  {
    out := [AircraftLine(a.id)];
    Obj8LoopStart(st, a);
    var todo := a.obj8s;
    while todo != {}
      invariant todo <= a.obj8s
      invariant Obj8Invariant(st, out, a, todo)
      decreases |todo|
    {
      var o :| o in todo;
      Obj8LoopStep(st, out, a, todo, o);
      out := out + [Line(Obj8Words(o))];
      todo := todo - {o};
    }
  }

  /** `out0` followed by one MATCHES line per selector of `a`. */
  method MatchesLines(a: Obj8Aircraft, ghost st: Parser, out0: seq<string>) returns (out: seq<string>)
    requires MatchesInvariant(st, out0, a, a.matches)
    ensures MatchesInvariant(st, out, a, {})
  {
    out := out0;
    var rest := a.matches;
    while rest != {}
      invariant rest <= a.matches
      invariant MatchesInvariant(st, out, a, rest)
      decreases |rest|
    {
      var m :| m in rest;
      MatchesLoopStep(st, out, a, rest, m);
      out := out + [Line(MatchesWords(m))];
      rest := rest - {m};
    }
  }


  /** Committing definition `k` of a canonical package after the ones before it appends it. */
  lemma CommitNext(p: Package, k: nat)
    requires Canonical(p) && k < |p.aircraft|
    ensures Committed(Package(p.root, p.exportNames, p.aircraft[..k]), Some(p.aircraft[k]))
         == Package(p.root, p.exportNames, p.aircraft[..k + 1])
  {
    var q := Package(p.root, p.exportNames, p.aircraft[..k]);
    assert DefinitionOk(p.root, p.aircraft[k]);
    FirstMergeableIs(q.aircraft, p.aircraft[k], None);
    assert p.aircraft[..k] + [p.aircraft[k]] == p.aircraft[..k + 1];
  }

  /** The reader's state after the lines of the first `k` definitions of `p`. */
  function AfterDefinitions(p: Package, k: nat, lineNumber: nat, log: seq<Diagnostic>): Parser
    requires k <= |p.aircraft|
  {
    if k == 0 then Parser(Package(p.root, p.exportNames, []), None, lineNumber, log)
    else Parser(Package(p.root, p.exportNames, p.aircraft[..k - 1]), Some(p.aircraft[k - 1]), lineNumber, log)
  }

  /** The number of lines written before the definitions. */
  function HeaderLineCount(p: Package, dependencies: bool): nat {
    |p.exportNames| + (if dependencies then |p.Dependencies()| else 0)
  }

  /** The diagnostics the header's DEPENDENCY lines draw. */
  function HeaderLog(p: Package, dependencies: bool): seq<Diagnostic> {
    if dependencies then DependencyLog(|p.exportNames|, |p.Dependencies()|) else []
  }

  /** What the definitions loop keeps: the lines so far are the header and the first `k`
      definitions, and reading them (for a canonical package) leaves definition `k - 1` current. */
  ghost predicate DefinitionsInvariant(p: Package, dependencies: bool, lines: seq<string>, k: nat) {
    && k <= |p.aircraft|
    && |lines| == HeaderLineCount(p, dependencies) + AircraftLineCount(p.aircraft[..k])
    && (Canonical(p) ==> Run(Start(p.root), lines) == AfterDefinitions(p, k, |lines|, HeaderLog(p, dependencies)))
  }

  /** The header lines put the reader at the start of the definitions loop. */
  lemma DefinitionsLoopStart(p: Package, dependencies: bool, exports: seq<string>, deps: seq<string>)
    requires |exports| == |p.exportNames|
    requires (forall e :: e in p.exportNames ==> IsToken(e)) ==>
      Run(Start(p.root), exports) == Start(p.root).(lineNumber := |exports|, package := Start(p.root).package.(exportNames := {} + p.exportNames))
    requires |deps| == if dependencies then |p.Dependencies()| else 0
    requires dependencies && (forall d :: d in p.Dependencies() ==> IsToken(d)) ==>
      Run(Run(Start(p.root), exports), deps)
        == Run(Start(p.root), exports).(lineNumber := Run(Start(p.root), exports).lineNumber + |deps|,
                                        log := Run(Start(p.root), exports).log + DependencyLog(Run(Start(p.root), exports).lineNumber, |p.Dependencies()|))
    requires !dependencies ==> deps == []
    ensures DefinitionsInvariant(p, dependencies, exports + deps, 0)
  {
    assert p.aircraft[..0] == [];
    RunConcat(Start(p.root), exports, deps);
    if Canonical(p) {
      var st := Run(Start(p.root), exports);
      assert st == Parser(Package(p.root, p.exportNames, []), None, |exports|, []) by {
        assert {} + p.exportNames == p.exportNames;
      }
      if dependencies {
        DependenciesAreTokens(p);
        assert Run(st, deps) == st.(lineNumber := |exports| + |deps|, log := DependencyLog(|exports|, |p.Dependencies()|));
      } else {
        assert exports + deps == exports;
      }
    }
  }

  lemma DependenciesAreTokens(p: Package)
    requires Canonical(p)
    ensures forall d :: d in p.Dependencies() ==> IsToken(d)
  {
    forall d | d in p.Dependencies() ensures IsToken(d) {
      DependencyIsToken(p.aircraft, p.root, d);
    }
  }


  /** The lines of definition `k` extend the loop by one definition. */
  lemma DefinitionsLoopStep(p: Package, dependencies: bool, lines: seq<string>, k: nat, more: seq<string>)
    requires k < |p.aircraft| && DefinitionsInvariant(p, dependencies, lines, k)
    requires |more| == 1 + |p.aircraft[k].obj8s| + (if p.aircraft[k].vertOffset.Some? then 1 else 0) + |p.aircraft[k].matches|
    requires DefinitionOk(Run(Start(p.root), lines).package.root, p.aircraft[k]) ==>
      Run(Run(Start(p.root), lines), more)
        == Flush(Run(Start(p.root), lines)).(lineNumber := Run(Start(p.root), lines).lineNumber + |more|, current := Some(p.aircraft[k]))
    ensures DefinitionsInvariant(p, dependencies, lines + more, k + 1)
  {
    AircraftLineCountNext(p, k);
    RunConcat(Start(p.root), lines, more);
    if Canonical(p) {
      assert DefinitionOk(p.root, p.aircraft[k]);
      AfterDefinitionsNext(p, k, |lines|, |lines + more|, HeaderLog(p, dependencies));
    }
  }

  lemma AircraftLineCountNext(p: Package, k: nat)
    requires k < |p.aircraft|
    ensures AircraftLineCount(p.aircraft[..k + 1]) == AircraftLineCount(p.aircraft[..k]) + 1
      + |p.aircraft[k].obj8s| + (if p.aircraft[k].vertOffset.Some? then 1 else 0) + |p.aircraft[k].matches|
  {
    assert p.aircraft[..k + 1][..k] == p.aircraft[..k];
  }

  /** Starting definition `k` commits definition `k - 1`. */
  lemma AfterDefinitionsNext(p: Package, k: nat, n: nat, m: nat, log: seq<Diagnostic>)
    requires Canonical(p) && k < |p.aircraft|
    ensures Flush(AfterDefinitions(p, k, n, log)).(lineNumber := m, current := Some(p.aircraft[k]))
         == AfterDefinitions(p, k + 1, m, log)
  {
    if k > 0 {
      CommitNext(p, k - 1);
    }
  }

  /** After the last definition the reader commits it, and the package read is `p`. */
  lemma DefinitionsLoopEnd(p: Package, dependencies: bool, lines: seq<string>)
    requires DefinitionsInvariant(p, dependencies, lines, |p.aircraft|)
    ensures |lines| == HeaderLineCount(p, dependencies) + AircraftLineCount(p.aircraft)
    ensures Canonical(p) ==> ParseLines(p.root, lines) == Parser(p, None, |lines|, HeaderLog(p, dependencies))
  {
    assert p.aircraft[..|p.aircraft|] == p.aircraft;
    if Canonical(p) && |p.aircraft| > 0 {
      CommitNext(p, |p.aircraft| - 1);
    }
  }

  /** `Package.ToXsbAircraft(dependencies)` as its lines. Reading the lines written for a
      canonical package, in a manifest of the same root, gives back exactly that package, and
      logs each DEPENDENCY line as deprecated and nothing else. */
  method ToXsbAircraft(p: Package, dependencies: bool) returns (lines: seq<string>)
    ensures |lines| == HeaderLineCount(p, dependencies) + AircraftLineCount(p.aircraft)
    ensures Canonical(p) ==> ParseLines(p.root, lines) == Parser(p, None, |lines|, HeaderLog(p, dependencies))
  {
    var exports := ExportLines(p.exportNames, Start(p.root));
    var deps := [];
    if dependencies {
      deps := DependencyLines(p.Dependencies(), Run(Start(p.root), exports));
    }
    DefinitionsLoopStart(p, dependencies, exports, deps);
    lines := exports + deps;
    var k := 0;
    while k < |p.aircraft|
      invariant DefinitionsInvariant(p, dependencies, lines, k)
    {
      var more := AircraftLines(p.aircraft[k], Run(Start(p.root), lines));
      DefinitionsLoopStep(p, dependencies, lines, k, more);
      lines := lines + more;
      k := k + 1;
    }
    DefinitionsLoopEnd(p, dependencies, lines);
  }
}
