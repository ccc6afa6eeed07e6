/** The `xsb_aircraft.txt` manifest reader of CSLService/CSLService.cs:290-395: a line-driven
    state machine over "the definition being read, or none". */
module Manifest {
  import opened Wrappers
  import opened Text
  import opened Records

  /** What the reader logs: a deprecated or unknown key, or a line it could not use. */
  datatype Diagnostic = Deprecated(line: nat, key: string) | SyntaxError(line: nat)

  /** The reader's state between two lines. */
  datatype Parser = Parser(package: Package, current: Option<Obj8Aircraft>, lineNumber: nat, log: seq<Diagnostic>)

  /** The keys that each add a selector to the current definition. */
  const MatchKeys: set<string> := {"MATCHES", "LIVERY", "AIRLINE", "ICAO"}

  function Start(root: string): Parser {
    Parser(Package(root, {}, []), None, 0, [])
  }

  /** The package with the current definition committed, which happens only when it has at
      least one model and at least one selector. */
  function Committed(package: Package, current: Option<Obj8Aircraft>): Package {
    if current.Some? && |current.value.obj8s| > 0 && |current.value.matches| > 0
    then package.WithAircraft(current.value)
    else package
  }

  /** The local `Add()`: commit the current definition and forget it. */
  function Flush(st: Parser): Parser {
    st.(package := Committed(st.package, st.current), current := None)
  }

  /** The selector a MATCHES-like line describes: a `-` operator stands for none. */
  function ParseSelector(values: seq<string>): Selector
    requires |values| >= 1
  {
    Selector(values[0],
      if |values| > 1 && values[1] != "-" then Some(values[1]) else None,
      if |values| > 2 then Some(values[2]) else None)
  }

  /** The helper `P`: an OBJ8 line has three to five values, the third being `package/path`
      with a non-empty package before the first separator; `\` and `:` in the path become `/`. */
  function ParseObj8(values: seq<string>): Option<Obj8> {
    if 3 <= |values| <= 5 then
      var s := values[2];
      var i := IndexOfSeparator(s);
      if i > 0 then
        Some(Obj8(s[..i], Replace(Replace(s[i + 1..], '\\', '/'), ':', '/'),
          if |values| >= 4 then Some(values[3]) else None,
          if |values| >= 5 then Some(values[4]) else None))
      else None
    else None
  }

  function SyntaxErrorAt(st: Parser): Parser {
    st.(log := st.log + [SyntaxError(st.lineNumber)])
  }

  function DeprecatedAt(st: Parser, key: string): Parser {
    st.(log := st.log + [Deprecated(st.lineNumber, key)])
  }

  /** The effect of one line with key `key` and at least one value. */
  function Command(st: Parser, key: string, values: seq<string>): Parser
    requires |values| >= 1
  {
    if key in MatchKeys then
      if st.current.Some? && |values| <= 3 then
        var a := st.current.value;
        st.(current := Some(a.(matches := a.matches + {ParseSelector(values)})))
      else SyntaxErrorAt(st)
    else if key == "OBJ8" then
      var o := ParseObj8(values);
      if st.current.Some? && o.Some? then
        var a := st.current.value;
        st.(current := Some(a.(obj8s := a.obj8s + {o.value})))
      else SyntaxErrorAt(st)
    else if key == "OBJ8_AIRCRAFT" then
      var f := Flush(st);
      if |values| == 1 then f.(current := Some(Obj8Aircraft(f.package.root, values[0], {}, None, {})))
      else SyntaxErrorAt(f)
    else if key == "VERT_OFFSET" then
      if |values| == 1 && st.current.Some? && ParseOffset(values[0]).Some? then
        st.(current := Some(st.current.value.(vertOffset := ParseOffset(values[0]))))
      else SyntaxErrorAt(st)
    else if key == "OFFSET" then
      if |values| == 3 && st.current.Some? && ParseOffset(values[2]).Some? then
        st.(current := Some(st.current.value.(vertOffset := ParseOffset(values[2]))))
      else SyntaxErrorAt(st)
    else if key == "EXPORT_NAME" then
      if |values| == 1 then st.(package := st.package.(exportNames := st.package.exportNames + {values[0]}))
      else SyntaxErrorAt(st)
    else if key == "OBJECT" || key == "AIRCRAFT" then DeprecatedAt(Flush(st), key)
    else DeprecatedAt(st, key)
  }

  /** One line: counted, tokenised, and ignored unless it has a key and a value. */
  function Step(st: Parser, line: string): Parser {
    StepWords(st, Tokens(line))
  }

  /** One line with the words `ts`. */
  function StepWords(st: Parser, ts: seq<string>): Parser {
    var st := st.(lineNumber := st.lineNumber + 1);
    if |ts| < 2 then st else Command(st, ts[0], ts[1..])
  }

  /** The state after reading `lines`, in order. */
  function Run(st: Parser, lines: seq<string>): Parser
    decreases |lines|
  {
    if lines == [] then st else Step(Run(st, lines[..|lines| - 1]), lines[|lines| - 1])
  }

  /** The package (and log) a manifest with the given lines yields, given its package's root. */
  function ParseLines(root: string, lines: seq<string>): Parser {
    Flush(Run(Start(root), lines))
  }

  /** A definition's root is the directory of the manifest's path. */
  function Parse(packagePath: string, lines: seq<string>): Parser {
    ParseLines(DirectoryName(packagePath), lines)
  }

  lemma RunPrefix(st: Parser, lines: seq<string>, i: nat)
    requires i < |lines|
    ensures Run(st, lines[..i + 1]) == Step(Run(st, lines[..i]), lines[i])
  {
    assert lines[..i + 1][..i] == lines[..i];
  }

  /** `Add()` as a method: `UnionWith` the current definition if it is complete. */
  method Commit(package: Package, current: Option<Obj8Aircraft>) returns (p: Package)
    ensures p == Committed(package, current)
  {
    p := package;
    if current.Some? && |current.value.obj8s| > 0 && |current.value.matches| > 0 {
      p := package.UnionWithAircraft(current.value);
    }
  }

  /** The body of the reader's `switch` for one line with key `key` and at least one value. */
  method Apply(package: Package, aircraft: Option<Obj8Aircraft>, lineNumber: nat, log: seq<Diagnostic>,
               key: string, values: seq<string>)
    returns (package': Package, aircraft': Option<Obj8Aircraft>, log': seq<Diagnostic>)
    requires |values| >= 1
    ensures Parser(package', aircraft', lineNumber, log') == Command(Parser(package, aircraft, lineNumber, log), key, values)
  {
    package', aircraft', log' := package, aircraft, log;
    var ok := true;
    if key in MatchKeys {
      if aircraft.Some? && |values| <= 3 {
        aircraft' := Some(aircraft.value.(matches := aircraft.value.matches + {ParseSelector(values)}));
      } else {
        ok := false;
      }
    } else if key == "OBJ8" {
      var o := ParseObj8(values);
      if aircraft.Some? && o.Some? {
        aircraft' := Some(aircraft.value.(obj8s := aircraft.value.obj8s + {o.value}));
      } else {
        ok := false;
      }
    } else if key == "OBJ8_AIRCRAFT" {
      package' := Commit(package, aircraft);
      aircraft' := None;
      if |values| == 1 {
        aircraft' := Some(Obj8Aircraft(package'.root, values[0], {}, None, {}));
      } else {
        ok := false;
      }
    } else if key == "VERT_OFFSET" || key == "OFFSET" {
      var n := if key == "VERT_OFFSET" then 1 else 3;
      if |values| == n && aircraft.Some? && ParseOffset(values[n - 1]).Some? {
        aircraft' := Some(aircraft.value.(vertOffset := ParseOffset(values[n - 1])));
      } else {
        ok := false;
      }
    } else if key == "EXPORT_NAME" {
      if |values| == 1 {
        package' := package.(exportNames := package.exportNames + {values[0]});
      } else {
        ok := false;
      }
    } else {
      if key == "OBJECT" || key == "AIRCRAFT" {
        package' := Commit(package, aircraft);
        aircraft' := None;
      }
      log' := log + [Deprecated(lineNumber, key)];
    }
    if !ok {
      log' := log + [SyntaxError(lineNumber)];
    }
  }

  /** `ParsePackageAsync` over the lines of the manifest at `packagePath`. */
  method ParsePackage(packagePath: string, lines: seq<string>) returns (package: Package, log: seq<Diagnostic>)
    ensures package == Parse(packagePath, lines).package && log == Parse(packagePath, lines).log
  {
    package := Package(DirectoryName(packagePath), {}, []);
    var aircraft: Option<Obj8Aircraft> := None;
    var lineNumber: nat := 0;
    log := [];
    var i := 0;
    while i < |lines|
      invariant 0 <= i <= |lines|
      invariant Parser(package, aircraft, lineNumber, log) == Run(Start(DirectoryName(packagePath)), lines[..i])
    {
      RunPrefix(Start(DirectoryName(packagePath)), lines, i);
      var line := lines[i];
      i := i + 1;
      lineNumber := lineNumber + 1;
      var ts := Tokens(line);
      if |ts| >= 2 {
        package, aircraft, log := Apply(package, aircraft, lineNumber, log, ts[0], ts[1..]);
      }
    }
    assert lines[..i] == lines;
    package := Commit(package, aircraft);
  }

  /** No character of `s` is a separator. */
  predicate NoSeparator(s: string) {
    forall i :: 0 <= i < |s| ==> !IsSeparator(s[i])
  }

  /** A model reference as the reader produces it. */
  predicate Obj8Ok(o: Obj8) {
    IsToken(o.package) && NoSeparator(o.package)
    && TokenChars(o.path) && (forall i :: 0 <= i < |o.path| ==> o.path[i] != '\\' && o.path[i] != ':')
    && (o.texture.Some? ==> IsToken(o.texture.value))
    && (o.textureLit.Some? ==> o.texture.Some? && IsToken(o.textureLit.value))
  }

  /** A selector as the reader produces it. */
  predicate SelectorOk(m: Selector) {
    IsToken(m.icao)
    && (m.operator.Some? ==> IsToken(m.operator.value) && m.operator.value != "-")
    && (m.livery.Some? ==> IsToken(m.livery.value))
  }

  /** A definition being read in a package with root `root`. */
  predicate DraftOk(root: string, a: Obj8Aircraft) {
    a.root == root && IsToken(a.id)
    && (forall o :: o in a.obj8s ==> Obj8Ok(o))
    && (forall m :: m in a.matches ==> SelectorOk(m))
  }

  /** A committed definition: complete, with at least one model and one selector. */
  predicate DefinitionOk(root: string, a: Obj8Aircraft) {
    DraftOk(root, a) && |a.obj8s| > 0 && |a.matches| > 0
  }

  /** The packages the reader yields: no two definitions mergeable, every export name a
      word, every definition complete and rooted at the package. */
  predicate Canonical(p: Package) {
    p.Valid()
    && (forall e :: e in p.exportNames ==> IsToken(e))
    && (forall i :: 0 <= i < |p.aircraft| ==> DefinitionOk(p.root, p.aircraft[i]))
  }

  predicate StateOk(st: Parser) {
    Canonical(st.package) && (st.current.Some? ==> DraftOk(st.package.root, st.current.value))
  }

  /** A model reference read from words is as `Obj8Ok` says. */
  lemma ParseObj8Ok(values: seq<string>)
    requires forall k :: 0 <= k < |values| ==> IsToken(values[k])
    ensures ParseObj8(values).Some? ==> Obj8Ok(ParseObj8(values).value)
  {
    if 3 <= |values| <= 5 {
      var s := values[2];
      var i := IndexOfSeparator(s);
      if i > 0 {
        var path := Replace(Replace(s[i + 1..], '\\', '/'), ':', '/');
        assert forall k :: 0 <= k < |path| ==> path[k] == '/' || path[k] == s[i + 1 + k];
      }
    }
  }

  /** Committing keeps a package canonical and never changes its root. */
  lemma CommittedOk(p: Package, current: Option<Obj8Aircraft>)
    requires Canonical(p)
    requires current.Some? ==> DraftOk(p.root, current.value)
    ensures Canonical(Committed(p, current)) && Committed(p, current).root == p.root
  {
    if current.Some? && |current.value.obj8s| > 0 && |current.value.matches| > 0 {
      var a := current.value;
      WithAircraftValid(p, a);
      var r := p.WithAircraft(a);
      match FirstMergeable(p.aircraft, a)
      case None =>
        assert r.aircraft[|p.aircraft|] == a;
      case Some(k) =>
        assert DefinitionOk(p.root, r.aircraft[k]);
    }
  }

  lemma ParseSelectorOk(values: seq<string>)
    requires 1 <= |values| && forall k :: 0 <= k < |values| ==> IsToken(values[k])
    ensures SelectorOk(ParseSelector(values))
  {
  }

  /** A draft with one more model or selector is still a well-formed draft. */
  lemma DraftAdd(root: string, a: Obj8Aircraft, o: Option<Obj8>, m: Option<Selector>)
    requires DraftOk(root, a)
    requires o.Some? ==> Obj8Ok(o.value)
    requires m.Some? ==> SelectorOk(m.value)
    ensures o.Some? ==> DraftOk(root, a.(obj8s := a.obj8s + {o.value}))
    ensures m.Some? ==> DraftOk(root, a.(matches := a.matches + {m.value}))
  {
  }

  /** Every command keeps the reader's state well formed. */
  lemma CommandOk(st: Parser, key: string, values: seq<string>)
    requires StateOk(st)
    requires 1 <= |values| && forall k :: 0 <= k < |values| ==> IsToken(values[k])
    ensures StateOk(Command(st, key, values)) && Command(st, key, values).package.root == st.package.root
  {
    if key in MatchKeys {
      if st.current.Some? && |values| <= 3 {
        ParseSelectorOk(values);
        DraftAdd(st.package.root, st.current.value, None, Some(ParseSelector(values)));
      }
    } else if key == "OBJ8" {
      ParseObj8Ok(values);
      if st.current.Some? && ParseObj8(values).Some? {
        DraftAdd(st.package.root, st.current.value, ParseObj8(values), None);
      }
    } else if key == "OBJ8_AIRCRAFT" || key == "OBJECT" || key == "AIRCRAFT" {
      CommittedOk(st.package, st.current);
    } else if key == "EXPORT_NAME" {
      if |values| == 1 {
        var p := st.package.(exportNames := st.package.exportNames + {values[0]});
        assert Canonical(p);
      }
    }
  }

  /** Every line keeps the reader's state well formed. */
  lemma StepOk(st: Parser, line: string)
    requires StateOk(st)
    ensures StateOk(Step(st, line)) && Step(st, line).package.root == st.package.root
  {
    StepWordsOk(st, Tokens(line));
  }

  lemma StepWordsOk(st: Parser, ts: seq<string>)
    requires StateOk(st)
    requires forall k :: 0 <= k < |ts| ==> IsToken(ts[k])
    ensures StateOk(StepWords(st, ts)) && StepWords(st, ts).package.root == st.package.root
  {
    if |ts| >= 2 {
      CommandOk(st.(lineNumber := st.lineNumber + 1), ts[0], ts[1..]);
    }
  }

  lemma {:induction false} RunOk(st: Parser, lines: seq<string>)
    requires StateOk(st)
    ensures StateOk(Run(st, lines)) && Run(st, lines).package.root == st.package.root
    decreases |lines|
  {
    if lines != [] {
      RunOk(st, lines[..|lines| - 1]);
      StepOk(Run(st, lines[..|lines| - 1]), lines[|lines| - 1]);
    }
  }

  /** Every package the reader yields is canonical and rooted at the manifest's directory:
      each definition has a model and a selector and the package's root, each model a
      non-empty package name without separators and a path without `\` or `:`. */
  lemma ParseCanonical(packagePath: string, lines: seq<string>)
    ensures Canonical(Parse(packagePath, lines).package)
    ensures Parse(packagePath, lines).package.root == DirectoryName(packagePath)
    ensures Parse(packagePath, lines).current.None?
  {
    var root := DirectoryName(packagePath);
    RunOk(Start(root), lines);
    CommittedOk(Run(Start(root), lines).package, Run(Start(root), lines).current);
  }
}
