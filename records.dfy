/** The values the service indexes: 3D models, selectors, aircraft definitions and
    packages, with the two merge operations of CSLService/CSLService.cs:35-73. */
module Records {
  import opened Wrappers
  import opened Text

  /** Decimal digits with at most one `.` (`dot`: a `.` was already read) and at least one digit
      (`digit`: one was already read). */
  predicate IsUnsignedDecimal(s: string, dot: bool, digit: bool)
    decreases |s|
  {
    if s == [] then digit
    else if '0' <= s[0] <= '9' then IsUnsignedDecimal(s[1..], dot, true)
    else if s[0] == '.' && !dot then IsUnsignedDecimal(s[1..], true, digit)
    else false
  }

  /** The text of a vertical offset: an optional sign, then an unsigned decimal. */
  predicate IsOffsetText(s: string) {
    if s != [] && (s[0] == '-' || s[0] == '+') then IsUnsignedDecimal(s[1..], false, false)
    else IsUnsignedDecimal(s, false, false)
  }

  /** A vertical offset, kept as its decimal text. */
  type Offset = s: string | IsOffsetText(s) witness "0"

  /** `float.TryParse` on a manifest value. */
  function ParseOffset(t: string): Option<Offset> {
    if IsOffsetText(t) then Some(t) else None
  }

  lemma {:induction false} UnsignedDecimalIsToken(s: string, dot: bool, digit: bool)
    requires IsUnsignedDecimal(s, dot, digit)
    ensures forall i :: 0 <= i < |s| ==> IsTokenChar(s[i])
    ensures digit || s != []
    decreases |s|
  {
    if s != [] {
      UnsignedDecimalIsToken(s[1..], if s[0] == '.' then true else dot, if s[0] == '.' then digit else true);
      assert forall i :: 1 <= i < |s| ==> s[i] == s[1..][i - 1];
    }
  }

  /** An offset is written as one manifest word and reads back as itself. */
  lemma OffsetRoundTrip(v: Offset)
    ensures IsToken(v)
    ensures ParseOffset(v) == Some(v)
  {
    if v[0] == '-' || v[0] == '+' {
      UnsignedDecimalIsToken(v[1..], false, false);
      assert forall i :: 1 <= i < |v| ==> v[i] == v[1..][i - 1];
    } else {
      UnsignedDecimalIsToken(v, false, false);
    }
  }

  /** One OBJ8 model of a definition: the package it lives in, its path inside that package,
      and optional overrides of its day and night textures. */
  datatype Obj8 = Obj8(package: string, path: string, texture: Option<string>, textureLit: Option<string>)

  /** What a definition can stand in for: an aircraft type, optionally an operator and a livery. */
  datatype Selector = Selector(icao: string, operator: Option<string>, livery: Option<string>)

  /** An OBJ8_AIRCRAFT definition. */
  datatype Obj8Aircraft = Obj8Aircraft(
    root: string, id: string, obj8s: set<Obj8>, vertOffset: Option<Offset>, matches: set<Selector>)
  {
    /** The names of the packages its models live in. */
    function Dependencies(): set<string> {
      set o | o in obj8s :: o.package
    }

    /** The condition under which `UnionWith` merges: equal id and equal vertical offset (the
        root is not compared). */
    predicate Mergeable(other: Obj8Aircraft) {
      id == other.id && vertOffset == other.vertOffset
    }

    /** Merges `other` into this definition when they are mergeable; reports whether it did. */
    function UnionWith(other: Obj8Aircraft): (r: (bool, Obj8Aircraft))
      ensures r.0 <==> Mergeable(other)
      ensures r.1.root == root && r.1.id == id && r.1.vertOffset == vertOffset
      ensures r.0 ==> r.1.obj8s == obj8s + other.obj8s && r.1.matches == matches + other.matches
      ensures !r.0 ==> r.1 == this
    {
      if Mergeable(other) then (true, this.(obj8s := obj8s + other.obj8s, matches := matches + other.matches))
      else (false, this)
    }

    /** A package holding just this definition, exporting the packages it depends on. */
    function Pack(): (p: Package)
      ensures p.root == root && p.aircraft == [this] && p.exportNames == Dependencies()
      ensures p.Valid()
      ensures p.Dependencies() == {}
    {
      var p := Package(root, Dependencies(), [this]);
      assert p.aircraft[..0] == [];
      assert Collect(p.aircraft, DependenciesOf) == Dependencies();
      p
    }
  }

  /** The identity `Package.UnionWith` merges by. */
  function Key(a: Obj8Aircraft): set<(string, Option<Offset>)> {
    {(a.id, a.vertOffset)}
  }

  function Obj8sOf(a: Obj8Aircraft): set<Obj8> {
    a.obj8s
  }

  function MatchesOf(a: Obj8Aircraft): set<Selector> {
    a.matches
  }

  function DependenciesOf(a: Obj8Aircraft): set<string> {
    a.Dependencies()
  }

  /** The union of `f` over the definitions of `s`. */
  function Collect<T>(s: seq<Obj8Aircraft>, f: Obj8Aircraft -> set<T>): set<T>
    decreases |s|
  {
    if s == [] then {} else Collect(s[..|s| - 1], f) + f(s[|s| - 1])
  }

  /** A CSL package: the directory of its manifest, the names it exports, and its definitions
      (held in insertion order). */
  datatype Package = Package(root: string, exportNames: set<string>, aircraft: seq<Obj8Aircraft>)
  {
    /** The packages its models refer to, less the ones it exports itself. */
    function Dependencies(): set<string> {
      Collect(aircraft, DependenciesOf) - exportNames
    }

    /** No two definitions could be merged with each other. */
    predicate Valid() {
      forall i, j :: 0 <= i < j < |aircraft| ==> !aircraft[i].Mergeable(aircraft[j])
    }

    /** What `UnionWith(aircraft)` computes: `a` merged into the first mergeable definition, or
        appended when there is none. */
    function WithAircraft(a: Obj8Aircraft): Package {
      match FirstMergeable(aircraft, a)
      case Some(i) => this.(aircraft := aircraft[i := aircraft[i].UnionWith(a).1])
      case None => this.(aircraft := aircraft + [a])
    }

    /** What `UnionWith(other)` computes. */
    function WithPackage(other: Package): Package {
      WithAll(this.(exportNames := exportNames + other.exportNames), other.aircraft)
    }

    /** `Package.UnionWith(Obj8Aircraft)`: the `Any` loop stops at the first definition whose
        `UnionWith` reports a merge. */
    method UnionWithAircraft(a: Obj8Aircraft) returns (r: Package)
      ensures r == WithAircraft(a)
    {
      var s := aircraft;
      var i := 0;
      var merged := false;
      while i < |s| && !merged
        invariant |s| == |aircraft| && 0 <= i <= |s|
        invariant forall j :: 0 <= j < i ==> !aircraft[j].Mergeable(a)
        invariant !merged ==> s == aircraft
        invariant merged ==> i < |aircraft| && aircraft[i].Mergeable(a) && s == aircraft[i := aircraft[i].UnionWith(a).1]
        decreases |s| - i, if merged then 0 else 1
      {
        var result := s[i].UnionWith(a);
        if result.0 {
          s := s[i := result.1];
          merged := true;
        } else {
          i := i + 1;
        }
      }
      FirstMergeableIs(aircraft, a, if merged then Some(i) else None);
      r := if merged then this.(aircraft := s) else this.(aircraft := s + [a]);
    }

    /** `Package.UnionWith(Package)`: export names united (CSLService/CSLService.cs:59 unites the
        set with itself, which changes nothing), then every definition of `other` added. */
    method UnionWith(other: Package) returns (r: Package)
      ensures r == WithPackage(other)
    {
      var names := exportNames + exportNames;
      names := names + other.exportNames;
      var base := this.(exportNames := names);
      assert base == this.(exportNames := exportNames + other.exportNames);
      r := base;
      var k := 0;
      while k < |other.aircraft|
        invariant 0 <= k <= |other.aircraft|
        invariant r == WithAll(base, other.aircraft[..k])
      {
        assert other.aircraft[..k + 1][..k] == other.aircraft[..k];
        r := r.UnionWithAircraft(other.aircraft[k]);
        k := k + 1;
      }
      assert other.aircraft[..k] == other.aircraft;
    }
  }

  /** The index of the first definition of `s` that `a` can merge into. */
  function FirstMergeable(s: seq<Obj8Aircraft>, a: Obj8Aircraft): (r: Option<nat>)
    ensures r.Some? ==> r.value < |s| && s[r.value].Mergeable(a)
    ensures forall j :: 0 <= j < |s| && (r.None? || j < r.value) ==> !s[j].Mergeable(a)
    decreases |s|
  {
    if s == [] then None
    else if s[0].Mergeable(a) then Some(0)
    else match FirstMergeable(s[1..], a)
      case Some(i) => Some(i + 1)
      case None => None
  }

  /** `FirstMergeable` is the unique index its contract describes. */
  lemma FirstMergeableIs(s: seq<Obj8Aircraft>, a: Obj8Aircraft, r: Option<nat>)
    requires r.Some? ==> r.value < |s| && s[r.value].Mergeable(a)
    requires forall j :: 0 <= j < |s| && (r.None? || j < r.value) ==> !s[j].Mergeable(a)
    ensures FirstMergeable(s, a) == r
  {
  }

  /** `p` with the definitions of `s` added one after the other. */
  function WithAll(p: Package, s: seq<Obj8Aircraft>): Package
    decreases |s|
  {
    if s == [] then p else WithAll(p, s[..|s| - 1]).WithAircraft(s[|s| - 1])
  }

  lemma CollectAppend<T>(s: seq<Obj8Aircraft>, x: Obj8Aircraft, f: Obj8Aircraft -> set<T>)
    ensures Collect(s + [x], f) == Collect(s, f) + f(x)
  {
    assert (s + [x])[..|s|] == s;
  }

  lemma {:induction false} CollectContains<T>(s: seq<Obj8Aircraft>, i: nat, f: Obj8Aircraft -> set<T>)
    requires i < |s|
    ensures f(s[i]) <= Collect(s, f)
    decreases |s|
  {
    if i < |s| - 1 {
      assert s[..|s| - 1][i] == s[i];
      CollectContains(s[..|s| - 1], i, f);
    }
  }

  /** Replacing a definition by one whose `f` is larger adds exactly that larger set. */
  lemma {:induction false} CollectUpdate<T>(s: seq<Obj8Aircraft>, i: nat, x: Obj8Aircraft, f: Obj8Aircraft -> set<T>)
    requires i < |s| && f(s[i]) <= f(x)
    ensures Collect(s[i := x], f) == Collect(s, f) + f(x)
    decreases |s|
  {
    var n := |s| - 1;
    if i == n {
      assert s[i := x] == s[..n] + [x];
      CollectAppend(s[..n], x, f);
    } else {
      assert s[i := x][..n] == s[..n][i := x];
      CollectUpdate(s[..n], i, x, f);
    }
  }

  /** The models, selectors, referenced packages and keys of `p.WithAircraft(a)` are those of
      `p` together with those of `a`: nothing is lost and nothing is invented. */
  lemma WithAircraftContents(p: Package, a: Obj8Aircraft)
    ensures Collect(p.WithAircraft(a).aircraft, Obj8sOf) == Collect(p.aircraft, Obj8sOf) + a.obj8s
    ensures Collect(p.WithAircraft(a).aircraft, MatchesOf) == Collect(p.aircraft, MatchesOf) + a.matches
    ensures Collect(p.WithAircraft(a).aircraft, DependenciesOf) == Collect(p.aircraft, DependenciesOf) + a.Dependencies()
    ensures Collect(p.WithAircraft(a).aircraft, Key) == Collect(p.aircraft, Key) + Key(a)
  {
    match FirstMergeable(p.aircraft, a)
    case None =>
      CollectAppend(p.aircraft, a, Obj8sOf);
      CollectAppend(p.aircraft, a, MatchesOf);
      CollectAppend(p.aircraft, a, DependenciesOf);
      CollectAppend(p.aircraft, a, Key);
    case Some(i) =>
      var x := p.aircraft[i].UnionWith(a).1;
      assert Obj8sOf(x) == Obj8sOf(p.aircraft[i]) + a.obj8s;
      CollectUpdate(p.aircraft, i, x, Obj8sOf);
      CollectContains(p.aircraft, i, Obj8sOf);
      assert MatchesOf(x) == MatchesOf(p.aircraft[i]) + a.matches;
      CollectUpdate(p.aircraft, i, x, MatchesOf);
      CollectContains(p.aircraft, i, MatchesOf);
      assert DependenciesOf(x) == DependenciesOf(p.aircraft[i]) + a.Dependencies();
      CollectUpdate(p.aircraft, i, x, DependenciesOf);
      CollectContains(p.aircraft, i, DependenciesOf);
      CollectUpdate(p.aircraft, i, x, Key);
  }

  /** Adding a definition keeps a package free of mergeable pairs, and the package grows by
      one definition exactly when nothing could absorb the new one. */
  lemma WithAircraftValid(p: Package, a: Obj8Aircraft)
    requires p.Valid()
    ensures p.WithAircraft(a).Valid()
    ensures p.WithAircraft(a).root == p.root && p.WithAircraft(a).exportNames == p.exportNames
    ensures |p.WithAircraft(a).aircraft| == |p.aircraft| + (if FirstMergeable(p.aircraft, a).None? then 1 else 0)
  {
    var r := p.WithAircraft(a);
    match FirstMergeable(p.aircraft, a)
    case None =>
      forall i, j | 0 <= i < j < |r.aircraft| ensures !r.aircraft[i].Mergeable(r.aircraft[j]) {
        if j == |p.aircraft| {
          assert r.aircraft[j] == a;
        }
      }
    case Some(k) =>
      forall i, j | 0 <= i < j < |r.aircraft| ensures !r.aircraft[i].Mergeable(r.aircraft[j]) {
        assert r.aircraft[i].Mergeable(r.aircraft[j]) <==> p.aircraft[i].Mergeable(p.aircraft[j]);
      }
  }

  /** `UnionWith(other)` never loses a model, a selector or a definition key of either package,
      adds none, unites the export names, keeps the package free of mergeable pairs, and its
      dependencies are the joint references less the joint export names. */
  lemma {:induction false} WithAllContents(p: Package, s: seq<Obj8Aircraft>)
    requires p.Valid()
    ensures WithAll(p, s).Valid()
    ensures WithAll(p, s).root == p.root && WithAll(p, s).exportNames == p.exportNames
    ensures Collect(WithAll(p, s).aircraft, Obj8sOf) == Collect(p.aircraft, Obj8sOf) + Collect(s, Obj8sOf)
    ensures Collect(WithAll(p, s).aircraft, MatchesOf) == Collect(p.aircraft, MatchesOf) + Collect(s, MatchesOf)
    ensures Collect(WithAll(p, s).aircraft, DependenciesOf) == Collect(p.aircraft, DependenciesOf) + Collect(s, DependenciesOf)
    ensures Collect(WithAll(p, s).aircraft, Key) == Collect(p.aircraft, Key) + Collect(s, Key)
    decreases |s|
  {
    if s != [] {
      var n := |s| - 1;
      WithAllContents(p, s[..n]);
      WithAircraftContents(WithAll(p, s[..n]), s[n]);
      WithAircraftValid(WithAll(p, s[..n]), s[n]);
    }
  }

  lemma WithPackageContents(p: Package, q: Package)
    requires p.Valid()
    ensures p.WithPackage(q).Valid()
    ensures p.WithPackage(q).root == p.root
    ensures p.WithPackage(q).exportNames == p.exportNames + q.exportNames
    ensures Collect(p.WithPackage(q).aircraft, Obj8sOf) == Collect(p.aircraft, Obj8sOf) + Collect(q.aircraft, Obj8sOf)
    ensures Collect(p.WithPackage(q).aircraft, MatchesOf) == Collect(p.aircraft, MatchesOf) + Collect(q.aircraft, MatchesOf)
    ensures Collect(p.WithPackage(q).aircraft, Key) == Collect(p.aircraft, Key) + Collect(q.aircraft, Key)
    ensures p.WithPackage(q).Dependencies()
         == (Collect(p.aircraft, DependenciesOf) + Collect(q.aircraft, DependenciesOf)) - (p.exportNames + q.exportNames)
  {
    WithAllContents(p.(exportNames := p.exportNames + q.exportNames), q.aircraft);
  }

  /** `a` is already contained in some definition of `p` with its key. */
  predicate Absorbs(p: Package, a: Obj8Aircraft) {
    exists i :: 0 <= i < |p.aircraft| && p.aircraft[i].Mergeable(a)
      && a.obj8s <= p.aircraft[i].obj8s && a.matches <= p.aircraft[i].matches
  }

  /** Adding an absorbed definition to a valid package changes nothing. */
  lemma WithAbsorbed(p: Package, a: Obj8Aircraft)
    requires p.Valid() && Absorbs(p, a)
    ensures p.WithAircraft(a) == p
  {
    var i :| 0 <= i < |p.aircraft| && p.aircraft[i].Mergeable(a)
      && a.obj8s <= p.aircraft[i].obj8s && a.matches <= p.aircraft[i].matches;
    var k := FirstMergeable(p.aircraft, a).value;
    if k != i {
      assert p.aircraft[k].Mergeable(p.aircraft[i]);
      assert false;
    }
    assert p.aircraft[i].UnionWith(a).1 == p.aircraft[i];
    assert p.aircraft[i := p.aircraft[i]] == p.aircraft;
  }

  /** Adding a definition keeps every definition that was absorbed absorbed. */
  lemma WithAircraftAbsorbs(p: Package, a: Obj8Aircraft, b: Obj8Aircraft)
    requires Absorbs(p, b)
    ensures Absorbs(p.WithAircraft(a), b)
  {
    var r := p.WithAircraft(a);
    var i :| 0 <= i < |p.aircraft| && p.aircraft[i].Mergeable(b)
      && b.obj8s <= p.aircraft[i].obj8s && b.matches <= p.aircraft[i].matches;
    assert r.aircraft[i].Mergeable(b) && b.obj8s <= r.aircraft[i].obj8s && b.matches <= r.aircraft[i].matches;
  }

  lemma {:induction false} WithAllAbsorbs(p: Package, s: seq<Obj8Aircraft>)
    requires |p.aircraft| > 0 || s != []
    ensures forall j :: 0 <= j < |s| ==> Absorbs(WithAll(p, s), s[j])
    decreases |s|
  {
    if s != [] {
      var n := |s| - 1;
      if n > 0 {
        WithAllAbsorbs(p, s[..n]);
      }
      forall j | 0 <= j < |s| ensures Absorbs(WithAll(p, s), s[j]) {
        if j < n {
          assert s[j] == s[..n][j];
          WithAircraftAbsorbs(WithAll(p, s[..n]), s[n], s[j]);
        } else {
          WithAircraftAbsorbsNew(WithAll(p, s[..n]), s[n]);
        }
      }
    }
  }

  lemma WithAircraftAbsorbsNew(p: Package, a: Obj8Aircraft)
    ensures Absorbs(p.WithAircraft(a), a)
  {
    var r := p.WithAircraft(a);
    match FirstMergeable(p.aircraft, a)
    case None =>
      assert r.aircraft[|p.aircraft|] == a;
    case Some(k) =>
      assert r.aircraft[k].Mergeable(a) && a.obj8s <= r.aircraft[k].obj8s && a.matches <= r.aircraft[k].matches;
  }

  lemma {:induction false} WithAllOfAbsorbed(p: Package, s: seq<Obj8Aircraft>)
    requires p.Valid()
    requires forall j :: 0 <= j < |s| ==> Absorbs(p, s[j])
    ensures WithAll(p, s) == p
    decreases |s|
  {
    if s != [] {
      var n := |s| - 1;
      WithAllOfAbsorbed(p, s[..n]);
      WithAbsorbed(p, s[n]);
    }
  }

  /** Uniting a valid package with the same package twice is the same as once: the second
      `UnionWith` finds every definition already merged. */
  lemma WithPackageTwice(p: Package, q: Package)
    requires p.Valid()
    ensures p.WithPackage(q).WithPackage(q) == p.WithPackage(q)
  {
    var r := p.WithPackage(q);
    WithPackageContents(p, q);
    var base := p.(exportNames := p.exportNames + q.exportNames);
    if q.aircraft != [] {
      WithAllAbsorbs(base, q.aircraft);
    }
    assert r.(exportNames := r.exportNames + q.exportNames) == r;
    WithAllOfAbsorbed(r, q.aircraft);
  }
}
