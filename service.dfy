/** The state of `CSLService` (CSLService/CSLService.cs:160-263, 442-620): the package dictionary,
    the classification table, the registry of definitions, and the queries over them. */
module Service {
  import opened Wrappers
  import opened Records
  import opened Tables
  import opened Matching
  import opened Bundle
  import opened Xsb

  /** What the service logs. */
  datatype Event = Unrelated(lineNumber: nat, text: string) | Duplicated(root: string, id: string)

  /** The warnings of the related-types file as logged. */
  function WarningEvents(ws: seq<Warning>): (es: seq<Event>)
    ensures |es| == |ws|
    ensures forall i :: 0 <= i < |ws| ==> es[i] == Unrelated(ws[i].lineNumber, ws[i].text)
  {
    seq(|ws|, i requires 0 <= i < |ws| => Unrelated(ws[i].lineNumber, ws[i].text))
  }

  // ----- The package dictionary -----

  /** The package dictionary: every export name to the index, in `table`, of the package object
      stored under it. Several names can share one package object. */
  datatype Store = Store(names: map<string, nat>, table: seq<Package>)

  /** Every name leads to a valid package that exports it, and every package is stored under
      some name. */
  ghost predicate StoreOk(s: Store) {
    && (forall e :: e in s.names ==> s.names[e] < |s.table| && e in s.table[s.names[e]].exportNames)
    && (forall i :: 0 <= i < |s.table| ==> s.table[i].Valid())
    && (forall i :: 0 <= i < |s.table| ==> i in s.names.Values)
  }

  /** The packages stored under the names `done` of `p` that were already present. */
  function Targets(s: Store, done: set<string>): set<nat> {
    set e | e in done && e in s.names :: s.names[e]
  }

  /** `table` with the packages at `targets` united with `p`. */
  function MergedTable(table: seq<Package>, targets: set<nat>, p: Package): seq<Package> {
    seq(|table|, i requires 0 <= i < |table| => if i in targets then table[i].WithPackage(p) else table[i])
  }

  /** The dictionary after `AddOrUpdate` of `p` under its names `done`: a present name's package
      is united with `p`, an absent name gets `p` itself. The order of the names does not matter. */
  function AddNames(s: Store, p: Package, done: set<string>): Store {
    var newNames := done - s.names.Keys;
    Store(s.names + (map e | e in newNames :: |s.table|),
      MergedTable(s.table, Targets(s, done), p) + (if newNames == {} then [] else [p]))
  }

  /** The dictionary after `p` is added under all its export names. */
  function Added(s: Store, p: Package): Store {
    AddNames(s, p, p.exportNames)
  }

  /** The dictionary after the packages `ps` are added in order. */
  function AddedAll(s: Store, ps: seq<Package>): Store
    decreases |ps|
  {
    if ps == [] then s else Added(AddedAll(s, ps[..|ps| - 1]), ps[|ps| - 1])
  }

  /** One `AddOrUpdate` of `p` under name `e`, where `n` is the size of the table before `p`. */
  function AddName(s: Store, p: Package, e: string, n: nat): Store
    requires e in s.names ==> s.names[e] < |s.table|
  {
    if e in s.names then
      var i := s.names[e];
      Store(s.names, s.table[i := s.table[i].WithPackage(p)])
    else Store(s.names[e := n], if |s.table| == n then s.table + [p] else s.table)
  }

  /** One more name: `AddOrUpdate` on the dictionary built from the names `done`. */
  lemma AddNameStep(s: Store, p: Package, done: set<string>, e: string, t: Store)
    requires StoreOk(s) && e !in done && t == AddNames(s, p, done)
    ensures e in t.names ==> t.names[e] < |t.table|
    ensures AddName(t, p, e, |s.table|) == AddNames(s, p, done + {e})
  {
    if e in s.names {
      AddNameMerge(s, p, done, e);
    } else {
      AddNameFresh(s, p, done, e);
    }
  }

  lemma AddNamesStart(s: Store, p: Package)
    ensures AddNames(s, p, {}) == s
  {
    assert MergedTable(s.table, {}, p) == s.table;
  }

  lemma AddNameMerge(s: Store, p: Package, done: set<string>, e: string)
    requires StoreOk(s) && e !in done && e in s.names
    ensures var t := AddNames(s, p, done);
      e in t.names && t.names[e] == s.names[e] < |t.table|
      && AddName(t, p, e, |s.table|) == AddNames(s, p, done + {e})
  {
    var t := AddNames(s, p, done);
    var i := s.names[e];
    var merged := MergedTable(s.table, Targets(s, done), p);
    var merged' := MergedTable(s.table, Targets(s, done + {e}), p);
    assert Targets(s, done + {e}) == Targets(s, done) + {i};
    assert done + {e} - s.names.Keys == done - s.names.Keys;
    if i in Targets(s, done) {
      WithPackageTwice(s.table[i], p);
    }
    assert merged[i := s.table[i].WithPackage(p)] == merged';
    var tail := if done - s.names.Keys == {} then [] else [p];
    assert (merged + tail)[i := s.table[i].WithPackage(p)] == merged[i := s.table[i].WithPackage(p)] + tail;
  }

  lemma AddNameFresh(s: Store, p: Package, done: set<string>, e: string)
    requires e !in done && e !in s.names
    ensures var t := AddNames(s, p, done);
      e !in t.names && AddName(t, p, e, |s.table|) == AddNames(s, p, done + {e})
  {
    var newNames := done - s.names.Keys;
    assert done + {e} - s.names.Keys == newNames + {e};
    assert Targets(s, done + {e}) == Targets(s, done);
    assert s.names + (map x | x in newNames + {e} :: |s.table|)
        == (s.names + (map x | x in newNames :: |s.table|))[e := |s.table|];
  }

  /** Adding a valid package keeps the dictionary well formed. */
  lemma AddedOk(s: Store, p: Package)
    requires StoreOk(s) && p.Valid()
    ensures StoreOk(Added(s, p))
  {
    var t := Added(s, p);
    var newNames := p.exportNames - s.names.Keys;
    var merged := MergedTable(s.table, Targets(s, p.exportNames), p);
    forall i | 0 <= i < |s.table|
      ensures merged[i].Valid() && s.table[i].exportNames <= merged[i].exportNames
    {
      WithPackageContents(s.table[i], p);
    }
    forall i | 0 <= i < |t.table|
      ensures i in t.names.Values
    {
      if i < |s.table| {
        assert i in s.names.Values;
        var e :| e in s.names && s.names[e] == i;
        assert t.names[e] == i;
      } else {
        var e :| e in newNames;
        assert t.names[e] == i;
      }
    }
  }

  /** Adding `p` loses no name and gives every name of `p` a package that holds all of `p`'s
      models and selectors. */
  lemma AddedKeeps(s: Store, p: Package)
    requires StoreOk(s) && p.Valid()
    ensures var t := Added(s, p);
      && (forall e :: e in s.names ==> e in t.names && t.names[e] == s.names[e])
      && (forall e :: e in p.exportNames ==>
        e in t.names && t.names[e] < |t.table|
        && Collect(p.aircraft, Obj8sOf) <= Collect(t.table[t.names[e]].aircraft, Obj8sOf)
        && Collect(p.aircraft, MatchesOf) <= Collect(t.table[t.names[e]].aircraft, MatchesOf))
  {
    var t := Added(s, p);
    forall e | e in p.exportNames
      ensures e in t.names && t.names[e] < |t.table|
      ensures Collect(p.aircraft, Obj8sOf) <= Collect(t.table[t.names[e]].aircraft, Obj8sOf)
      ensures Collect(p.aircraft, MatchesOf) <= Collect(t.table[t.names[e]].aircraft, MatchesOf)
    {
      if e in s.names {
        var i := s.names[e];
        assert i in Targets(s, p.exportNames);
        WithPackageContents(s.table[i], p);
      }
    }
  }

  lemma {:induction false} AddedAllOk(s: Store, ps: seq<Package>)
    requires StoreOk(s) && forall k :: 0 <= k < |ps| ==> ps[k].Valid()
    ensures StoreOk(AddedAll(s, ps))
    decreases |ps|
  {
    if ps != [] {
      AddedAllOk(s, ps[..|ps| - 1]);
      AddedOk(AddedAll(s, ps[..|ps| - 1]), ps[|ps| - 1]);
    }
  }

  // ----- The registry -----

  /** The registry key of a definition. */
  function RegistryKey(a: Obj8Aircraft): string {
    a.root + "/" + a.id
  }

  /** The definitions of the packages of `table`, package by package. */
  function Flatten(table: seq<Package>): seq<Obj8Aircraft>
    decreases |table|
  {
    if table == [] then [] else Flatten(table[..|table| - 1]) + table[|table| - 1].aircraft
  }

  /** The registry built from `s` in order: the first definition with a key keeps it. */
  function RegistryOf(s: seq<Obj8Aircraft>): map<string, Obj8Aircraft>
    decreases |s|
  {
    if s == [] then map[]
    else
      var m := RegistryOf(s[..|s| - 1]);
      var a := s[|s| - 1];
      if RegistryKey(a) in m then m else m[RegistryKey(a) := a]
  }

  /** The errors logged while building the registry from `s`: one per definition whose key was
      already taken. */
  function DuplicateLog(s: seq<Obj8Aircraft>): seq<Event>
    decreases |s|
  {
    if s == [] then []
    else
      var a := s[|s| - 1];
      DuplicateLog(s[..|s| - 1])
        + (if RegistryKey(a) in RegistryOf(s[..|s| - 1]) then [Duplicated(a.root, a.id)] else [])
  }

  /** The registry holds exactly the keys of `s`, each for a definition of `s` with that key. */
  lemma {:induction false} RegistryContents(s: seq<Obj8Aircraft>)
    ensures RegistryOf(s).Keys == set a | a in s :: RegistryKey(a)
    ensures forall k :: k in RegistryOf(s) ==> RegistryOf(s)[k] in s && RegistryKey(RegistryOf(s)[k]) == k
    decreases |s|
  {
    if s != [] {
      var n := |s| - 1;
      RegistryContents(s[..n]);
      assert s == s[..n] + [s[n]];
      assert forall a :: a in s <==> a in s[..n] || a == s[n];
    }
  }

  /** The first definition with a key is the one registered. */
  lemma {:induction false} RegistryFirstWins(s: seq<Obj8Aircraft>, i: nat)
    requires i < |s| && forall j :: 0 <= j < i ==> RegistryKey(s[j]) != RegistryKey(s[i])
    ensures RegistryKey(s[i]) in RegistryOf(s) && RegistryOf(s)[RegistryKey(s[i])] == s[i]
    decreases |s|
  {
    var n := |s| - 1;
    if i < n {
      RegistryFirstWins(s[..n], i);
    } else {
      RegistryContents(s[..n]);
    }
  }

  /** Every definition is either registered or logged as a duplicate. */
  lemma {:induction false} DuplicateCount(s: seq<Obj8Aircraft>)
    ensures |DuplicateLog(s)| + |RegistryOf(s)| == |s|
    ensures forall e :: e in DuplicateLog(s) ==> e.Duplicated? && e.root + "/" + e.id in RegistryOf(s)
    decreases |s|
  {
    if s != [] {
      var n := |s| - 1;
      DuplicateCount(s[..n]);
      var m := RegistryOf(s[..n]);
      if RegistryKey(s[n]) !in m {
        assert |m[RegistryKey(s[n]) := s[n]]| == |m| + 1;
      }
    }
  }

  lemma RegistryStep(s: seq<Obj8Aircraft>, i: nat)
    requires i < |s|
    ensures RegistryOf(s[..i + 1]) ==
      var m := RegistryOf(s[..i]); if RegistryKey(s[i]) in m then m else m[RegistryKey(s[i]) := s[i]]
    ensures DuplicateLog(s[..i + 1]) == DuplicateLog(s[..i])
      + (if RegistryKey(s[i]) in RegistryOf(s[..i]) then [Duplicated(s[i].root, s[i].id)] else [])
  {
    assert s[..i + 1][..i] == s[..i];
  }

  // ----- Matching -----

  /** Some definition of `values` has a selector. */
  ghost predicate HasSelectors(values: set<Obj8Aircraft>) {
    exists a, m :: a in values && m in a.matches
  }

  /** `a` is a definition of `values` with a selector that scores, under the wake rule `rule`,
      no worse than any selector of any definition of `values`. */
  ghost predicate IsBest(
    table: map<string, Aircraft>, req: Request, values: set<Obj8Aircraft>, a: Obj8Aircraft, rule: WakeRule)
  {
    a in values
    && exists m :: (m in a.matches
      && forall a', m' :: a' in values && m' in a'.matches ==> Quality(table, req, m, rule) <= Quality(table, req, m', rule))
  }

  /** The test's promise about a query for a known type, given a definition with a selector of
      exactly that type: the chosen definition has a selector of the type's group, and of the
      type itself when it has no group or when no airline and no livery are asked for. */
  lemma BestMeetsTest(
    table: map<string, Aircraft>, req: Request, values: set<Obj8Aircraft>, b: Obj8Aircraft, rule: WakeRule)
    requires TableOk(table) && req.icao.Some? && req.icao.value in table
    requires IsBest(table, req, values, b, rule)
    requires exists a, m :: a in values && m in a.matches && m.icao == req.icao.value
    ensures exists m :: m in b.matches && m.icao in Preferred(table, req.icao.value)
    ensures table[req.icao.value].related.None? ==> exists m :: m in b.matches && m.icao == req.icao.value
    ensures Empty(req.airline) && Empty(req.livery) ==> exists m :: m in b.matches && m.icao == req.icao.value
  {
    var a, m0 :| a in values && m0 in a.matches && m0.icao == req.icao.value;
    var m :| m in b.matches
      && forall a', m' :: a' in values && m' in a'.matches ==> Quality(table, req, m, rule) <= Quality(table, req, m', rule);
    ExactIcaoWins(table, req, m0, m, rule);
    if Empty(req.airline) && Empty(req.livery) {
      ExactIcaoOnly(table, req, m0, m, rule);
    }
  }

  /** Some selector of `a` scores `q` under `score`. */
  ghost predicate Reaches(score: Selector -> int, a: Obj8Aircraft, q: int) {
    exists m :: m in a.matches && score(m) == q
  }

  /** The scan of `MatchCore` so far, under the scoring `score`: every selector of the
      definitions `done` and every selector `scanned` of the current one scores no better than
      `bestQ`, which each definition of `best` reaches; `best` is empty only while no selector
      has been seen. */
  ghost predicate ScanOk(
    score: Selector -> int, values: set<Obj8Aircraft>,
    done: set<Obj8Aircraft>, scanned: set<Selector>, bestQ: int, best: seq<Obj8Aircraft>)
  {
    && (forall b :: b in best ==> b in values && Reaches(score, b, bestQ))
    && (forall a', m' :: a' in done && m' in a'.matches ==> bestQ <= score(m'))
    && (forall m' :: m' in scanned ==> bestQ <= score(m'))
    && (best == [] ==> bestQ == WorstScore && scanned == {} && forall a' :: a' in done ==> a'.matches == {})
  }

  /** The scoring of selectors for the query `req` under the wake rule `rule`. */
  ghost function ScoreOf(table: map<string, Aircraft>, req: Request, rule: WakeRule): Selector -> int {
    m => Quality(table, req, m, rule)
  }

  /** One step of the scan over the selectors: a better score starts the list of best
      definitions afresh, an equal one joins it, a worse one changes nothing. */
  function Rank(q: int, bestQ: int, best: seq<Obj8Aircraft>, a: Obj8Aircraft): (int, seq<Obj8Aircraft>) {
    if q < bestQ then (q, [a]) else if q == bestQ then (bestQ, best + [a]) else (bestQ, best)
  }

  lemma ScanStep(
    score: Selector -> int, values: set<Obj8Aircraft>,
    done: set<Obj8Aircraft>, a: Obj8Aircraft, scanned: set<Selector>, bestQ: int, best: seq<Obj8Aircraft>,
    m: Selector)
    requires ScanOk(score, values, done, scanned, bestQ, best)
    requires a in values && m in a.matches && score(m) <= WorstScore
    ensures var (bestQ', best') := Rank(score(m), bestQ, best, a);
      ScanOk(score, values, done, scanned + {m}, bestQ', best')
  {
    var q := score(m);
    var (bestQ', best') := Rank(q, bestQ, best, a);
    assert Reaches(score, a, q);
    assert bestQ' <= bestQ;
    forall a', m' | a' in done && m' in a'.matches
      ensures bestQ' <= score(m')
    {
      assert bestQ <= score(m');
    }
    forall m' | m' in scanned + {m}
      ensures bestQ' <= score(m')
    {
      if m' != m {
        assert bestQ <= score(m');
      }
    }
  }

  lemma ScanNext(
    score: Selector -> int, values: set<Obj8Aircraft>,
    done: set<Obj8Aircraft>, a: Obj8Aircraft, bestQ: int, best: seq<Obj8Aircraft>)
    requires ScanOk(score, values, done, a.matches, bestQ, best)
    ensures ScanOk(score, values, done + {a}, {}, bestQ, best)
  {
  }

  lemma ScanEnd(
    table: map<string, Aircraft>, req: Request, rule: WakeRule, score: Selector -> int, values: set<Obj8Aircraft>,
    bestQ: int, best: seq<Obj8Aircraft>)
    requires forall m :: score(m) == Quality(table, req, m, rule)
    requires ScanOk(score, values, values, {}, bestQ, best)
    ensures best == [] <==> !HasSelectors(values)
    ensures forall i :: 0 <= i < |best| ==> IsBest(table, req, values, best[i], rule)
  {
    forall i | 0 <= i < |best|
      ensures IsBest(table, req, values, best[i], rule)
    {
      assert best[i] in best;
      var m :| m in best[i].matches && score(m) == bestQ;
    }
    if best != [] {
      assert best[0] in best;
      var m :| m in best[0].matches && score(m) == bestQ;
    }
  }

  // ----- The service -----

  class CslService {
    /** `_packages`, as the names and the distinct package objects they lead to. */
    var names: map<string, nat>
    var table: seq<Package>
    /** `_doc8643`: the classification by designator. */
    var doc8643: map<string, Aircraft>
    /** `_aircraft`: the registry of definitions by `root/id`. */
    var aircraft: map<string, Obj8Aircraft>
    /** What has been logged. */
    var log: seq<Event>

    ghost predicate Valid()
      reads this
    {
      StoreOk(Store(names, table))
    }

    /** A service with empty caches. */
    constructor()
      ensures Valid()
      ensures names == map[] && table == [] && doc8643 == map[] && aircraft == map[] && log == []
    {
      names, table, doc8643, aircraft, log := map[], [], map[], map[], [];
    }

    /** The root of the package stored under each export name. */
    function Roots(): (roots: map<string, string>)
      reads this
      requires Valid()
      ensures roots.Keys == names.Keys
      ensures forall e :: e in names ==> roots[e] == table[names[e]].root
    {
      map e | e in names :: table[names[e]].root
    }

    /** The dictionary after `AddOrUpdate` of `p` under each of its export names, in any
        order: a present name's package is united with `p`, an absent name gets `p`. */
    method AddOrUpdateAll(p: Package) returns (ns: map<string, nat>, tb: seq<Package>)
      requires Valid()
      ensures Store(ns, tb) == Added(Store(names, table), p)
    {
      ghost var s := Store(names, table);
      ns, tb := names, table;
      var n: nat := |tb|;
      var todo := p.exportNames;
      AddNamesStart(s, p);
      while todo != {}
        invariant todo <= p.exportNames
        invariant Store(ns, tb) == AddNames(s, p, p.exportNames - todo)
        decreases |todo|
      {
        var e :| e in todo;
        ghost var t := Store(ns, tb);
        AddNameStep(s, p, p.exportNames - todo, e, t);
        if e in ns {
          var i := ns[e];
          var merged := tb[i].UnionWith(p);
          tb := tb[i := merged];
        } else {
          if |tb| == n {
            tb := tb + [p];
          }
          ns := ns[e := n];
        }
        assert Store(ns, tb) == AddName(t, p, e, n);
        SetStep(p.exportNames, todo, e);
        todo := todo - {e};
      }
      assert p.exportNames - todo == p.exportNames;
    }

    /** Adds `p` to the package dictionary. */
    method AddPackage(p: Package)
      requires Valid() && p.Valid()
      modifies this
      ensures Valid()
      ensures Store(names, table) == Added(old(Store(names, table)), p)
      ensures doc8643 == old(doc8643) && aircraft == old(aircraft) && log == old(log)
    {
      AddedOk(Store(names, table), p);
      names, table := AddOrUpdateAll(p);
    }

    /** Builds the registry from the definitions of the stored packages: the first definition
        with a key keeps it, and each later one is logged as a duplicate. */
    method BuildRegistry()
      requires Valid()
      modifies this
      ensures Valid()
      ensures aircraft == RegistryOf(Flatten(table))
      ensures log == old(log) + DuplicateLog(Flatten(table))
      ensures names == old(names) && table == old(table) && doc8643 == old(doc8643)
    {
      var all := Flatten(table);
      var d: map<string, Obj8Aircraft> := map[];
      var i := 0;
      assert all[..0] == [];
      while i < |all|
        invariant i <= |all| && d == RegistryOf(all[..i]) && log == old(log) + DuplicateLog(all[..i])
        invariant names == old(names) && table == old(table) && doc8643 == old(doc8643)
        decreases |all| - i
      {
        var a := all[i];
        RegistryStep(all, i);
        var key := a.root + "/" + a.id;
        if key in d {
          log := log + [Duplicated(a.root, a.id)];
        } else {
          d := d[key := a];
        }
        i := i + 1;
      }
      assert all[..i] == all;
      aircraft := d;
    }

    /** `CachePackagesAsync` over the packages `packages` the manifests yield, in order. */
    method CachePackages(packages: seq<Package>)
      requires Valid() && forall k :: 0 <= k < |packages| ==> packages[k].Valid()
      modifies this
      ensures Valid()
      ensures Store(names, table) == AddedAll(old(Store(names, table)), packages)
      ensures aircraft == RegistryOf(Flatten(table))
      ensures log == old(log) + DuplicateLog(Flatten(table))
      ensures doc8643 == old(doc8643)
    {
      var k := 0;
      while k < |packages|
        invariant k <= |packages| && Valid()
        invariant Store(names, table) == AddedAll(old(Store(names, table)), packages[..k])
        invariant doc8643 == old(doc8643) && log == old(log)
        decreases |packages| - k
      {
        assert packages[..k + 1][..k] == packages[..k];
        AddPackage(packages[k]);
        k := k + 1;
      }
      assert packages[..k] == packages;
      BuildRegistry();
    }

    /** `CacheDoc8643Async`: each decoded line replaces the entry of its designator. */
    method CacheDoc8643(lines: seq<string>)
      modifies this
      ensures doc8643 == Doc8643Table(old(doc8643), lines)
      ensures names == old(names) && table == old(table) && aircraft == old(aircraft) && log == old(log)
    {
      var i := 0;
      while i < |lines|
        invariant i <= |lines| && doc8643 == Doc8643Table(old(doc8643), lines[..i])
        invariant names == old(names) && table == old(table) && aircraft == old(aircraft) && log == old(log)
        decreases |lines| - i
      {
        assert lines[..i + 1][..i] == lines[..i];
        var r := ParseDoc8643Line(lines[i]);
        if r.Some? {
          doc8643 := doc8643[r.value.designator := r.value];
        }
        i := i + 1;
      }
      assert lines[..i] == lines;
    }

    /** Relates the known types of group `s` to it. */
    method RelateGroup(s: set<string>)
      modifies this
      ensures doc8643 == Annotate(old(doc8643), s)
      ensures names == old(names) && table == old(table) && aircraft == old(aircraft) && log == old(log)
    {
      var todo := s;
      while todo != {}
        invariant todo <= s
        invariant doc8643 == map k | k in old(doc8643) ::
          if k in s - todo then old(doc8643)[k].(related := Some(s)) else old(doc8643)[k]
        invariant names == old(names) && table == old(table) && aircraft == old(aircraft) && log == old(log)
        decreases |todo|
      {
        var t :| t in todo;
        if t in doc8643 {
          doc8643 := doc8643[t := doc8643[t].(related := Some(s))];
        }
        assert s - (todo - {t}) == (s - todo) + {t};
        todo := todo - {t};
      }
      assert s - todo == s;
    }

    /** `CacheRelatedAsync`: the warnings of the file are logged, and each group, in order,
        becomes the group of every known type in it. */
    method CacheRelated(lines: seq<string>)
      modifies this
      ensures doc8643 == AnnotateAll(old(doc8643), RelatedOf(lines).groups)
      ensures log == old(log) + WarningEvents(RelatedOf(lines).warnings)
      ensures names == old(names) && table == old(table) && aircraft == old(aircraft)
    {
      var file := ParseRelated(lines);
      log := log + WarningEvents(file.warnings);
      var k := 0;
      while k < |file.groups|
        invariant k <= |file.groups| && doc8643 == AnnotateAll(old(doc8643), file.groups[..k])
        invariant log == old(log) + WarningEvents(file.warnings)
        invariant names == old(names) && table == old(table) && aircraft == old(aircraft)
        decreases |file.groups| - k
      {
        assert file.groups[..k + 1][..k] == file.groups[..k];
        RelateGroup(file.groups[k]);
        k := k + 1;
      }
      assert file.groups[..k] == file.groups;
    }

    /** `ClearCache`: all three caches emptied; the log stays. */
    method ClearCache()
      modifies this
      ensures Valid()
      ensures names == map[] && table == [] && doc8643 == map[] && aircraft == map[] && log == old(log)
    {
      names, table, doc8643, aircraft := map[], [], map[], map[];
    }

    /** `StartAsync`: the classification, then the related groups, then the packages. A well
        formed classification stays well formed. */
    method Start(doc8643Lines: seq<string>, relatedLines: seq<string>, packages: seq<Package>)
      requires Valid() && forall k :: 0 <= k < |packages| ==> packages[k].Valid()
      modifies this
      ensures Valid()
      ensures doc8643 == AnnotateAll(Doc8643Table(old(doc8643), doc8643Lines), RelatedOf(relatedLines).groups)
      ensures TableOk(old(doc8643)) ==> TableOk(doc8643)
      ensures Store(names, table) == AddedAll(old(Store(names, table)), packages)
      ensures aircraft == RegistryOf(Flatten(table))
      ensures log == old(log) + WarningEvents(RelatedOf(relatedLines).warnings) + DuplicateLog(Flatten(table))
    {
      CacheDoc8643(doc8643Lines);
      CacheRelated(relatedLines);
      CachePackages(packages);
      if TableOk(old(doc8643)) {
        Doc8643TableOk(old(doc8643), doc8643Lines);
        RelatedGroupsOk(relatedLines);
        AnnotateAllOk(Doc8643Table(old(doc8643), doc8643Lines), RelatedOf(relatedLines).groups);
      }
    }

    /** The inner loop of `MatchCore`: the selectors of definition `a` scanned in any order. */
    method ScanMatches(req: Request, a: Obj8Aircraft, bestQ0: int, best0: seq<Obj8Aircraft>,
      ghost values: set<Obj8Aircraft>, ghost done: set<Obj8Aircraft>)
      returns (bestQuality: int, best: seq<Obj8Aircraft>)
      requires a in values && ScanOk(ScoreOf(doc8643, req, AsWritten), values, done, {}, bestQ0, best0)
      ensures ScanOk(ScoreOf(doc8643, req, AsWritten), values, done + {a}, {}, bestQuality, best)
    {
      ghost var score := ScoreOf(doc8643, req, AsWritten);
      bestQuality, best := bestQ0, best0;
      var ms := a.matches;
      assert a.matches - ms == {};
      while ms != {}
        invariant ms <= a.matches
        invariant ScanOk(score, values, done, a.matches - ms, bestQuality, best)
        decreases |ms|
      {
        var m :| m in ms;
        ScanStep(score, values, done, a, a.matches - ms, bestQuality, best, m);
        var ranked := Rank(Quality(doc8643, req, m, AsWritten), bestQuality, best, a);
        bestQuality, best := ranked.0, ranked.1;
        assert a.matches - (ms - {m}) == (a.matches - ms) + {m};
        ms := ms - {m};
      }
      assert ms == {};
      ScanNext(score, values, done, a, bestQuality, best);
    }

    /** `MatchCore`: a definition with a best-scoring selector under the score as written,
        chosen at random among those; failing that, any registered definition; `None` only when
        the registry is empty. A query for a known type that some definition has a selector of
        gets a definition with a selector of a preferred type, and of that very type when no
        airline and no livery are asked for. */
    method MatchCore(req: Request) returns (r: Option<Obj8Aircraft>)
      ensures r.None? <==> aircraft == map[]
      ensures r.Some? ==> r.value in aircraft.Values
      ensures r.Some? && HasSelectors(aircraft.Values) ==> IsBest(doc8643, req, aircraft.Values, r.value, AsWritten)
      ensures (r.Some? && TableOk(doc8643) && req.icao.Some? && req.icao.value in doc8643
        && exists a, m :: a in aircraft.Values && m in a.matches && m.icao == req.icao.value) ==>
        && (exists m :: m in r.value.matches && m.icao in Preferred(doc8643, req.icao.value))
        && (Empty(req.airline) && Empty(req.livery) ==> exists m :: m in r.value.matches && m.icao == req.icao.value)
    {
      var bestQuality: int := WorstScore;
      var best: seq<Obj8Aircraft> := [];
      var todo := aircraft.Values;
      ghost var done: set<Obj8Aircraft> := {};
      ghost var values := aircraft.Values;
      while todo != {}
        invariant todo <= values && done == values - todo
        invariant ScanOk(ScoreOf(doc8643, req, AsWritten), values, done, {}, bestQuality, best)
        decreases |todo|
      {
        var a :| a in todo;
        bestQuality, best := ScanMatches(req, a, bestQuality, best, values, done);
        SetStep(values, todo, a);
        done := done + {a};
        todo := todo - {a};
      }
      ScanEnd(doc8643, req, AsWritten, ScoreOf(doc8643, req, AsWritten), values, bestQuality, best);
      if |best| > 0 {
        var i :| 0 <= i < |best|;
        r := Some(best[i]);
      } else if |aircraft| > 0 {
        var v :| v in aircraft.Values;
        r := Some(v);
      } else {
        r := None;
      }
      if r.Some? && TableOk(doc8643) && req.icao.Some? && req.icao.value in doc8643
        && exists a, m :: a in values && m in a.matches && m.icao == req.icao.value
      {
        assert HasSelectors(values);
        BestMeetsTest(doc8643, req, values, r.value, AsWritten);
      }
    }

    /** `Match`: the root and id of what `MatchCore` finds. */
    method Match(req: Request) returns (r: Option<(string, string)>)
      ensures r.None? <==> aircraft == map[]
      ensures r.Some? ==> exists a :: (a in aircraft.Values && r.value == (a.root, a.id)
        && (HasSelectors(aircraft.Values) ==> IsBest(doc8643, req, aircraft.Values, a, AsWritten)))
    {
      var a := MatchCore(req);
      r := if a.Some? then Some((a.value.root, a.value.id)) else None;
    }

    /** `CreateMultipartContentAsync(root, id)`: the bundle of the registered definition
        `root/id`, packed alone, over the files `files`. */
    method CreateMultipartContent(root: string, id: string, files: map<string, seq<string>>)
      returns (r: Result<seq<Part>, BundleError>, ghost sources: seq<Obj8>, ghost owners: seq<nat>)
      requires Valid()
      ensures root + "/" + id !in aircraft ==> r == Failure(NotFound(root + "/" + id))
      ensures root + "/" + id in aircraft ==>
        var p := aircraft[root + "/" + id].Pack();
        && (r.Success? ==> BundleOk(p, Roots(), files, r.value, sources, owners))
        && (r.Failure? ==> FailureOk(p, Roots(), files, r.error))
        && (Available(p, Roots(), files) ==> r.Success?)
    {
      var key := root + "/" + id;
      if key !in aircraft {
        r, sources, owners := Failure(NotFound(key)), [], [];
      } else {
        r, sources, owners := Bundle.CreateMultipartContent(aircraft[key].Pack(), Roots(), files);
      }
    }
  }
}
