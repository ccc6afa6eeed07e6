/** The reference tables: the ICAO Doc 8643 classification of aircraft types
    (CSLService/CSLService.cs:421-440, 241-248) and the groups of related types
    (CSLService/CSLService.cs:397-419, 226-239). */
module Tables {
  import opened Wrappers
  import opened Text

  /** A classified aircraft type, and the group of types it is related to once the groups are loaded. */
  datatype Aircraft = Aircraft(designator: string, classType: char, engineCount: int, engineType: char,
                               wakeCategory: char, related: Option<set<string>>)

  predicate IsUpper(c: char) {
    'A' <= c <= 'Z'
  }

  predicate IsDigit(c: char) {
    '0' <= c <= '9'
  }

  /** What `[\dA-Z]+` matches in ASCII text. */
  predicate IsDesignator(s: string) {
    |s| > 0 && forall i :: 0 <= i < |s| ==> IsDigit(s[i]) || IsUpper(s[i])
  }

  /** A type the classification file can describe, as the decoder yields it (not yet related). */
  predicate Describable(a: Aircraft) {
    IsDesignator(a.designator) && IsUpper(a.classType) && 0 <= a.engineCount <= 9
    && IsUpper(a.engineType) && IsUpper(a.wakeCategory) && a.related.None?
  }

  /** The line describing `a` after arbitrary leading columns `prefix`:
      `prefix TAB designator TAB class engines engine-type TAB wake`. */
  function Doc8643Line(prefix: string, a: Aircraft): string
    requires 0 <= a.engineCount <= 9
  {
    prefix + "\t" + a.designator + "\t" + [a.classType, ('0' as int + a.engineCount) as char, a.engineType]
      + "\t" + [a.wakeCategory]
  }

  /** One line of the classification file, matched against
      `^.*\t(designator)\t(class)(engines)(engine type)\t(wake)$`. The greedy `.*` makes the
      designator the text after the last tab before the fixed six-character tail. */
  function ParseDoc8643Line(line: string): (r: Option<Aircraft>)
    ensures r.Some? ==> Describable(r.value)
  {
    if |line| < 8 then None
    else
      var n := |line| - 6;
      var t := LastIndexOf(line[..n], '\t');
      if line[n] == '\t' && IsUpper(line[n + 1]) && IsDigit(line[n + 2]) && IsUpper(line[n + 3])
         && line[n + 4] == '\t' && IsUpper(line[n + 5]) && t >= 0 && IsDesignator(line[t + 1..n])
      then Some(Aircraft(line[t + 1..n], line[n + 1], line[n + 2] as int - '0' as int, line[n + 3], line[n + 5], None))
      else None
  }

  /** Only lines of the classification format are decoded: a decoded line is the line of
      the type it yields. */
  lemma ParseDoc8643Sound(line: string)
    requires ParseDoc8643Line(line).Some?
    ensures var a := ParseDoc8643Line(line).value;
      |a.designator| + 7 <= |line| && line == Doc8643Line(line[..|line| - |a.designator| - 7], a)
  {
    var a := ParseDoc8643Line(line).value;
    var n := |line| - 6;
    var t := LastIndexOf(line[..n], '\t');
    assert a.designator == line[t + 1..n];
    assert line[..t] + "\t" + line[t + 1..n] == line[..n];
    assert ('0' as int + a.engineCount) as char == line[n + 2];
    assert line[n..] == "\t" + [a.classType, line[n + 2], a.engineType] + "\t" + [a.wakeCategory];
    assert line == line[..n] + line[n..];
  }

  /** Every describable type is decoded from its line, whatever the leading columns. */
  lemma ParseDoc8643Complete(prefix: string, a: Aircraft)
    requires Describable(a)
    ensures ParseDoc8643Line(Doc8643Line(prefix, a)) == Some(a)
  {
    var line := Doc8643Line(prefix, a);
    var body := prefix + "\t" + a.designator;
    var tail := "\t" + [a.classType, ('0' as int + a.engineCount) as char, a.engineType] + "\t" + [a.wakeCategory];
    assert line == body + tail;
    var n := |line| - 6;
    assert line[..n] == body;
    assert forall k :: 0 <= k < 6 ==> line[n + k] == tail[k];
    LastTab(prefix, a.designator);
    assert line[|prefix| + 1..n] == a.designator;
  }

  /** The last tab of `prefix TAB designator` is the one before the designator. */
  lemma LastTab(prefix: string, d: string)
    requires IsDesignator(d)
    ensures LastIndexOf(prefix + "\t" + d, '\t') == |prefix|
    ensures (prefix + "\t" + d)[|prefix| + 1..] == d
  {
    var pre := prefix + "\t";
    assert LastIndexOf(pre, '\t') == |prefix|;
    LastIndexOfAppend(pre, d, '\t');
    assert (pre + d)[|pre|..] == d;
  }

  lemma {:induction false} LastIndexOfAppend(s: string, d: string, c: char)
    requires forall i :: 0 <= i < |d| ==> d[i] != c
    ensures LastIndexOf(s + d, c) == LastIndexOf(s, c)
    decreases |d|
  {
    if d != [] {
      var d' := d[..|d| - 1];
      assert (s + d)[..|s + d| - 1] == s + d';
      LastIndexOfAppend(s, d', c);
    } else {
      assert s + d == s;
    }
  }

  /** The classification table after the lines `lines` are loaded into `table` in order;
      a later line for the same designator replaces the earlier one. */
  function Doc8643Table(table: map<string, Aircraft>, lines: seq<string>): map<string, Aircraft>
    decreases |lines|
  {
    if lines == [] then table
    else
      var t := Doc8643Table(table, lines[..|lines| - 1]);
      match ParseDoc8643Line(lines[|lines| - 1])
      case Some(a) => t[a.designator := a]
      case None => t
  }

  /** Every entry is keyed by its designator, has a digit's engine count, and is related to
      nothing or to a group of at least two types that includes itself. */
  predicate TableOk(table: map<string, Aircraft>) {
    forall k :: k in table ==>
      && table[k].designator == k
      && IsDesignator(k)
      && 0 <= table[k].engineCount <= 9
      && (table[k].related.Some? ==> |table[k].related.value| >= 2 && k in table[k].related.value)
  }

  lemma {:induction false} Doc8643TableOk(table: map<string, Aircraft>, lines: seq<string>)
    requires TableOk(table)
    ensures TableOk(Doc8643Table(table, lines))
    decreases |lines|
  {
    if lines != [] {
      Doc8643TableOk(table, lines[..|lines| - 1]);
    }
  }

  /** Last write wins: a designator's entry comes from the last line that describes it, and
      every entry not in `table` before comes from some line. */
  lemma {:induction false} Doc8643TableLastWins(table: map<string, Aircraft>, lines: seq<string>, i: nat)
    requires i < |lines| && ParseDoc8643Line(lines[i]).Some?
    requires forall j :: i < j < |lines| && ParseDoc8643Line(lines[j]).Some?
               ==> ParseDoc8643Line(lines[j]).value.designator != ParseDoc8643Line(lines[i]).value.designator
    ensures var a := ParseDoc8643Line(lines[i]).value;
      a.designator in Doc8643Table(table, lines) && Doc8643Table(table, lines)[a.designator] == a
    decreases |lines|
  {
    var n := |lines| - 1;
    if i < n {
      Doc8643TableLastWins(table, lines[..n], i);
    }
  }

  lemma {:induction false} Doc8643TableFrom(table: map<string, Aircraft>, lines: seq<string>, k: string)
    requires k in Doc8643Table(table, lines) && k !in table
    ensures exists i :: 0 <= i < |lines| && ParseDoc8643Line(lines[i]) == Some(Doc8643Table(table, lines)[k])
    decreases |lines|
  {
    var n := |lines| - 1;
    var t := Doc8643Table(table, lines[..n]);
    var r := ParseDoc8643Line(lines[n]);
    if r.Some? && r.value.designator == k {
      assert ParseDoc8643Line(lines[n]) == Some(Doc8643Table(table, lines)[k]);
    } else {
      Doc8643TableFrom(table, lines[..n], k);
      var i :| 0 <= i < n && ParseDoc8643Line(lines[..n][i]) == Some(t[k]);
      assert lines[..n][i] == lines[i];
    }
  }

  /** What `\w` matches in ASCII text. */
  predicate IsWordChar(c: char) {
    'A' <= c <= 'Z' || 'a' <= c <= 'z' || '0' <= c <= '9' || c == '_'
  }

  /** A whitespace-separated word the related-types pattern accepts: `\b\S+\b` over the whole
      word, so it starts and ends with a word character. */
  predicate IsTypeWord(w: string) {
    IsWord(w) && IsWordChar(w[0]) && IsWordChar(w[|w| - 1])
  }

  /** The elements of a sequence. */
  function Elements(ws: seq<string>): set<string> {
    set w | w in ws
  }

  /** How a line of the related-types file decodes. */
  datatype RelatedDecode =
    | NoMatch               // the pattern does not match: the line is skipped silently
    | Lone                  // it matches, with fewer than two distinct types: a warning
    | Group(types: set<string>)

  /** Every word is one the related-types pattern accepts. */
  predicate TypeWords(ws: seq<string>) {
    forall k :: 0 <= k < |ws| ==> IsTypeWord(ws[k])
  }

  /** The decoding of a matching line with words `ws`. */
  function GroupOf(ws: seq<string>): RelatedDecode {
    if |Elements(ws)| > 1 then Group(Elements(ws)) else Lone
  }

  /** One line matched against `^(?!;)(?:\s*\b(?<Type>\S+)\b\s*)+$`: a non-empty line not starting
      with `;` whose words all start and end with word characters; the captured types are its words. */
  function DecodeRelated(line: string): RelatedDecode {
    var ws := Split(line);
    if line == [] || line[0] == ';' || ws == [] || !TypeWords(ws) then NoMatch else GroupOf(ws)
  }

  /** A decoded group has at least two types, each a word of the line that the pattern accepts. */
  lemma DecodeRelatedGroup(line: string)
    requires DecodeRelated(line).Group?
    ensures |DecodeRelated(line).types| >= 2
    ensures forall t :: t in DecodeRelated(line).types ==> IsTypeWord(t) && t in Split(line)
  {
  }

  /** A line written as words joined by spaces decodes to the group of its words when they are
      proper type words with at least two distinct ones. */
  lemma DecodeRelatedLine(ws: seq<string>)
    requires |ws| > 0 && TypeWords(ws)
    ensures |Elements(ws)| > 1 ==> DecodeRelated(Line(ws)) == Group(Elements(ws))
    ensures |Elements(ws)| <= 1 ==> DecodeRelated(Line(ws)) == Lone
  {
    assert forall k :: 0 <= k < |ws| ==> IsWord(ws[k]);
    SplitLine(ws);
    LineStart(ws);
    DecodeRelatedWords(Line(ws), ws);
  }

  lemma DecodeRelatedWords(l: string, ws: seq<string>)
    requires l != [] && l[0] != ';' && Split(l) == ws && |ws| > 0 && TypeWords(ws)
    ensures DecodeRelated(l) == GroupOf(ws)
  {
  }

  /** The warning for a related-types line of fewer than two distinct types. */
  datatype Warning = Warning(lineNumber: nat, text: string)

  /** What reading the related-types file yields: the groups, and the warnings logged. */
  datatype RelatedFile = RelatedFile(groups: seq<set<string>>, warnings: seq<Warning>)

  /** The groups and warnings of the lines `lines`, numbered from 1. */
  function RelatedOf(lines: seq<string>): RelatedFile
    decreases |lines|
  {
    if lines == [] then RelatedFile([], [])
    else
      var n := |lines| - 1;
      var r := RelatedOf(lines[..n]);
      match DecodeRelated(lines[n])
      case Group(s) => r.(groups := r.groups + [s])
      case Lone => r.(warnings := r.warnings + [Warning(n + 1, Trim(lines[n]))])
      case NoMatch => r
  }

  /** `ParseRelatedAsync`: reads the lines in order, yielding each group and logging a warning
      for each line that names fewer than two distinct types. */
  method ParseRelated(lines: seq<string>) returns (r: RelatedFile)
    ensures r == RelatedOf(lines)
  {
    r := RelatedFile([], []);
    var i := 0;
    while i < |lines|
      invariant i <= |lines| && r == RelatedOf(lines[..i])
    {
      assert lines[..i + 1][..i] == lines[..i];
      match DecodeRelated(lines[i]) {
        case Group(s) => r := r.(groups := r.groups + [s]);
        case Lone => r := r.(warnings := r.warnings + [Warning(i + 1, Trim(lines[i]))]);
        case NoMatch =>
      }
      i := i + 1;
    }
    assert lines[..i] == lines;
  }

  /** Every group yielded has at least two types. */
  lemma {:induction false} RelatedGroupsOk(lines: seq<string>)
    ensures forall g :: g in RelatedOf(lines).groups ==> |g| >= 2
    decreases |lines|
  {
    if lines != [] {
      RelatedGroupsOk(lines[..|lines| - 1]);
    }
  }

  /** Every warning names a line of fewer than two distinct types, numbered from 1, with the
      line's trimmed text. */
  lemma {:induction false} RelatedWarningsOk(lines: seq<string>)
    ensures forall w :: w in RelatedOf(lines).warnings ==> WarningOk(lines, w)
    decreases |lines|
  {
    if lines != [] {
      var n := |lines| - 1;
      var prefix := lines[..n];
      RelatedWarningsOk(prefix);
      var ws := RelatedOf(prefix).warnings;
      forall w | w in ws ensures WarningOk(lines, w) {
        assert prefix[w.lineNumber - 1] == lines[w.lineNumber - 1];
      }
      if DecodeRelated(lines[n]).Lone? {
        assert RelatedOf(lines).warnings == ws + [Warning(n + 1, Trim(lines[n]))];
      } else {
        assert RelatedOf(lines).warnings == ws;
      }
    }
  }

  /** Warning `w` names a line of `lines` of fewer than two distinct types, numbered from 1,
      with the line's trimmed text. */
  predicate WarningOk(lines: seq<string>, w: Warning) {
    1 <= w.lineNumber <= |lines| && DecodeRelated(lines[w.lineNumber - 1]) == Lone
    && w.text == Trim(lines[w.lineNumber - 1])
  }

  /** One group assigned to every member present in the table. */
  function Annotate(table: map<string, Aircraft>, s: set<string>): (t: map<string, Aircraft>)
    ensures t.Keys == table.Keys
  {
    map k | k in table :: if k in s then table[k].(related := Some(s)) else table[k]
  }

  /** The table after the groups `groups` are assigned in order; a later group replaces an
      earlier one. */
  function AnnotateAll(table: map<string, Aircraft>, groups: seq<set<string>>): map<string, Aircraft>
    decreases |groups|
  {
    if groups == [] then table else Annotate(AnnotateAll(table, groups[..|groups| - 1]), groups[|groups| - 1])
  }

  /** Assigning a group of at least two types keeps the table well formed. */
  lemma AnnotateOk(table: map<string, Aircraft>, s: set<string>)
    requires TableOk(table) && |s| >= 2
    ensures TableOk(Annotate(table, s))
    ensures forall k :: k in table ==> Annotate(table, s)[k].(related := table[k].related) == table[k]
  {
  }

  lemma {:induction false} AnnotateAllOk(table: map<string, Aircraft>, groups: seq<set<string>>)
    requires TableOk(table) && forall g :: g in groups ==> |g| >= 2
    ensures TableOk(AnnotateAll(table, groups))
    ensures AnnotateAll(table, groups).Keys == table.Keys
    decreases |groups|
  {
    if groups != [] {
      var n := |groups| - 1;
      assert forall g :: g in groups[..n] ==> g in groups;
      AnnotateAllOk(table, groups[..n]);
      AnnotateOk(AnnotateAll(table, groups[..n]), groups[n]);
    }
  }

  /** After loading the classification and then the related groups, as the test of the reference
      tables checks: every entry is keyed by its designator, and is related to nothing or to at
      least two types including itself. */
  lemma LoadedTablesOk(doc8643: seq<string>, related: seq<string>)
    ensures TableOk(AnnotateAll(Doc8643Table(map[], doc8643), RelatedOf(related).groups))
  {
    Doc8643TableOk(map[], doc8643);
    RelatedGroupsOk(related);
    AnnotateAllOk(Doc8643Table(map[], doc8643), RelatedOf(related).groups);
  }
}
