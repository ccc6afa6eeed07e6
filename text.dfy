/** String helpers: whitespace tokenising, trimming, separators and simple paths. */
module Text {

  /** The characters .NET's `\s` matches in ASCII text (space, tab, LF, VT, FF, CR). */
  predicate IsSpace(c: char) {
    c == ' ' || c == '\t' || c == '\n' || c == '\r' || c as int == 11 || c as int == 12
  }

  /** A character the manifest tokeniser keeps in a word: neither whitespace nor `#`. */
  predicate IsTokenChar(c: char) {
    !IsSpace(c) && c != '#'
  }

  /** Every character of `s` is a token character. */
  predicate TokenChars(s: string) {
    forall i :: 0 <= i < |s| ==> IsTokenChar(s[i])
  }

  lemma TokenCharsConcat(a: string, b: string)
    requires TokenChars(a) && TokenChars(b)
    ensures TokenChars(a + b)
  {
    forall k | 0 <= k < |a + b|
      ensures IsTokenChar((a + b)[k])
    {
      if k < |a| {
        assert (a + b)[k] == a[k];
      } else {
        assert (a + b)[k] == b[k - |a|];
      }
    }
  }

  /** A non-empty run of token characters: what `[^#\s]+` captures. */
  predicate IsToken(t: string) {
    |t| > 0 && TokenChars(t)
  }

  /** `s` without its leading whitespace. */
  function TrimStart(s: string): (r: string)
    ensures |r| <= |s| && r == s[|s| - |r|..]
    ensures r != [] ==> !IsSpace(r[0])
  {
    if s != [] && IsSpace(s[0]) then TrimStart(s[1..]) else s
  }

  /** `s` without its trailing whitespace. */
  function TrimEnd(s: string): (r: string)
    ensures r <= s
    ensures r != [] ==> !IsSpace(r[|r| - 1])
  {
    if s != [] && IsSpace(s[|s| - 1]) then TrimEnd(s[..|s| - 1]) else s
  }

  /** .NET `Trim()`: leading and trailing whitespace removed. */
  function Trim(s: string): string {
    TrimEnd(TrimStart(s))
  }

  /** No whitespace at either end. */
  predicate Trimmed(s: string) {
    s == [] || (!IsSpace(s[0]) && !IsSpace(s[|s| - 1]))
  }

  /** `Trim` leaves no whitespace at either end, and changes nothing that has none. */
  lemma TrimIsTrimmed(s: string)
    ensures Trimmed(Trim(s))
    ensures Trimmed(s) ==> Trim(s) == s
  {
    var t := TrimStart(s);
    var r := TrimEnd(t);
    if r != [] {
      assert r[0] == t[0];
    }
  }

  /** The length of the leading run of token characters. */
  function TokenLength(s: string): (n: nat)
    ensures n <= |s|
    ensures forall i :: 0 <= i < n ==> IsTokenChar(s[i])
    ensures n < |s| ==> !IsTokenChar(s[n])
  {
    if s == [] || !IsTokenChar(s[0]) then 0 else 1 + TokenLength(s[1..])
  }

  lemma ConsAll(P: string -> bool, w: string, ws: seq<string>)
    requires P(w) && forall k :: 0 <= k < |ws| ==> P(ws[k])
    ensures forall k :: 0 <= k < |[w] + ws| ==> P(([w] + ws)[k])
  {
    forall k | 0 <= k < |[w] + ws|
      ensures P(([w] + ws)[k])
    {
      if k > 0 {
        assert ([w] + ws)[k] == ws[k - 1];
      }
    }
  }

  /** The key and values of a manifest line: its whitespace-separated words up to the first
      `#`, where a `#` also ends the word it occurs in. */
  function Tokens(s: string): (ts: seq<string>)
    ensures forall k :: 0 <= k < |ts| ==> IsToken(ts[k])
    decreases |s|
  {
    var t := TrimStart(s);
    if t == [] || t[0] == '#' then []
    else
      var n := TokenLength(t);
      assert IsToken(t[..n]);
      var rest := Tokens(t[n..]);
      ConsAll(IsToken, t[..n], rest);
      [t[..n]] + rest
  }

  /** Words joined by single spaces: the text a manifest line is written as. */
  function Line(ts: seq<string>): string
    decreases |ts|
  {
    if |ts| == 0 then "" else if |ts| == 1 then ts[0] else ts[0] + " " + Line(ts[1..])
  }

  lemma {:induction false} TokenLengthOf(t: string, rest: string)
    requires IsToken(t)
    requires rest == [] || IsSpace(rest[0])
    ensures TokenLength(t + rest) == |t|
    decreases |t|
  {
    if |t| > 1 {
      assert (t + rest)[1..] == t[1..] + rest;
      TokenLengthOf(t[1..], rest);
    } else {
      assert (t + rest)[1..] == rest;
    }
  }

  lemma TokensAlone(t: string)
    requires IsToken(t)
    ensures Tokens(t) == [t]
  {
    assert t + [] == t;
    TokenLengthOf(t, []);
    assert t[|t|..] == [];
  }

  lemma TokensCons(t: string, r: string)
    requires IsToken(t)
    ensures Tokens(t + " " + r) == [t] + Tokens(r)
  {
    var s := t + (" " + r);
    assert t + " " + r == s;
    TokenLengthOf(t, " " + r);
    assert TrimStart(s) == s by {
      assert s[0] == t[0];
    }
    assert s[..|t|] == t;
    assert s[|t|..] == " " + r;
    TokensSpace(r);
  }

  lemma TokensSpace(r: string)
    ensures Tokens(" " + r) == Tokens(r)
  {
    assert TrimStart(" " + r) == TrimStart(r) by {
      assert (" " + r)[1..] == r;
    }
  }

  /** Round trip of the manifest tokeniser: the words of `Line(ts)` are `ts`. */
  lemma {:induction false} TokensLine(ts: seq<string>)
    requires forall k :: 0 <= k < |ts| ==> IsToken(ts[k])
    ensures Tokens(Line(ts)) == ts
    decreases |ts|
  {
    if |ts| == 1 {
      TokensAlone(ts[0]);
    } else if |ts| > 1 {
      TokensLine(ts[1..]);
      TokensCons(ts[0], Line(ts[1..]));
      assert ts == [ts[0]] + ts[1..];
    }
  }

  /** A joined line starts with the first character of its first word. */
  lemma LineStart(ts: seq<string>)
    requires |ts| > 0 && |ts[0]| > 0
    ensures |Line(ts)| > 0 && Line(ts)[0] == ts[0][0]
  {
    if |ts| > 1 {
      assert Line(ts) == ts[0] + (" " + Line(ts[1..]));
    }
  }

  /** The length of the leading run of non-whitespace characters. */
  function WordLength(s: string): (n: nat)
    ensures n <= |s|
    ensures forall i :: 0 <= i < n ==> !IsSpace(s[i])
    ensures n < |s| ==> IsSpace(s[n])
  {
    if s == [] || IsSpace(s[0]) then 0 else 1 + WordLength(s[1..])
  }

  /** A non-empty run of non-whitespace characters: what `\S+` captures. */
  predicate IsWord(t: string) {
    |t| > 0 && forall i :: 0 <= i < |t| ==> !IsSpace(t[i])
  }

  /** The maximal whitespace-separated words of `s`, in order. */
  function Split(s: string): (ws: seq<string>)
    ensures forall k :: 0 <= k < |ws| ==> IsWord(ws[k])
    decreases |s|
  {
    var t := TrimStart(s);
    if t == [] then []
    else
      var n := WordLength(t);
      assert IsWord(t[..n]);
      var rest := Split(t[n..]);
      ConsAll(IsWord, t[..n], rest);
      [t[..n]] + rest
  }

  lemma {:induction false} WordLengthOf(w: string, rest: string)
    requires IsWord(w)
    requires rest == [] || IsSpace(rest[0])
    ensures WordLength(w + rest) == |w|
    decreases |w|
  {
    if |w| > 1 {
      assert (w + rest)[1..] == w[1..] + rest;
      WordLengthOf(w[1..], rest);
    } else {
      assert (w + rest)[1..] == rest;
    }
  }

  lemma SplitAlone(w: string)
    requires IsWord(w)
    ensures Split(w) == [w]
  {
    assert w + [] == w;
    WordLengthOf(w, []);
    assert w[|w|..] == [];
  }

  lemma SplitCons(w: string, r: string)
    requires IsWord(w)
    ensures Split(w + " " + r) == [w] + Split(r)
  {
    var s := w + " " + r;
    assert s == w + (" " + r);
    WordLengthOf(w, " " + r);
    assert s[..|w|] == w;
    assert s[|w|..] == " " + r;
    assert (" " + r)[1..] == r;
  }

  /** Round trip of whitespace splitting: the words of `Line(ws)` are `ws`. */
  lemma {:induction false} SplitLine(ws: seq<string>)
    requires forall k :: 0 <= k < |ws| ==> IsWord(ws[k])
    ensures Split(Line(ws)) == ws
    decreases |ws|
  {
    if |ws| == 1 {
      SplitAlone(ws[0]);
    } else if |ws| > 1 {
      SplitLine(ws[1..]);
      SplitCons(ws[0], Line(ws[1..]));
      assert ws == [ws[0]] + ws[1..];
    }
  }

  /** The separators `IndexOfAny('/', '\\', ':')` looks for. */
  predicate IsSeparator(c: char) {
    c == '/' || c == '\\' || c == ':'
  }

  /** .NET `IndexOfAny('/', '\\', ':')`: the first separator's index, or -1. */
  function IndexOfSeparator(s: string): (i: int)
    ensures -1 <= i < |s|
    ensures i == -1 ==> forall k :: 0 <= k < |s| ==> !IsSeparator(s[k])
    ensures i >= 0 ==> IsSeparator(s[i]) && forall k :: 0 <= k < i ==> !IsSeparator(s[k])
  {
    if s == [] then -1
    else if IsSeparator(s[0]) then 0
    else var j := IndexOfSeparator(s[1..]); if j == -1 then -1 else j + 1
  }

  /** `s` with every `from` replaced by `to`: .NET `Replace(char, char)`. */
  function Replace(s: string, from: char, to: char): (r: string)
    ensures |r| == |s|
    ensures forall i :: 0 <= i < |s| ==> r[i] == if s[i] == from then to else s[i]
  {
    if s == [] then [] else [if s[0] == from then to else s[0]] + Replace(s[1..], from, to)
  }

  /** The index of the last `c` in `s`, or -1. */
  function LastIndexOf(s: string, c: char): (i: int)
    ensures -1 <= i < |s|
    ensures i >= 0 ==> s[i] == c
    ensures forall k :: i < k < |s| ==> s[k] != c
  {
    if s == [] then -1
    else if s[|s| - 1] == c then |s| - 1
    else LastIndexOf(s[..|s| - 1], c)
  }

  /** `Path.GetDirectoryName` for `/`-separated relative paths: the text before the last `/`. */
  function DirectoryName(path: string): string {
    var i := LastIndexOf(path, '/');
    if i < 0 then "" else path[..i]
  }

  /** `Path.Join` of two `/`-separated paths: a `/` is inserted unless one side is empty
      or already supplies it. */
  function PathJoin(a: string, b: string): string {
    if a == [] then b
    else if b == [] then a
    else if a[|a| - 1] == '/' || b[0] == '/' then a + b
    else a + "/" + b
  }

  /** The directory of `dir/name` is `dir` when `name` holds no `/`. */
  lemma DirectoryNameOfJoin(dir: string, name: string)
    requires |name| > 0 && '/' !in name
    requires dir == [] || dir[|dir| - 1] != '/'
    ensures DirectoryName(PathJoin(dir, name)) == dir
  {
    var p := PathJoin(dir, name);
    if dir == [] {
      assert p == name;
    } else {
      assert p == dir + "/" + name;
      assert p[|dir|] == '/';
      assert forall k :: |dir| < k < |p| ==> p[k] == name[k - |dir| - 1];
      assert p[..|dir|] == dir;
    }
  }

  /** ASCII lower-casing (`ToLowerInvariant` on ASCII text). */
  function ToLower(s: string): (r: string)
    ensures |r| == |s|
  {
    if s == [] then []
    else [if 'A' <= s[0] <= 'Z' then (s[0] as int + 32) as char else s[0]] + ToLower(s[1..])
  }

  /** `Path.GetExtension`: from the last `.` of the file name (the part after the last `/`),
      or empty when there is none or the `.` ends the name. */
  function Extension(path: string): (e: string)
    ensures e == [] || (1 < |e| <= |path| && e[0] == '.' && e == path[|path| - |e|..])
    ensures e != [] ==> '.' !in e[1..] && '/' !in e
    ensures e == [] <==> forall k :: 0 <= k < |path| - 1 && path[k] == '.' ==> '.' in path[k + 1..] || '/' in path[k + 1..]
  {
    var dot := LastIndexOf(path, '.');
    var slash := LastIndexOf(path, '/');
    ExtensionCases(path, dot, slash);
    if dot > slash && dot < |path| - 1 then
      assert path[dot..][1..] == path[dot + 1..];
      path[dot..]
    else
      ""
  }

  /** The two cases of `Extension`: a `.` after the last `/` and before the end is followed by
      neither; otherwise every `.` before the end is followed by another `.` or a `/`. */
  lemma ExtensionCases(path: string, dot: int, slash: int)
    requires dot == LastIndexOf(path, '.') && slash == LastIndexOf(path, '/')
    ensures dot > slash && dot < |path| - 1 ==>
      path[dot] == '.' && '.' !in path[dot + 1..] && '/' !in path[dot + 1..]
    ensures !(dot > slash && dot < |path| - 1) ==>
      forall k :: 0 <= k < |path| - 1 && path[k] == '.' ==> '.' in path[k + 1..] || '/' in path[k + 1..]
  {
    if dot > slash && dot < |path| - 1 {
      NoneAfter(path, '.', dot);
      NoneAfter(path, '/', dot);
    } else {
      forall k | 0 <= k < |path| - 1 && path[k] == '.'
        ensures '.' in path[k + 1..] || '/' in path[k + 1..]
      {
        if k < dot {
          SomeAfter(path, '.', k, dot);
        } else {
          SomeAfter(path, '/', k, slash);
        }
      }
    }
  }

  /** Nothing after the last occurrence of `c` is `c`. */
  lemma NoneAfter(s: string, c: char, i: int)
    requires LastIndexOf(s, c) <= i < |s|
    ensures c !in s[i + 1..]
  {
    var t := s[i + 1..];
    forall j | 0 <= j < |t|
      ensures t[j] != c
    {
      assert t[j] == s[i + 1 + j];
    }
  }

  /** An occurrence of `c` after position `k` is in the tail after `k`. */
  lemma SomeAfter(s: string, c: char, k: int, j: int)
    requires 0 <= k < j < |s| && s[j] == c
    ensures c in s[k + 1..]
  {
    assert s[k + 1..][j - k - 1] == c;
  }
}
