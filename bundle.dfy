/** The download bundle of `CreateMultipartContentAsync` (CSLService/CSLService.cs:520-612): the
    textures and rewritten object files a package's definitions use, then its manifest. */
module Bundle {
  import opened Wrappers
  import opened Text
  import opened Records
  import opened Manifest
  import opened Xsb

  // ----- Content types -----

  /** The media type of a lower-cased extension. */
  function MediaType(ext: string): string {
    if ext == ".dds" then "image/vnd.ms-dds"
    else if ext == ".png" then "image/png"
    else "application/octet-stream"
  }

  /** The content type of a texture part, chosen by the file's extension in any letter case. */
  function ContentType(path: string): string {
    MediaType(ToLower(Extension(path)))
  }

  /** A file name that ends in `ext` has the extension `ext`. */
  lemma ExtensionOfSuffix(p: string, ext: string)
    requires |ext| > 1 && ext[0] == '.'
    requires forall i :: 1 <= i < |ext| ==> ext[i] != '.' && ext[i] != '/'
    ensures Extension(p + ext) == ext
  {
    var path := p + ext;
    var dot := LastIndexOf(path, '.');
    var slash := LastIndexOf(path, '/');
    assert path[|p|] == '.';
    assert forall k :: |p| <= k < |path| ==> path[k] == ext[k - |p|];
    assert path[dot..] == ext;
  }

  /** The content type follows the extension alone: `.dds` and `.png` in any case, and
      `application/octet-stream` for anything else. */
  lemma ContentTypeOf(p: string, ext: string)
    requires |ext| > 1 && ext[0] == '.'
    requires forall i :: 1 <= i < |ext| ==> ext[i] != '.' && ext[i] != '/'
    ensures ContentType(p + ext) == MediaType(ToLower(ext))
  {
    ExtensionOfSuffix(p, ext);
  }

  // ----- Texture directives -----

  /** A line that starts with `TEXTURE` and has more after it. */
  predicate IsTextureDirective(line: string) {
    |line| > 8 && line[..7] == "TEXTURE"
  }

  /** A `TEXTURE_LIT` line with a name after it. */
  predicate IsLitDirective(line: string) {
    IsTextureDirective(line) && |line| > 12 && line[7..11] == "_LIT"
  }

  /** The texture a directive line of an object file names, before any override. */
  function DirectiveTexture(line: string): Option<string> {
    if IsLitDirective(line) then Some(Trim(line[12..]))
    else if IsTextureDirective(line) then Some(Trim(line[8..]))
    else None
  }

  /** A rewritten object-file line and the texture it makes the bundle carry. */
  datatype Rewritten = Rewritten(line: string, texture: Option<string>)

  /** The rewrite as the source writes it: a lit directive takes the day override and a day
      directive the lit override. */
  function RewriteLineAsWritten(o: Obj8, line: string): Rewritten {
    if IsTextureDirective(line) then
      if |line| > 12 && line[7..11] == "_LIT" then
        var t := o.texture.GetOr(Trim(line[12..]));
        Rewritten("TEXTURE_LIT " + t, Some(t))
      else
        var t := o.textureLit.GetOr(Trim(line[8..]));
        Rewritten("TEXTURE " + t, Some(t))
    else Rewritten(line, None)
  }

  /** The corrected rewrite: each directive takes the override of its own kind. */
  function RewriteLine(o: Obj8, line: string): Rewritten {
    if IsTextureDirective(line) then
      if |line| > 12 && line[7..11] == "_LIT" then
        var t := o.textureLit.GetOr(Trim(line[12..]));
        Rewritten("TEXTURE_LIT " + t, Some(t))
      else
        var t := o.texture.GetOr(Trim(line[8..]));
        Rewritten("TEXTURE " + t, Some(t))
    else Rewritten(line, None)
  }

  /** As written, a day directive takes the lit override. */
  lemma AsWrittenDayTakesLit(o: Obj8, line: string)
    requires IsTextureDirective(line) && !IsLitDirective(line) && o.textureLit.Some?
    ensures RewriteLineAsWritten(o, line).texture == o.textureLit
  {
  }

  /** As written, a lit directive takes the day override. */
  lemma AsWrittenLitTakesDay(o: Obj8, line: string)
    requires IsLitDirective(line) && o.texture.Some?
    ensures RewriteLineAsWritten(o, line).texture == o.texture
  {
  }

  /** A definition with both texture overrides, and a day directive of its object file. */
  const SwapExample: Obj8 := Obj8("pkg", "a/b.obj", Some("day.png"), Some("lit.png"))
  const DayLine: string := "TEXTURE x.png"

  /** On `DayLine` the as-written rewrite carries the lit texture, the corrected one the day
      texture. */
  lemma RewriteSwapsOverrides()
    ensures RewriteLineAsWritten(SwapExample, DayLine).texture == Some("lit.png")
    ensures RewriteLine(SwapExample, DayLine).texture == Some("day.png")
  {
    assert DayLine[..7] == "TEXTURE";
    assert DayLine[7] == ' ';
    AsWrittenDayTakesLit(SwapExample, DayLine);
  }

  /** Corrected rewrite: plain lines pass through, every directive records a texture, an override
      replaces the texture of its own kind only, and absent overrides keep the file's texture. */
  lemma RewriteLineSpec(o: Obj8, line: string)
    ensures RewriteLine(o, line).texture.None? <==> DirectiveTexture(line).None?
    ensures DirectiveTexture(line).None? ==> RewriteLine(o, line).line == line
    ensures IsLitDirective(line) ==>
      RewriteLine(o, line).texture == Some(o.textureLit.GetOr(DirectiveTexture(line).value))
    ensures IsTextureDirective(line) && !IsLitDirective(line) ==>
      RewriteLine(o, line).texture == Some(o.texture.GetOr(DirectiveTexture(line).value))
  {
  }

  /** The rewritten directive names the texture recorded for it, and keeps its kind, whenever
      that texture is not empty and the overrides are words. */
  lemma RewriteRoundTrip(o: Obj8, line: string)
    requires o.texture.Some? ==> IsToken(o.texture.value)
    requires o.textureLit.Some? ==> IsToken(o.textureLit.value)
    requires RewriteLine(o, line).texture.Some? && RewriteLine(o, line).texture.value != ""
    ensures DirectiveTexture(RewriteLine(o, line).line) == RewriteLine(o, line).texture
    ensures IsLitDirective(RewriteLine(o, line).line) == IsLitDirective(line)
  {
    if IsLitDirective(line) {
      LitRoundTrip(o, line);
    } else if IsTextureDirective(line) {
      DayRoundTrip(o, line);
    }
  }

  lemma LitRoundTrip(o: Obj8, line: string)
    requires IsLitDirective(line)
    requires o.textureLit.Some? ==> IsToken(o.textureLit.value)
    requires o.textureLit.GetOr(Trim(line[12..])) != ""
    ensures RewriteLine(o, line) == Rewritten("TEXTURE_LIT " + o.textureLit.GetOr(Trim(line[12..])),
      Some(o.textureLit.GetOr(Trim(line[12..]))))
    ensures IsLitDirective(RewriteLine(o, line).line)
    ensures DirectiveTexture(RewriteLine(o, line).line) == RewriteLine(o, line).texture
  {
    var t := o.textureLit.GetOr(Trim(line[12..]));
    if o.textureLit.None? {
      TrimIsTrimmed(line[12..]);
    }
    LitDirectiveOf(t);
  }

  lemma DayRoundTrip(o: Obj8, line: string)
    requires IsTextureDirective(line) && !IsLitDirective(line)
    requires o.texture.Some? ==> IsToken(o.texture.value)
    requires o.texture.GetOr(Trim(line[8..])) != ""
    ensures RewriteLine(o, line) == Rewritten("TEXTURE " + o.texture.GetOr(Trim(line[8..])),
      Some(o.texture.GetOr(Trim(line[8..]))))
    ensures !IsLitDirective(RewriteLine(o, line).line)
    ensures DirectiveTexture(RewriteLine(o, line).line) == RewriteLine(o, line).texture
  {
    var t := o.texture.GetOr(Trim(line[8..]));
    if o.texture.None? {
      TrimIsTrimmed(line[8..]);
    }
    DayDirectiveOf(t);
  }

  /** The rewrite as written: plain lines pass through, a `TEXTURE_LIT` directive becomes one
      naming the day override (or its own texture), and a `TEXTURE` directive one naming the
      lit override (or its own texture). */
  lemma RewriteLineAsWrittenSpec(o: Obj8, line: string)
    ensures RewriteLineAsWritten(o, line).texture.None? <==> DirectiveTexture(line).None?
    ensures DirectiveTexture(line).None? ==> RewriteLineAsWritten(o, line).line == line
    ensures IsLitDirective(line) ==>
      var t := o.texture.GetOr(DirectiveTexture(line).value);
      RewriteLineAsWritten(o, line) == Rewritten("TEXTURE_LIT " + t, Some(t))
    ensures IsTextureDirective(line) && !IsLitDirective(line) ==>
      var t := o.textureLit.GetOr(DirectiveTexture(line).value);
      RewriteLineAsWritten(o, line) == Rewritten("TEXTURE " + t, Some(t))
  {
  }

  /** As written too, the rewritten directive keeps its kind and names the texture recorded for
      it, whenever that texture is not empty and the overrides are words. */
  lemma AsWrittenRoundTrip(o: Obj8, line: string)
    requires o.texture.Some? ==> IsToken(o.texture.value)
    requires o.textureLit.Some? ==> IsToken(o.textureLit.value)
    requires RewriteLineAsWritten(o, line).texture.Some? && RewriteLineAsWritten(o, line).texture.value != ""
    ensures DirectiveTexture(RewriteLineAsWritten(o, line).line) == RewriteLineAsWritten(o, line).texture
    ensures IsLitDirective(RewriteLineAsWritten(o, line).line) == IsLitDirective(line)
  {
    if IsLitDirective(line) {
      if o.texture.None? {
        TrimIsTrimmed(line[12..]);
      }
      LitDirectiveOf(o.texture.GetOr(Trim(line[12..])));
    } else if IsTextureDirective(line) {
      if o.textureLit.None? {
        TrimIsTrimmed(line[8..]);
      }
      DayDirectiveOf(o.textureLit.GetOr(Trim(line[8..])));
    }
  }

  lemma DayDirectiveOf(t: string)
    requires Trimmed(t) && t != ""
    ensures IsTextureDirective("TEXTURE " + t) && !IsLitDirective("TEXTURE " + t)
    ensures DirectiveTexture("TEXTURE " + t) == Some(t)
  {
    var l := "TEXTURE " + t;
    assert l[..7] == "TEXTURE" && l[7] == ' ';
    assert l[8..] == t;
    TrimIsTrimmed(t);
  }

  lemma LitDirectiveOf(t: string)
    requires Trimmed(t) && t != ""
    ensures IsLitDirective("TEXTURE_LIT " + t)
    ensures DirectiveTexture("TEXTURE_LIT " + t) == Some(t)
  {
    var l := "TEXTURE_LIT " + t;
    assert l[..7] == "TEXTURE" && l[7..11] == "_LIT";
    assert l[12..] == t;
    TrimIsTrimmed(t);
  }

  /** The rewritten lines of an object file. */
  function RewrittenLines(o: Obj8, lines: seq<string>): seq<string> {
    seq(|lines|, i requires 0 <= i < |lines| => RewriteLineAsWritten(o, lines[i]).line)
  }

  /** The texture path one line of an object file in `dir` refers to, if any. */
  function LineRef(o: Obj8, dir: string, line: string): set<string> {
    var w := RewriteLineAsWritten(o, line);
    if w.texture.Some? then {PathJoin(dir, w.texture.value)} else {}
  }

  /** The texture paths the lines of an object file in `dir` refer to. */
  function Refs(o: Obj8, dir: string, lines: seq<string>): set<string>
    decreases |lines|
  {
    if lines == [] then {} else Refs(o, dir, lines[..|lines| - 1]) + LineRef(o, dir, lines[|lines| - 1])
  }

  lemma {:induction false} RefsOfLine(o: Obj8, dir: string, lines: seq<string>, k: nat)
    requires k < |lines|
    ensures LineRef(o, dir, lines[k]) <= Refs(o, dir, lines)
    decreases |lines|
  {
    if k < |lines| - 1 {
      RefsOfLine(o, dir, lines[..|lines| - 1], k);
    }
  }

  // ----- Parts -----

  /** A part of the bundle: a texture file, a rewritten object file, or the manifest. The
      `path` of the first two is relative to the CSL directory. */
  datatype Part =
    | Texture(name: string, contentType: string, path: string)
    | Object(name: string, path: string, lines: seq<string>)
    | Manifest(name: string, lines: seq<string>)

  /** The download name of a path: backslashes become slashes. */
  function PartName(path: string): string {
    Replace(path, '\\', '/')
  }

  /** The part that carries texture file `path`. */
  function TexturePart(path: string): Part {
    Texture(PartName(path), ContentType(path), path)
  }

  /** The file a part carries, or the manifest's name. */
  function RawPath(p: Part): string {
    match p
    case Texture(_, _, path) => path
    case Object(_, path, _) => path
    case Manifest(name, _) => name
  }

  function RawPaths(ps: seq<Part>): set<string> {
    set i | 0 <= i < |ps| :: RawPath(ps[i])
  }

  /** No file is carried twice. */
  predicate Distinct(ps: seq<Part>) {
    forall i, j :: 0 <= i < j < |ps| ==> RawPath(ps[i]) != RawPath(ps[j])
  }

  /** Texture parts of existing files. */
  predicate TexturesOk(ts: seq<Part>, files: map<string, seq<string>>) {
    forall i :: 0 <= i < |ts| ==> ts[i].Texture? && ts[i] == TexturePart(ts[i].path) && ts[i].path in files
  }

  lemma RawPathsSnoc(ps: seq<Part>, q: Part)
    ensures RawPaths(ps + [q]) == RawPaths(ps) + {RawPath(q)}
  {
    var ps' := ps + [q];
    assert RawPath(ps'[|ps|]) == RawPath(q);
    forall x | x in RawPaths(ps)
      ensures x in RawPaths(ps')
    {
      var i :| 0 <= i < |ps| && RawPath(ps[i]) == x;
      assert ps'[i] == ps[i];
    }
  }

  lemma RawPathsConcat(ps: seq<Part>, qs: seq<Part>)
    ensures RawPaths(ps + qs) == RawPaths(ps) + RawPaths(qs)
  {
    var r := ps + qs;
    forall x | x in RawPaths(ps)
      ensures x in RawPaths(r)
    {
      var i :| 0 <= i < |ps| && RawPath(ps[i]) == x;
      assert r[i] == ps[i];
    }
    forall x | x in RawPaths(qs)
      ensures x in RawPaths(r)
    {
      var i :| 0 <= i < |qs| && RawPath(qs[i]) == x;
      assert r[|ps| + i] == qs[i];
    }
    forall x | x in RawPaths(r)
      ensures x in RawPaths(ps) + RawPaths(qs)
    {
      var i :| 0 <= i < |r| && RawPath(r[i]) == x;
      if i < |ps| {
        assert r[i] == ps[i];
      } else {
        assert r[i] == qs[i - |ps|];
      }
    }
  }

  lemma DistinctSnoc(ps: seq<Part>, q: Part)
    requires Distinct(ps) && RawPath(q) !in RawPaths(ps)
    ensures Distinct(ps + [q])
  {
    var r := ps + [q];
    forall i, j | 0 <= i < j < |r|
      ensures RawPath(r[i]) != RawPath(r[j])
    {
      assert r[i] == ps[i];
      if j < |ps| {
        assert r[j] == ps[j];
      }
    }
  }

  lemma TexturesOkSnoc(ts: seq<Part>, files: map<string, seq<string>>, x: string)
    requires TexturesOk(ts, files) && x in files
    ensures TexturesOk(ts + [TexturePart(x)], files)
  {
    var r := ts + [TexturePart(x)];
    forall k | 0 <= k < |r|
      ensures r[k].Texture? && r[k] == TexturePart(r[k].path) && r[k].path in files
    {
      if k < |ts| {
        assert r[k] == ts[k];
      }
    }
  }

  // ----- One object file -----

  /** The outcome of rewriting one object file: the texture parts it introduces, its rewritten
      lines, and the paths seen so far. */
  datatype Rewrite = Rewrite(textures: seq<Part>, lines: seq<string>, seen: set<string>)

  /** The state after rewriting the first `i` lines of an object file in `dir`. */
  ghost predicate RewriteInvariant(
    o: Obj8, dir: string, lines: seq<string>, i: nat, files: map<string, seq<string>>,
    seen: set<string>, seen': set<string>, textures: seq<Part>, out: seq<string>)
  {
    i <= |lines|
    && out == RewrittenLines(o, lines[..i])
    && seen' == seen + Refs(o, dir, lines[..i])
    && TexturesOk(textures, files)
    && Distinct(textures)
    && RawPaths(textures) == seen' - seen
  }

  lemma RewriteLoopLines(o: Obj8, lines: seq<string>, i: nat, out: seq<string>)
    requires i < |lines| && out == RewrittenLines(o, lines[..i])
    ensures out + [RewriteLineAsWritten(o, lines[i]).line] == RewrittenLines(o, lines[..i + 1])
  {
  }

  lemma RewriteLoopRefs(o: Obj8, dir: string, lines: seq<string>, i: nat)
    requires i < |lines|
    ensures Refs(o, dir, lines[..i + 1]) == Refs(o, dir, lines[..i]) + LineRef(o, dir, lines[i])
  {
    assert lines[..i + 1][..i] == lines[..i];
  }

  /** A line that introduces no new texture. */
  lemma RewriteLoopKeep(
    o: Obj8, dir: string, lines: seq<string>, i: nat, files: map<string, seq<string>>,
    seen: set<string>, seen': set<string>, textures: seq<Part>, out: seq<string>)
    requires i < |lines| && RewriteInvariant(o, dir, lines, i, files, seen, seen', textures, out)
    requires LineRef(o, dir, lines[i]) <= seen'
    ensures RewriteInvariant(o, dir, lines, i + 1, files, seen, seen', textures,
      out + [RewriteLineAsWritten(o, lines[i]).line])
  {
    RewriteLoopLines(o, lines, i, out);
    RewriteLoopRefs(o, dir, lines, i);
  }

  /** A line that introduces texture `x`. */
  lemma RewriteLoopAdd(
    o: Obj8, dir: string, lines: seq<string>, i: nat, files: map<string, seq<string>>,
    seen: set<string>, seen': set<string>, textures: seq<Part>, out: seq<string>, x: string)
    requires i < |lines| && RewriteInvariant(o, dir, lines, i, files, seen, seen', textures, out)
    requires LineRef(o, dir, lines[i]) == {x} && x !in seen' && x in files
    ensures RewriteInvariant(o, dir, lines, i + 1, files, seen, seen' + {x},
      textures + [TexturePart(x)], out + [RewriteLineAsWritten(o, lines[i]).line])
  {
    RewriteLoopLines(o, lines, i, out);
    RewriteLoopRefs(o, dir, lines, i);
    RawPathsSnoc(textures, TexturePart(x));
    DistinctSnoc(textures, TexturePart(x));
    TexturesOkSnoc(textures, files, x);
  }

  /** The texture part a line of an object file in `dir` introduces: one for the path it refers
      to, unless that path is in `seen`. */
  function LineTextures(o: Obj8, dir: string, line: string, seen: set<string>): seq<Part> {
    var w := RewriteLineAsWritten(o, line);
    if w.texture.Some? && PathJoin(dir, w.texture.value) !in seen then
      [TexturePart(PathJoin(dir, w.texture.value))]
    else []
  }

  /** The texture parts the lines of an object file in `dir` introduce, in line order: one for
      each path the first time a line refers to it, unless it is in `seen`. */
  function NewTextures(o: Obj8, dir: string, lines: seq<string>, seen: set<string>): seq<Part>
    decreases |lines|
  {
    if lines == [] then []
    else
      var prefix := lines[..|lines| - 1];
      NewTextures(o, dir, prefix, seen) + LineTextures(o, dir, lines[|lines| - 1], seen + Refs(o, dir, prefix))
  }

  lemma NewTexturesNext(o: Obj8, dir: string, lines: seq<string>, i: nat, seen: set<string>)
    requires i < |lines|
    ensures NewTextures(o, dir, lines[..i + 1], seen)
      == NewTextures(o, dir, lines[..i], seen) + LineTextures(o, dir, lines[i], seen + Refs(o, dir, lines[..i]))
  {
    assert lines[..i + 1][..i] == lines[..i];
  }

  /** Line `i` introduces texture `x`: its part comes next in the order. */
  lemma NewTexturesAdd(
    o: Obj8, dir: string, lines: seq<string>, i: nat, seen: set<string>, textures: seq<Part>, x: string)
    requires i < |lines| && textures == NewTextures(o, dir, lines[..i], seen)
    requires LineRef(o, dir, lines[i]) == {x} && x !in seen + Refs(o, dir, lines[..i])
    ensures textures + [TexturePart(x)] == NewTextures(o, dir, lines[..i + 1], seen)
  {
    NewTexturesNext(o, dir, lines, i, seen);
  }

  /** Line `i` introduces no texture. */
  lemma NewTexturesKeep(
    o: Obj8, dir: string, lines: seq<string>, i: nat, seen: set<string>, textures: seq<Part>)
    requires i < |lines| && textures == NewTextures(o, dir, lines[..i], seen)
    requires LineRef(o, dir, lines[i]) <= seen + Refs(o, dir, lines[..i])
    ensures textures == NewTextures(o, dir, lines[..i + 1], seen)
  {
    NewTexturesNext(o, dir, lines, i, seen);
  }

  /** Rewrites the object file at `path` whose lines are `lines`, adding a texture part for each
      texture path it refers to that is not in `seen`; a texture file that does not exist is an
      error. */
  method RewriteObject(
    o: Obj8, path: string, lines: seq<string>, files: map<string, seq<string>>, seen: set<string>)
    returns (r: Result<Rewrite, BundleError>)
    ensures r.Success? ==>
      r.value.lines == RewrittenLines(o, lines)
      && r.value.seen == seen + Refs(o, DirectoryName(path), lines)
      && TexturesOk(r.value.textures, files)
      && Distinct(r.value.textures)
      && RawPaths(r.value.textures) == r.value.seen - seen
      && r.value.textures == NewTextures(o, DirectoryName(path), lines, seen)
    ensures r.Failure? ==>
      r.error.MissingFile? && r.error.path !in files
      && exists k :: 0 <= k < |lines| && r.error.path in LineRef(o, DirectoryName(path), lines[k])
  {
    var dir := DirectoryName(path);
    var textures: seq<Part> := [];
    var out: seq<string> := [];
    var seen' := seen;
    var i := 0;
    assert lines[..0] == [];
    while i < |lines|
      invariant RewriteInvariant(o, dir, lines, i, files, seen, seen', textures, out)
      invariant textures == NewTextures(o, dir, lines[..i], seen)
      decreases |lines| - i
    {
      var w := RewriteLineAsWritten(o, lines[i]);
      if w.texture.Some? && PathJoin(dir, w.texture.value) !in seen' {
        var x := PathJoin(dir, w.texture.value);
        if x !in files {
          return Failure(MissingFile(x));
        }
        RewriteLoopAdd(o, dir, lines, i, files, seen, seen', textures, out, x);
        NewTexturesAdd(o, dir, lines, i, seen, textures, x);
        textures := textures + [TexturePart(x)];
        seen' := seen' + {x};
      } else {
        RewriteLoopKeep(o, dir, lines, i, files, seen, seen', textures, out);
        NewTexturesKeep(o, dir, lines, i, seen, textures);
      }
      out := out + [w.line];
      i := i + 1;
    }
    assert lines[..i] == lines;
    return Success(Rewrite(textures, out, seen'));
  }

  // ----- The bundle -----

  /** Why a bundle cannot be built: a definition names a package that is not loaded, a file is
      missing, or (in the service) no definition has the requested key. */
  datatype BundleError = UnknownPackage(name: string) | MissingFile(path: string) | NotFound(key: string)

  /** Every model a package's definitions use. */
  function AllObj8s(p: Package): set<Obj8> {
    Collect(p.aircraft, Obj8sOf)
  }

  /** Where a model's object file lives, relative to the CSL directory. */
  function ObjectPath(roots: map<string, string>, o: Obj8): string
    requires o.package in roots
  {
    PathJoin(roots[o.package], o.path)
  }

  /** An object part carries the rewritten lines of the object file of `o`. */
  predicate ObjectOk(roots: map<string, string>, files: map<string, seq<string>>, o: Obj8, q: Part) {
    q.Object? && o.package in roots && q.path == ObjectPath(roots, o) && q.path in files
    && q.name == PartName(q.path) && q.lines == RewrittenLines(o, files[q.path])
  }

  /** The texture paths an object part refers to. */
  function PartRefs(files: map<string, seq<string>>, o: Obj8, q: Part): set<string>
    requires q.Object? && q.path in files
  {
    Refs(o, DirectoryName(q.path), files[q.path])
  }

  /** The parts before the manifest: each part came from a model `sources[j]` of the package; an
      object part carries that model's rewritten file; a texture part precedes, at `owners[j]`,
      the object part of the file that first refers to it. */
  ghost predicate PartsOk(
    package: Package, roots: map<string, string>, files: map<string, seq<string>>,
    parts: seq<Part>, sources: seq<Obj8>, owners: seq<nat>)
  {
    |sources| == |parts| && |owners| == |parts|
    && PartsIn(package, roots, files, parts, sources, owners, 0, |parts|)
  }

  /** Parts `lo` to `hi` (exclusive) are as `PartsOk` describes. */
  ghost predicate PartsIn(
    package: Package, roots: map<string, string>, files: map<string, seq<string>>,
    parts: seq<Part>, sources: seq<Obj8>, owners: seq<nat>, lo: nat, hi: nat)
    requires hi <= |parts| == |sources| == |owners|
  {
    forall j :: lo <= j < hi ==> PartOk(package, roots, files, parts, sources, owners, j)
  }

  lemma PartsInJoin(
    package: Package, roots: map<string, string>, files: map<string, seq<string>>,
    parts: seq<Part>, sources: seq<Obj8>, owners: seq<nat>, lo: nat, mid: nat, hi: nat)
    requires mid <= hi <= |parts| == |sources| == |owners|
    requires PartsIn(package, roots, files, parts, sources, owners, lo, mid)
    requires PartsIn(package, roots, files, parts, sources, owners, mid, hi)
    ensures PartsIn(package, roots, files, parts, sources, owners, lo, hi)
  {
  }

  lemma PartsInJoinAll(
    package: Package, roots: map<string, string>, files: map<string, seq<string>>,
    parts: seq<Part>, sources: seq<Obj8>, owners: seq<nat>, mid: nat)
    requires mid <= |parts| == |sources| == |owners|
    requires PartsIn(package, roots, files, parts, sources, owners, 0, mid)
    requires PartsIn(package, roots, files, parts, sources, owners, mid, |parts|)
    ensures PartsOk(package, roots, files, parts, sources, owners)
  {
    PartsInJoin(package, roots, files, parts, sources, owners, 0, mid, |parts|);
  }

  /** Part `j` as `PartsOk` describes it. */
  ghost predicate PartOk(
    package: Package, roots: map<string, string>, files: map<string, seq<string>>,
    parts: seq<Part>, sources: seq<Obj8>, owners: seq<nat>, j: nat)
    requires j < |parts| == |sources| == |owners|
  {
    && sources[j] in AllObj8s(package)
    && !parts[j].Manifest?
    && (parts[j].Object? ==> ObjectOk(roots, files, sources[j], parts[j]))
    && (parts[j].Texture? ==>
      && parts[j] == TexturePart(parts[j].path) && parts[j].path in files
      && j < owners[j] < |parts| && sources[owners[j]] == sources[j]
      && ObjectOk(roots, files, sources[j], parts[owners[j]])
      && parts[j].path in PartRefs(files, sources[j], parts[owners[j]]))
  }

  /** Nothing used is left out, and no texture comes late: the object file of every model in
      `visited`, and every texture a carried object file refers to, is carried, and never by a
      part after that object file's. */
  ghost predicate Covers(
    roots: map<string, string>, files: map<string, seq<string>>,
    parts: seq<Part>, sources: seq<Obj8>, visited: set<Obj8>)
    requires |sources| == |parts|
  {
    && (forall o :: o in visited ==> o.package in roots && ObjectPath(roots, o) in RawPaths(parts))
    && (forall j :: 0 <= j < |parts| && parts[j].Object? && parts[j].path in files ==>
      PartRefs(files, sources[j], parts[j]) <= RawPaths(parts))
    && (forall i, j :: 0 <= i < j < |parts| && parts[i].Object? && parts[i].path in files ==>
      RawPath(parts[j]) !in PartRefs(files, sources[i], parts[i]))
  }

  ghost predicate AssemblyInvariant(
    package: Package, roots: map<string, string>, files: map<string, seq<string>>,
    parts: seq<Part>, sources: seq<Obj8>, owners: seq<nat>, visited: set<Obj8>)
  {
    PartsOk(package, roots, files, parts, sources, owners)
    && Distinct(parts)
    && Covers(roots, files, parts, sources, visited)
  }

  /** `n` copies of `x`. */
  function Repeat<T>(x: T, n: nat): seq<T> {
    seq(n, _ => x)
  }

  lemma DistinctConcat(ps: seq<Part>, qs: seq<Part>)
    requires Distinct(ps) && Distinct(qs) && RawPaths(ps) !! RawPaths(qs)
    ensures Distinct(ps + qs)
  {
    var r := ps + qs;
    forall i, j | 0 <= i < j < |r|
      ensures RawPath(r[i]) != RawPath(r[j])
    {
      if j < |ps| {
        assert r[i] == ps[i] && r[j] == ps[j];
      } else if i < |ps| {
        assert r[i] == ps[i] && r[j] == qs[j - |ps|];
        assert RawPath(qs[j - |ps|]) in RawPaths(qs);
      } else {
        assert r[i] == qs[i - |ps|] && r[j] == qs[j - |ps|];
      }
    }
  }

  /** What `RewriteObject` delivers for the model `o` whose object file `p` is new. */
  ghost predicate RewriteOk(
    files: map<string, seq<string>>, seen: set<string>, o: Obj8, p: string, w: Rewrite)
    requires p in files
  {
    w.lines == RewrittenLines(o, files[p])
    && w.seen == seen + {p} + Refs(o, DirectoryName(p), files[p])
    && TexturesOk(w.textures, files)
    && Distinct(w.textures)
    && RawPaths(w.textures) == w.seen - (seen + {p})
  }

  /** `RewriteObject` for the model `o` whose object file `p` is new: `p` is seen before its
      lines are read. */
  method RewriteNew(files: map<string, seq<string>>, seen: set<string>, o: Obj8, p: string)
    returns (r: Result<Rewrite, BundleError>)
    requires p in files
    ensures r.Success? ==> RewriteOk(files, seen, o, p, r.value)
    ensures r.Failure? ==>
      r.error.MissingFile? && r.error.path !in files
      && exists k :: 0 <= k < |files[p]| && r.error.path in LineRef(o, DirectoryName(p), files[p][k])
  {
    r := RewriteObject(o, p, files[p], files, seen + {p});
  }

  /** The parts after adding the texture parts and the object part of a rewritten file. */
  function AddObject(parts: seq<Part>, p: string, w: Rewrite): seq<Part> {
    parts + (w.textures + [Object(PartName(p), p, w.lines)])
  }

  lemma AddObjectPaths(parts: seq<Part>, files: map<string, seq<string>>, o: Obj8, p: string, w: Rewrite)
    requires p in files && p !in RawPaths(parts) && Distinct(parts)
    requires RewriteOk(files, RawPaths(parts), o, p, w)
    ensures RawPaths(AddObject(parts, p, w)) == w.seen
    ensures Distinct(AddObject(parts, p, w))
  {
    var q := Object(PartName(p), p, w.lines);
    RawPathsSnoc(w.textures, q);
    DistinctSnoc(w.textures, q);
    RawPathsConcat(parts, w.textures + [q]);
    DistinctConcat(parts, w.textures + [q]);
  }

  lemma AddObjectParts(
    package: Package, roots: map<string, string>, files: map<string, seq<string>>,
    parts: seq<Part>, sources: seq<Obj8>, owners: seq<nat>, o: Obj8, w: Rewrite)
    requires PartsOk(package, roots, files, parts, sources, owners)
    requires o in AllObj8s(package) && o.package in roots && ObjectPath(roots, o) in files
    requires RewriteOk(files, RawPaths(parts), o, ObjectPath(roots, o), w)
    ensures PartsOk(package, roots, files, AddObject(parts, ObjectPath(roots, o), w),
      sources + Repeat(o, |w.textures| + 1),
      owners + Repeat<nat>(|parts| + |w.textures|, |w.textures| + 1))
  {
    var p := ObjectPath(roots, o);
    var n := |w.textures|;
    var parts' := AddObject(parts, p, w);
    var sources' := sources + Repeat(o, n + 1);
    var owners': seq<nat> := owners + Repeat<nat>(|parts| + n, n + 1);
    var q := Object(PartName(p), p, w.lines);
    OldPartsOk(package, roots, files, parts, sources, owners,
      w.textures + [q], Repeat(o, n + 1), Repeat<nat>(|parts| + n, n + 1));
    NewPartsOk(package, roots, files, parts, sources, owners, o, w, parts', sources', owners');
    PartsInJoinAll(package, roots, files, parts', sources', owners', |parts|);
  }

  lemma NewPartsOk(
    package: Package, roots: map<string, string>, files: map<string, seq<string>>,
    parts: seq<Part>, sources: seq<Obj8>, owners: seq<nat>, o: Obj8, w: Rewrite,
    parts': seq<Part>, sources': seq<Obj8>, owners': seq<nat>)
    requires |sources| == |parts| == |owners|
    requires o in AllObj8s(package) && o.package in roots && ObjectPath(roots, o) in files
    requires RewriteOk(files, RawPaths(parts), o, ObjectPath(roots, o), w)
    requires parts' == AddObject(parts, ObjectPath(roots, o), w)
    requires sources' == sources + Repeat(o, |w.textures| + 1)
    requires owners' == owners + Repeat<nat>(|parts| + |w.textures|, |w.textures| + 1)
    ensures |parts'| == |sources'| == |owners'|
    ensures PartsIn(package, roots, files, parts', sources', owners', |parts|, |parts'|)
  {
    NewTexturesOk(package, roots, files, parts, sources, owners, o, w, parts', sources', owners');
    NewObjectOk(package, roots, files, parts, sources, owners, o, w, parts', sources', owners');
    PartsInJoin(package, roots, files, parts', sources', owners', |parts|, |parts| + |w.textures|, |parts'|);
  }

  lemma OldPartsOk(
    package: Package, roots: map<string, string>, files: map<string, seq<string>>,
    parts: seq<Part>, sources: seq<Obj8>, owners: seq<nat>,
    pt: seq<Part>, st: seq<Obj8>, ot: seq<nat>)
    requires PartsOk(package, roots, files, parts, sources, owners)
    requires |pt| == |st| == |ot|
    ensures PartsIn(package, roots, files, parts + pt, sources + st, owners + ot, 0, |parts|)
  {
    forall j | 0 <= j < |parts|
      ensures PartOk(package, roots, files, parts + pt, sources + st, owners + ot, j)
    {
      assert PartOk(package, roots, files, parts, sources, owners, j);
    }
  }

  lemma NewTexturesOk(
    package: Package, roots: map<string, string>, files: map<string, seq<string>>,
    parts: seq<Part>, sources: seq<Obj8>, owners: seq<nat>, o: Obj8, w: Rewrite,
    parts': seq<Part>, sources': seq<Obj8>, owners': seq<nat>)
    requires |sources| == |parts| == |owners|
    requires o in AllObj8s(package) && o.package in roots && ObjectPath(roots, o) in files
    requires RewriteOk(files, RawPaths(parts), o, ObjectPath(roots, o), w)
    requires parts' == AddObject(parts, ObjectPath(roots, o), w)
    requires sources' == sources + Repeat(o, |w.textures| + 1)
    requires owners' == owners + Repeat<nat>(|parts| + |w.textures|, |w.textures| + 1)
    ensures PartsIn(package, roots, files, parts', sources', owners', |parts|, |parts| + |w.textures|)
  {
    var p := ObjectPath(roots, o);
    var n := |w.textures|;
    var q := Object(PartName(p), p, w.lines);
    assert parts'[|parts| + n] == q && sources'[|parts| + n] == o;
    assert ObjectOk(roots, files, o, q);
    forall j | |parts| <= j < |parts| + n
      ensures PartOk(package, roots, files, parts', sources', owners', j)
    {
      var t := w.textures[j - |parts|];
      assert parts'[j] == t;
      assert sources'[j] == o && owners'[j] == |parts| + n;
      NewTextureOk(package, roots, files, o, q, t, RawPaths(w.textures), parts', sources', owners', j);
    }
  }

  /** Texture part `t` at `j`, owned by the object part `q` of model `o` that refers to it. */
  lemma NewTextureOk(
    package: Package, roots: map<string, string>, files: map<string, seq<string>>, o: Obj8,
    q: Part, t: Part, news: set<string>,
    parts': seq<Part>, sources': seq<Obj8>, owners': seq<nat>, j: nat)
    requires j < |parts'| == |sources'| == |owners'|
    requires o in AllObj8s(package) && ObjectOk(roots, files, o, q)
    requires t.Texture? && t == TexturePart(t.path) && t.path in files && t.path in news
    requires news <= PartRefs(files, o, q)
    requires parts'[j] == t && sources'[j] == o
    requires j < owners'[j] < |parts'| && parts'[owners'[j]] == q && sources'[owners'[j]] == o
    ensures PartOk(package, roots, files, parts', sources', owners', j)
  {
  }

  lemma NewObjectOk(
    package: Package, roots: map<string, string>, files: map<string, seq<string>>,
    parts: seq<Part>, sources: seq<Obj8>, owners: seq<nat>, o: Obj8, w: Rewrite,
    parts': seq<Part>, sources': seq<Obj8>, owners': seq<nat>)
    requires |sources| == |parts| == |owners|
    requires o in AllObj8s(package) && o.package in roots && ObjectPath(roots, o) in files
    requires RewriteOk(files, RawPaths(parts), o, ObjectPath(roots, o), w)
    requires parts' == AddObject(parts, ObjectPath(roots, o), w)
    requires sources' == sources + Repeat(o, |w.textures| + 1)
    requires owners' == owners + Repeat<nat>(|parts| + |w.textures|, |w.textures| + 1)
    ensures PartsIn(package, roots, files, parts', sources', owners',
      |parts| + |w.textures|, |parts'|)
  {
    var p := ObjectPath(roots, o);
    var n := |w.textures|;
    assert PartOk(package, roots, files, parts', sources', owners', |parts| + n) by {
      assert parts'[|parts| + n] == Object(PartName(p), p, w.lines);
      assert sources'[|parts| + n] == o;
    }
  }

  lemma AddObjectCovers(
    roots: map<string, string>, files: map<string, seq<string>>,
    parts: seq<Part>, sources: seq<Obj8>, visited: set<Obj8>, o: Obj8, w: Rewrite)
    requires |sources| == |parts| && Covers(roots, files, parts, sources, visited)
    requires o.package in roots && ObjectPath(roots, o) in files
    requires RewriteOk(files, RawPaths(parts), o, ObjectPath(roots, o), w)
    requires RawPaths(AddObject(parts, ObjectPath(roots, o), w)) == w.seen
    requires ObjectPath(roots, o) !in RawPaths(parts)
    ensures Covers(roots, files, AddObject(parts, ObjectPath(roots, o), w),
      sources + Repeat(o, |w.textures| + 1), visited + {o})
  {
    var p := ObjectPath(roots, o);
    var n := |w.textures|;
    var parts' := AddObject(parts, p, w);
    var sources' := sources + Repeat(o, n + 1);
    assert RawPaths(parts) <= w.seen;
    forall j | 0 <= j < |parts'| && parts'[j].Object? && parts'[j].path in files
      ensures PartRefs(files, sources'[j], parts'[j]) <= RawPaths(parts')
    {
      if j < |parts| {
        assert parts'[j] == parts[j] && sources'[j] == sources[j];
      } else if j == |parts| + n {
        assert parts'[j] == Object(PartName(p), p, w.lines) && sources'[j] == o;
      }
    }
    assert sources'[..|parts|] == sources;
    NoLateRefs(roots, files, parts, sources, visited, p, w, sources');
  }

  /** The parts of a new object file come after every older object part, and carry no file an
      older object part refers to. */
  lemma NoLateRefs(
    roots: map<string, string>, files: map<string, seq<string>>,
    parts: seq<Part>, sources: seq<Obj8>, visited: set<Obj8>, p: string, w: Rewrite, sources': seq<Obj8>)
    requires |sources| == |parts| && Covers(roots, files, parts, sources, visited)
    requires |sources'| == |parts| + |w.textures| + 1 && sources'[..|parts|] == sources
    requires TexturesOk(w.textures, files)
    requires RawPaths(w.textures) !! RawPaths(parts) && p !in RawPaths(parts)
    ensures var parts' := AddObject(parts, p, w);
      forall i, j :: 0 <= i < j < |parts'| && parts'[i].Object? && parts'[i].path in files ==>
        RawPath(parts'[j]) !in PartRefs(files, sources'[i], parts'[i])
  {
    var n := |w.textures|;
    var tail := w.textures + [Object(PartName(p), p, w.lines)];
    var parts' := parts + tail;
    forall i, j | 0 <= i < j < |parts'| && parts'[i].Object? && parts'[i].path in files
      ensures RawPath(parts'[j]) !in PartRefs(files, sources'[i], parts'[i])
    {
      if i < |parts| {
        assert parts'[i] == parts[i] && sources'[i] == sources[i];
        if j < |parts| {
          assert parts'[j] == parts[j];
        } else if j < |parts| + n {
          assert parts'[j] == w.textures[j - |parts|];
          assert RawPath(w.textures[j - |parts|]) in RawPaths(w.textures);
        } else {
          assert parts'[j] == tail[n];
        }
      }
    }
  }

  /** Adding the parts of a model whose object file `p` is new keeps the assembly invariant. */
  lemma AddObjectStep(
    package: Package, roots: map<string, string>, files: map<string, seq<string>>,
    parts: seq<Part>, sources: seq<Obj8>, owners: seq<nat>, visited: set<Obj8>,
    o: Obj8, p: string, w: Rewrite)
    requires AssemblyInvariant(package, roots, files, parts, sources, owners, visited)
    requires o in AllObj8s(package) && o.package in roots && p == ObjectPath(roots, o)
    requires p in files && p !in RawPaths(parts)
    requires RewriteOk(files, RawPaths(parts), o, p, w)
    ensures AssemblyInvariant(package, roots, files, AddObject(parts, p, w),
      sources + Repeat(o, |w.textures| + 1), owners + Repeat<nat>(|parts| + |w.textures|, |w.textures| + 1),
      visited + {o})
    ensures RawPaths(AddObject(parts, p, w)) == w.seen
  {
    AddObjectPaths(parts, files, o, p, w);
    AddObjectParts(package, roots, files, parts, sources, owners, o, w);
    AddObjectCovers(roots, files, parts, sources, visited, o, w);
  }

  /** Adding a model whose object file is already carried changes nothing. */
  lemma SkipObjectCovers(
    roots: map<string, string>, files: map<string, seq<string>>,
    parts: seq<Part>, sources: seq<Obj8>, visited: set<Obj8>, o: Obj8)
    requires |sources| == |parts| && Covers(roots, files, parts, sources, visited)
    requires o.package in roots && ObjectPath(roots, o) in RawPaths(parts)
    ensures Covers(roots, files, parts, sources, visited + {o})
  {
  }

  /** The bundle needs file `path` for model `o`: it is the model's object file, or a texture
      that object file refers to. */
  predicate Needs(roots: map<string, string>, files: map<string, seq<string>>, o: Obj8, path: string)
    requires o.package in roots
  {
    var p := ObjectPath(roots, o);
    path == p || (p in files && path in Refs(o, DirectoryName(p), files[p]))
  }

  /** Why building the bundle of `package` may fail: a model names a package with no root, or
      a file some model needs is not there. */
  predicate FailureOk(
    package: Package, roots: map<string, string>, files: map<string, seq<string>>, e: BundleError)
  {
    || (e.UnknownPackage? && e.name !in roots && exists o :: o in AllObj8s(package) && o.package == e.name)
    || (e.MissingFile? && e.path !in files
      && exists o :: o in AllObj8s(package) && o.package in roots && Needs(roots, files, o, e.path))
  }

  /** Every model's package has a root, and its object file and every texture that file refers
      to exist. */
  predicate Available(package: Package, roots: map<string, string>, files: map<string, seq<string>>) {
    forall o :: o in AllObj8s(package) ==>
      && o.package in roots && ObjectPath(roots, o) in files
      && Refs(o, DirectoryName(ObjectPath(roots, o)), files[ObjectPath(roots, o)]) <= files.Keys
  }

  /** A failure names a package or a file that is not there, so it never happens when every
      needed file is available. */
  lemma FailureUnavailable(
    package: Package, roots: map<string, string>, files: map<string, seq<string>>, e: BundleError)
    requires FailureOk(package, roots, files, e)
    ensures !Available(package, roots, files)
  {
    if e.UnknownPackage? {
      var o :| o in AllObj8s(package) && o.package == e.name;
      assert o.package !in roots;
    } else {
      var o :| o in AllObj8s(package) && o.package in roots && Needs(roots, files, o, e.path);
    }
  }

  /** A texture that the rewrite of a needed object file finds missing is a needed file. */
  lemma MissingTextureNeeded(
    package: Package, roots: map<string, string>, files: map<string, seq<string>>, o: Obj8,
    p: string, e: BundleError)
    requires o in AllObj8s(package) && o.package in roots && p == ObjectPath(roots, o) && p in files
    requires e.MissingFile? && e.path !in files
    requires exists k :: 0 <= k < |files[p]| && e.path in LineRef(o, DirectoryName(p), files[p][k])
    ensures FailureOk(package, roots, files, e)
  {
    var k :| 0 <= k < |files[p]| && e.path in LineRef(o, DirectoryName(p), files[p][k]);
    RefsOfLine(o, DirectoryName(p), files[p], k);
    assert Needs(roots, files, o, e.path);
  }

  /** The parts built so far and the files they carry. */
  datatype Assembly = Assembly(parts: seq<Part>, seen: set<string>)

  /** Adds the parts of model `o` of `package`, whose object file `p` is not carried yet. */
  method AddNewModel(
    package: Package, roots: map<string, string>, files: map<string, seq<string>>, o: Obj8,
    p: string, parts: seq<Part>, seen: set<string>,
    ghost sources: seq<Obj8>, ghost owners: seq<nat>, ghost visited: set<Obj8>)
    returns (r: Result<Assembly, BundleError>, ghost sources': seq<Obj8>, ghost owners': seq<nat>)
    requires o in AllObj8s(package) && o.package in roots && p == ObjectPath(roots, o)
    requires AssemblyInvariant(package, roots, files, parts, sources, owners, visited)
    requires seen == RawPaths(parts) && p !in seen && p in files
    ensures r.Success? ==>
      AssemblyInvariant(package, roots, files, r.value.parts, sources', owners', visited + {o})
      && r.value.seen == RawPaths(r.value.parts)
    ensures r.Failure? ==> FailureOk(package, roots, files, r.error)
  {
    sources', owners' := sources, owners;
    var w := RewriteNew(files, seen, o, p);
    if w.Failure? {
      MissingTextureNeeded(package, roots, files, o, p, w.error);
      r := Failure(w.error);
    } else {
      var n := |w.value.textures|;
      AddObjectStep(package, roots, files, parts, sources, owners, visited, o, p, w.value);
      owners' := owners + Repeat<nat>(|parts| + n, n + 1);
      sources' := sources + Repeat(o, n + 1);
      r := Success(Assembly(AddObject(parts, p, w.value), w.value.seen));
    }
  }

  /** Adds the parts of model `o` of `package` unless its object file is carried already. */
  method AddModel(
    package: Package, roots: map<string, string>, files: map<string, seq<string>>, o: Obj8,
    parts: seq<Part>, seen: set<string>,
    ghost sources: seq<Obj8>, ghost owners: seq<nat>, ghost visited: set<Obj8>)
    returns (r: Result<Assembly, BundleError>, ghost sources': seq<Obj8>, ghost owners': seq<nat>)
    requires o in AllObj8s(package)
    requires AssemblyInvariant(package, roots, files, parts, sources, owners, visited)
    requires seen == RawPaths(parts)
    ensures r.Success? ==>
      AssemblyInvariant(package, roots, files, r.value.parts, sources', owners', visited + {o})
      && r.value.seen == RawPaths(r.value.parts)
    ensures r.Failure? ==> FailureOk(package, roots, files, r.error)
  {
    sources', owners' := sources, owners;
    if o.package !in roots {
      r := Failure(UnknownPackage(o.package));
    } else {
      var p := PathJoin(roots[o.package], o.path);
      if p in seen {
        SkipObjectCovers(roots, files, parts, sources, visited, o);
        r := Success(Assembly(parts, seen));
      } else if p !in files {
        r := Failure(MissingFile(p));
      } else {
        r, sources', owners' := AddNewModel(package, roots, files, o, p, parts, seen, sources, owners, visited);
      }
    }
  }

  lemma CollectNext(s: seq<Obj8Aircraft>, k: nat)
    requires k < |s|
    ensures Collect(s[..k + 1], Obj8sOf) == Collect(s[..k], Obj8sOf) + s[k].obj8s
  {
    assert s[..k + 1] == s[..k] + [s[k]];
    CollectAppend(s[..k], s[k], Obj8sOf);
  }

  /** The state of `AddAircraft` with the models `todo` of the `k`th definition still to add. */
  ghost predicate AircraftLoop(
    package: Package, roots: map<string, string>, files: map<string, seq<string>>, k: nat,
    acc: Assembly, sources: seq<Obj8>, owners: seq<nat>, todo: set<Obj8>, visited: set<Obj8>)
  {
    k < |package.aircraft| && todo <= package.aircraft[k].obj8s
    && visited == Collect(package.aircraft[..k], Obj8sOf) + (package.aircraft[k].obj8s - todo)
    && AssemblyInvariant(package, roots, files, acc.parts, sources, owners, visited)
    && acc.seen == RawPaths(acc.parts)
  }

  lemma AircraftLoopStart(
    package: Package, roots: map<string, string>, files: map<string, seq<string>>, k: nat,
    acc: Assembly, sources: seq<Obj8>, owners: seq<nat>)
    requires k < |package.aircraft|
    requires AssemblyInvariant(package, roots, files, acc.parts, sources, owners,
      Collect(package.aircraft[..k], Obj8sOf))
    requires acc.seen == RawPaths(acc.parts)
    ensures AircraftLoop(package, roots, files, k, acc, sources, owners,
      package.aircraft[k].obj8s, Collect(package.aircraft[..k], Obj8sOf))
  {
    var a := package.aircraft[k];
    assert a.obj8s - a.obj8s == {};
  }

  lemma AircraftLoopModel(
    package: Package, roots: map<string, string>, files: map<string, seq<string>>, k: nat,
    acc: Assembly, sources: seq<Obj8>, owners: seq<nat>, todo: set<Obj8>, visited: set<Obj8>, o: Obj8)
    requires AircraftLoop(package, roots, files, k, acc, sources, owners, todo, visited)
    requires o in todo
    ensures o in AllObj8s(package)
  {
    CollectContains(package.aircraft, k, Obj8sOf);
  }

  lemma AircraftLoopStep(
    package: Package, roots: map<string, string>, files: map<string, seq<string>>, k: nat,
    acc: Assembly, sources: seq<Obj8>, owners: seq<nat>, todo: set<Obj8>, visited: set<Obj8>, o: Obj8,
    acc': Assembly, sources': seq<Obj8>, owners': seq<nat>)
    requires AircraftLoop(package, roots, files, k, acc, sources, owners, todo, visited)
    requires o in todo
    requires AssemblyInvariant(package, roots, files, acc'.parts, sources', owners', visited + {o})
    requires acc'.seen == RawPaths(acc'.parts)
    ensures AircraftLoop(package, roots, files, k, acc', sources', owners', todo - {o}, visited + {o})
  {
    SetStep(package.aircraft[k].obj8s, todo, o);
  }

  lemma AircraftLoopEnd(
    package: Package, roots: map<string, string>, files: map<string, seq<string>>, k: nat,
    acc: Assembly, sources: seq<Obj8>, owners: seq<nat>, visited: set<Obj8>)
    requires AircraftLoop(package, roots, files, k, acc, sources, owners, {}, visited)
    ensures AssemblyInvariant(package, roots, files, acc.parts, sources, owners,
      Collect(package.aircraft[..k + 1], Obj8sOf))
  {
    CollectNext(package.aircraft, k);
  }

  /** Adds the parts of the models of the `k`th definition of `package` that are not carried
      yet. */
  method AddAircraft(
    package: Package, roots: map<string, string>, files: map<string, seq<string>>, k: nat,
    parts: seq<Part>, seen: set<string>, ghost sources: seq<Obj8>, ghost owners: seq<nat>)
    returns (r: Result<Assembly, BundleError>, ghost sources': seq<Obj8>, ghost owners': seq<nat>)
    requires k < |package.aircraft|
    requires AssemblyInvariant(package, roots, files, parts, sources, owners,
      Collect(package.aircraft[..k], Obj8sOf))
    requires seen == RawPaths(parts)
    ensures r.Success? ==>
      AssemblyInvariant(package, roots, files, r.value.parts, sources', owners',
        Collect(package.aircraft[..k + 1], Obj8sOf))
      && r.value.seen == RawPaths(r.value.parts)
    ensures r.Failure? ==> FailureOk(package, roots, files, r.error)
  {
    var acc := Assembly(parts, seen);
    sources', owners' := sources, owners;
    ghost var visited := Collect(package.aircraft[..k], Obj8sOf);
    AircraftLoopStart(package, roots, files, k, acc, sources, owners);
    var todo := package.aircraft[k].obj8s;
    var error: Option<BundleError> := None;
    while todo != {} && error.None?
      invariant AircraftLoop(package, roots, files, k, acc, sources', owners', todo, visited)
      invariant error.Some? ==> FailureOk(package, roots, files, error.value)
      decreases |todo|, error.None?
    {
      var o :| o in todo;
      AircraftLoopModel(package, roots, files, k, acc, sources', owners', todo, visited, o);
      var step;
      ghost var sources'', owners'';
      step, sources'', owners'' := AddModel(package, roots, files, o, acc.parts, acc.seen, sources', owners', visited);
      if step.Failure? {
        error := Some(step.error);
      } else {
        AircraftLoopStep(package, roots, files, k, acc, sources', owners', todo, visited, o,
          step.value, sources'', owners'');
        acc := step.value;
        sources', owners' := sources'', owners'';
        visited := visited + {o};
        todo := todo - {o};
      }
    }
    if error.Some? {
      r := Failure(error.value);
    } else {
      AircraftLoopEnd(package, roots, files, k, acc, sources', owners', visited);
      r := Success(acc);
    }
  }

  /** A complete bundle of `package`: its last part, and only that one, is the manifest, which
      reads back as the package (the dependency lines are not written); before it every file is
      carried once, each part as `PartsOk` describes, and nothing a model uses is left out. */
  ghost predicate BundleOk(
    package: Package, roots: map<string, string>, files: map<string, seq<string>>,
    parts: seq<Part>, sources: seq<Obj8>, owners: seq<nat>)
  {
    var n := |parts| - 1;
    && |parts| > 0
    && parts[n].Manifest? && parts[n].name == package.root + "/xsb_aircraft.txt"
    && (Canonical(package) ==>
      ParseLines(package.root, parts[n].lines) == Parser(package, None, |parts[n].lines|, []))
    && PartsOk(package, roots, files, parts[..n], sources, owners)
    && Distinct(parts[..n])
    && Covers(roots, files, parts[..n], sources, AllObj8s(package))
  }

  /** In a complete bundle every texture an object part refers to is carried by that part or
      an earlier one: the textures an object file introduces precede its part. */
  lemma TexturesBeforeObject(
    package: Package, roots: map<string, string>, files: map<string, seq<string>>,
    parts: seq<Part>, sources: seq<Obj8>, owners: seq<nat>, j: nat)
    requires BundleOk(package, roots, files, parts, sources, owners)
    requires j < |parts| - 1 && parts[j].Object? && parts[j].path in files
    ensures PartRefs(files, sources[j], parts[j]) <= RawPaths(parts[..j + 1])
  {
    var ps := parts[..|parts| - 1];
    assert ps[j] == parts[j];
    forall x | x in PartRefs(files, sources[j], parts[j])
      ensures x in RawPaths(parts[..j + 1])
    {
      assert x in RawPaths(ps);
      var m :| 0 <= m < |ps| && RawPath(ps[m]) == x;
      if m <= j {
        assert parts[..j + 1][m] == ps[m];
      }
    }
  }

  /** Builds the bundle of `package`, whose definitions' models live in the packages whose
      roots `roots` gives by export name, over the object and texture files `files` (by path
      relative to the CSL directory, each with its lines). Each file is carried once: the
      textures an object file first refers to, then that file rewritten, and last the manifest. */
  method CreateMultipartContent(
    package: Package, roots: map<string, string>, files: map<string, seq<string>>)
    returns (r: Result<seq<Part>, BundleError>, ghost sources: seq<Obj8>, ghost owners: seq<nat>)
    ensures r.Success? ==> BundleOk(package, roots, files, r.value, sources, owners)
    ensures r.Failure? ==> FailureOk(package, roots, files, r.error)
    ensures Available(package, roots, files) ==> r.Success?
  {
    var parts: seq<Part> := [];
    var seen: set<string> := {};
    sources, owners := [], [];
    var k := 0;
    while k < |package.aircraft|
      invariant k <= |package.aircraft|
      invariant AssemblyInvariant(package, roots, files, parts, sources, owners,
        Collect(package.aircraft[..k], Obj8sOf))
      invariant seen == RawPaths(parts)
      decreases |package.aircraft| - k
    {
      var step;
      step, sources, owners := AddAircraft(package, roots, files, k, parts, seen, sources, owners);
      if step.Failure? {
        FailureUnavailable(package, roots, files, step.error);
        r := Failure(step.error);
        return;
      }
      parts, seen := step.value.parts, step.value.seen;
      k := k + 1;
    }
    assert package.aircraft[..k] == package.aircraft;
    var lines := ToXsbAircraft(package, false);
    BundleEnd(package, roots, files, parts, sources, owners, lines);
    r := Success(parts + [Manifest(package.root + "/xsb_aircraft.txt", lines)]);
  }

  /** The parts of every model, followed by the manifest, make a complete bundle. */
  lemma BundleEnd(
    package: Package, roots: map<string, string>, files: map<string, seq<string>>,
    parts: seq<Part>, sources: seq<Obj8>, owners: seq<nat>, lines: seq<string>)
    requires AssemblyInvariant(package, roots, files, parts, sources, owners, AllObj8s(package))
    requires Canonical(package) ==>
      ParseLines(package.root, lines) == Parser(package, None, |lines|, HeaderLog(package, false))
    ensures BundleOk(package, roots, files,
      parts + [Manifest(package.root + "/xsb_aircraft.txt", lines)], sources, owners)
  {
    var parts' := parts + [Manifest(package.root + "/xsb_aircraft.txt", lines)];
    assert parts'[..|parts|] == parts;
  }
}
