# CSL on demand — a verified model of the package index, matcher and bundle builder

The service indexes X-Plane CSL (Custom Scenery Library) aircraft-model packages and, for a
query of ICAO type designator, airline and livery, picks the best aircraft definition and
builds the download bundle of the files that definition needs. This project models the core
of `CSLService/CSLService.cs` and proves properties of the model:

- **Records** (`records.dfy`): 3D models (`Obj8`), selectors, aircraft definitions
  (`Obj8Aircraft`) and packages, with the two `UnionWith` merges and `Pack`.
- **Manifest reader** (`manifest.dfy`): `ParsePackageAsync` as a line-by-line state machine
  over "the definition being read, or none", with its diagnostics.
- **Manifest writer** (`xsb.dfy`): `ToXsbAircraft`, proved to write text that the reader turns
  back into the same package.
- **Reference tables** (`tables.dfy`): the Doc 8643 classification table and the
  related-types file, and the annotation of the table with the related groups.
- **Matcher scores** (`matching.dfy`) and **the service** (`service.dfy`): the `CslService`
  class with the export-name index, the package table, the classification table and the
  registry. Its methods model `CachePackagesAsync`, `CacheDoc8643Async`, `CacheRelatedAsync`,
  `ClearCache`, `StartAsync`, `MatchCore`, `Match` and `CreateMultipartContentAsync(root, id)`.
- **Bundle** (`bundle.dfy`): `CreateMultipartContentAsync(Package)`. This covers the rewrite of
  texture directives, the single seen-set that keeps every file to one part, and the
  manifest part placed last.
- `text.dfy` holds the string helpers: tokenising, trimming and paths. `wrappers.dfy` holds
  `Option` and `Result`.

Files and directories become values the caller supplies:

- a manifest, the classification table and the related-types file are each a `seq<string>`
  of lines;
- the object and texture files under the CSL directory are a map from path to lines;
- log messages become `Diagnostic` and `Event` values appended to a log.

HashSet and Dictionary iteration order is unspecified in the source. The model keeps the sets
as sets. The matcher's loops and the export-name merge pick their next element with `:|` (any
element), so their proofs hold for every order. The registry walks the package table in table
order and each package's definitions in commit order (a sequence). The proofs about its
contents hold for any such order, but the duplicate log follows the one chosen (see
"Left out").

Some behaviour of the code is worth stating outright, because the model keeps it:

- A bundle interleaves its parts. The textures an object file introduces come before that
  file's part, in the order its lines first refer to them, and the manifest comes last.
- The livery, airline and icao score bits are set when the term is not given at all, as well
  as when it differs.
- Object paths in a manifest have `\` and `:` replaced by `/`.

## Model

| member | source | states |
|---|---|---|
| Text.Tokens | CSLService/CSLService.cs:290 | the words of a manifest line (before the first `#`, split at whitespace) are all non-empty and free of whitespace and `#` |
| Text.TokensLine | CSLService/CSLService.cs:290 | round trip: joining such words with single spaces and tokenising the line gives back exactly those words |
| Text.Split | CSLService/CSLService.cs:397 | the whitespace-separated words that the related-type pattern captures are non-empty and free of whitespace |
| Text.SplitLine | CSLService/CSLService.cs:397 | round trip: splitting words joined by spaces gives back exactly those words |
| Text.TrimIsTrimmed | CSLService/CSLService.cs:415 | `Trim` leaves no whitespace at either end and does not change text that is already trimmed |
| Text.IndexOfSeparator | CSLService/CSLService.cs:334 | `IndexOfAny('/', '\\', ':')`: the index of the first separator, or -1 exactly when there is none |
| Text.Replace | CSLService/CSLService.cs:337 | every `from` character becomes `to` and every other character stays, at the same length |
| Text.LastIndexOf | CSLService/CSLService.cs:558 | the index of the last occurrence of the character, or -1 when it does not occur |
| Text.DirectoryNameOfJoin | CSLService/CSLService.cs:555-558 | the directory of `dir` joined with a file name that has no `/` is `dir` again |
| Text.Extension | CSLService/CSLService.cs:535 | a non-empty extension is a suffix of the path that starts with `.`, has more after it, and holds no other `.` and no `/`; the extension is empty exactly when every `.` before the path's last character is followed by another `.` or a `/` |
| Text.ExtensionCases | CSLService/CSLService.cs:535 | a last `.` after the last `/` and before the end is followed by neither; otherwise every `.` before the end is followed by one of them |
| Text.NoneAfter | CSLService/CSLService.cs:535 | nothing after the last occurrence of a character is that character |
| Text.SomeAfter | CSLService/CSLService.cs:535 | a later occurrence of a character lies in the tail after an earlier position |
| Records.OffsetRoundTrip | CSLService/CSLService.cs:117-121 | a vertical offset is written as one manifest word, and the reader's parse (line 358) gives back the same offset |
| Records.Obj8Aircraft.UnionWith | CSLService/CSLService.cs:35-48 | merges exactly when id and vertical offset are equal (root is not compared); the models and selectors then become the unions; otherwise nothing changes |
| Records.Obj8Aircraft.Pack | CSLService/CSLService.cs:29-33 | a one-definition package with the same root, whose export names are the definition's dependencies, so it has no dependencies left |
| Records.Package.UnionWithAircraft | CSLService/CSLService.cs:67-73 | the in-place merge: the definition is merged into the first mergeable one, or appended when there is none |
| Records.Package.UnionWith | CSLService/CSLService.cs:57-65 | the in-place package merge: export names become the union, and then every incoming definition is merged in turn |
| Records.FirstMergeable | CSLService/CSLService.cs:69 | `Any` stops at the first definition that merges: no earlier one is mergeable |
| Records.FirstMergeableIs | CSLService/CSLService.cs:69 | the first mergeable index is unique, so any index with that property is the one `Any` stops at |
| Records.WithAircraftContents | CSLService/CSLService.cs:67-73 | merging a definition into a package adds exactly that definition's models, selectors, dependencies and (id, offset) keys; nothing is lost |
| Records.WithAircraftValid | CSLService/CSLService.cs:67-73 | the merge keeps at most one definition per (id, vertical offset), keeps root and export names, and grows the package by one definition only when nothing merged |
| Records.WithAllContents | CSLService/CSLService.cs:61-64 | merging a sequence of definitions adds exactly their models, selectors, dependencies and keys, and keeps at most one definition per key |
| Records.WithPackageContents | CSLService/CSLService.cs:57-65 | the package merge never loses a model or selector, keeps at most one definition per (id, offset), and leaves the export names equal to the union |
| Records.WithAbsorbed | CSLService/CSLService.cs:67-73 | merging a definition whose contents the package already holds leaves the package unchanged |
| Records.WithAircraftAbsorbs | CSLService/CSLService.cs:67-73 | a merge never drops contents that the package already held for a key |
| Records.WithAllAbsorbs | CSLService/CSLService.cs:61-64 | after a sequence of merges the package holds the contents of every merged definition |
| Records.WithAircraftAbsorbsNew | CSLService/CSLService.cs:67-73 | after a merge the package holds the merged definition's contents |
| Records.WithAllOfAbsorbed | CSLService/CSLService.cs:61-64 | merging definitions that are all already held changes nothing |
| Records.WithPackageTwice | CSLService/CSLService.cs:57-65 | merging the same package twice gives the same result as merging it once |
| Manifest.Commit | CSLService/CSLService.cs:295-302 | the local `Add()`: the current definition is committed through the merge only when it has a model and a selector |
| Manifest.Apply | CSLService/CSLService.cs:315-389 | the per-key switch: MATCHES, LIVERY, AIRLINE and ICAO with at most 3 values and a current definition; OBJ8 through `P`; OBJ8_AIRCRAFT flushes first; VERT_OFFSET and OFFSET; EXPORT_NAME; OBJECT and AIRCRAFT flush and log; anything else is a syntax error or a deprecated key |
| Manifest.ParsePackage | CSLService/CSLService.cs:291-395 | the reading loop yields the package and log of the line-by-line reader `Parse`, with the final flush at line 393 |
| Manifest.ParseObj8Ok | CSLService/CSLService.cs:332-341 | a model read from words has a non-empty package name without `/`, `\` or `:`, a path without `\` or `:`, and word-shaped textures |
| Manifest.ParseSelectorOk | CSLService/CSLService.cs:323-327 | a selector read from words has word-shaped fields and never `-` as its operator |
| Manifest.CommittedOk | CSLService/CSLService.cs:295-302 | a flush keeps the package well formed: every definition complete and rooted at the package, and no two mergeable |
| Manifest.DraftAdd | CSLService/CSLService.cs:323-344 | adding a well-formed model or selector keeps the current definition well formed |
| Manifest.CommandOk | CSLService/CSLService.cs:315-389 | every key's branch keeps the reader's state well formed and the root fixed |
| Manifest.StepOk | CSLService/CSLService.cs:306-391 | reading one line keeps the reader's state well formed and the root fixed |
| Manifest.StepWordsOk | CSLService/CSLService.cs:310-312 | a line shorter than a key and a value is only counted; any other keeps the state well formed |
| Manifest.RunOk | CSLService/CSLService.cs:306-391 | reading any sequence of lines keeps the reader's state well formed |
| Manifest.ParseCanonical | CSLService/CSLService.cs:293-393 | every definition of a parsed package has at least one model and one selector and the package's root (the manifest's directory); every model is as `ParseObj8Ok` says; no two definitions share an (id, offset) |
| Xsb.ToXsbAircraft | CSLService/CSLService.cs:75-153 | the written manifest has one line per export name, per dependency when asked, and per definition, model, offset and selector; reading it back gives the same package (export names, definitions, models, offsets, selectors) |
| Xsb.ExportLines | CSLService/CSLService.cs:78-82 | one EXPORT_NAME line per export name, which the reader turns back into exactly those names |
| Xsb.DependencyLines | CSLService/CSLService.cs:83-90 | one DEPENDENCY line per dependency, which the reader only logs as deprecated |
| Xsb.AircraftLines | CSLService/CSLService.cs:91-151 | the lines of one definition, which the reader commits back as the same definition |
| Xsb.Obj8Lines | CSLService/CSLService.cs:95-116 | one OBJ8 line per model, which the reader adds back as the same model |
| Xsb.MatchesLines | CSLService/CSLService.cs:122-150 | one MATCHES line per selector, which the reader adds back as the same selector |
| Xsb.StepExport | CSLService/CSLService.cs:78-82 | reading an `EXPORT_NAME e` line adds `e` to the export names |
| Xsb.StepDependency | CSLService/CSLService.cs:85-89 | reading a `DEPENDENCY d` line only counts the line and logs the key as deprecated (line 385) |
| Xsb.StepAircraft | CSLService/CSLService.cs:93-94 | reading an `OBJ8_AIRCRAFT id` line flushes and then starts an empty definition with that id at the package's root |
| Xsb.ParseObj8Words | CSLService/CSLService.cs:97-114 | the words of an `OBJ8 SOLID YES pkg/path [tex] [lit]` line parse back (helper `P`, line 332) to the same model |
| Xsb.JoinedPath | CSLService/CSLService.cs:98-100 | `pkg/path` is one word whose first separator falls right after the package name |
| Xsb.StepObj8 | CSLService/CSLService.cs:95-116 | reading an OBJ8 line adds the written model to the current definition |
| Xsb.StepVertOffset | CSLService/CSLService.cs:117-121 | reading a VERT_OFFSET line sets the current definition's offset to the written one |
| Xsb.MatchesWordsRead | CSLService/CSLService.cs:124-148 | a MATCHES line has 1 to 3 values (a livery without an operator is written after `-`), and they parse back to the same selector |
| Xsb.StepMatches | CSLService/CSLService.cs:122-150 | reading a MATCHES line adds the written selector to the current definition |
| Xsb.ExportLoopStep | CSLService/CSLService.cs:78-82 | one export-name iteration keeps "reading what is written gives the names written so far" |
| Xsb.DependencyLoopStep | CSLService/CSLService.cs:85-89 | one dependency iteration keeps "reading what is written logs one deprecation per line" |
| Xsb.Obj8LoopStep | CSLService/CSLService.cs:95-116 | one OBJ8 iteration keeps "the current definition holds the models written so far" |
| Xsb.MatchesLoopStep | CSLService/CSLService.cs:122-150 | one MATCHES iteration keeps "the current definition holds the selectors written so far" |
| Xsb.MatchesLoopStart | CSLService/CSLService.cs:117-122 | after the models and the optional VERT_OFFSET line, the current definition has all models and the offset |
| Xsb.MatchesLoopEnd | CSLService/CSLService.cs:122-151 | after the selectors the definition read back is the one written, and its line count is 1 + models + offset + selectors |
| Xsb.DefinitionsLoopStart | CSLService/CSLService.cs:77-90 | after the header lines, reading gives the export names and the dependency log and no definition |
| Xsb.DefinitionsLoopStep | CSLService/CSLService.cs:91-151 | writing one more definition keeps "reading gives the definitions written so far" |
| Xsb.DefinitionsLoopEnd | CSLService/CSLService.cs:91-153 | after all definitions, reading and the final flush give back the whole package |
| Xsb.CommitNext | CSLService/CSLService.cs:295-302 | in a reader-made package, committing the next definition to the ones before it appends it (it merges with none) |
| Xsb.DependenciesAreTokens | CSLService/CSLService.cs:54 | every dependency of a reader-made package is one manifest word |
| Tables.ParseDoc8643Line | CSLService/CSLService.cs:421-437 | a decoded line gives an uppercase alphanumeric designator, uppercase class, engine and wake letters, and an engine count of 0 to 9 |
| Tables.ParseDoc8643Sound | CSLService/CSLService.cs:421-437 | only lines of the tab pattern are decoded: a decoded line is "anything, tab, designator, tab, class, digit, engine type, tab, wake" |
| Tables.ParseDoc8643Complete | CSLService/CSLService.cs:421-437 | every line of that pattern is decoded, to exactly the type it describes, whatever its prefix |
| Tables.Doc8643TableOk | CSLService/CSLService.cs:244-247 | loading keeps every entry keyed by its own designator with an engine count of 0 to 9 |
| Tables.Doc8643TableLastWins | CSLService/CSLService.cs:246 | the table holds, for each designator, the type of the last line that describes it |
| Tables.Doc8643TableFrom | CSLService/CSLService.cs:244-247 | every new entry comes from some decoded line |
| Tables.DecodeRelatedGroup | CSLService/CSLService.cs:406-411 | a decoded group has at least two distinct types, each a word of the line |
| Tables.DecodeRelatedLine | CSLService/CSLService.cs:397-416 | a line of words gives the set of its words when there are two or more distinct ones, and a warning otherwise |
| Tables.ParseRelated | CSLService/CSLService.cs:398-419 | the reading loop yields the groups and warnings of `RelatedOf`, in line order |
| Tables.RelatedGroupsOk | CSLService/CSLService.cs:409-412 | every yielded group has at least two members |
| Tables.RelatedWarningsOk | CSLService/CSLService.cs:413-416 | every warning names a real line with a single distinct type and carries that line trimmed |
| Tables.Annotate | CSLService/CSLService.cs:231-237 | annotating with a group keeps the table's designators |
| Tables.AnnotateOk | CSLService/CSLService.cs:231-237 | annotating with a group of two or more types keeps the table well formed and changes nothing but the related sets |
| Tables.AnnotateAllOk | CSLService/CSLService.cs:229-238 | after all groups, every related set is null or has at least two members including the type's own designator |
| Tables.LoadedTablesOk | CSLTests/Matching.cs:53-58 | after both tables are loaded, every type is keyed by its designator and its related set is null or holds it among two or more types |
| Matching.Requested | CSLService/CSLService.cs:444-448 | the requested type is known exactly when a designator is given and is in the table |
| Matching.ScoreBounds | CSLService/CSLService.cs:455-502 | the score fits in ten bits; with the wake check on bit 128, that bit is set exactly when a type is unknown or the wake categories differ |
| Matching.ScoreAsWrittenBit | CSLService/CSLService.cs:455-502 | as written, the score also fits in ten bits, and bit 128 is set exactly when a type is unknown: a wake mismatch never reaches it |
| Matching.ScoreFits | CSLService/CSLService.cs:455-502 | under either wake rule, as written or corrected, the score fits in ten bits |
| Matching.WakeMaskedAsWritten | CSLService/CSLService.cs:486-493 | as written, two selectors that differ only in wake category tie once the class differs; with the wake check on bit 128 they do not |
| Matching.WakeMaskedExample | CSLService/CSLService.cs:486-493 | a concrete table and query that show the tie |
| Matching.Quality | CSLService/CSLService.cs:449-502 | under either wake rule, every selector score lies in [0, 1023], so every score competes with the initial best |
| Matching.ExactIcaoScore | CSLService/CSLService.cs:455-502 | under either wake rule, a selector of exactly the requested known type scores at most 27, and at most 11 when the type has a group |
| Matching.OtherScore | CSLService/CSLService.cs:455-474 | under either wake rule, a selector of another type has the icao bit set, and bits 8 and 16 as well when it is outside the type's group; an airline or livery not asked for sets its bits, so another type with neither asked for has all four low bits |
| Matching.ExactIcaoWins | CSLService/CSLService.cs:455-512 | under either wake rule, a selector that scores no worse than one of exactly the requested type is of that type's group, or of the type itself when it has no group |
| Matching.ExactIcaoOnly | CSLService/CSLService.cs:455-512 | under either wake rule, with no airline and no livery asked for, a selector that scores no worse than one of exactly the requested type is of that very type, even when the type has a group |
| Service.WarningEvents | CSLService/CSLService.cs:192-195 | one "unrelated type" event per warning, with its line number and text |
| Service.AddNameStep | CSLService/CSLService.cs:206-213 | the merge loop over export names handles each name once, in any order |
| Service.AddNameMerge | CSLService/CSLService.cs:208-212 | a name already registered merges the package into the one registered there; no name is re-registered |
| Service.AddNameFresh | CSLService/CSLService.cs:208 | a new name registers the incoming package |
| Service.AddedOk | CSLService/CSLService.cs:206-213 | adding a package keeps the index well formed: every name points at a valid package of the table that exports it, and every package of the table is registered under some name |
| Service.AddedKeeps | CSLService/CSLService.cs:206-213 | after adding a package, each of its export names leads to a package holding all its models and selectors |
| Service.AddedAllOk | CSLService/CSLService.cs:204-214 | adding any sequence of packages keeps the index well formed |
| Service.RegistryContents | CSLService/CSLService.cs:215-223 | the registry's keys are exactly the `root/id` of the definitions, and each key maps to a definition with that key |
| Service.RegistryFirstWins | CSLService/CSLService.cs:218 | the first definition with a key is the one registered under it |
| Service.DuplicateCount | CSLService/CSLService.cs:218-221 | every definition is either registered or logged as a duplicate of a registered key |
| Service.RegistryStep | CSLService/CSLService.cs:216-222 | one `TryAdd` iteration: registers a new key, or logs a duplicate and keeps the registry |
| Service.BestMeetsTest | CSLTests/Matching.cs:79-85 | under either wake rule, when a selector of the requested known type exists, a best definition has a selector of a type in the requested type's group; it has one of exactly that type when there is no group, and also when no airline and no livery are asked for (the `C172` case, line 62) |
| Service.ScanStep | CSLService/CSLService.cs:503-512 | one selector: a lower score resets the best list, an equal one appends, and the best score stays the minimum over the selectors seen |
| Service.ScanNext | CSLService/CSLService.cs:451-513 | finishing one definition's selectors keeps the scan invariant |
| Service.ScanEnd | CSLService/CSLService.cs:451-514 | after the scan the best list is empty exactly when no definition has a selector, and every definition in it owns a selector of minimum score under the scan's wake rule |
| Service.CslService.constructor | CSLService/CSLService.cs:165-180 | the service starts with no packages, no types, an empty registry and an empty log |
| Service.CslService.Roots | CSLService/CSLService.cs:555 | each export name's package root, taken from the package registered under it |
| Service.CslService.AddOrUpdateAll | CSLService/CSLService.cs:206-213 | the merge loop leaves the name index and package table of `Added` |
| Service.CslService.AddPackage | CSLService/CSLService.cs:206-213 | merges one package into the index and keeps it well formed; nothing else changes |
| Service.CslService.BuildRegistry | CSLService/CSLService.cs:215-223 | the registry and duplicate log are those of the package table's definitions, walked in table order and each package's definitions in commit order |
| Service.CslService.CachePackages | CSLService/CSLService.cs:202-224 | all packages merged in order, then the registry rebuilt with its duplicate log |
| Service.CslService.CacheDoc8643 | CSLService/CSLService.cs:241-248 | the classification table is loaded line by line, the last line for a designator winning |
| Service.CslService.RelateGroup | CSLService/CSLService.cs:231-237 | the group is set on each member present in the classification table |
| Service.CslService.CacheRelated | CSLService/CSLService.cs:226-239 | every group annotates the table in order, and every warning is logged |
| Service.CslService.ClearCache | CSLService/CSLService.cs:250-255 | packages, classification table and registry become empty |
| Service.CslService.Start | CSLService/CSLService.cs:257-263 | loads the classification table, then the related groups, then the packages; a well-formed table stays well formed |
| Service.CslService.ScanMatches | CSLService/CSLService.cs:453-513 | scanning one definition's selectors, in any order, with the score as written (wake literal 256), keeps the scan invariant |
| Service.CslService.MatchCore | CSLService/CSLService.cs:442-518 | null exactly when the registry is empty; otherwise a registered definition, which, when some definition has a selector, owns a selector whose score as written is the minimum over all selectors; for a known type that some definition has a selector of, the result has a selector of the type's group, and of the type itself when no airline and no livery are asked for |
| Service.CslService.Match | CSLService/CSLService.cs:617-620 | the root and id of such a definition (minimum score as written), null exactly when the registry is empty |
| Service.CslService.CreateMultipartContent | CSLService/CSLService.cs:614-615 | an unknown `root/id` is "not found"; otherwise, the bundle of the definition packed alone, with the guarantees of `Bundle.CreateMultipartContent` |
| Bundle.ContentTypeOf | CSLService/CSLService.cs:535-540 | `.dds` and `.png` in any letter case give their image types, and any other extension gives `application/octet-stream` |
| Bundle.ExtensionOfSuffix | CSLService/CSLService.cs:535 | a file name ending in an extension has that extension |
| Bundle.AsWrittenDayTakesLit | CSLService/CSLService.cs:576 | as written, a `TEXTURE` directive takes the model's lit override |
| Bundle.AsWrittenLitTakesDay | CSLService/CSLService.cs:569 | as written, a `TEXTURE_LIT` directive takes the model's day override |
| Bundle.RewriteSwapsOverrides | CSLService/CSLService.cs:565-580 | on a concrete model and line, the as-written rewrite carries the lit texture where the corrected one carries the day texture |
| Bundle.RewriteLineAsWrittenSpec | CSLService/CSLService.cs:565-585 | as written: lines that are not directives pass through unchanged with no texture; a `TEXTURE_LIT` line becomes `TEXTURE_LIT ` followed by the day override or, failing that, its own texture; a `TEXTURE` line becomes `TEXTURE ` followed by the lit override or its own texture |
| Bundle.AsWrittenRoundTrip | CSLService/CSLService.cs:565-580 | as written too, when the overrides are words and the recorded texture is not empty, a rewritten directive is again a directive of the same kind, naming the texture it recorded |
| Bundle.RewriteLineSpec | CSLService/CSLService.cs:565-585 | in the corrected rewrite, lines that are not directives pass through unchanged, every directive records a texture, and each override replaces only the texture of its own kind |
| Bundle.RewriteRoundTrip | CSLService/CSLService.cs:565-580 | when the overrides are words and the recorded texture is not empty, a rewritten directive is again a directive of the same kind, naming the texture it recorded |
| Bundle.LitRoundTrip | CSLService/CSLService.cs:567-573 | a rewritten `TEXTURE_LIT` line names exactly its recorded texture |
| Bundle.DayRoundTrip | CSLService/CSLService.cs:574-580 | a rewritten `TEXTURE` line names exactly its recorded texture |
| Bundle.DayDirectiveOf | CSLService/CSLService.cs:574-580 | `TEXTURE t` for a trimmed, non-empty `t` is a day directive naming `t` |
| Bundle.LitDirectiveOf | CSLService/CSLService.cs:567-573 | `TEXTURE_LIT t` for a trimmed, non-empty `t` is a lit directive naming `t` |
| Bundle.RewriteObject | CSLService/CSLService.cs:556-597 | the object file's lines rewritten as written (directive overrides swapped, as at lines 569 and 576), plus texture parts equal to `NewTextures`: one for each texture path the lines refer to that was not seen before, placed where a line first refers to it; a missing texture file is an error naming a path one of the file's lines refers to |
| Bundle.RewriteLoopKeep | CSLService/CSLService.cs:562-586 | a line that adds no texture keeps the rewrite invariant |
| Bundle.RewriteLoopAdd | CSLService/CSLService.cs:525-549 | a line that refers to a new, existing texture adds one part for it and keeps the rewrite invariant |
| Bundle.AddObjectPaths | CSLService/CSLService.cs:524-528 | after an object's new textures and then its part are added, the carried paths are exactly the updated seen-set, and no path is carried twice |
| Bundle.AddObjectParts | CSLService/CSLService.cs:587-596 | the new textures come right before the object part, which carries its file's lines as the source rewrites them |
| Bundle.AddObjectCovers | CSLService/CSLService.cs:553-597 | after adding a model, every model visited so far has its object and textures in the bundle |
| Bundle.AddObjectStep | CSLService/CSLService.cs:553-597 | adding a new model's parts keeps the assembly invariant |
| Bundle.SkipObjectCovers | CSLService/CSLService.cs:556 | a model whose object file was already carried adds nothing and is still covered |
| Bundle.AddNewModel | CSLService/CSLService.cs:556-597 | adds an object file not seen before, with its new textures, keeping the assembly invariant, or fails naming a missing file the model needs (a texture its object file refers to) |
| Bundle.RewriteNew | CSLService/CSLService.cs:556-597 | rewrites a new object file against the seen-set with its own path added; a failure names an absent file that some line of it refers to |
| Bundle.MissingTextureNeeded | CSLService/CSLService.cs:569-577 | an absent texture that a line of a model's object file refers to is a failure `FailureOk` accepts |
| Bundle.AddModel | CSLService/CSLService.cs:553-598 | handles one model: an unknown package fails naming it, a seen object file adds nothing, a missing object file or texture fails naming that needed path, and otherwise the object is added |
| Bundle.AircraftLoopStep | CSLService/CSLService.cs:553-598 | one model of a definition keeps the definition loop invariant |
| Bundle.AircraftLoopEnd | CSLService/CSLService.cs:551-599 | after a definition's models, every model of it is covered |
| Bundle.AddAircraft | CSLService/CSLService.cs:551-599 | adds the parts of all models of one definition, or fails as `FailureOk` says: an unknown package some model names, or an absent file some model needs |
| Bundle.CreateMultipartContent | CSLService/CSLService.cs:520-612 | on success: no file is carried twice (textures and objects share one seen-set); no part carries a texture after an object part whose lines refer to it; every model's object and textures are included; exactly one manifest part `root/xsb_aircraft.txt` comes last and reads back as the package. On failure: an unknown package that a model names, or an absent file a model needs (its object file or a texture that file refers to). When every model's package is known and all the files it needs exist, the call succeeds |
| Bundle.FailureUnavailable | CSLService/CSLService.cs:555-560 | a failure the bundle reports is possible only when some needed package or file is not available |
| Bundle.TexturesBeforeObject | CSLService/CSLService.cs:570-587 | in a finished bundle, every texture an object part refers to is carried at or before that part |
| Bundle.NoLateRefs | CSLService/CSLService.cs:525-596 | adding an object's new textures and then its part keeps every texture out of the positions after an object part that refers to it |
| Bundle.BundleEnd | CSLService/CSLService.cs:601-611 | once every model is covered, appending the manifest gives a bundle that meets `BundleOk` |
| Bundle.NewTexturesNext | CSLService/CSLService.cs:562-586 | the new textures of one more line are those of the prefix followed by that line's texture if it is not yet seen |
| Bundle.NewTexturesAdd | CSLService/CSLService.cs:527-531 | a line that refers to an unseen texture appends exactly one texture part for it |
| Bundle.NewTexturesKeep | CSLService/CSLService.cs:527 | a line whose texture is already seen adds no texture part |

## Left out

- File and directory I/O (`EnumeratePackagesAsync` and the `File.OpenRead`/`StreamReader` loops) is not modelled. Lines and files are supplied by the caller, and manifest discovery with its depth limit is left out.
- Async iteration, cancellation, `Task.Run` and `ConcurrentDictionary` concurrency are left out: every method runs to completion alone.
- `Random` in `MatchCore` becomes a nondeterministic choice among the best, then among all definitions. A definition that appears several times in the best list is therefore not more likely to be picked.
- `ILogger`: each message becomes a `Diagnostic` or `Event` value. The severity, the event id and the manifest path are not kept.
- Floating point: a vertical offset is kept as its decimal text, and `float.TryParse` accepts exactly optionally signed decimals. Reading and writing therefore give back the same text, but `1.0` and `1` are different offsets here. Exponents, `NaN` and culture-specific formats are not modelled.
- Regular expressions are written out by hand (`Tokens`, `DecodeRelated`, `ParseDoc8643Line`). For the related-types pattern, a type is a run of non-whitespace text that starts and ends with an ASCII word character; Unicode word characters are not modelled.
- `Path.Join`, `Path.GetDirectoryName` and `Path.GetExtension` are modelled for `/`-separated relative paths only. Platform separators and rooted paths are not modelled.
- The HTTP parts are reduced to a name, a content type and a path or lines. `ContentLength`, `LastModified`, `FileInfo`, the ASCII encoding, the `attachment` disposition and line terminators are left out.
- Service.CslService.CreateMultipartContent: the source throws `KeyNotFoundException` for an unknown `root/id` (line 615) and for a model of an unknown package (line 555); the model returns `NotFound` and `UnknownPackage` errors instead. A missing file raises an I/O exception in the source; the model returns `MissingFile`.
- Records.Package.UnionWith, Records.Package.UnionWithAircraft: the in-place `HashSet` updates are modelled on values, so the model does not capture aliasing. After a merge, the source shares the incoming `Obj8Aircraft` instances between packages (line 71), and a later merge into one package is also seen by the other.
- Records.Package.UnionWith: the self-union at line 59 has no effect and is not modelled as a step.
- `StopAsync` (lines 265-269) only calls `ClearCache`, which is modelled. The zip/rar TODO at line 259 is not implemented in the source.
- Service.CslService.BuildRegistry: the source walks `_packages.Values.Distinct()` and each package's `HashSet` of definitions in an unspecified order (line 216). The model walks the package table in table order and the definitions in commit order. When two definitions share a `root/id`, this fixes which one is registered and which is logged. `Service.RegistryContents`, `Service.RegistryFirstWins` and `Service.DuplicateCount` are proved for every sequence of definitions, so they hold whatever order the walk takes. Only which of the clashing definitions is registered depends on that order.
- `CSLService/CSLExtensions.cs` (the hosting glue) is not part of this model. Neither are the test harnesses `CSLTests/Common.cs` and `CSLTests/WebAPI.cs`.
- Xsb.ToXsbAircraft: the round trip is proved for packages the reader can produce (`Manifest.Canonical`): words without whitespace or `#`, no `-` operator, and a lit texture only together with a day texture. Empty texture, operator and livery strings are not representable in such packages; the writer skipping them is modelled, but their reading back as null is not stated.

## Findings

| source | as written | input that shows it | evidently intended | confidence | as-written member | corrected member |
|---|---|---|---|---|---|---|
| CSLService/CSLService.cs:569-576 | a `TEXTURE_LIT` directive takes `o.Texture` and a `TEXTURE` directive takes `o.TextureLit`, so the bundle serves the day texture as the lit texture and the other way round | `SwapExample` (model with day override `day.png` and lit override `lit.png`) and `DayLine` (`TEXTURE x.png`): the rewritten line becomes `TEXTURE lit.png` | each directive takes the override of its own kind. The bundle model keeps the rewrite as written, and the corrected rewrite is defined and proved beside it | high (not executed) | Bundle.RewriteLineAsWritten (shown by Bundle.RewriteSwapsOverrides) | Bundle.RewriteLine (proved by Bundle.RewriteLineSpec and Bundle.RewriteRoundTrip) |
| CSLService/CSLService.cs:486-489 | the wake-category mismatch sets the eleven-digit literal `0b00100000000` = 256, the same bit as the class check at line 492, so a wake mismatch costs nothing once the class differs, and bit 128 is never set when both types are known (lines 470 and 500 set it, among bits 3 to 9, when a type is unknown) | `WakeTable` with a query for `A` (L, 2 engines, medium wake) and selectors of `B` (helicopter, medium wake) and `C` (helicopter, heavy wake): both score the same | the wake mismatch sets bit 128 (`0b0010000000`), the one bit of the ten-bit layout that no other check sets. The matcher model keeps the score as written (`WakeRule.AsWritten`); the corrected score is defined and proved beside it, and the matching lemmas hold under both rules | medium (not executed) | Matching.ScoreAsWritten (shown by Matching.WakeMaskedExample and Matching.WakeMaskedAsWritten) | Matching.Score (proved by Matching.ScoreBounds) |
