// FSPathMatcher: files of the working directory against store paths, with
// language codes mapped on the way.

module FsMatcher {
  import opened Options
  import opened Strings
  import opened UrlHelpers
  import opened LangMapper
  import opened FsPaths

  datatype Matcher = Matcher(finder: Finder, project: string, mapping: Entries, languages: set<Code>)

  predicate ValidMatcher(m: Matcher) {
    ValidFinder(m.finder) && DistinctKeys(m.mapping) && Injective(m.mapping)
  }

  function NonEmpty(parts: seq<string>): seq<string> {
    if parts == [] then []
    else if parts[0] == "" then NonEmpty(parts[1..])
    else [parts[0]] + NonEmpty(parts[1..])
  }

  function MakePootlePath(project: string, m: Matched): Option<string> {
    if m.language == "" || m.filename == "" || m.ext == "" then None
    else Some(Join(["", m.language, project] + NonEmpty(Split(m.dir, '/')) + [Base(m.filename, m.ext)], '/'))
  }

  // get_language(code).code
  function LanguageOf(m: Matcher, code: Code): Option<Code> {
    var pootle := GetPootleCode(m.mapping, code);
    if pootle.Some? && pootle.value in m.languages then pootle else None
  }

  function RelativePath(root: string, path: string): string {
    if root <= path then path[|root|..] else path
  }

  // A code stands for a language that it is mapped to, or, if the mapping does not
  // speak of it on either side, for the one that has it; for no other.
  lemma LanguageIff(m: Matcher, code: Code, language: Code)
    requires DistinctKeys(m.mapping)
    ensures LanguageOf(m, code) == Some(language) <==>
      && language in m.languages
      && (Entry(code, language) in m.mapping
          || (language == code && forall e :: e in m.mapping ==> e.upstream != code && e.pootle != code))
  {
    ValueIs(m.mapping, code);
    if Entry(code, language) in m.mapping {
      assert HasKey(m.mapping, code);
    }
    hide Value;
    assert HasKey(m.mapping, code) <==> exists e :: e in m.mapping && e.upstream == code;
    assert HasValue(m.mapping, code) <==> exists e :: e in m.mapping && e.pootle == code;
  }

  // Slashes that follow each other count as one.
  lemma DoubledSlash(project: string, m: Matched, a: string, b: string)
    ensures MakePootlePath(project, m.(dir := a + "//" + b)) == MakePootlePath(project, m.(dir := a + "/" + b))
  {
    hide Split, Join, Base, NonEmpty;
    SplitDoubled(a, b);
    NonEmptyJoined(Split(a, '/'), [""] + Split(b, '/'));
    NonEmptyJoined(Split(a, '/'), Split(b, '/'));
    EmptyFirst(Split(b, '/'));
  }

  lemma SplitDoubled(a: string, b: string)
    ensures Split(a + "//" + b, '/') == Split(a, '/') + ([""] + Split(b, '/'))
    ensures Split(a + "/" + b, '/') == Split(a, '/') + Split(b, '/')
  {
    hide Split;
    SplitSum(a, '/', "/" + b);
    SplitSum(a, '/', b);
    SplitAt("", '/', b);
    assert "/" + b == "" + ['/'] + b;
    assert a + "//" + b == a + ['/'] + ("/" + b);
  }

  lemma EmptyFirst(parts: seq<string>)
    ensures NonEmpty([""] + parts) == NonEmpty(parts)
  {
    assert ([""] + parts)[1..] == parts;
  }

  lemma {:induction false} SplitSum(a: string, c: char, b: string)
    ensures Split(a + [c] + b, c) == Split(a, c) + Split(b, c)
    decreases |a|
  {
    var i := Find(a, c, 0);
    if i == |a| {
      SplitAt(a, c, b);
      SplitNone(a, c);
    } else {
      var head, rest := a[..i], a[i + 1..];
      assert a == head + [c] + rest && a + [c] + b == head + [c] + (rest + [c] + b);
      SplitAt(head, c, rest);
      SplitAt(head, c, rest + [c] + b);
      SplitSum(rest, c, b);
    }
  }

  lemma {:induction false} NonEmptyJoined(a: seq<string>, b: seq<string>)
    ensures NonEmpty(a + b) == NonEmpty(a) + NonEmpty(b)
  {
    if a == [] {
      assert a + b == b;
    } else {
      assert (a + b)[1..] == a[1..] + b;
      NonEmptyJoined(a[1..], b);
    }
  }

  // A file of the working directory with what the finder's expression captured
  datatype FoundFile = FoundFile(path: string, matched: Matched)

  // The store path and file path that one found file yields
  function MatchFile(m: Matcher, e: FoundFile): Option<(string, string)> {
    var language := LanguageOf(m, e.matched.language);
    if language.None? then None
    else
      var pootlePath := MakePootlePath(m.project, e.matched.(language := language.value));
      if pootlePath.None? then None else Some((pootlePath.value, RelativePath(m.finder.root, e.path)))
  }

  // A file yields something exactly when its code stands for a language and
  // neither name nor extension is missing.
  lemma MatchFileIff(m: Matcher, e: FoundFile)
    requires DistinctKeys(m.mapping) && "" !in m.languages
    ensures MatchFile(m, e).Some? <==>
      && e.matched.filename != "" && e.matched.ext != ""
      && exists language :: language in m.languages
           && (Entry(e.matched.language, language) in m.mapping
               || (language == e.matched.language
                   && forall d :: d in m.mapping ==> d.upstream != language && d.pootle != language))
  {
    hide LanguageOf, Join, NonEmpty, Split;
    forall language ensures LanguageOf(m, e.matched.language) == Some(language) <==>
      language in m.languages
      && (Entry(e.matched.language, language) in m.mapping
          || (language == e.matched.language
              && forall d :: d in m.mapping ==> d.upstream != e.matched.language && d.pootle != e.matched.language))
    {
      LanguageIff(m, e.matched.language, language);
    }
  }

  function MatchFiles(m: Matcher, es: seq<FoundFile>): seq<(string, string)> {
    if es == [] then []
    else
      MatchFiles(m, es[..|es| - 1])
      + (if MatchFile(m, es[|es| - 1]).Some? then [MatchFile(m, es[|es| - 1]).value] else [])
  }

  // find: the files that the expression matches
  function FindFiles(f: Finder, paths: seq<string>): seq<FoundFile> {
    if paths == [] then []
    else
      var path := paths[|paths| - 1];
      FindFiles(f, paths[..|paths| - 1])
      + (if Match(f, path).Some? then [FoundFile(path, Match(f, path).value)] else [])
  }

  function MatchOne(m: Matcher, path: string): Option<(string, string)> {
    var matched := Match(m.finder, path);
    if matched.None? then None else MatchFile(m, FoundFile(path, matched.value))
  }

  // What is yielded beside the store is the file's path below the working directory.
  lemma YieldedPath(m: Matcher, path: string)
    requires MatchOne(m, path).Some?
    ensures m.finder.root + MatchOne(m, path).value.1 == path
  {
    var n := Parse(m.finder, path).value;
    ParseSound(m.finder, path);
    assert m.finder.root <= path;
    hide Parse, MakePootlePath, LanguageOf, LanguageChars, DirChars, FileChars, Strip;
  }

  // What matching one file after the other yields
  function MatchAll(m: Matcher, paths: seq<string>): seq<(string, string)> {
    if paths == [] then []
    else
      MatchAll(m, paths[..|paths| - 1])
      + (if MatchOne(m, paths[|paths| - 1]).Some? then [MatchOne(m, paths[|paths| - 1]).value] else [])
  }

  lemma LastFile(m: Matcher, es: seq<FoundFile>, e: FoundFile)
    ensures MatchFiles(m, es + [e])
            == MatchFiles(m, es) + (if MatchFile(m, e).Some? then [MatchFile(m, e).value] else [])
  {
    hide MatchFile;
    assert (es + [e])[..|es|] == es;
  }

  lemma {:induction false} FoundIsMatched(m: Matcher, paths: seq<string>)
    ensures MatchFiles(m, FindFiles(m.finder, paths)) == MatchAll(m, paths)
  {
    if paths != [] {
      var n := |paths| - 1;
      FoundIsMatched(m, paths[..n]);
      if Match(m.finder, paths[n]).Some? {
        LastFile(m, FindFiles(m.finder, paths[..n]), FoundFile(paths[n], Match(m.finder, paths[n]).value));
      }
      hide Match, MatchFile;
      assert forall es: seq<FoundFile> :: es + [] == es;
    }
  }

  // Some file is for a code that stands for no language.
  predicate Unknown(m: Matcher, es: seq<FoundFile>, code: Code) {
    LanguageOf(m, code).None? && exists i :: 0 <= i < |es| && es[i].matched.language == code
  }

  predicate UnknownAfter(m: Matcher, es: seq<FoundFile>, n: nat, code: Code)
    requires n < |es|
  {
    Unknown(m, es[..n + 1], code)
    <==> Unknown(m, es[..n], code) || (code == es[n].matched.language && LanguageOf(m, code).None?)
  }

  // What a pass makes of the list it goes through: the language's code stands
  // where the file's code stood.
  function Renamed(m: Matcher, e: FoundFile): FoundFile {
    var language := LanguageOf(m, e.matched.language);
    if language.Some? then e.(matched := e.matched.(language := language.value)) else e
  }

  function AllRenamed(m: Matcher, es: seq<FoundFile>): seq<FoundFile> {
    seq(|es|, i requires 0 <= i < |es| => Renamed(m, es[i]))
  }

  predicate Once(codes: seq<Code>) {
    forall i, j :: 0 <= i < j < |codes| ==> codes[i] != codes[j]
  }

  // The finder's `found` list, which a pass of the matcher goes through and
  // changes
  class FoundFiles {
    var found: seq<FoundFile>

    constructor (f: Finder, paths: seq<string>)
      ensures found == FindFiles(f, paths)
    {
      found := FindFiles(f, paths);
    }

    // FSPathMatcher.matches: the codes without a language are remembered, so that
    // they are looked up once.
    method Matches(m: Matcher) returns (matches: seq<(string, string)>, missing: seq<Code>)
      modifies this
      ensures matches == MatchFiles(m, old(found))
      ensures found == AllRenamed(m, old(found))
      ensures forall code :: code in missing <==> Unknown(m, old(found), code)
      ensures Once(missing)
    {
      hide MatchFiles, LanguageOf, MakePootlePath, Once;
      ghost var was := found;
      matches, missing := [], [];
      NoFiles(m);
      for n := 0 to |found|
        invariant |found| == |was|
        invariant forall k :: n <= k < |was| ==> found[k] == was[k]
        invariant forall k :: 0 <= k < n ==> found[k] == Renamed(m, was[k])
        invariant matches == MatchFiles(m, was[..n])
        invariant forall code :: code in missing <==> Unknown(m, was[..n], code)
        invariant Once(missing)
      {
        var e := found[n];
        OneMoreFile(m, was, n, missing);
        if e.matched.language !in missing {
          var language := LanguageOf(m, e.matched.language);
          if language.None? {
            missing := missing + [e.matched.language];
          } else {
            var matched := e.matched.(language := language.value);
            found := found[n := e.(matched := matched)];
            var pootlePath := MakePootlePath(m.project, matched);
            if pootlePath.Some? {
              matches := matches + [(pootlePath.value, RelativePath(m.finder.root, e.path))];
            }
          }
        }
      }
      assert was[..|was|] == was;
    }
  }

  lemma NoFiles(m: Matcher)
    ensures MatchFiles(m, []) == [] && forall code :: !Unknown(m, [], code)
    ensures Once([])
  {}

  lemma OneMoreFile(m: Matcher, es: seq<FoundFile>, n: nat, missing: seq<Code>)
    requires n < |es| && Once(missing) && forall code :: code in missing <==> Unknown(m, es[..n], code)
    ensures MatchFiles(m, es[..n + 1])
            == MatchFiles(m, es[..n]) + (if MatchFile(m, es[n]).Some? then [MatchFile(m, es[n]).value] else [])
    ensures forall code :: UnknownAfter(m, es, n, code)
    ensures es[n].matched.language in missing ==> LanguageOf(m, es[n].matched.language).None?
    ensures es[n].matched.language !in missing ==> Once(missing + [es[n].matched.language])
  {
    hide MatchFile, LanguageOf, Renamed;
    assert es[..n + 1] == es[..n] + [es[n]];
    LastFile(m, es[..n], es[n]);
    hide MatchFiles;
    forall code | Unknown(m, es[..n], code) ensures Unknown(m, es[..n + 1], code) {
      var i :| 0 <= i < n && es[..n][i].matched.language == code;
      assert es[..n + 1][i].matched.language == code;
    }
    assert es[..n + 1][n].matched.language == es[n].matched.language;
  }

  // ---- A second pass over the same list ----

  // A list that is kept yields the same a second time exactly when no file of
  // it was under a code that stands for a language with another code.
  lemma SecondPass(m: Matcher, es: seq<FoundFile>)
    requires ValidMatcher(m) && forall l :: l in m.languages ==> Name(l)
    ensures MatchFiles(m, AllRenamed(m, es)) == MatchFiles(m, es)
            <==> forall i :: 0 <= i < |es| && MatchFile(m, es[i]).Some? ==>
              LanguageOf(m, es[i].matched.language) == Some(es[i].matched.language)
  {
    SecondIsFirst(m, es);
    forall i | 0 <= i < |es|
      ensures MatchFile(m, Renamed(m, es[i])) == MatchFile(m, es[i])
              <==> (MatchFile(m, es[i]).Some? ==>
                LanguageOf(m, es[i].matched.language) == Some(es[i].matched.language)) {
      SecondFile(m, es[i]);
    }
    hide MatchFile, LanguageOf, MatchFiles, AllRenamed, Renamed;
  }

  lemma {:induction false} SecondIsFirst(m: Matcher, es: seq<FoundFile>)
    requires ValidMatcher(m) && forall l :: l in m.languages ==> Name(l)
    ensures |MatchFiles(m, AllRenamed(m, es))| <= |MatchFiles(m, es)|
    ensures MatchFiles(m, AllRenamed(m, es)) == MatchFiles(m, es)
            <==> forall i :: 0 <= i < |es| ==> MatchFile(m, Renamed(m, es[i])) == MatchFile(m, es[i])
  {
    hide MatchFiles, MatchFile, Renamed, AllRenamed, ValidMatcher, Name;
    if es == [] {
      NoSecond(m);
    } else {
      var n := |es| - 1;
      var init, e := es[..n], es[n];
      SecondIsFirst(m, init);
      SecondFile(m, e);
      LastRenamed(m, init, e);
      LastFile(m, init, e);
      LastFile(m, AllRenamed(m, init), Renamed(m, e));
      assert es == init + [e];
      SameEnds(MatchFiles(m, AllRenamed(m, init)), MatchFile(m, Renamed(m, e)), MatchFiles(m, init), MatchFile(m, e));
      assert forall i :: 0 <= i < n ==> init[i] == es[i];
    }
  }

  lemma NoSecond(m: Matcher)
    ensures MatchFiles(m, []) == [] && AllRenamed(m, []) == []
  {}

  lemma LastRenamed(m: Matcher, es: seq<FoundFile>, e: FoundFile)
    ensures AllRenamed(m, es + [e]) == AllRenamed(m, es) + [Renamed(m, e)]
  {
    hide Renamed;
  }

  lemma SameEnds<T>(a: seq<T>, x: Option<T>, b: seq<T>, y: Option<T>)
    requires |a| <= |b| && (x.Some? ==> y.Some?)
    ensures var s, t := a + (if x.Some? then [x.value] else []), b + (if y.Some? then [y.value] else []);
            |s| <= |t| && (s == t <==> a == b && x == y)
  {
    var s, t := a + (if x.Some? then [x.value] else []), b + (if y.Some? then [y.value] else []);
    if s == t {
      assert a == s[..|a|] && b == t[..|b|];
      assert x.Some? ==> s[|a|] == x.value && t[|b|] == y.value;
    }
  }

  lemma SecondFile(m: Matcher, e: FoundFile)
    requires ValidMatcher(m) && forall l :: l in m.languages ==> Name(l)
    ensures MatchFile(m, Renamed(m, e)).Some? ==> MatchFile(m, e).Some?
    ensures MatchFile(m, Renamed(m, e)) == MatchFile(m, e)
            <==> (MatchFile(m, e).Some? ==> LanguageOf(m, e.matched.language) == Some(e.matched.language))
  {
    var u, l := e.matched.language, LanguageOf(m, e.matched.language);
    if l.Some? && LanguageOf(m, l.value).Some? {
      var q := LanguageOf(m, l.value).value;
      CodesAreABijection(m.mapping, u, l.value);
      CodesAreABijection(m.mapping, l.value, q);
      PathsDiffer(m.project, e.matched.(language := l.value), e.matched.(language := q));
    }
    hide MakePootlePath, GetPootleCode;
  }

  // A file under "no", which stands for "nb", is found the first time only.
  lemma LostOnSecondPass()
    ensures
      var m := Matcher(Finder("/srv", ["po"], []), "tutorial", [Entry("no", "nb")], {"nb"});
      var es := [FoundFile("/srv/no/a.po", Matched("no", "", "a", "po"))];
      |MatchFiles(m, es)| == 1 && MatchFiles(m, AllRenamed(m, es)) == []
  {
    var m := Matcher(Finder("/srv", ["po"], []), "tutorial", [Entry("no", "nb")], {"nb"});
    var e := FoundFile("/srv/no/a.po", Matched("no", "", "a", "po"));
    NorwegianCodes(m);
    assert MatchFile(m, e).Some? && Renamed(m, e).matched.language == "nb" && MatchFile(m, Renamed(m, e)).None?;
    hide MatchFile, LanguageOf, MatchFiles;
    assert AllRenamed(m, [e]) == [Renamed(m, e)];
    OneFile(m, e);
    OneFile(m, Renamed(m, e));
  }

  lemma NorwegianCodes(m: Matcher)
    requires m.mapping == [Entry("no", "nb")] && m.languages == {"nb"}
    ensures LanguageOf(m, "no") == Some("nb") && LanguageOf(m, "nb") == None
  {
    var d := m.mapping;
    assert d[1..] == [] && d[0].upstream == "no" && d[0].pootle == "nb";
    assert Value(d, "no") == Some("nb");
    assert "no"[1] != "nb"[1];
    assert Value(d, "nb") == Value(d[1..], "nb") == None;
    assert HasValue(d, "nb");
    assert GetPootleCode(d, "no") == Some("nb") && GetPootleCode(d, "nb") == None;
  }

  lemma OneFile(m: Matcher, e: FoundFile)
    ensures MatchFiles(m, [e]) == if MatchFile(m, e).Some? then [MatchFile(m, e).value] else []
  {
    hide MatchFile;
    var es: seq<FoundFile> := [];
    assert es + [e] == [e];
    LastFile(m, es, e);
  }

  // Paths under different language codes are different.
  lemma PathsDiffer(project: string, a: Matched, b: Matched)
    requires Name(a.language) && Name(b.language) && b == a.(language := b.language)
    ensures MakePootlePath(project, a).Some? <==> MakePootlePath(project, b).Some?
    ensures MakePootlePath(project, a).Some? && a.language != b.language ==>
              MakePootlePath(project, a) != MakePootlePath(project, b)
  {
    var rest := [project] + NonEmpty(Split(a.dir, '/')) + [Base(a.filename, a.ext)];
    assert ["", a.language, project] + NonEmpty(Split(a.dir, '/')) + [Base(a.filename, a.ext)] == [""] + ([a.language] + rest);
    assert ["", b.language, project] + NonEmpty(Split(a.dir, '/')) + [Base(a.filename, a.ext)] == [""] + ([b.language] + rest);
    hide Split, NonEmpty, Base;
    JoinSeg("", [a.language] + rest);
    JoinSeg("", [b.language] + rest);
    JoinSeg(a.language, rest);
    JoinSeg(b.language, rest);
    var x := Join(rest, '/');
    hide Join;
    if Seg("", Seg(a.language, x)) == Seg("", Seg(b.language, x)) {
      assert Seg("", Seg(a.language, x))[1..] == Seg(a.language, x);
      assert Seg("", Seg(b.language, x))[1..] == Seg(b.language, x);
      assert Seg(a.language, "") <= Seg(a.language, x);
      FirstSegment(a.language, b.language, x);
    }
  }

  // FSPathMatcher.reverse_match
  function ReversePath(m: Matcher, pootlePath: string): Reversed {
    var parts := SplitPootlePath(pootlePath);
    var upstream := if parts.language.Some? then GetUpstreamCode(m.mapping, parts.language.value) else None;
    if upstream.None? then NoUpstreamCode
    else
      var (name, ext) := SplitExt(parts.filename);
      var r := FsPaths.ReverseMatch(m.finder, upstream.value, name, StripLeft(ext, '.'), Strip(parts.dirPath, '/'));
      if r.Found? then Found("/" + StripLeft(RelativePath(m.finder.root, r.path), '/')) else r
  }

  // ---- Round trips ----

  // A store of this project and where its file belongs
  datatype Names = Names(language: Code, upstream: Code, dirs: seq<string>, name: string, ext: string)

  predicate WellNamed(m: Matcher, n: Names) {
    && WellFormed(Place(n.language, m.project, n.dirs))
    && LanguageName(n.upstream) && n.upstream !in m.finder.excluded
    && (forall i :: 0 <= i < |n.dirs| ==> DirName(n.dirs[i]))
    && FileName(n.name) && n.ext in m.finder.extensions
    && n.language in m.languages
  }

  function StorePath(m: Matcher, n: Names): string {
    Render(Place(n.language, m.project, n.dirs)) + Base(n.name, n.ext)
  }

  function FileOf(n: Names): string {
    FilePath(n.upstream, n.dirs, Base(n.name, n.ext))
  }

  lemma SplitExtBase(name: string, ext: string)
    requires FileName(name) && '.' !in ext && ext != ""
    ensures SplitExt(Base(name, ext)) == (name, "." + ext)
    ensures StripLeft("." + ext, '.') == ext
  {
    SplitBase(name, ext);
    var base := Base(name, ext);
    var i :| 0 <= i < |name| && name[i] != '.';
    assert base[i] == name[i];
    assert base[|name|..] == "." + ext;
    assert ("." + ext)[1..] == ext && ext[0] in ext;
  }

  // Which stores have no file: those whose language code is taken by another
  // language, excluded languages, and unknown extensions.
  lemma FileOrReason(m: Matcher, place: Place, name: string, ext: string)
    requires ValidMatcher(m) && WellFormed(place) && FileName(name) && ext != "" && '.' !in ext && '/' !in ext
    ensures
      var r, upstream := ReversePath(m, Render(place) + Base(name, ext)), GetUpstreamCode(m.mapping, place.language);
      && (r == NoUpstreamCode <==> HasKey(m.mapping, place.language) && !HasValue(m.mapping, place.language))
      && (r == NoPath <==> upstream.Some? && upstream.value in m.finder.excluded)
      && (r == BadExtension <==>
            upstream.Some? && upstream.value !in m.finder.excluded && ext !in m.finder.extensions)
  {
    NoSlashInName(name, ext);
    SplitRendered(place, Base(name, ext));
    SplitExtBase(name, ext);
    CodesAreABijection(m.mapping, "", place.language);
    hide SplitPootlePath, Render, Base, SplitExt, GetUpstreamCode, Tidy, Fill, HasKey, HasValue, StripLeft, Strip;
  }

  lemma NoSlashInName(name: string, ext: string)
    requires FileName(name) && '/' !in ext
    ensures '/' !in Base(name, ext)
  {
    forall c | c in name ensures c != '/' {
      var i :| 0 <= i < |name| && name[i] == c;
    }
  }

  // From a store to its file: right exactly when the path of the working
  // directory does not occur again inside it.
  lemma StoreToFile(m: Matcher, n: Names)
    requires ValidMatcher(m) && WellNamed(m, n)
    requires GetUpstreamCode(m.mapping, n.language) == Some(n.upstream)
    ensures ReversePath(m, StorePath(m, n)) == Found(FileOf(n))
            <==> !Occurs(m.finder.root, RawPath(n.upstream, n.dirs, Base(n.name, n.ext)))
  {
    var place, base := Place(n.language, m.project, n.dirs), Base(n.name, n.ext);
    NoSlashes(n.upstream, n.name, n.ext);
    SplitRendered(place, base);
    SplitExtBase(n.name, n.ext);
    ReverseMatchIs(m.finder, n.upstream, n.dirs, n.name, n.ext);
    SlashedStripped(n.dirs);
    FilePathHead(n.upstream, n.dirs, base);
    var path := ReverseMatchShape(m.finder, n.upstream, n.dirs, n.name, n.ext);
    hide FsPaths.ReverseMatch, SplitPootlePath, Render, Base, FilePath, Occurs, RawPath, SplitExt, GetUpstreamCode;
    Relative(m.finder.root, path);
  }

  // Whatever reverse_match prints, it is below the working directory and no
  // slash follows the first.
  lemma ReverseMatchShape(f: Finder, language: string, dirs: seq<string>, name: string, ext: string)
    returns (path: string)
    requires ValidFinder(f) && LanguageName(language) && FileName(name) && ext in f.extensions
    requires forall i :: 0 <= i < |dirs| ==> DirName(dirs[i])
    requires language !in f.excluded
    ensures FsPaths.ReverseMatch(f, language, name, ext, Join(dirs, '/')) == Found(f.root + path)
    ensures path != "" && path[0] == '/' && (|path| > 1 ==> path[1] != '/')
  {
    var raw := RawPath(language, dirs, Base(name, ext));
    FilledIn(f, language, dirs, name, ext);
    NoSlashInLanguage(language);
    assert raw[0] == '/' && raw[1] == language[0] && language[0] in language;
    hide Fill, RawPath, Base, Tidy, LanguageChars, FileChars, DirChars;
    path := Tidied(f, raw);
  }

  lemma Tidied(f: Finder, raw: string) returns (path: string)
    requires f.root != "" && |raw| > 1 && raw[0] == '/' && raw[1] != '/'
    ensures Tidy(f, f.root + raw) == f.root + path
    ensures path != "" && path[0] == '/' && (|path| > 1 ==> path[1] != '/')
  {
    hide Replace, Occurs, StripLeft;
    var local := Replace(f.root + raw, f.root, "");
    if Occurs("//", local) {
      var stripped := StripLeft(Replace(local, "//", "/"), '/');
      StripLeftEnd(Replace(local, "//", "/"), '/');
      path := "/" + stripped;
      assert f.root + "/" + stripped == f.root + path;
    } else {
      path := raw;
    }
  }

  lemma {:induction false} StripLeftEnd(s: string, c: char)
    ensures StripLeft(s, c) != "" ==> StripLeft(s, c)[0] != c
  {
    if s != "" && s[0] == c {
      StripLeftEnd(s[1..], c);
    }
  }

  lemma Relative(root: string, path: string)
    requires path != "" && path[0] == '/' && (|path| > 1 ==> path[1] != '/')
    ensures RelativePath(root, root + path) == path && "/" + StripLeft(path, '/') == path
  {
    assert (root + path)[|root|..] == path;
    assert StripLeft(path, '/') == path[1..];
  }

  lemma SlashedStripped(dirs: seq<string>)
    requires forall i :: 0 <= i < |dirs| ==> Name(dirs[i])
    ensures Strip(Slashed(dirs), '/') == Join(dirs, '/')
  {
    if dirs != [] {
      SlashedJoin(dirs);
      JoinEnd(dirs);
      JoinNoDouble(dirs);
      var j := Join(dirs, '/');
      hide Join, Slashed;
      StripEnds(j, '/');
    }
  }

  lemma StripEnds(s: string, c: char)
    requires s != "" && s[0] != c && s[|s| - 1] != c
    ensures Strip(s + [c], c) == s
  {
    assert (s + [c])[..|s|] == s;
    assert StripRight(s + [c], c) == StripRight(s, c) == s;
  }

  lemma {:induction false} NonEmptySum(names: seq<string>)
    requires forall i :: 0 <= i < |names| ==> Name(names[i])
    ensures NonEmpty(names) == names && NonEmpty(names + [""]) == names
  {
    if names == [] {
      assert [""][1..] == [] && NonEmpty([""]) == [];
      assert names + [""] == [""];
    } else {
      NonEmptySum(names[1..]);
      assert (names + [""])[1..] == names[1..] + [""];
    }
  }

  // split("/") of joined names gives the names back.
  lemma {:induction false} SplitJoined(names: seq<string>)
    requires names != [] && forall i :: 0 <= i < |names| ==> Name(names[i])
    ensures Split(Join(names, '/'), '/') == names
  {
    if |names| == 1 {
      SplitNone(names[0], '/');
    } else {
      SplitAt(names[0], '/', Join(names[1..], '/'));
      SplitJoined(names[1..]);
    }
  }

  lemma DirComponents(dirs: seq<string>)
    requires forall i :: 0 <= i < |dirs| ==> Name(dirs[i])
    ensures NonEmpty(Split(Join(dirs, '/'), '/')) == dirs
  {
    NonEmptySum(dirs);
    if dirs == [] {
      SplitNone("", '/');
      assert [""][1..] == [] && NonEmpty([""]) == [];
    } else {
      SplitJoined(dirs);
    }
  }

  lemma {:induction false} JoinWithFile(dirs: seq<string>, file: string)
    ensures Join(dirs + [file], '/') == Slashed(dirs) + file
  {
    if dirs == [] {
      assert dirs + [file] == [file];
    } else {
      assert (dirs + [file])[1..] == dirs[1..] + [file];
      JoinWithFile(dirs[1..], file);
    }
  }

  lemma MadePath(project: string, n: Names)
    requires forall i :: 0 <= i < |n.dirs| ==> Name(n.dirs[i])
    requires n.language != "" && n.name != "" && n.ext != ""
    ensures MakePootlePath(project, Matched(n.language, Join(n.dirs, '/'), n.name, n.ext))
            == Some(Render(Place(n.language, project, n.dirs)) + Base(n.name, n.ext))
  {
    hide Split, NonEmpty, Join, Render, Slashed, Base, Seg, Name;
    var base := Base(n.name, n.ext);
    DirComponents(n.dirs);
    JoinWithFile(n.dirs, base);
    RenderSum(Place(n.language, project, n.dirs), base);
    var parts := n.dirs + [base];
    assert ["", n.language, project] + n.dirs + [base] == [""] + ([n.language] + ([project] + parts));
    JoinSeg(project, parts);
    JoinSeg(n.language, [project] + parts);
    JoinSeg("", [n.language] + ([project] + parts));
  }

  lemma JoinSeg(name: string, rest: seq<string>)
    requires rest != []
    ensures Join([name] + rest, '/') == Seg(name, Join(rest, '/'))
  {
    assert ([name] + rest)[1..] == rest;
  }

  // What the finder sees in a well-named file
  lemma FileMatches(f: Finder, language: Code, dirs: seq<string>, name: string, ext: string)
    requires ValidFinder(f) && LanguageName(language) && FileName(name) && ext in f.extensions
    requires language !in f.excluded
    requires forall i :: 0 <= i < |dirs| ==> DirName(dirs[i])
    ensures Match(f, f.root + FilePath(language, dirs, Base(name, ext)))
            == Some(Matched(language, Join(dirs, '/'), name, ext))
  {
    var path := f.root + FilePath(language, dirs, Base(name, ext));
    FileParses(f, language, dirs, name, ext);
    DirNames(dirs);
    SlashedStripped(dirs);
    assert name != "";
    hide Base, FilePath, Parse, Slashed, Join, Strip, FileName, LanguageName, Basename, SplitExt, ValidFinder, DirName;
  }

  lemma FileParses(f: Finder, language: Code, dirs: seq<string>, name: string, ext: string)
    requires ValidFinder(f) && LanguageChars(language) && FileChars(name) && ext in f.extensions
    requires forall i :: 0 <= i < |dirs| ==> DirName(dirs[i])
    ensures Parse(f, f.root + FilePath(language, dirs, Base(name, ext)))
            == Some(Matched(language, Slashed(dirs), name, ext))
  {
    hide *;
    var n := Matched(language, Slashed(dirs), name, ext);
    FileDecomposes(f, language, dirs, name, ext);
    SlashedHead(dirs);
    assert "" + name == name;
    ParseComplete(f, f.root + FilePath(language, dirs, Base(name, ext)), n);
  }

  lemma DirNames(dirs: seq<string>)
    requires forall i :: 0 <= i < |dirs| ==> DirName(dirs[i])
    ensures forall i :: 0 <= i < |dirs| ==> Name(dirs[i])
  {
  }

  lemma FileDecomposes(f: Finder, language: Code, dirs: seq<string>, name: string, ext: string)
    requires LanguageChars(language) && FileChars(name) && ext in f.extensions
    requires forall i :: 0 <= i < |dirs| ==> DirName(dirs[i])
    ensures Decomposes(f, f.root + FilePath(language, dirs, Base(name, ext)),
                       Matched(language, Slashed(dirs), name, ext))
  {
    var base := Base(name, ext);
    RootFirst(f.root, Seg(language, Slashed(dirs) + base));
    SlashedChars(dirs);
    hide LanguageChars, DirChars, FileChars, Base, Seg, Slashed;
  }

  lemma {:induction false} SlashedChars(dirs: seq<string>)
    requires forall i :: 0 <= i < |dirs| ==> DirName(dirs[i])
    ensures DirChars(Slashed(dirs))
  {
    if dirs != [] {
      SlashedChars(dirs[1..]);
      assert DirChars(dirs[0]);
    }
  }

  lemma SlashedHead(dirs: seq<string>)
    ensures DirHead(Slashed(dirs)) == Slashed(dirs) && DirRest(Slashed(dirs)) == ""
  {
    if dirs != [] {
      var s := Slashed(dirs);
      SlashedJoin(dirs);
      var j := Join(dirs, '/');
      assert s == j + ['/'] + "";
      FindLastAt(j, '/', "");
    }
  }

  // From a file to its store
  lemma FileToStore(m: Matcher, n: Names)
    requires ValidMatcher(m) && WellNamed(m, n)
    requires GetPootleCode(m.mapping, n.upstream) == Some(n.language)
    ensures MatchOne(m, m.finder.root + FileOf(n)) == Some((StorePath(m, n), FileOf(n)))
  {
    hide Match, MakePootlePath, GetPootleCode, MatchOne, Render, FilePath, RelativePath, DistinctKeys, Injective;
    NoSlashes(n.upstream, n.name, n.ext);
    hide LanguageChars, FileChars;
    FileMatches(m.finder, n.upstream, n.dirs, n.name, n.ext);
    MadePath(m.project, n);
    FilePathHead(n.upstream, n.dirs, Base(n.name, n.ext));
    Relative(m.finder.root, FileOf(n));
    OneMatch(m, m.finder.root + FileOf(n), Matched(n.upstream, Join(n.dirs, '/'), n.name, n.ext), n.language, StorePath(m, n));
  }

  lemma OneMatch(m: Matcher, path: string, matched: Matched, language: Code, pootlePath: string)
    requires Match(m.finder, path) == Some(matched)
    requires GetPootleCode(m.mapping, matched.language) == Some(language) && language in m.languages
    requires MakePootlePath(m.project, matched.(language := language)) == Some(pootlePath)
    ensures MatchOne(m, path) == Some((pootlePath, RelativePath(m.finder.root, path)))
  {
    hide Match, MakePootlePath, GetPootleCode, RelativePath;
  }

  // A file whose name is an extension alone is matched to the store of another
  // file, which has that extension twice.
  lemma DotFileMoves(m: Matcher, n: Names)
    requires ValidMatcher(m) && WellNamed(m, n) && n.name == "." + n.ext
    requires GetPootleCode(m.mapping, n.upstream) == Some(n.language)
    ensures
      var file := FilePath(n.upstream, n.dirs, n.name);
      && file != FileOf(n)
      && MatchOne(m, m.finder.root + file) == Some((StorePath(m, n), file))
      && MatchOne(m, m.finder.root + FileOf(n)) == Some((StorePath(m, n), FileOf(n)))
  {
    hide Match, MakePootlePath, GetPootleCode, MatchOne, Render, FilePath, RelativePath, DistinctKeys, Injective;
    hide LanguageChars, FileChars, DirChars, ValidFinder, Base, Join, DirName, FileName, Name;
    var file := FilePath(n.upstream, n.dirs, n.name);
    FileToStore(m, n);
    DotFileMatches(m.finder, n.upstream, n.dirs, n.ext);
    DirNames(n.dirs);
    WellNamedCode(m, n);
    MadePath(m.project, n);
    FilePathHead(n.upstream, n.dirs, n.name);
    Relative(m.finder.root, file);
    OtherPath(n);
    OneMatch(m, m.finder.root + file, Matched(n.upstream, Join(n.dirs, '/'), n.name, n.ext), n.language, StorePath(m, n));
  }

  lemma WellNamedCode(m: Matcher, n: Names)
    requires ValidMatcher(m) && WellNamed(m, n) && n.name == "." + n.ext
    ensures n.language != "" && n.name != "" && n.ext != "" && n.upstream != "" && '/' !in n.upstream
  {
    NoSlashInLanguage(n.upstream);
  }

  lemma OtherPath(n: Names)
    ensures FilePath(n.upstream, n.dirs, n.name) != FileOf(n)
  {
    assert |FileOf(n)| == |FilePath(n.upstream, n.dirs, n.name)| + 1 + |n.ext|;
  }

  lemma DotFileMatches(f: Finder, language: Code, dirs: seq<string>, ext: string)
    requires ValidFinder(f) && LanguageName(language) && ext in f.extensions && language !in f.excluded
    requires forall i :: 0 <= i < |dirs| ==> DirName(dirs[i])
    ensures Match(f, f.root + FilePath(language, dirs, "." + ext)) == Some(Matched(language, Join(dirs, '/'), "." + ext, ext))
  {
    hide *;
    ExtensionIs(f, ext);
    OnlyExtension(ext);
    PlainLanguage(language);
    FileParses(f, language, dirs, "", ext);
    MatchIs(f, f.root + FilePath(language, dirs, "." + ext));
    DirNames(dirs);
    SlashedStripped(dirs);
  }

  lemma PlainLanguage(language: Code)
    requires LanguageName(language)
    ensures LanguageChars(language) && FileChars("")
  {}

  // Stores and files correspond one to one. A store's path printed and matched
  // gives the store back ...
  lemma StoreRoundTrip(m: Matcher, n: Names)
    requires ValidMatcher(m) && WellNamed(m, n)
    requires GetUpstreamCode(m.mapping, n.language) == Some(n.upstream)
    requires !Occurs(m.finder.root, RawPath(n.upstream, n.dirs, Base(n.name, n.ext)))
    ensures
      var p, r := StorePath(m, n), ReversePath(m, StorePath(m, n));
      r.Found? && MatchOne(m, m.finder.root + r.path) == Some((p, r.path))
  {
    CodesAreABijection(m.mapping, n.upstream, n.language);
    StoreToFile(m, n);
    FileToStore(m, n);
  }

  // ... and a file matched and printed gives the file back.
  lemma FileRoundTrip(m: Matcher, n: Names)
    requires ValidMatcher(m) && WellNamed(m, n)
    requires LanguageOf(m, n.upstream) == Some(n.language)
    requires !Occurs(m.finder.root, RawPath(n.upstream, n.dirs, Base(n.name, n.ext)))
    ensures
      var found := MatchOne(m, m.finder.root + FileOf(n));
      found.Some? && found.value.1 == FileOf(n) && ReversePath(m, found.value.0) == Found(FileOf(n))
  {
    CodesAreABijection(m.mapping, n.upstream, n.language);
    StoreToFile(m, n);
    FileToStore(m, n);
  }
}
