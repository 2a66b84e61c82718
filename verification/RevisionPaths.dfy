// Which directories get a new revision when a store changes.

module RevisionPaths {
  import opened Options
  import opened Strings
  import opened UrlHelpers

  // Formatting None prints its name.
  function Printed(o: Option<string>): string {
    o.GetOr("None")
  }

  function Given(o: Option<string>): bool {
    o.Some? && o.value != ""
  }

  function LanguagePath(code: string): string {
    Seg("", Seg(code, ""))
  }

  function ProjectPath(code: string): string {
    Seg("", Seg("projects", Seg(code, "")))
  }

  function DirPath(parts: Parts, names: seq<string>): string {
    Seg("", Seg(Printed(parts.language), Seg(Printed(parts.project), Seg(Join(names, '/'), ""))))
  }

  // The directories that the first n names of a directory path lead to
  function Below(parts: Parts, names: seq<string>, n: nat): set<string>
    requires n <= |names|
  {
    if n == 0 then {}
    else Below(parts, names, n - 1) + (if names[n - 1] != "" then {DirPath(parts, names[..n])} else {})
  }

  // The paths that one directory path contributes
  function PathsFor(path: string): set<string> {
    var parts := SplitPootlePath(path);
    var names := Split(parts.dirPath, '/');
    (if Given(parts.project) then {ProjectPath(parts.project.value)} else {})
    + (if Given(parts.language) then {LanguagePath(parts.language.value)} else {})
    + (if Given(parts.language) && Given(parts.project)
       then {Seg("", Seg(parts.language.value, Seg(parts.project.value, "")))} else {})
    + Below(parts, names, |names|)
  }

  // One turn of the loop of get_parent_paths
  method AddPathsFor(paths: set<string>, pootlePath: string) returns (r: set<string>)
    ensures r == paths + PathsFor(pootlePath)
  {
    hide SplitPootlePath, Split, DirPath, ProjectPath, LanguagePath, Seg;
    r := paths;
    var parts := SplitPootlePath(pootlePath);
    if Given(parts.project) {
      r := r + {ProjectPath(parts.project.value)};
    }
    if Given(parts.language) {
      r := r + {LanguagePath(parts.language.value)};
    }
    if Given(parts.language) && Given(parts.project) {
      r := r + {Seg("", Seg(parts.language.value, Seg(parts.project.value, "")))};
    }
    ghost var tops := r;
    var names := Split(parts.dirPath, '/');
    for i := 0 to |names|
      invariant r == tops + Below(parts, names, i)
    {
      if names[i] != "" {
        r := r + {DirPath(parts, names[..i + 1])};
      }
    }
  }

  function ParentPaths(pootlePaths: set<string>): set<string> {
    if pootlePaths == {"/"} then {"/"}
    else {"/projects/"} + (set d, q | d in pootlePaths && q in PathsFor(d) :: q)
  }

  // RevisionUpdater.get_parent_paths
  method GetParentPaths(pootlePaths: set<string>) returns (paths: set<string>)
    ensures paths == ParentPaths(pootlePaths)
  {
    hide PathsFor;
    if pootlePaths == {"/"} {
      return pootlePaths;
    }
    paths := {"/projects/"};
    var todo := pootlePaths;
    while todo != {}
      invariant todo <= pootlePaths
      invariant forall q :: q in paths <==> q == "/projects/" || exists d :: d in pootlePaths - todo && q in PathsFor(d)
    {
      var d :| d in todo;
      var more := AddPathsFor(paths, d);
      assert forall e :: e in pootlePaths - (todo - {d}) <==> e in pootlePaths - todo || e == d;
      paths := more;
      todo := todo - {d};
    }
  }

  // ---- What it means for well-formed directories ----

  // The directories whose statistics include a given directory: its language,
  // its project, and itself with everything above it.
  function Ancestors(p: Place): set<string> {
    {ProjectPath(p.project), LanguagePath(p.language)}
    + (set i | 0 <= i <= |p.dirs| :: Render(p.(dirs := p.dirs[..i])))
  }

  lemma DirPathIsRender(p: Place, names: seq<string>)
    requires WellFormed(p) && names != []
    ensures DirPath(Parts(Some(p.language), Some(p.project), Slashed(p.dirs), ""), names)
            == Render(p.(dirs := names))
  {
    SlashedJoin(names);
  }

  lemma {:induction false} BelowPlace(p: Place, names: seq<string>, n: nat, q: string)
    requires WellFormed(p) && n <= |p.dirs| <= |names| && names[..|p.dirs|] == p.dirs
    ensures
      var parts := Parts(Some(p.language), Some(p.project), Slashed(p.dirs), "");
      q in Below(parts, names, n) <==> exists i :: 1 <= i <= n && q == Render(p.(dirs := p.dirs[..i]))
  {
    hide Render, DirPath;
    if n > 0 {
      BelowPlace(p, names, n - 1, q);
      assert names[n - 1] == p.dirs[n - 1] && Name(p.dirs[n - 1]);
      assert names[..n] == p.dirs[..n];
      DirPathIsRender(p, p.dirs[..n]);
    }
  }

  lemma PathsForPlace(p: Place)
    requires WellFormed(p)
    ensures PathsFor(Render(p)) == Ancestors(p)
  {
    forall q ensures q in PathsFor(Render(p)) <==> q in Ancestors(p) {
      OnePath(p, q);
      hide *;
    }
    hide *;
  }

  // The paths of languages and projects contribute themselves alone.
  lemma PathsAbove(code: string)
    requires Name(code)
    ensures code != "projects" ==> PathsFor(LanguagePath(code)) == {LanguagePath(code)}
    ensures PathsFor(ProjectPath(code)) == {ProjectPath(code)}
    ensures PathsFor("/projects/") == {} && PathsFor("/") == {}
  {
    hide SplitPootlePath;
    if code != "projects" {
      SplitLanguage(code);
      assert LanguagePath(code) == "/" + code + "/";
    }
    SplitInProject(code, [], "");
    assert ProjectPath(code) == "/projects/" + code + "/" + Slashed([]) + "";
    SplitAbove();
    SplitNone("", '/');
    NothingBelow(Parts(Some(code), None, "", ""));
    NothingBelow(Parts(None, Some(code), "", ""));
    NothingBelow(Parts(None, None, "", ""));
    hide Below, LanguagePath, ProjectPath, Seg;
  }

  lemma NothingBelow(parts: Parts)
    ensures Below(parts, [""], 1) == {}
  {
    assert Below(parts, [""], 0) == {};
  }

  // A directory of a project across languages contributes the project, and paths
  // below a language called None, which are those of no directory.
  lemma PathsInProject(code: string, names: seq<string>, q: string)
    requires Name(code) && forall i :: 0 <= i < |names| ==> Name(names[i])
    ensures q in PathsFor("/projects/" + code + "/" + Slashed(names)) <==>
      q == ProjectPath(code) || exists i :: 1 <= i <= |names| && q == Render(Place("None", code, names[..i]))
  {
    hide *;
    SplitInProject(code, names, "");
    var path, all := "/projects/" + code + "/" + Slashed(names), names + [""];
    assert path + "" == path;
    SplitSlashed(names);
    ProjectDirPaths(path, code, Slashed(names), all);
    EndsEmpty(code, Slashed(names), all);
    AsIfNone(code, Slashed(names), all, |names|);
    assert all[..|names|] == names;
    NoneIsName(code, names);
    BelowPlace(Place("None", code, names), all, |names|, q);
  }

  lemma ProjectDirPaths(path: string, code: string, dirPath: string, names: seq<string>)
    requires Name(code) && SplitPootlePath(path) == Parts(None, Some(code), dirPath, "") && Split(dirPath, '/') == names
    ensures PathsFor(path) == {ProjectPath(code)} + Below(Parts(None, Some(code), dirPath, ""), names, |names|)
  {
    hide SplitPootlePath, Split, Below, ProjectPath;
  }

  lemma NoneIsName(code: string, names: seq<string>)
    requires Name(code) && forall i :: 0 <= i < |names| ==> Name(names[i])
    ensures WellFormed(Place("None", code, names))
  {
    assert "None"[0] == 'N' && "projects"[0] == 'p';
  }

  lemma {:induction false} AsIfNone(code: string, dirPath: string, names: seq<string>, n: nat)
    requires n <= |names|
    ensures Below(Parts(None, Some(code), dirPath, ""), names, n) == Below(Parts(Some("None"), Some(code), dirPath, ""), names, n)
  {
    hide Join, Seg;
    if n > 0 {
      AsIfNone(code, dirPath, names, n - 1);
    }
  }

  lemma EndsEmpty(code: string, dirPath: string, names: seq<string>)
    requires names != [] && names[|names| - 1] == ""
    ensures Below(Parts(None, Some(code), dirPath, ""), names, |names|) == Below(Parts(None, Some(code), dirPath, ""), names, |names| - 1)
  {
    hide DirPath;
  }

  lemma PartsOfPlace(p: Place)
    requires WellFormed(p)
    ensures SplitPootlePath(Render(p)) == Parts(Some(p.language), Some(p.project), Slashed(p.dirs), "")
    ensures Split(Slashed(p.dirs), '/') == p.dirs + [""]
    ensures Render(p.(dirs := [])) == Seg("", Seg(p.language, Seg(p.project, "")))
  {
    assert Render(p) + "" == Render(p);
    SplitRendered(p, "");
    SplitSlashed(p.dirs);
  }

  lemma OnePath(p: Place, q: string)
    requires WellFormed(p)
    ensures q in PathsFor(Render(p)) <==> q in Ancestors(p)
  {
    hide Render, DirPath, Seg, SplitPootlePath, Split, Slashed, LanguagePath, ProjectPath;
    PartsOfPlace(p);
    var parts, names, n := SplitPootlePath(Render(p)), Split(Slashed(p.dirs), '/'), |p.dirs|;
    assert |names| == n + 1 && names[..n] == p.dirs && names[n] == "";
    assert p.dirs[..0] == [];
    BelowPlace(p, names, n, q);
    assert Below(parts, names, n + 1) == Below(parts, names, n);
  }

  // The objects that have statistics
  datatype Context =
    | Directory(place: Place)
    | TranslationProject(language: string, project: string)
    | Language(code: string)
    | Project(projectCode: string)
    | ProjectSet

  predicate WellFormedContext(c: Context) {
    match c
    case Directory(place) => WellFormed(place)
    case TranslationProject(language, project) => WellFormed(Place(language, project, []))
    case Language(code) => Name(code) && code != "projects"
    case Project(code) => Name(code)
    case ProjectSet => true
  }

  // The directory whose revision is part of the object's cache key
  function RevisionDir(c: Context): string {
    match c
    case Directory(place) => Render(place)
    case TranslationProject(language, project) => Render(Place(language, project, []))
    case Language(code) => LanguagePath(code)
    case Project(code) => ProjectPath(code)
    case ProjectSet => LanguagePath("projects")
  }

  // A store in p counts towards c.
  predicate Covers(c: Context, p: Place) {
    match c
    case Directory(place) =>
      place.language == p.language && place.project == p.project && place.dirs <= p.dirs
    case TranslationProject(language, project) => language == p.language && project == p.project
    case Language(code) => code == p.language
    case Project(code) => code == p.project
    case ProjectSet => true
  }

  lemma KindsOfPathDiffer(p: Place, language: string, project: string)
    requires WellFormed(p) && Name(project)
    requires Name(language)
    ensures Render(p) != ProjectPath(project)
    ensures Render(p) != LanguagePath(language)
    ensures ProjectPath(project) != LanguagePath(language)
  {
    NotProjects(p, "");
    assert Render(p) + "" == Render(p);
    assert ProjectPath(project)[..10] == "/projects/";
    CountRendered(p, "");
    CountSeg("", Seg(language, ""));
    CountSeg(language, "");
    CountSeg("", Seg("projects", Seg(project, "")));
    CountSeg("projects", Seg(project, ""));
    CountSeg(project, "");
  }

  lemma CodePathsInjective(a: string, b: string)
    ensures LanguagePath(a) == LanguagePath(b) ==> a == b
    ensures ProjectPath(a) == ProjectPath(b) ==> a == b
  {
    assert LanguagePath(a)[1..|a| + 1] == a && LanguagePath(b)[1..|b| + 1] == b;
    assert |LanguagePath(a)| == |a| + 2 && |LanguagePath(b)| == |b| + 2;
    assert ProjectPath(a)[10..|a| + 10] == a && ProjectPath(b)[10..|b| + 10] == b;
    assert |ProjectPath(a)| == |a| + 11 && |ProjectPath(b)| == |b| + 11;
  }

  // Exactly the objects that a change concerns get a new revision.
  lemma InvalidationIsExact(c: Context, p: Place)
    requires WellFormedContext(c) && WellFormed(p)
    ensures RevisionDir(c) in {"/projects/"} + Ancestors(p) <==> Covers(c, p)
  {
    assert LanguagePath("projects") == "/projects/";
    KindsOfPathDiffer(p, p.language, p.project);
    CodePathsInjective("projects", p.language);
    match c
    case Directory(place) =>
      PlaceInAncestors(place, p);
    case TranslationProject(language, project) =>
      PlaceInAncestors(Place(language, project, []), p);
    case Language(code) =>
      CodePathsInjective(code, p.language);
      CodePathsInjective(code, "projects");
      KindsOfPathDiffer(p, code, p.project);
      forall i | 0 <= i <= |p.dirs| ensures Render(p.(dirs := p.dirs[..i])) != LanguagePath(code) {
        KindsOfPathDiffer(p.(dirs := p.dirs[..i]), code, p.project);
      }
    case Project(code) =>
      CodePathsInjective(code, p.project);
      KindsOfPathDiffer(p, p.language, code);
      KindsOfPathDiffer(p, "projects", code);
      forall i | 0 <= i <= |p.dirs| ensures Render(p.(dirs := p.dirs[..i])) != ProjectPath(code) {
        KindsOfPathDiffer(p.(dirs := p.dirs[..i]), p.language, code);
      }
    case ProjectSet =>
  }

  lemma PlaceInAncestors(place: Place, p: Place)
    requires WellFormed(place) && WellFormed(p)
    ensures Render(place) in {"/projects/"} + Ancestors(p) <==>
      place.language == p.language && place.project == p.project && place.dirs <= p.dirs
  {
    assert LanguagePath("projects") == "/projects/";
    KindsOfPathDiffer(place, p.language, p.project);
    KindsOfPathDiffer(place, "projects", p.project);
    if place.language == p.language && place.project == p.project && place.dirs <= p.dirs {
      assert p.(dirs := p.dirs[..|place.dirs|]) == place;
    }
    if i :| 0 <= i <= |p.dirs| && Render(place) == Render(p.(dirs := p.dirs[..i])) {
      RenderInjective(place, p.(dirs := p.dirs[..i]));
    }
  }
}
