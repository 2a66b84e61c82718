// Pootle paths: /<language>/<project>/<directory>/.../<file>

module UrlHelpers {
  import opened Options
  import opened Strings

  // os.path.split
  function PathSplit(s: string): (string, string) {
    var i := FindLast(s, '/') + 1;
    var head, tail := s[..i], s[i..];
    if forall j :: 0 <= j < |head| ==> head[j] == '/' then (head, tail)
    else (StripRight(head, '/'), tail)
  }

  datatype Parts = Parts(language: Option<string>, project: Option<string>, dirPath: string, filename: string)

  function SplitPootlePath(path: string): Parts {
    var slashes := Count(path, '/');
    var parts := SplitMax(path, '/', 3)[1..];
    var none: Option<string> := None;
    var (language, project, ctx) :=
      if slashes == 0 || path == "/projects/" then (none, none, "")
      else if slashes == 2 then (if |parts| > 0 then Some(parts[0]) else None, None, "")
      else if StartsWith(path, "/projects/") then
        (if |parts| > 2 then (None, Some(parts[1]), parts[2]) else (None, None, ""))
      else if slashes != 1 then
        (if |parts| > 2 then (Some(parts[0]), Some(parts[1]), parts[2]) else (None, None, ""))
      else (None, None, "");
    var (dirPath, filename) := PathSplit(ctx);
    Parts(language, project, if dirPath != "" then dirPath + "/" else "", filename)
  }

  // A directory inside a translation project
  datatype Place = Place(language: string, project: string, dirs: seq<string>)

  predicate Name(s: string) {
    s != "" && '/' !in s
  }

  predicate WellFormed(p: Place) {
    && Name(p.language) && p.language != "projects"
    && Name(p.project)
    && forall i :: 0 <= i < |p.dirs| ==> Name(p.dirs[i])
  }

  // Each name followed by a slash
  function Slashed(names: seq<string>): string {
    if names == [] then "" else names[0] + "/" + Slashed(names[1..])
  }

  function Seg(name: string, rest: string): string {
    name + ['/'] + rest
  }

  // /<language>/<project>/<rest>
  function InProject(p: Place, rest: string): string {
    Seg("", Seg(p.language, Seg(p.project, rest)))
  }

  function Render(p: Place): string {
    InProject(p, Slashed(p.dirs))
  }

  lemma SegSum(name: string, rest: string, more: string)
    ensures Seg(name, rest) + more == Seg(name, rest + more)
  {
  }

  lemma RenderSum(p: Place, more: string)
    ensures Render(p) + more == InProject(p, Slashed(p.dirs) + more)
  {
    SegSum(p.project, Slashed(p.dirs), more);
    SegSum(p.language, Seg(p.project, Slashed(p.dirs)), more);
    SegSum("", Seg(p.language, Seg(p.project, Slashed(p.dirs))), more);
  }

  lemma {:induction false} SlashedLast(names: seq<string>, name: string)
    ensures Slashed(names + [name]) == Slashed(names) + name + "/"
  {
    if names == [] {
      assert names + [name] == [name];
      assert Slashed([name][1..]) == "";
    } else {
      assert (names + [name])[1..] == names[1..] + [name];
      SlashedLast(names[1..], name);
    }
  }

  lemma {:induction false} SlashedJoin(names: seq<string>)
    requires names != []
    ensures Slashed(names) == Join(names, '/') + "/"
  {
    if |names| == 1 {
      assert Slashed(names[1..]) == "";
    } else {
      SlashedJoin(names[1..]);
    }
  }

  lemma {:induction false} SplitSlashed(names: seq<string>)
    requires forall i :: 0 <= i < |names| ==> Name(names[i])
    ensures Split(Slashed(names), '/') == names + [""]
  {
    if names == [] {
      SplitNone("", '/');
    } else {
      SplitAt(names[0], '/', Slashed(names[1..]));
      SplitSlashed(names[1..]);
      assert Slashed(names) == names[0] + ['/'] + Slashed(names[1..]);
      assert [names[0]] + (names[1..] + [""]) == names + [""];
    }
  }

  lemma {:induction false} CountSlashed(names: seq<string>)
    requires forall i :: 0 <= i < |names| ==> Name(names[i])
    ensures Count(Slashed(names), '/') == |names|
  {
    if names != [] {
      CountNone(names[0], '/');
      CountSum(names[0], "/", '/');
      CountSum(names[0] + "/", Slashed(names[1..]), '/');
      CountSlashed(names[1..]);
    }
  }

  // head and tail of a directory path followed by a file name
  lemma PathSplitSlashed(names: seq<string>, file: string)
    requires forall i :: 0 <= i < |names| ==> Name(names[i])
    requires '/' !in file
    ensures PathSplit(Slashed(names) + file)
            == (if names == [] then "" else Join(names, '/'), file)
  {
    if names == [] {
      assert Slashed(names) + file == file;
      FindLastNone(file, '/');
    } else {
      JoinEnd(names);
      SlashedJoin(names);
      PathSplitAt(Join(names, '/'), file);
      assert Slashed(names) + file == Join(names, '/') + ['/'] + file;
    }
  }

  lemma PathSplitAt(a: string, file: string)
    requires a != "" && a[|a| - 1] != '/' && '/' !in file
    ensures PathSplit(a + ['/'] + file) == (a, file)
  {
    var s, head := a + ['/'] + file, a + ['/'];
    FindLastAt(a, '/', file);
    assert s[..|a| + 1] == head && s[|a| + 1..] == file;
    assert head[|a| - 1] == a[|a| - 1];
    assert head[..|head| - 1] == a;
    assert StripRight(head, '/') == StripRight(a, '/') == a;
  }

  // A joined directory path ends in a name.
  lemma {:induction false} JoinEnd(names: seq<string>)
    requires names != [] && forall i :: 0 <= i < |names| ==> Name(names[i])
    ensures Join(names, '/') != "" && Join(names, '/')[|Join(names, '/')| - 1] != '/'
  {
    if |names| > 1 {
      JoinEnd(names[1..]);
    }
  }

  // Splitting is the inverse of rendering: a directory gives its language, its
  // project and its directories with a slash after each, and any file name.
  lemma SplitRendered(p: Place, file: string)
    requires WellFormed(p) && '/' !in file
    ensures SplitPootlePath(Render(p) + file)
            == Parts(Some(p.language), Some(p.project), Slashed(p.dirs), file)
  {
    var path := Render(p) + file;
    SplitAtSlashes(p, file);
    CountRendered(p, file);
    NotProjects(p, file);
    PathSplitSlashed(p.dirs, file);
    if p.dirs != [] {
      SlashedJoin(p.dirs);
      JoinEnd(p.dirs);
    }
  }

  // A language's own directory, a path in a project across languages, and the two
  // paths above them all
  lemma SplitLanguage(code: string)
    requires Name(code) && code != "projects"
    ensures SplitPootlePath("/" + code + "/") == Parts(Some(code), None, "", "")
  {
    var path := Seg("", Seg(code, ""));
    assert path == "/" + code + "/";
    CountSeg("", Seg(code, ""));
    CountSeg(code, "");
    SplitMaxAt("", '/', Seg(code, ""), 3);
    SplitMaxAt(code, '/', "", 2);
    SplitNone("", '/');
    assert SplitMax(path, '/', 3)[1..] == [code] + SplitMax("", '/', 1);
    assert path != "/projects/" by {
      assert path[1..|path| - 1] == code && "/projects/"[1..9] == "projects";
    }
    FindLastNone("", '/');
  }

  lemma SplitInProject(code: string, names: seq<string>, file: string)
    requires Name(code) && '/' !in file && forall i :: 0 <= i < |names| ==> Name(names[i])
    ensures SplitPootlePath("/projects/" + code + "/" + Slashed(names) + file)
            == Parts(None, Some(code), Slashed(names), file)
  {
    hide Count, SplitMax, PathSplit, SplitPootlePath, Join, Slashed, Seg, StartsWith;
    var ctx := Slashed(names) + file;
    ProjectsPath(code, Slashed(names), file);
    SlashesInProject(code, ctx);
    AcrossLanguages(Seg("", Seg("projects", Seg(code, ctx))), code, ctx);
    PathSplitSlashed(names, file);
    if names != [] {
      SlashedJoin(names);
      JoinEnd(names);
    } else {
      NoNames();
    }
  }

  lemma ProjectsPath(code: string, dirs: string, file: string)
    ensures Seg("", Seg("projects", Seg(code, dirs + file))) == "/projects/" + code + "/" + dirs + file
  {
    assert "/projects/" == "" + ['/'] + "projects" + ['/'];
  }

  lemma NoNames()
    ensures Slashed([]) == ""
  {}

  lemma AcrossLanguages(path: string, code: string, ctx: string)
    requires Count(path, '/') >= 3 && path != "/projects/" && StartsWith(path, "/projects/")
    requires SplitMax(path, '/', 3) == ["", "projects", code, ctx]
    ensures
      var (dirPath, filename) := PathSplit(ctx);
      SplitPootlePath(path) == Parts(None, Some(code), if dirPath != "" then dirPath + "/" else "", filename)
  {
    hide Count, SplitMax, PathSplit, StartsWith;
    assert ["", "projects", code, ctx][1..] == ["projects", code, ctx];
  }

  lemma SlashesInProject(code: string, ctx: string)
    requires Name(code)
    ensures
      var path := Seg("", Seg("projects", Seg(code, ctx)));
      && Count(path, '/') >= 3 && path != "/projects/" && StartsWith(path, "/projects/")
      && SplitMax(path, '/', 3) == ["", "projects", code, ctx]
  {
    hide Count, SplitMax, Seg;
    CountSeg("", Seg("projects", Seg(code, ctx)));
    CountSeg("projects", Seg(code, ctx));
    CountSeg(code, ctx);
    SplitSegs("", "projects", code, ctx, 3);
    NoMoreSplits(ctx);
    BelowProjects(code, ctx);
    assert ["", "projects", code] + [ctx] == ["", "projects", code, ctx];
  }

  lemma NoMoreSplits(ctx: string)
    ensures SplitMax(ctx, '/', 0) == [ctx]
  {}

  lemma BelowProjects(code: string, ctx: string)
    ensures
      var path := Seg("", Seg("projects", Seg(code, ctx)));
      path != "/projects/" && StartsWith(path, "/projects/")
  {
    var path := Seg("", Seg("projects", Seg(code, ctx)));
    assert path == "/projects/" + Seg(code, ctx);
    assert |path| > |"/projects/"|;
  }

  lemma SplitAbove()
    ensures SplitPootlePath("/projects/") == Parts(None, None, "", "")
    ensures SplitPootlePath("/") == Parts(None, None, "", "")
  {
    OneSlash();
    NoContext();
    hide Count, SplitMax, PathSplit;
    assert |"/projects/"| > |"/"|;
  }

  lemma OneSlash()
    ensures Count("/", '/') == 1
  {
    assert "/"[1..] == "";
  }

  lemma NoContext()
    ensures PathSplit("") == ("", "")
  {}

  lemma SplitAtSlashes(p: Place, file: string)
    requires WellFormed(p)
    ensures SplitMax(Render(p) + file, '/', 3) == ["", p.language, p.project, Slashed(p.dirs) + file]
  {
    var ctx := Slashed(p.dirs) + file;
    RenderSum(p, file);
    SplitSegs("", p.language, p.project, ctx, 3);
    assert SplitMax(ctx, '/', 0) == [ctx];
  }

  lemma SplitSegs(a: string, b: string, c: string, rest: string, max: nat)
    requires max >= 3 && '/' !in a && '/' !in b && '/' !in c
    ensures SplitMax(Seg(a, Seg(b, Seg(c, rest))), '/', max) == [a, b, c] + SplitMax(rest, '/', max - 3)
  {
    hide SplitMax;
    SplitMaxAt(a, '/', Seg(b, Seg(c, rest)), max);
    SplitMaxAt(b, '/', Seg(c, rest), max - 1);
    SplitMaxAt(c, '/', rest, max - 2);
    var parts := SplitMax(rest, '/', max - 3);
    assert [a] + ([b] + ([c] + parts)) == [a, b, c] + parts;
  }

  lemma CountSeg(name: string, rest: string)
    requires '/' !in name
    ensures Count(Seg(name, rest), '/') == 1 + Count(rest, '/')
  {
    CountNone(name, '/');
    CountSum(name, "/", '/');
    CountSum(name + "/", rest, '/');
  }

  lemma CountRendered(p: Place, file: string)
    requires WellFormed(p) && '/' !in file
    ensures Count(Render(p) + file, '/') == 3 + |p.dirs|
  {
    RenderSum(p, file);
    CountSeg("", Seg(p.language, Seg(p.project, Slashed(p.dirs) + file)));
    CountSeg(p.language, Seg(p.project, Slashed(p.dirs) + file));
    CountSeg(p.project, Slashed(p.dirs) + file);
    CountSum(Slashed(p.dirs), file, '/');
    CountSlashed(p.dirs);
    CountNone(file, '/');
  }

  lemma FirstSegment(a: string, b: string, rest: string)
    requires '/' !in a && '/' !in b && Seg(a, "") <= Seg(b, rest)
    ensures a == b
  {
    var s := Seg(b, rest);
    FindAt(b, '/', rest);
    assert s == Seg(a, s[|Seg(a, "")|..]);
    FindAt(a, '/', s[|a| + 1..]);
    assert a == s[..|a|] && b == s[..|b|];
  }

  lemma NotProjects(p: Place, file: string)
    requires WellFormed(p)
    ensures !StartsWith(Render(p) + file, "/projects/")
    ensures Render(p) + file != "/projects/"
  {
    RenderSum(p, file);
    var path, rest := Render(p) + file, Seg(p.project, Slashed(p.dirs) + file);
    assert path[1..] == Seg(p.language, rest);
    assert "/projects/"[1..] == Seg("projects", "");
    if "/projects/" <= path {
      assert "/projects/"[1..] <= path[1..];
      FirstSegment("projects", p.language, rest);
      assert false;
    }
  }

  // Rendering loses nothing.
  lemma RenderInjective(p: Place, q: Place)
    requires WellFormed(p) && WellFormed(q) && Render(p) == Render(q)
    ensures p == q
  {
    SplitRendered(p, "");
    SplitRendered(q, "");
    assert Render(p) + "" == Render(p) && Render(q) + "" == Render(q);
    SplitSlashed(p.dirs);
    SplitSlashed(q.dirs);
    assert p.dirs == (p.dirs + [""])[..|p.dirs|];
    assert q.dirs == (q.dirs + [""])[..|q.dirs|];
  }
}
