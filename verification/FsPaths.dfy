// From a store's path to its file's path and back, for the layout
// <root>/<language_code>/<dir_path>/<filename>.<ext>

module FsPaths {
  import opened Options
  import opened Strings
  import opened UrlHelpers

  // ---- TranslationFileFinder ----

  predicate WordChar(c: char) {
    ('a' <= c <= 'z') || ('A' <= c <= 'Z') || ('0' <= c <= '9') || c == '_'
  }

  predicate LanguageChars(s: string) {
    forall i :: 0 <= i < |s| ==> WordChar(s[i]) || s[i] == '@' || s[i] == '-' || s[i] == '.'
  }

  predicate DirChars(s: string) {
    forall i :: 0 <= i < |s| ==> WordChar(s[i]) || s[i] == '/' || s[i] == '-'
  }

  predicate FileChars(s: string) {
    forall i :: 0 <= i < |s| ==> WordChar(s[i]) || s[i] == '-' || s[i] == '.'
  }

  datatype Matched = Matched(language: string, dir: string, filename: string, ext: string)

  datatype Finder = Finder(root: string, extensions: seq<string>, excluded: seq<string>)

  // The working directory is an absolute path without a slash at the end, and
  // extensions contain neither dots nor slashes.
  predicate ValidFinder(f: Finder) {
    && |f.root| > 2 && f.root[0] == '/' && f.root[|f.root| - 1] != '/'
    && '<' !in f.root && '>' !in f.root && !Occurs("//", f.root)
    && f.extensions != []
    && forall e :: e in f.extensions ==> e != "" && '.' !in e && '/' !in e && '<' !in e
  }

  function Base(filename: string, ext: string): string {
    filename + ['.'] + ext
  }

  // What the finder's regular expression accepts
  predicate Decomposes(f: Finder, path: string, m: Matched) {
    && path == Seg(f.root, Seg(m.language, m.dir + Base(m.filename, m.ext)))
    && LanguageChars(m.language) && DirChars(m.dir) && FileChars(m.filename)
    && m.ext in f.extensions
  }

  // What it captures: directories are matched lazily, everything else greedily.
  function Parse(f: Finder, path: string): Option<Matched> {
    if !(Seg(f.root, "") <= path) then None
    else
      var rest := path[|f.root| + 1..];
      var i := Find(rest, '/', 0);
      if i == |rest| then None else ParseTail(f, rest[..i], rest[i + 1..])
  }

  function ParseTail(f: Finder, language: string, tail: string): Option<Matched> {
    var j := FindLast(tail, '/') + 1;
    var base := tail[j..];
    var k := FindLast(base, '.');
    if k < 0 then None
    else
      var m := Matched(language, tail[..j], base[..k], base[k + 1..]);
      if LanguageChars(m.language) && DirChars(m.dir) && FileChars(m.filename) && m.ext in f.extensions
      then Some(m) else None
  }

  lemma ParseSound(f: Finder, path: string)
    requires Parse(f, path).Some?
    ensures Decomposes(f, path, Parse(f, path).value)
  {
    hide *;
    ParseUnfolds(f, path);
    var rest := path[|f.root| + 1..];
    PrefixSeg(f.root, path);
    var i := Find(rest, '/', 0);
    SegAt(rest, i);
    TailSound(f, rest[..i], rest[i + 1..]);
    DecomposesInto(f, path, Parse(f, path).value);
  }

  lemma ParseUnfolds(f: Finder, path: string)
    requires Parse(f, path).Some?
    ensures Seg(f.root, "") <= path && |path| > |f.root|
    ensures var rest := path[|f.root| + 1..];
            var i := Find(rest, '/', 0);
            i < |rest| && rest[i] == '/' && Parse(f, path) == ParseTail(f, rest[..i], rest[i + 1..])
  {
    PrefixSeg(f.root, path);
    hide Seg, ParseTail;
  }

  lemma DecomposesInto(f: Finder, path: string, m: Matched)
    requires path == Seg(f.root, Seg(m.language, m.dir + Base(m.filename, m.ext)))
    requires LanguageChars(m.language) && DirChars(m.dir) && FileChars(m.filename) && m.ext in f.extensions
    ensures Decomposes(f, path, m)
  {}

  lemma SegAt(s: string, i: nat)
    requires i < |s| && s[i] == '/'
    ensures s == Seg(s[..i], s[i + 1..])
  {
  }

  lemma PrefixSeg(name: string, path: string)
    requires Seg(name, "") <= path
    ensures |path| > |name| && path == Seg(name, path[|name| + 1..])
  {
    assert path == Seg(name, "") + path[|Seg(name, "")|..];
  }

  lemma TailSound(f: Finder, language: string, tail: string)
    requires ParseTail(f, language, tail).Some?
    ensures var m := ParseTail(f, language, tail).value;
      && m.language == language && tail == m.dir + Base(m.filename, m.ext)
      && LanguageChars(m.language) && DirChars(m.dir) && FileChars(m.filename) && m.ext in f.extensions
  {
    hide LanguageChars, DirChars, FileChars;
    var m := ParseTail(f, language, tail).value;
    var base := tail[FindLast(tail, '/') + 1..];
    assert base == Base(m.filename, m.ext);
    assert tail == m.dir + base;
  }

  // The directory part up to its last slash, and what follows it
  function DirHead(dir: string): string {
    dir[..FindLast(dir, '/') + 1]
  }

  function DirRest(dir: string): string {
    dir[FindLast(dir, '/') + 1..]
  }

  // Whatever way there is to read a path, Parse finds one, and of all of them
  // the one with the shortest directory part.
  lemma ParseComplete(f: Finder, path: string, n: Matched)
    requires ValidFinder(f) && Decomposes(f, path, n)
    ensures Parse(f, path) == Some(n.(dir := DirHead(n.dir), filename := DirRest(n.dir) + n.filename))
  {
    TailComplete(f, n);
    NoSlashInLanguage(n.language);
    hide LanguageChars, DirChars, FileChars, Parse, ParseTail, Base, Seg, ValidFinder, DirHead, DirRest;
    ParseAt(f, n.language, n.dir + Base(n.filename, n.ext));
  }

  lemma ParseAt(f: Finder, language: string, tail: string)
    requires '/' !in language
    ensures Parse(f, Seg(f.root, Seg(language, tail))) == ParseTail(f, language, tail)
  {
    hide ParseTail, Find;
    var rest := Seg(language, tail);
    var path := Seg(f.root, rest);
    assert path == Seg(f.root, "") + rest;
    assert path[|f.root| + 1..] == rest;
    FindAt(language, '/', tail);
    assert rest[|language| + 1..] == tail && rest[..|language|] == language;
  }

  lemma NoSlashInLanguage(language: string)
    requires LanguageChars(language)
    ensures '/' !in language
  {
  }

  lemma TailComplete(f: Finder, n: Matched)
    requires ValidFinder(f)
    requires LanguageChars(n.language) && DirChars(n.dir) && FileChars(n.filename) && n.ext in f.extensions
    ensures ParseTail(f, n.language, n.dir + Base(n.filename, n.ext))
            == Some(n.(dir := DirHead(n.dir), filename := DirRest(n.dir) + n.filename))
  {
    var head, more := DirHead(n.dir), DirRest(n.dir) + n.filename;
    var base := Base(more, n.ext);
    TailSum(n.dir, n.filename, n.ext);
    CharsAfterSlash(n.dir, n.filename);
    NoSlashInBase(more, n.ext);
    LastSlash(head, base);
    SplitBase(more, n.ext);
    hide LanguageChars, DirChars, FileChars, Base, DirHead, DirRest, ValidFinder;
  }

  lemma TailSum(dir: string, filename: string, ext: string)
    ensures dir + Base(filename, ext) == DirHead(dir) + Base(DirRest(dir) + filename, ext)
    ensures DirHead(dir) == "" || DirHead(dir)[|DirHead(dir)| - 1] == '/'
  {
    assert dir == DirHead(dir) + DirRest(dir);
  }

  lemma NoSlashInBase(filename: string, ext: string)
    requires '/' !in filename && '/' !in ext
    ensures '/' !in Base(filename, ext)
  {
  }

  lemma SplitBase(filename: string, ext: string)
    requires '.' !in ext
    ensures var base, k := Base(filename, ext), FindLast(Base(filename, ext), '.');
      && k == |filename| && base[..k] == filename && base[k + 1..] == ext
  {
    FindLastAt(filename, '.', ext);
  }

  lemma CharsAfterSlash(dir: string, filename: string)
    requires DirChars(dir) && FileChars(filename)
    ensures FileChars(DirRest(dir) + filename) && DirChars(DirHead(dir)) && '/' !in DirRest(dir) + filename
  {
    var i := FindLast(dir, '/') + 1;
    assert forall j :: i <= j < |dir| ==> dir[j] != '/';
    hide FindLast;
    PartChars(dir, i);
    RestChars(dir[i..], filename);
    hide DirChars, FileChars;
  }

  lemma PartChars(dir: string, i: nat)
    requires DirChars(dir) && i <= |dir| && forall j :: i <= j < |dir| ==> dir[j] != '/'
    ensures DirChars(dir[..i]) && DirChars(dir[i..]) && '/' !in dir[i..]
  {}

  lemma RestChars(rest: string, filename: string)
    requires DirChars(rest) && '/' !in rest && FileChars(filename)
    ensures FileChars(rest + filename) && '/' !in rest + filename
  {
    forall i | 0 <= i < |rest| ensures rest[i] != '/' {
      assert rest[i] in rest;
    }
  }

  lemma LastSlash(dir: string, base: string)
    requires dir == "" || dir[|dir| - 1] == '/'
    requires '/' !in base
    ensures FindLast(dir + base, '/') + 1 == |dir|
    ensures (dir + base)[..|dir|] == dir && (dir + base)[|dir|..] == base
  {
    if dir == "" {
      assert dir + base == base;
      FindLastNone(base, '/');
    } else {
      assert dir + base == dir[..|dir| - 1] + ['/'] + base;
      FindLastAt(dir[..|dir| - 1], '/', base);
    }
  }

  function Basename(path: string): string {
    PathSplit(path).1
  }

  // TranslationFileFinder.match
  function Match(f: Finder, path: string): Option<Matched> {
    var parsed := Parse(f, path);
    if parsed.None? || parsed.value.language in f.excluded then None
    else
      var m := parsed.value.(dir := Strip(parsed.value.dir, '/'));
      Some(if m.filename == "" then m.(filename := SplitExt(Basename(path)).0) else m)
  }

  lemma BasenameIs(head: string, base: string)
    requires '/' !in base
    ensures Basename(head + ['/'] + base) == base
  {
    FindLastAt(head, '/', base);
    assert (head + ['/'] + base)[|head| + 1..] == base;
  }

  // A part that no slash is left on either end of, with nothing but slashes around it
  predicate Stripped(s: string, r: string) {
    && (r != "" ==> r[0] != '/' && r[|r| - 1] != '/')
    && exists i, j :: 0 <= i <= j <= |s| && s[i..j] == r && Only(s[..i], '/') && Only(s[j..], '/')
  }

  lemma StripIs(s: string, c: char)
    requires c == '/'
    ensures Stripped(s, Strip(s, c))
  {
    var j := StripRightIs(s, c);
    var i := StripLeftIs(s[..j], c);
    assert s[..j][..i] == s[..i] && s[..j][i..] == s[i..j];
  }

  // What a match holds: nothing for an excluded language; otherwise what was
  // captured, with the directory stripped of slashes, and where no name was
  // captured the whole of the last part of the path, dot and extension included.
  lemma MatchIs(f: Finder, path: string)
    requires ValidFinder(f) && Parse(f, path).Some?
    ensures
      var n := Parse(f, path).value;
      && Stripped(n.dir, Strip(n.dir, '/'))
      && Match(f, path) == if n.language in f.excluded then None
                           else Some(Matched(n.language, Strip(n.dir, '/'), if n.filename == "" then "." + n.ext else n.filename, n.ext))
  {
    var n := Parse(f, path).value;
    ParseSound(f, path);
    StripIs(n.dir, '/');
    hide Parse, Strip, LanguageChars, DirChars, FileChars, ValidFinder, Basename, SplitExt, Seg, Base;
    if n.filename == "" {
      assert '.' !in n.ext && '/' !in n.ext by { ExtensionIs(f, n.ext); }
      NamelessBase(f, path, n);
    }
  }

  lemma ExtensionIs(f: Finder, ext: string)
    requires ValidFinder(f) && ext in f.extensions
    ensures '.' !in ext && '/' !in ext
  {}

  lemma NamelessBase(f: Finder, path: string, n: Matched)
    requires Parse(f, path) == Some(n) && n.filename == "" && '.' !in n.ext && '/' !in n.ext
    requires path == Seg(f.root, Seg(n.language, n.dir + Base("", n.ext)))
    ensures SplitExt(Basename(path)).0 == "." + n.ext
  {
    hide *;
    CapturedDir(f, path, n);
    OnlyExtension(n.ext);
    var head := HeadOf(f.root, n.language, n.dir, Base("", n.ext));
    BasenameIs(head, Base("", n.ext));
  }

  lemma OnlyExtension(ext: string)
    requires '.' !in ext && '/' !in ext
    ensures Base("", ext) == "." + ext && '/' !in "." + ext && SplitExt("." + ext).0 == "." + ext
  {
    FindLastAt("", '.', ext);
    assert "" + ['.'] + ext == "." + ext;
  }

  lemma HeadOf(root: string, language: string, dir: string, base: string) returns (head: string)
    requires dir != "" ==> dir[|dir| - 1] == '/'
    ensures Seg(root, Seg(language, dir + base)) == head + ['/'] + base
  {
    if dir == "" {
      head := root + "/" + language;
      assert dir + base == base;
    } else {
      var front := dir[..|dir| - 1];
      head := root + "/" + language + "/" + front;
      assert dir == front + ['/'];
      assert dir + base == front + ['/'] + base;
    }
  }

  // A captured directory part ends in a slash.
  lemma CapturedDir(f: Finder, path: string, n: Matched)
    requires Parse(f, path) == Some(n)
    ensures n.dir != "" ==> n.dir[|n.dir| - 1] == '/'
  {
    hide *;
    ParseUnfolds(f, path);
    var rest := path[|f.root| + 1..];
    var i := Find(rest, '/', 0);
    TailDir(f, rest[..i], rest[i + 1..]);
  }

  lemma TailDir(f: Finder, language: string, tail: string)
    requires ParseTail(f, language, tail).Some?
    ensures var dir := ParseTail(f, language, tail).value.dir; dir != "" ==> dir[|dir| - 1] == '/'
  {
    hide LanguageChars, DirChars, FileChars;
  }

  datatype Reversed = Found(path: string) | NoPath | BadExtension | NoUpstreamCode

  const LANGUAGE_TAG := "<language_code>"
  const DIR_TAG := "<dir_path>"
  const FILE_TAG := "<filename>"

  // The mapping with its extension replaced
  function Template(f: Finder, ext: string): string {
    Seg(f.root, Seg(LANGUAGE_TAG, Seg(DIR_TAG, Base(FILE_TAG, ext))))
  }

  // The template with its tags replaced
  function Fill(f: Finder, language: string, filename: string, extension: string, dir: string): string {
    var name := if filename == "" then language else filename;
    var ext := Strip(extension, '.');
    var path := Replace(Replace(Template(f, ext), LANGUAGE_TAG, language), FILE_TAG, name);
    if !Occurs(DIR_TAG, path) then path
    else if dir != "" && Strip(dir, '/') != "" then Replace(path, DIR_TAG, "/" + Strip(dir, '/') + "/")
    else Replace(path, DIR_TAG, "")
  }

  // Doubled slashes below the working directory are collapsed.
  function Tidy(f: Finder, path: string): string {
    var local := if f.root == "" then path else Replace(path, f.root, "");
    if Occurs("//", local) then f.root + "/" + StripLeft(Replace(local, "//", "/"), '/')
    else path
  }

  // TranslationFileFinder.reverse_match
  function ReverseMatch(f: Finder, language: string, filename: string, extension: string, dir: string): Reversed {
    if language in f.excluded then NoPath
    else if extension !in f.extensions then BadExtension
    else Found(Tidy(f, Fill(f, language, filename, extension, dir)))
  }

  // ---- The file path of a store, step by step ----

  // A name of a directory that the finder's expression can match
  predicate DirName(s: string) {
    s != "" && DirChars(s) && '/' !in s
  }

  // A file name, without extension, that splitext takes apart as it was put
  // together: not only dots
  predicate FileName(s: string) {
    FileChars(s) && exists i :: 0 <= i < |s| && s[i] != '.'
  }

  predicate LanguageName(s: string) {
    s != "" && LanguageChars(s)
  }

  // /<language>/<dirs>/<file>
  function FilePath(language: string, dirs: seq<string>, file: string): string {
    Seg("", Seg(language, Slashed(dirs) + file))
  }

  // The same as reverse_match first builds it, with doubled slashes
  function RawPath(language: string, dirs: seq<string>, file: string): string {
    Seg("", Seg(language, Seg(if dirs == [] then "" else "/" + Join(dirs, '/') + "/", file)))
  }

  lemma TagSkip(tag: string, s: string, pat: string, rep: string)
    requires |tag| > 1 && |pat| > 1 && tag[0] == pat[0] && tag[1] != pat[1]
    requires pat[0] !in tag[1..]
    ensures Replace(tag + s, pat, rep) == tag + Replace(s, pat, rep)
  {
    hide Replace;
    ReplaceSkip(tag[1..], s, pat, rep);
    TwoParts(tag, s);
    assert (tag + s)[1] == tag[1];
    OneOn(tag + s, pat, rep);
    TwoParts(tag, Replace(s, pat, rep));
  }

  lemma TwoParts(a: string, b: string)
    requires a != ""
    ensures (a + b)[0] == a[0] && (a + b)[1..] == a[1..] + b && a + b == [a[0]] + (a[1..] + b)
  {}

  lemma OneOn(s: string, pat: string, rep: string)
    requires pat != "" && s != "" && !(pat <= s)
    ensures Replace(s, pat, rep) == [s[0]] + Replace(s[1..], pat, rep)
  {
    assert s == [s[0]] + s[1..];
  }

  lemma ReplaceNone(s: string, pat: string, rep: string)
    requires pat != "" && pat[0] !in s
    ensures Replace(s, pat, rep) == s
  {
    AbsentFirst(s, pat);
    ReplaceAbsent(s, pat, rep);
  }

  lemma SegSkip(name: string, s: string, pat: string, rep: string)
    requires pat != "" && pat[0] !in name && pat[0] != '/'
    ensures Replace(Seg(name, s), pat, rep) == Seg(name, Replace(s, pat, rep))
  {
    ReplaceSkip(name + ['/'], s, pat, rep);
  }

  lemma FillLanguage(f: Finder, language: string, ext: string)
    requires '<' !in f.root && '<' !in language && '<' !in ext
    ensures Replace(Template(f, ext), LANGUAGE_TAG, language)
            == Seg(f.root, Seg(language, Seg(DIR_TAG, Base(FILE_TAG, ext))))
  {
    var x := Seg(DIR_TAG, Base(FILE_TAG, ext));
    NoLanguageTag(ext, language);
    SegSkip(f.root, Seg(LANGUAGE_TAG, x), LANGUAGE_TAG, language);
    ReplaceHit("/" + x, LANGUAGE_TAG, language);
    SegHead(LANGUAGE_TAG, x);
    SegHead(language, x);
    hide Seg, Base, Replace;
  }

  lemma SegHead(name: string, rest: string)
    ensures Seg(name, rest) == name + ("/" + rest)
  {
  }

  lemma NoLanguageTag(ext: string, language: string)
    requires '<' !in ext
    ensures
      var x := "/" + Seg(DIR_TAG, Base(FILE_TAG, ext));
      Replace(x, LANGUAGE_TAG, language) == x
  {
    var tail := ['.'] + ext;
    ReplaceNone(tail, LANGUAGE_TAG, language);
    TagSkip(FILE_TAG, tail, LANGUAGE_TAG, language);
    assert Base(FILE_TAG, ext) == FILE_TAG + tail;
    ReplaceSkip("/", Base(FILE_TAG, ext), LANGUAGE_TAG, language);
    TagSkip(DIR_TAG, "/" + Base(FILE_TAG, ext), LANGUAGE_TAG, language);
    SegHead(DIR_TAG, Base(FILE_TAG, ext));
    ReplaceSkip("/", Seg(DIR_TAG, Base(FILE_TAG, ext)), LANGUAGE_TAG, language);
  }

  lemma FillName(f: Finder, language: string, name: string, ext: string)
    requires '<' !in f.root && '<' !in language && '<' !in ext
    ensures Replace(Seg(f.root, Seg(language, Seg(DIR_TAG, Base(FILE_TAG, ext)))), FILE_TAG, name)
            == Seg(f.root, Seg(language, Seg(DIR_TAG, Base(name, ext))))
  {
    hide Replace, Seg, Base;
    NameTail(name, ext);
    SegSkip(f.root, Seg(language, Seg(DIR_TAG, Base(FILE_TAG, ext))), FILE_TAG, name);
    SegSkip(language, Seg(DIR_TAG, Base(FILE_TAG, ext)), FILE_TAG, name);
    TagSkip(DIR_TAG, "/" + Base(FILE_TAG, ext), FILE_TAG, name);
    SegHead(DIR_TAG, Base(FILE_TAG, ext));
    SegHead(DIR_TAG, Base(name, ext));
  }

  lemma NameTail(name: string, ext: string)
    requires '<' !in ext
    ensures Replace("/" + Base(FILE_TAG, ext), FILE_TAG, name) == "/" + Base(name, ext)
  {
    hide Replace;
    var tail := ['.'] + ext;
    ReplaceNone(tail, FILE_TAG, name);
    ReplaceHit(tail, FILE_TAG, name);
    assert Base(FILE_TAG, ext) == FILE_TAG + tail && Base(name, ext) == name + tail;
    ReplaceSkip("/", Base(FILE_TAG, ext), FILE_TAG, name);
  }

  lemma FillDir(f: Finder, language: string, dir: string, file: string)
    requires '<' !in f.root && '<' !in language && '<' !in file
    ensures
      var p := Seg(f.root, Seg(language, Seg(DIR_TAG, file)));
      && Occurs(DIR_TAG, p)
      && Replace(p, DIR_TAG, dir) == Seg(f.root, Seg(language, Seg(dir, file)))
  {
    hide Replace, Seg, Occurs;
    SegSkip(f.root, Seg(language, Seg(DIR_TAG, file)), DIR_TAG, dir);
    SegSkip(language, Seg(DIR_TAG, file), DIR_TAG, dir);
    ReplaceNone("/" + file, DIR_TAG, dir);
    ReplaceHit("/" + file, DIR_TAG, dir);
    SegHead(DIR_TAG, file);
    SegHead(dir, file);
    TagOccurs(f.root, language, file);
  }

  lemma TagOccurs(root: string, language: string, file: string)
    ensures Occurs(DIR_TAG, Seg(root, Seg(language, Seg(DIR_TAG, file))))
  {
    hide Occurs;
    var head := root + ['/'] + language + ['/'];
    OccursAt(head, DIR_TAG, "/" + file);
    assert Seg(root, Seg(language, Seg(DIR_TAG, file))) == head + (DIR_TAG + ("/" + file));
  }

  predicate NoDouble(s: string) {
    forall i :: 0 <= i < |s| - 1 ==> !(s[i] == '/' && s[i + 1] == '/')
  }

  lemma {:induction false} CollapseStep(a: string, s: string)
    requires NoDouble(a) && (a == "" || a[|a| - 1] != '/')
    ensures Replace(a + ("//" + s), "//", "/") == a + ("/" + Replace(s, "//", "/"))
  {
    hide Replace;
    var more := "//" + s;
    if a == "" {
      assert a + more == more && a + ("/" + Replace(s, "//", "/")) == "/" + Replace(s, "//", "/");
      ReplaceHit(s, "//", "/");
    } else {
      assert forall i :: 0 <= i < |a[1..]| ==> a[1..][i] == a[i + 1];
      CollapseStep(a[1..], s);
      TwoParts(a, more);
      assert !("//" <= a + more) by { NoHead(a, more); }
      OneOn(a + more, "//", "/");
      TwoParts(a, "/" + Replace(s, "//", "/"));
    }
  }

  lemma NoHead(a: string, more: string)
    requires a != "" && NoDouble(a) && a[|a| - 1] != '/'
    ensures !("//" <= a + more)
  {
    assert |a| > 1 ==> (a + more)[1] == a[1];
    assert (a + more)[0] == a[0];
  }

  lemma {:induction false} JoinNoDouble(names: seq<string>)
    requires forall i :: 0 <= i < |names| ==> Name(names[i])
    ensures NoDouble(Join(names, '/'))
    ensures names != [] ==> Join(names, '/') != "" && Join(names, '/')[0] != '/'
  {
    if |names| > 1 {
      JoinNoDouble(names[1..]);
      assert names[0][0] in names[0];
      var head, rest := names[0], Join(names[1..], '/');
      assert forall i :: 0 <= i < |head| ==> head[i] in head;
    } else if |names| == 1 {
      assert forall i :: 0 <= i < |names[0]| ==> names[0][i] in names[0];
    }
  }

  lemma SlashFree(s: string)
    requires '/' !in s
    ensures NoDouble(s) && (s != "" ==> s[|s| - 1] != '/' && s[0] != '/')
  {
    assert forall i :: 0 <= i < |s| ==> s[i] in s;
  }

  // Collapsing the doubled slashes gives the file's path.
  lemma CollapseRaw(language: string, dirs: seq<string>, file: string)
    requires language != "" && '/' !in language && '/' !in file
    requires forall i :: 0 <= i < |dirs| ==> Name(dirs[i])
    ensures Replace(RawPath(language, dirs, file), "//", "/") == FilePath(language, dirs, file)
    ensures Occurs("//", RawPath(language, dirs, file))
  {
    hide Replace, Occurs;
    var raw, first := RawPath(language, dirs, file), "/" + language;
    SlashFree(language);
    assert first[1] == language[0];
    AbsentFirst(file, "//");
    ReplaceAbsent(file, "//", "/");
    if dirs == [] {
      assert raw == first + ("//" + file);
      CollapseStep(first, file);
      OccursAt(first, "//", file);
      assert FilePath(language, dirs, file) == first + ("/" + file);
    } else {
      var j := Join(dirs, '/');
      JoinNoDouble(dirs);
      JoinEnd(dirs);
      SlashedJoin(dirs);
      assert raw == first + ("//" + (j + ("//" + file)));
      CollapseStep(first, j + ("//" + file));
      OccursAt(first, "//", j + ("//" + file));
      CollapseStep(j, file);
      assert FilePath(language, dirs, file) == first + ("/" + (j + ("/" + file)));
    }
  }

  lemma OccursAt(a: string, pat: string, b: string)
    ensures Occurs(pat, a + (pat + b))
  {
    assert (a + (pat + b))[|a|..] == pat + b;
  }

  lemma RawLength(language: string, dirs: seq<string>, file: string)
    ensures |FilePath(language, dirs, file)| < |RawPath(language, dirs, file)|
    ensures |RawPath(language, dirs, file)| <= |FilePath(language, dirs, file)| + 2
  {
    if dirs != [] {
      SlashedJoin(dirs);
    }
  }

  lemma {:induction false} StripNone(s: string, c: char)
    requires s != "" ==> s[0] != c && s[|s| - 1] != c
    ensures Strip(s, c) == s
  {
    assert StripRight(s, c) == s;
  }

  lemma {:induction false} StripShorter(s: string, c: char)
    ensures |StripLeft(s, c)| <= |s|
  {
    if s != "" && s[0] == c {
      StripShorter(s[1..], c);
    }
  }

  lemma FilledIn(f: Finder, language: string, dirs: seq<string>, name: string, ext: string)
    requires ValidFinder(f) && LanguageName(language) && FileName(name) && ext in f.extensions
    requires forall i :: 0 <= i < |dirs| ==> Name(dirs[i])
    ensures Fill(f, language, name, ext, Join(dirs, '/')) == f.root + RawPath(language, dirs, Base(name, ext))
  {
    var dir := Join(dirs, '/');
    var between := if dirs == [] then "" else "/" + dir + "/";
    var file := Base(name, ext);
    DirStripped(dirs);
    StripNone(ext, '.');
    NoTags(language, name, ext);
    FillLanguage(f, language, ext);
    FillName(f, language, name, ext);
    FillDir(f, language, between, file);
    RootFirst(f.root, Seg(language, Seg(between, file)));
    hide Replace, Seg, Occurs, Template, Base, Join, Strip, FileChars, LanguageChars;
  }

  lemma DirStripped(dirs: seq<string>)
    requires forall i :: 0 <= i < |dirs| ==> Name(dirs[i])
    ensures Strip(Join(dirs, '/'), '/') == Join(dirs, '/')
    ensures Join(dirs, '/') == "" <==> dirs == []
  {
    if dirs != [] {
      JoinNoDouble(dirs);
      JoinEnd(dirs);
    }
    StripNone(Join(dirs, '/'), '/');
  }

  lemma NoTags(language: string, name: string, ext: string)
    requires LanguageChars(language) && FileChars(name) && '<' !in ext
    ensures '<' !in language && '<' !in Base(name, ext)
  {
  }

  lemma RootFirst(root: string, rest: string)
    ensures Seg(root, rest) == root + Seg("", rest)
  {
  }

  // Without a name the file has that of its language.
  lemma NameIsLanguage(f: Finder, language: string, ext: string, dir: string)
    ensures ReverseMatch(f, language, "", ext, dir) == ReverseMatch(f, language, language, ext, dir)
  {
    hide Tidy, Replace, Occurs, Strip, Template;
  }

  // reverse_match prints the path of the file, unless the name of the whole
  // working directory occurs again inside it: all its occurrences are cut out.
  lemma ReverseMatchIs(f: Finder, language: string, dirs: seq<string>, name: string, ext: string)
    requires ValidFinder(f) && LanguageName(language) && FileName(name) && ext in f.extensions
    requires forall i :: 0 <= i < |dirs| ==> DirName(dirs[i])
    requires language !in f.excluded
    ensures
      var file := Base(name, ext);
      ReverseMatch(f, language, name, ext, Join(dirs, '/')) == Found(f.root + FilePath(language, dirs, file))
      <==> !Occurs(f.root, RawPath(language, dirs, file))
  {
    hide Replace, Seg, Occurs, Join, Slashed, Fill, Tidy, FileChars, LanguageChars, DirChars, RawPath, FilePath, Base;
    var file := Base(name, ext);
    var raw := RawPath(language, dirs, file);
    NoSlashes(language, name, ext);
    FilledIn(f, language, dirs, name, ext);
    CollapseRaw(language, dirs, file);
    RawLength(language, dirs, file);
    FilePathHead(language, dirs, file);
    TidyRaw(f, raw, FilePath(language, dirs, file));
  }

  lemma NoSlashes(language: string, name: string, ext: string)
    requires LanguageChars(language) && FileChars(name) && '/' !in ext
    ensures '/' !in language && '/' !in Base(name, ext)
  {
  }

  lemma FilePathHead(language: string, dirs: seq<string>, file: string)
    requires language != "" && '/' !in language
    ensures |FilePath(language, dirs, file)| > 1
    ensures FilePath(language, dirs, file)[0] == '/' && FilePath(language, dirs, file)[1] != '/'
  {
    assert FilePath(language, dirs, file)[1] == language[0] && language[0] in language;
  }

  lemma TidyRaw(f: Finder, raw: string, want: string)
    requires |f.root| > 2 && Occurs("//", raw) && Replace(raw, "//", "/") == want
    requires |want| < |raw| <= |want| + 2
    requires |want| > 1 && want[0] == '/' && want[1] != '/'
    ensures Tidy(f, f.root + raw) == f.root + want <==> !Occurs(f.root, raw)
  {
    hide Replace, Occurs;
    ReplaceHit(raw, f.root, "");
    assert "" + Replace(raw, f.root, "") == Replace(raw, f.root, "");
    if Occurs(f.root, raw) {
      TidyRecurring(f, raw, want);
    } else {
      ReplaceAbsent(raw, f.root, "");
      OneSlash(f.root, want);
    }
  }

  lemma OneSlash(root: string, want: string)
    requires |want| > 1 && want[0] == '/' && want[1] != '/'
    ensures root + "/" + StripLeft(want, '/') == root + want
  {
    assert StripLeft(want, '/') == want[1..];
    assert root + "/" + want[1..] == root + want;
  }

  lemma TidyRecurring(f: Finder, raw: string, want: string)
    requires |f.root| > 2 && Occurs(f.root, raw)
    requires Replace(f.root + raw, f.root, "") == Replace(raw, f.root, "")
    requires |want| < |raw| <= |want| + 2
    ensures Tidy(f, f.root + raw) != f.root + want
  {
    hide Replace, Occurs, StripLeft;
    var local := Replace(raw, f.root, "");
    ReplaceShorter(raw, f.root, "");
    ReplaceShorter(local, "//", "/");
    StripShorter(Replace(local, "//", "/"), '/');
    assert |f.root + raw| > |f.root + want|;
  }

  // The working directory's path recurs under a directory of the same name.
  lemma RootCanRecur()
    ensures
      var f := Finder("/srv", ["po"], []);
      && ValidFinder(f)
      && ReverseMatch(f, "fr", "a", "po", "srv") != Found(f.root + FilePath("fr", ["srv"], Base("a", "po")))
  {
    hide *;
    var dirs := ["srv"];
    SrvIsValid();
    SrvNames();
    ReverseMatchIs(Finder("/srv", ["po"], []), "fr", dirs, "a", "po");
  }

  lemma SrvIsValid()
    ensures ValidFinder(Finder("/srv", ["po"], []))
  {
    var r := "/srv";
    assert r[1] == 's' && r[2] == 'r' && r[3] == 'v' && r[0] == '/';
    forall i | 0 <= i <= |r| ensures !("//" <= r[i..]) {
      assert i + 1 < |r| ==> r[i..][1] == r[i + 1];
    }
  }

  lemma SrvNames()
    ensures LanguageName("fr") && FileName("a") && DirName("srv")
    ensures Join(["srv"], '/') == "srv" && Occurs("/srv", RawPath("fr", ["srv"], Base("a", "po")))
  {
    assert "a"[0] == 'a';
    var dirs := ["srv"];
    assert Join(dirs, '/') == "srv";
    var raw := RawPath("fr", dirs, Base("a", "po"));
    SrvRecurs(dirs, Base("a", "po"));
    hide Occurs, Base, RawPath, Join;
  }

  lemma SrvRecurs(dirs: seq<string>, file: string)
    requires dirs == ["srv"]
    ensures Occurs("/srv", RawPath("fr", dirs, file))
  {
    assert dirs[1..] == [] && Slashed(dirs[1..]) == "" && Slashed(dirs) == "srv/";
    var tail := "//" + file;
    assert RawPath("fr", dirs, file) == "/fr/" + ("/srv" + tail);
    hide RawPath, Slashed;
    OccursAt("/fr/", "/srv", tail);
  }
}
