// The statistics of a language, a project and all projects, from the sums that
// each translation project stores.

module ProjectStats {
  import opened Options
  import opened UrlHelpers
  import opened Stats

  datatype TP = TP(language: string, project: string, disabled: bool, stores: seq<Store>)

  datatype Tool = LanguageTool(code: string) | ProjectTool(code: string) | ProjectSetTool

  datatype Key = Key(language: string, project: string)

  function ContextPath(tool: Tool): string {
    match tool
    case LanguageTool(code) => "/" + code + "/"
    case ProjectTool(code) => "/projects/" + code + "/"
    case ProjectSetTool => "/projects/"
  }

  // filter_data and, unless everything may be seen, filter_accessible
  predicate Listed(tool: Tool, tp: TP, all: bool) {
    && (all || !tp.disabled)
    && match tool
       case LanguageTool(code) => tp.language == code
       case ProjectTool(code) => tp.project == code && tp.language != "templates"
       case ProjectSetTool => tp.language != "templates"
  }

  // group_by: language and project, or the project alone
  function GroupKey(tool: Tool, tp: TP): Key {
    if tool.ProjectSetTool? then Key("", tp.project) else Key(tp.language, tp.project)
  }

  // get_root_child_path
  function RootChildPath(tool: Tool, key: Key): string {
    if tool.ProjectSetTool? then key.project else key.language + "-" + key.project
  }

  function Labels(tool: Tool): Key -> string {
    key => RootChildPath(tool, key)
  }

  function Rows(tps: seq<TP>, tool: Tool, all: bool): seq<Row<Key>> {
    if tps == [] then []
    else
      var n := |tps| - 1;
      Rows(tps[..n], tool, all)
      + if Listed(tool, tps[n], all) then [Row(GroupKey(tool, tps[n]), TPData(tps[n].stores))] else []
  }

  predicate ProperTool(tool: Tool) {
    tool.ProjectSetTool? || Name(tool.code)
  }

  // A language code, or a project code, that reads as a template label
  predicate TemplateCode(code: string) {
    code == "templates" || "templates-" <= code
  }

  // The translation projects that a total counts
  predicate CountsIn(tool: Tool, tp: TP, all: bool) {
    && Listed(tool, tp, all)
    && match tool
       case LanguageTool(code) => !("templates-" <= code)
       case ProjectTool(code) => !TemplateCode(tp.language)
       case ProjectSetTool => !TemplateCode(tp.project)
  }

  // The stores of those translation projects
  function StoresCounted(tps: seq<TP>, tool: Tool, all: bool): seq<Store> {
    if tps == [] then []
    else
      var n := |tps| - 1;
      StoresCounted(tps[..n], tool, all) + if CountsIn(tool, tps[n], all) then tps[n].stores else []
  }

  // The translation projects that are not disabled
  function Enabled(tps: seq<TP>): seq<TP> {
    if tps == [] then []
    else
      var n := |tps| - 1;
      Enabled(tps[..n]) + if tps[n].disabled then [] else [tps[n]]
  }

  // Who may not see everything sees what everyone would without the disabled
  // projects; who may, sees what everyone would if no project were disabled.
  lemma {:induction false} WhoSeesWhat(tps: seq<TP>, tool: Tool)
    ensures Rows(tps, tool, false) == Rows(Enabled(tps), tool, true)
    ensures StoresCounted(tps, tool, false) == StoresCounted(Enabled(tps), tool, true)
    ensures Rows(tps, tool, true) == Rows(seq(|tps|, i requires 0 <= i < |tps| => tps[i].(disabled := false)), tool, false)
  {
    if tps != [] {
      var n := |tps| - 1;
      var init, tp := tps[..n], tps[n];
      WhoSeesWhat(init, tool);
      var open := seq(|tps|, i requires 0 <= i < |tps| => tps[i].(disabled := false));
      assert open[..n] == seq(n, i requires 0 <= i < n => init[i].(disabled := false));
      if tp.disabled {
        assert Enabled(tps) == Enabled(init) + [] == Enabled(init);
        assert !Listed(tool, tp, false);
      } else {
        assert Enabled(tps) == Enabled(init) + [tp] && Enabled(tps)[..|Enabled(tps)| - 1] == Enabled(init);
      }
      hide Listed, TPData, Enabled;
    }
  }

  // Whose stores a total counts, and whose an object's own statistics: of the
  // language, of the project, or of all, for everyone only if not disabled
  lemma OneProject(tp: TP, tool: Tool, all: bool)
    ensures
      var seen := all || !tp.disabled;
      match tool
      case LanguageTool(code) =>
        && (Rows([tp], tool, all) != [] <==> seen && tp.language == code)
        && StoresCounted([tp], tool, all) == if seen && tp.language == code && !("templates-" <= code) then tp.stores else []
      case ProjectTool(code) =>
        && (Rows([tp], tool, all) != [] <==> seen && tp.project == code && tp.language != "templates")
        && StoresCounted([tp], tool, all)
           == if seen && tp.project == code && tp.language != "templates" && !("templates-" <= tp.language) then tp.stores else []
      case ProjectSetTool =>
        && (Rows([tp], tool, all) != [] <==> seen && tp.language != "templates")
        && StoresCounted([tp], tool, all)
           == if seen && tp.language != "templates" && tp.project != "templates" && !("templates-" <= tp.project)
              then tp.stores else []
  {
    assert [tp][..0] == [];
    assert Rows([tp][..0], tool, all) == [] && StoresCounted([tp][..0], tool, all) == [];
    assert [] + tp.stores == tp.stores;
  }

  lemma TemplateJoined(language: string, project: string)
    ensures TemplateLabel(language + "-" + project) <==> TemplateCode(language)
  {
    var name, t := language + "-" + project, "templates-";
    assert name[|language|] == '-';
    assert forall i :: 0 <= i < 9 ==> t[i] != '-';
    assert t[..9] == "templates" && t == "templates" + "-";
    if t <= name {
      assert forall i :: 0 <= i < 10 ==> t[i] == name[i];
      assert |language| >= 9;
      assert name[..|language|] == language;
      if |language| == 9 {
        assert language == name[..9] == t[..9];
      } else {
        assert t <= language;
      }
    }
    if name == "templates" {
      assert false;
    }
    if t <= language {
      assert t <= name;
    }
  }

  lemma TemplatesPath(tool: Tool)
    requires ProperTool(tool)
    ensures "/templates/" <= ContextPath(tool) <==> tool == LanguageTool("templates")
  {
    match tool
    case LanguageTool(code) => OnlyTemplates(code);
    case ProjectTool(code) => assert ContextPath(tool)[1] == 'p' && "/templates/"[1] == 't';
    case ProjectSetTool => assert ContextPath(tool)[1] == 'p' && "/templates/"[1] == 't';
  }

  lemma OnlyTemplates(code: string)
    requires Name(code)
    ensures "/templates/" <= "/" + code + "/" <==> code == "templates"
  {
    var path := "/" + code + "/";
    assert "/templates/" == "/" + Seg("templates", "") && path == "/" + Seg(code, "");
    if "/templates/" <= path {
      TailsToo("/", Seg("templates", ""), Seg(code, ""));
      FirstSegment("templates", code, "");
    }
  }

  lemma TailsToo(head: string, a: string, b: string)
    requires head + a <= head + b
    ensures a <= b
  {
    assert (head + a)[|head|..] == a && (head + b)[|head|..] == b;
  }

  // The children left out are those of template codes.
  lemma SkippedIff(tool: Tool, tp: TP, all: bool)
    requires ProperTool(tool) && Listed(tool, tp, all)
    ensures Skipped(ContextPath(tool), RootChildPath(tool, GroupKey(tool, tp))) <==> !CountsIn(tool, tp, all)
  {
    TemplatesPath(tool);
    TemplateJoined(tp.language, tp.project);
    hide ContextPath;
  }

  method GetChildrenStats(tps: seq<TP>, tool: Tool, all: bool) returns (stats: ChildrenStats)
    ensures fresh(stats) && stats.children == ChildrenOf(Relabelled(Rows(tps, tool, all), Labels(tool)))
  {
    stats := new ChildrenStats();
    var rows := Rows(tps, tool, all);
    stats.AddGroups(rows, Grouped(rows), Labels(tool));
  }

  // The stores of a child: one translation project of the language or project, or
  // all of a project
  function StoresFor(tps: seq<TP>, tool: Tool, all: bool, language: string, project: string): seq<Store> {
    if tps == [] then []
    else
      var n := |tps| - 1;
      StoresFor(tps[..n], tool, all, language, project)
      + if Listed(tool, tps[n], all) && tps[n].project == project && (tool.ProjectSetTool? || tps[n].language == language)
        then tps[n].stores else []
  }

  function ChildLabel(tool: Tool, language: string, project: string): string {
    if tool.ProjectSetTool? then project else language + "-" + project
  }

  // What a child shows is the sum over its stores.
  lemma ChildIsSum(tps: seq<TP>, tool: Tool, all: bool, language: string, project: string)
    requires tool.LanguageTool? ==> language == tool.code
    requires tool.ProjectTool? ==> project == tool.code
    ensures Get(ChildrenOf(Relabelled(Rows(tps, tool, all), Labels(tool))), ChildLabel(tool, language, project))
            == Total(Data(StoresFor(tps, tool, all, language, project)))
  {
    var shown, name := Relabelled(Rows(tps, tool, all), Labels(tool)), ChildLabel(tool, language, project);
    ChildSum(tps, tool, all, language, project);
    if name !in Keys(shown) {
      SumNone(shown, {name});
    }
  }

  lemma {:induction false} ChildSum(tps: seq<TP>, tool: Tool, all: bool, language: string, project: string)
    requires tool.LanguageTool? ==> language == tool.code
    requires tool.ProjectTool? ==> project == tool.code
    ensures SumOf(Relabelled(Rows(tps, tool, all), Labels(tool)), {ChildLabel(tool, language, project)})
            == Total(Data(StoresFor(tps, tool, all, language, project)))
  {
    if tps != [] {
      var n := |tps| - 1;
      var tp, name := tps[n], ChildLabel(tool, language, project);
      var rest := Rows(tps[..n], tool, all);
      if Listed(tool, tp, all) {
        LastShown(rest, GroupKey(tool, tp), TPData(tp.stores), tool, {name});
        OwnLabel(tool, tp, all, language, project);
      } else {
        assert Rows(tps, tool, all) == rest;
      }
      OneMoreTP(StoresFor(tps[..n], tool, all, language, project), tp.stores);
      hide RootChildPath, TPData, Listed, Relabelled, Keys, SumOf, Labels, ChildLabel, GroupKey;
      ChildSum(tps[..n], tool, all, language, project);
    }
  }

  // Inside a language, or inside a project, labels tell the children apart.
  lemma OwnLabel(tool: Tool, tp: TP, all: bool, language: string, project: string)
    requires Listed(tool, tp, all)
    requires tool.LanguageTool? ==> language == tool.code
    requires tool.ProjectTool? ==> project == tool.code
    ensures RootChildPath(tool, GroupKey(tool, tp)) == ChildLabel(tool, language, project)
            <==> tp.project == project && (tool.ProjectSetTool? || tp.language == language)
  {
    var a, b := tp.language + "-" + tp.project, language + "-" + project;
    if a == b && tp.language == language {
      assert a[|language| + 1..] == tp.project && b[|language| + 1..] == project;
    }
    if a == b && tp.project == project {
      assert |tp.language| == |language|;
      assert a[..|language|] == tp.language && b[..|language|] == language;
    }
  }

  // get_children_stats and aggregate_children: the totals of a language, of a
  // project and of all projects are the sums over all stores of the translation
  // projects that count.
  method AggregatedStats(tps: seq<TP>, tool: Tool, all: bool) returns (agg: Stats)
    requires ProperTool(tool)
    ensures agg == Total(Data(StoresCounted(tps, tool, all)))
    ensures Bounded(agg)
  {
    var stats := GetChildrenStats(tps, tool, all);
    ghost var shown := Relabelled(Rows(tps, tool, all), Labels(tool));
    agg := stats.AggregateChildren(shown, ContextPath(tool));
    CountedIsDirect(tps, tool, all, Counted(ContextPath(tool), shown));
    TPIsBounded(StoresCounted(tps, tool, all));
  }

  lemma {:induction false} CountedIsDirect(tps: seq<TP>, tool: Tool, all: bool, names: set<string>)
    requires ProperTool(tool)
    requires forall name :: name in Keys(Relabelled(Rows(tps, tool, all), Labels(tool))) ==>
      (name in names <==> !Skipped(ContextPath(tool), name))
    ensures SumOf(Relabelled(Rows(tps, tool, all), Labels(tool)), names) == Total(Data(StoresCounted(tps, tool, all)))
  {
    if tps != [] {
      var n := |tps| - 1;
      var tp := tps[n];
      var rest := Rows(tps[..n], tool, all);
      var part := StoresCounted(tps[..n], tool, all);
      if Listed(tool, tp, all) {
        LastShown(rest, GroupKey(tool, tp), TPData(tp.stores), tool, names);
        SkippedIff(tool, tp, all);
      } else {
        assert Rows(tps, tool, all) == rest;
      }
      OneMoreTP(part, tp.stores);
      hide Skipped, ContextPath, RootChildPath, TPData, Listed, Relabelled, Keys, SumOf, Labels;
      CountedIsDirect(tps[..n], tool, all, names);
    }
  }

  lemma OneMoreTP(part: seq<Store>, stores: seq<Store>)
    ensures Total(Data(part + stores)) == Plus(Total(Data(part)), TPData(stores))
    ensures part + [] == part
  {
    assert Data(part + stores) == Data(part) + Data(stores);
    TotalSum(Data(part), Data(stores));
  }

  lemma LastShown(rows: seq<Row<Key>>, key: Key, data: Stats, tool: Tool, names: set<string>)
    ensures var shown := Relabelled(rows, Labels(tool));
            var more := Relabelled(rows + [Row(key, data)], Labels(tool));
            && Keys(more) == Keys(shown) + {RootChildPath(tool, key)}
            && SumOf(more, names)
               == if RootChildPath(tool, key) in names then Plus(SumOf(shown, names), data) else SumOf(shown, names)
  {
    var shown := Relabelled(rows, Labels(tool));
    var row := Row(RootChildPath(tool, key), data);
    assert Relabelled(rows + [Row(key, data)], Labels(tool)) == shown + [row];
    LastRow(shown, row, names);
  }

  // all_object_stats: the direct sum over the listed translation projects
  function AllObjectStats(tps: seq<TP>, tool: Tool, all: bool): ObjectStats {
    GetObjectStats(Rows(tps, tool, all))
  }

  // The stores of the translation projects that are listed but do not count
  function StoresSkipped(tps: seq<TP>, tool: Tool, all: bool): seq<Store> {
    if tps == [] then []
    else
      var n := |tps| - 1;
      StoresSkipped(tps[..n], tool, all)
      + if Listed(tool, tps[n], all) && !CountsIn(tool, tps[n], all) then tps[n].stores else []
  }

  // Its figures are those that the children show together, exactly when some
  // translation project is listed and those with a template code hold none; with
  // null read as zero the second is enough. Suggestions are never shown.
  lemma ObjectIsAggregateIff(tps: seq<TP>, tool: Tool, all: bool)
    ensures
      var shown, total := AllObjectStats(tps, tool, all), FiguresOf(Total(Data(StoresCounted(tps, tool, all))));
      && (shown.figures == Some(total) <==> SomeListed(tps, tool, all) && SkippedHoldNothing(tps, tool, all))
      && (shown.figures.GetOr(NO_FIGURES) == total <==> SkippedHoldNothing(tps, tool, all))
      && shown.suggestions == None
  {
    hide *;
    var rows := Rows(tps, tool, all);
    ShowsRows(tps, tool, all);
    ShownFigures(rows);
    ListedIff(tps, tool, all);
    ObjectIsBoth(tps, tool, all, Keys(rows));
    SkippedIsZeroIff(tps, tool, all);
    SameFiguresIff(SumOf(rows, Keys(rows)), Total(Data(StoresCounted(tps, tool, all))), Total(Data(StoresSkipped(tps, tool, all))));
  }

  predicate SomeListed(tps: seq<TP>, tool: Tool, all: bool) {
    exists i :: 0 <= i < |tps| && Listed(tool, tps[i], all)
  }

  predicate SkippedHoldNothing(tps: seq<TP>, tool: Tool, all: bool) {
    forall i :: 0 <= i < |tps| && Listed(tool, tps[i], all) && !CountsIn(tool, tps[i], all) ==>
      FiguresOf(TPData(tps[i].stores)) == NO_FIGURES
  }

  lemma ShowsRows(tps: seq<TP>, tool: Tool, all: bool)
    ensures AllObjectStats(tps, tool, all) == GetObjectStats(Rows(tps, tool, all))
  {}

  lemma {:induction false} ListedIff(tps: seq<TP>, tool: Tool, all: bool)
    ensures Rows(tps, tool, all) != [] <==> SomeListed(tps, tool, all)
  {
    hide Listed, TPData;
    if tps != [] {
      var n := |tps| - 1;
      ListedIff(tps[..n], tool, all);
      assert forall i :: 0 <= i < n ==> tps[..n][i] == tps[i];
    }
  }

  lemma {:induction false} ObjectIsBoth(tps: seq<TP>, tool: Tool, all: bool, keys: set<Key>)
    requires Keys(Rows(tps, tool, all)) <= keys
    ensures SumOf(Rows(tps, tool, all), keys)
            == Plus(Total(Data(StoresCounted(tps, tool, all))), Total(Data(StoresSkipped(tps, tool, all))))
  {
    hide *;
    if tps == [] {
      NoTPs(tool, all, keys);
    } else {
      var n := |tps| - 1;
      var tp := tps[n];
      var rest, part, lost := Rows(tps[..n], tool, all), StoresCounted(tps[..n], tool, all), StoresSkipped(tps[..n], tool, all);
      LastTP(tps, tool, all);
      LastRow(rest, Row(GroupKey(tool, tp), TPData(tp.stores)), keys);
      OneMoreTP(part, tp.stores);
      OneMoreTP(lost, tp.stores);
      ObjectIsBoth(tps[..n], tool, all, keys);
      PlusLaws(Total(Data(part)), Total(Data(lost)), TPData(tp.stores));
    }
  }

  lemma {:induction false} SkippedIsZeroIff(tps: seq<TP>, tool: Tool, all: bool)
    ensures FiguresOf(Total(Data(StoresSkipped(tps, tool, all)))) == NO_FIGURES <==> SkippedHoldNothing(tps, tool, all)
  {
    hide Listed, CountsIn, TPData, Total, Data;
    if tps == [] {
      NothingToSum<Key>({});
    } else {
      var n := |tps| - 1;
      var lost := StoresSkipped(tps[..n], tool, all);
      SkippedIsZeroIff(tps[..n], tool, all);
      OneMoreTP(lost, tps[n].stores);
      assert forall i :: 0 <= i < n ==> tps[..n][i] == tps[i];
    }
  }

  lemma NoTPs(tool: Tool, all: bool, keys: set<Key>)
    ensures SumOf(Rows([], tool, all), keys)
            == Plus(Total(Data(StoresCounted([], tool, all))), Total(Data(StoresSkipped([], tool, all))))
  {
    NothingToSum(keys);
    PlusLaws(ZERO, ZERO, ZERO);
    hide SumOf, Total, Data, Plus;
    assert Rows([], tool, all) == [] && StoresCounted([], tool, all) == [] && StoresSkipped([], tool, all) == [];
    hide *;
  }

  lemma LastTP(tps: seq<TP>, tool: Tool, all: bool)
    requires tps != []
    ensures var n := |tps| - 1;
            && Rows(tps, tool, all)
               == Rows(tps[..n], tool, all)
                  + (if Listed(tool, tps[n], all) then [Row(GroupKey(tool, tps[n]), TPData(tps[n].stores))] else [])
            && StoresCounted(tps, tool, all)
               == StoresCounted(tps[..n], tool, all) + (if CountsIn(tool, tps[n], all) then tps[n].stores else [])
            && StoresSkipped(tps, tool, all)
               == StoresSkipped(tps[..n], tool, all)
                  + (if Listed(tool, tps[n], all) && !CountsIn(tool, tps[n], all) then tps[n].stores else [])
            && (CountsIn(tool, tps[n], all) ==> Listed(tool, tps[n], all))
            && Rows(tps[..n], tool, all) + [] == Rows(tps[..n], tool, all)
            && StoresCounted(tps[..n], tool, all) + [] == StoresCounted(tps[..n], tool, all)
            && StoresSkipped(tps[..n], tool, all) + [] == StoresSkipped(tps[..n], tool, all)
  {}

  // A translation project of the language templates-fr is in the statistics of its
  // project and not in the sum of the children.
  lemma TemplateLanguageIsLost(stores: seq<Store>)
    requires FiguresOf(TPData(stores)) != NO_FIGURES
    ensures
      var tp, tool := TP("templates-fr", "tutorial", false, stores), ProjectTool("tutorial");
      AllObjectStats([tp], tool, true).figures.GetOr(NO_FIGURES) != FiguresOf(Total(Data(StoresCounted([tp], tool, true))))
  {
    var tp, tool := TP("templates-fr", "tutorial", false, stores), ProjectTool("tutorial");
    assert "templates-fr"[..10] == "templates-";
    assert Listed(tool, tp, true) && !CountsIn(tool, tp, true);
    assert !SkippedHoldNothing([tp], tool, true) by {
      assert [tp][0] == tp;
    }
    hide *;
    ObjectIsAggregateIff([tp], tool, true);
  }

  // Pending suggestions are in the sum of the children and not in the project's
  // own statistics.
  lemma SuggestionsAreNotShown(stores: seq<Store>)
    requires TPData(stores).suggestions > 0
    ensures
      var tp, tool := TP("fr", "tutorial", false, stores), ProjectTool("tutorial");
      && AllObjectStats([tp], tool, true).suggestions == None
      && Total(Data(StoresCounted([tp], tool, true))).suggestions == TPData(stores).suggestions
  {
    var tp, tool := TP("fr", "tutorial", false, stores), ProjectTool("tutorial");
    assert "fr"[0] == 'f' && "templates"[0] == 't';
    assert CountsIn(tool, tp, true);
    var tps := [tp];
    assert tps[..0] == [] && StoresCounted(tps[..0], tool, true) == [];
    assert StoresCounted(tps, tool, true) == [] + stores == stores;
  }
}
