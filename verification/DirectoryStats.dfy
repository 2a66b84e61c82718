// The children of a directory: its directories, each with all the stores below
// it, and its own stores.

module DirectoryStats {
  import opened Options
  import opened Strings
  import opened UrlHelpers
  import opened Stats

  // The path of a directory within its translation project
  function TpPath(dirs: seq<string>): string {
    "/" + Slashed(dirs)
  }

  predicate Names(dirs: seq<string>) {
    forall i :: 0 <= i < |dirs| ==> Name(dirs[i])
  }

  predicate Proper(stores: seq<Store>) {
    forall i :: 0 <= i < |stores| ==> Names(stores[i].dirs)
  }

  // filter_data and, unless everything may be seen, filter_accessible
  predicate Listed(s: Store, context: seq<string>, all: bool) {
    StartsWith(TpPath(s.dirs), TpPath(context)) && s.dirs != context && (all || !s.obsolete)
  }

  function GroupRows(stores: seq<Store>, context: seq<string>, all: bool): seq<Row<string>> {
    if stores == [] then []
    else
      var n := |stores| - 1;
      GroupRows(stores[..n], context, all)
      + if Listed(stores[n], context, all) then [Row(TpPath(stores[n].dirs), StoreData(stores[n]))] else []
  }

  // get_root_child_path
  function RootChildPath(context: seq<string>, path: string): string {
    Split(path[Smaller(|TpPath(context)|, |path|)..], '/')[0]
  }

  function Smaller(a: nat, b: nat): nat {
    if a < b then a else b
  }

  // child_stores: the stores of the directory itself, obsolete or not
  function ChildStores(stores: seq<Store>, context: seq<string>): seq<Row<string>> {
    if stores == [] then []
    else
      var n := |stores| - 1;
      ChildStores(stores[..n], context)
      + if stores[n].dirs == context then [Row(stores[n].name, StoreData(stores[n]))] else []
  }

  // ---- What it should be, in terms of the directory tree ----

  predicate Belongs(s: Store, context: seq<string>, all: bool) {
    context <= s.dirs && (all || !s.obsolete || s.dirs == context)
  }

  // The child of the directory that a store is in, or is
  function ChildName(s: Store, context: seq<string>): string
    requires context <= s.dirs
  {
    if s.dirs == context then s.name else s.dirs[|context|]
  }

  // Each store below the directory, once, under the child it is in
  function TreeRows(stores: seq<Store>, context: seq<string>, all: bool): seq<Row<string>> {
    if stores == [] then []
    else
      var n := |stores| - 1;
      TreeRows(stores[..n], context, all)
      + if Belongs(stores[n], context, all) then [Row(ChildName(stores[n], context), StoreData(stores[n]))] else []
  }

  function StoresBelow(stores: seq<Store>, context: seq<string>, all: bool): seq<Store> {
    if stores == [] then []
    else
      var n := |stores| - 1;
      StoresBelow(stores[..n], context, all) + if Belongs(stores[n], context, all) then [stores[n]] else []
  }

  // ---- Path prefixes are directory prefixes ----

  lemma {:induction false} PrefixIff(context: seq<string>, dirs: seq<string>)
    requires Names(context) && Names(dirs)
    ensures Slashed(context) <= Slashed(dirs) <==> context <= dirs
  {
    if context != [] && dirs != [] {
      var a, b := Slashed(context[1..]), Slashed(dirs[1..]);
      PrefixIff(context[1..], dirs[1..]);
      SamePart(context[0], a, dirs[0], b);
      assert Slashed(context) == context[0] + ['/'] + a && Slashed(dirs) == dirs[0] + ['/'] + b;
      assert context == [context[0]] + context[1..] && dirs == [dirs[0]] + dirs[1..];
    }
  }

  lemma SamePart(x: string, a: string, y: string, b: string)
    requires '/' !in x && '/' !in y
    ensures x + ['/'] + a <= y + ['/'] + b <==> x == y && a <= b
  {
    var s, t := x + ['/'] + a, y + ['/'] + b;
    FindAt(x, '/', a);
    FindAt(y, '/', b);
    if s <= t {
      assert t[|x|] == s[|x|] == '/';
      assert |x| >= |y|;
      assert forall i :: 0 <= i < |x| ==> s[i] in x;
      assert t[|y|] == '/';
      assert |x| == |y|;
      assert x == s[..|x|] == t[..|x|] == y;
      assert a == s[|x| + 1..] && b == t[|x| + 1..];
    }
    if x == y && a <= b {
      assert t == s + b[|a|..];
    }
  }

  lemma {:induction false} SlashedSum(a: seq<string>, b: seq<string>)
    ensures Slashed(a + b) == Slashed(a) + Slashed(b)
  {
    if a == [] {
      assert a + b == b;
    } else {
      assert (a + b)[1..] == a[1..] + b;
      SlashedSum(a[1..], b);
    }
  }

  // The filter takes the directories below, and the label is the child.
  lemma RootIsChild(context: seq<string>, dirs: seq<string>)
    requires Names(context) && Names(dirs)
    ensures StartsWith(TpPath(dirs), TpPath(context)) <==> context <= dirs
    ensures context <= dirs && dirs != context ==> RootChildPath(context, TpPath(dirs)) == dirs[|context|]
  {
    PrefixIff(context, dirs);
    assert TpPath(context)[1..] == Slashed(context) && TpPath(dirs)[1..] == Slashed(dirs);
    if context <= dirs && dirs != context {
      var rest := dirs[|context|..];
      assert dirs == context + rest;
      SlashedSum(context, rest);
      assert TpPath(dirs)[|TpPath(context)|..] == Slashed(rest);
      assert Slashed(rest) == rest[0] + ['/'] + Slashed(rest[1..]);
      SplitAt(rest[0], '/', Slashed(rest[1..]));
    }
  }

  // ---- The children, and what they add up to ----

  function Labels(context: seq<string>): string -> string {
    path => RootChildPath(context, path)
  }

  // The rows behind the children that get_children_stats fills in
  function Shown(stores: seq<Store>, context: seq<string>, all: bool): seq<Row<string>> {
    Relabelled(GroupRows(stores, context, all), Labels(context)) + ChildStores(stores, context)
  }

  lemma KeysSum(a: seq<Row<string>>, b: seq<Row<string>>)
    ensures Keys(a + b) == Keys(a) + Keys(b)
  {
    forall key | key in Keys(a) + Keys(b) ensures key in Keys(a + b) {
      if i :| 0 <= i < |a| && a[i].key == key {
        assert (a + b)[i].key == key;
      } else {
        var i :| 0 <= i < |b| && b[i].key == key;
        assert (a + b)[|a| + i].key == key;
      }
    }
  }

  lemma RelabelledSum(a: seq<Row<string>>, b: seq<Row<string>>, root: string -> string)
    ensures Relabelled(a + b, root) == Relabelled(a, root) + Relabelled(b, root)
  {}

  // Grouping by path, relabelling and adding the own stores shows the same
  // labels and sums as the tree.
  lemma {:induction false} ShownIsTree(stores: seq<Store>, context: seq<string>, all: bool, names: set<string>)
    requires Names(context) && Proper(stores)
    ensures SumOf(Shown(stores, context, all), names) == SumOf(TreeRows(stores, context, all), names)
    ensures Keys(Shown(stores, context, all)) == Keys(TreeRows(stores, context, all))
  {
    if stores != [] {
      var n := |stores| - 1;
      var s, rest := stores[n], stores[..n];
      ShownIsTree(rest, context, all, names);
      RootIsChild(context, s.dirs);
      var group := if Listed(s, context, all) then [Row(TpPath(s.dirs), StoreData(s))] else [];
      var own := if s.dirs == context then [Row(s.name, StoreData(s))] else [];
      var row := if Belongs(s, context, all) then [Row(ChildName(s, context), StoreData(s))] else [];
      assert Relabelled(group, Labels(context)) + own == row;
      hide SumOf, Keys, Relabelled, Labels, Listed, Belongs, ChildName, StoreData, Plus, TpPath;
      AddedRow(GroupRows(rest, context, all), ChildStores(rest, context), TreeRows(rest, context, all),
               group, own, row, Labels(context), names);
    } else {
      assert Relabelled<string>([], Labels(context)) == [];
    }
  }

  lemma AddedRow(
    groups: seq<Row<string>>, owns: seq<Row<string>>, rows: seq<Row<string>>,
    group: seq<Row<string>>, own: seq<Row<string>>, row: seq<Row<string>>, root: string -> string, names: set<string>)
    requires SumOf(Relabelled(groups, root) + owns, names) == SumOf(rows, names)
    requires Keys(Relabelled(groups, root) + owns) == Keys(rows)
    requires Relabelled(group, root) + own == row
    ensures SumOf(Relabelled(groups + group, root) + (owns + own), names) == SumOf(rows + row, names)
    ensures Keys(Relabelled(groups + group, root) + (owns + own)) == Keys(rows + row)
  {
    var a, b := Relabelled(groups, root), Relabelled(group, root);
    RelabelledSum(groups, group, root);
    hide Keys, Relabelled, Plus, SumOf;
    SumRows(a, owns, names);
    SumRows(a + b, owns + own, names);
    SumRows(a, b, names);
    SumRows(owns, own, names);
    SumRows(rows, row, names);
    SumRows(b, own, names);
    PlusFour(SumOf(a, names), SumOf(b, names), SumOf(owns, names), SumOf(own, names));
    KeysSum(a, owns);
    KeysSum(a + b, owns + own);
    KeysSum(a, b);
    KeysSum(owns, own);
    KeysSum(rows, row);
    KeysSum(b, own);
  }

  lemma PlusFour(a: Stats, b: Stats, c: Stats, d: Stats)
    ensures Plus(Plus(a, b), Plus(c, d)) == Plus(Plus(a, c), Plus(b, d))
  {}

  // get_children_stats: each child shows the sum of the stores in it, every store
  // below the directory once.
  method GetChildrenStats(stores: seq<Store>, context: seq<string>, all: bool) returns (stats: ChildrenStats)
    requires Names(context) && Proper(stores)
    ensures fresh(stats) && stats.children == ChildrenOf(TreeRows(stores, context, all))
  {
    stats := new ChildrenStats();
    var rows := GroupRows(stores, context, all);
    stats.AddGroups(rows, Grouped(rows), Labels(context));
    ghost var groups := Relabelled(rows, Labels(context));
    var childStores := ChildStores(stores, context);
    assert childStores[..0] == [] && groups + [] == groups;
    for i := 0 to |childStores|
      invariant stats.children == ChildrenOf(groups + childStores[..i])
    {
      stats.AddChildStats(childStores[i].key, childStores[i].data);
      OneMoreRow(groups + childStores[..i], childStores[i]);
      assert groups + childStores[..i + 1] == (groups + childStores[..i]) + [childStores[i]];
    }
    assert childStores[..|childStores|] == childStores;
    SameChildren(stores, context, all);
  }

  lemma SameChildren(stores: seq<Store>, context: seq<string>, all: bool)
    requires Names(context) && Proper(stores)
    ensures ChildrenOf(Shown(stores, context, all)) == ChildrenOf(TreeRows(stores, context, all))
  {
    ShownIsTree(stores, context, all, {});
    hide SumOf, Keys, Shown, TreeRows;
    forall name | name in Keys(Shown(stores, context, all))
      ensures SumOf(Shown(stores, context, all), {name}) == SumOf(TreeRows(stores, context, all), {name}) {
      ShownIsTree(stores, context, all, {name});
    }
  }

  // The stores in some of the children
  function StoresIn(stores: seq<Store>, context: seq<string>, all: bool, names: set<string>): seq<Store> {
    if stores == [] then []
    else
      var n := |stores| - 1;
      StoresIn(stores[..n], context, all, names)
      + if Belongs(stores[n], context, all) && ChildName(stores[n], context) in names then [stores[n]] else []
  }

  lemma {:induction false} SumIsStores(stores: seq<Store>, context: seq<string>, all: bool, names: set<string>)
    ensures SumOf(TreeRows(stores, context, all), names) == Total(Data(StoresIn(stores, context, all, names)))
  {
    if stores != [] {
      var n := |stores| - 1;
      var s := stores[n];
      SumIsStores(stores[..n], context, all, names);
      hide SumOf, Total, Data, Plus, StoreData, Belongs, ChildName;
      OneMoreStore(StoresIn(stores[..n], context, all, names), s);
      if Belongs(s, context, all) {
        LastRow(TreeRows(stores[..n], context, all), Row(ChildName(s, context), StoreData(s)), names);
      }
      assert forall part: seq<Store> :: part + [] == part;
      assert forall rows: seq<Row<string>> :: rows + [] == rows;
    }
  }

  // What a child shows is the sum over the stores in it.
  lemma ChildIsSum(stores: seq<Store>, context: seq<string>, all: bool, name: string)
    ensures Get(ChildrenOf(TreeRows(stores, context, all)), name) == Total(Data(StoresIn(stores, context, all, {name})))
  {
    var rows := TreeRows(stores, context, all);
    SumIsStores(stores, context, all, {name});
    if name !in Keys(rows) {
      SumNone(rows, {name});
    }
  }

  lemma OneMoreStore(stores: seq<Store>, s: Store)
    ensures Total(Data(stores + [s])) == Plus(Total(Data(stores)), StoreData(s))
  {
    assert Data(stores + [s]) == Data(stores) + [StoreData(s)];
    assert (Data(stores) + [StoreData(s)])[..|stores|] == Data(stores);
  }

  // All the children together hold all the stores below.
  lemma AllChildren(stores: seq<Store>, context: seq<string>, all: bool)
    ensures SumOf(TreeRows(stores, context, all), Keys(TreeRows(stores, context, all)))
            == Total(Data(StoresBelow(stores, context, all)))
  {
    var names := Keys(TreeRows(stores, context, all));
    SumIsStores(stores, context, all, names);
    hide SumOf, Total, Data;
    InSomeChild(stores, context, all, names);
  }

  lemma {:induction false} InSomeChild(stores: seq<Store>, context: seq<string>, all: bool, names: set<string>)
    requires Keys(TreeRows(stores, context, all)) <= names
    ensures StoresIn(stores, context, all, names) == StoresBelow(stores, context, all)
  {
    if stores != [] {
      var n := |stores| - 1;
      var rest := TreeRows(stores[..n], context, all);
      var row := if Belongs(stores[n], context, all) then [Row(ChildName(stores[n], context), StoreData(stores[n]))] else [];
      KeysSum(rest, row);
      assert row != [] ==> row[0].key in Keys(row);
      hide Keys, Belongs, ChildName, StoreData;
      InSomeChild(stores[..n], context, all, names);
    }
  }

  // aggregated_children_stats: the counts are those of all the stores below that
  // may be seen, exactly when the children left out as templates hold none.
  method AggregatedStats(stores: seq<Store>, context: seq<string>, all: bool, contextPath: string) returns (agg: Stats)
    requires Names(context) && Proper(stores)
    ensures agg == SumOf(TreeRows(stores, context, all), Counted(contextPath, TreeRows(stores, context, all)))
    ensures Plus(agg, LeftOut(stores, context, all, contextPath)) == Total(Data(StoresBelow(stores, context, all)))
    ensures Bounded(agg)
  {
    var stats := GetChildrenStats(stores, context, all);
    ghost var rows := TreeRows(stores, context, all);
    agg := stats.AggregateChildren(rows, contextPath);
    ghost var counted := Counted(contextPath, rows);
    assert Keys(rows) == counted + (Keys(rows) - counted);
    SumDisjoint(rows, counted, Keys(rows) - counted);
    AllChildren(stores, context, all);
    TreeIsBounded(stores, context, all);
    SumIsBounded(rows, counted);
  }

  // What the children with a template label hold
  function LeftOut(stores: seq<Store>, context: seq<string>, all: bool, contextPath: string): Stats {
    var rows := TreeRows(stores, context, all);
    SumOf(rows, Keys(rows) - Counted(contextPath, rows))
  }

  // Nothing is lost exactly when no store under a template label counts anything.
  lemma CountsAllIff(stores: seq<Store>, context: seq<string>, all: bool, contextPath: string)
    ensures Counts(SumOf(TreeRows(stores, context, all), Counted(contextPath, TreeRows(stores, context, all))))
            == Counts(Total(Data(StoresBelow(stores, context, all))))
            <==> NoTemplateCounts(TreeRows(stores, context, all), contextPath)
  {
    hide *;
    var rows := TreeRows(stores, context, all);
    AllChildren(stores, context, all);
    CountedAllIff(rows, contextPath);
  }

  lemma CountedAllIff(rows: seq<Row<string>>, contextPath: string)
    ensures Counts(SumOf(rows, Counted(contextPath, rows))) == Counts(SumOf(rows, Keys(rows)))
            <==> NoTemplateCounts(rows, contextPath)
  {
    hide SumOf, Skipped;
    var counted, rest := Counted(contextPath, rows), Keys(rows) - Counted(contextPath, rows);
    assert Keys(rows) == counted + rest;
    SumDisjoint(rows, counted, rest);
    ZeroIff(rows, rest);
    forall i | 0 <= i < |rows| ensures rows[i].key in rest <==> Skipped(contextPath, rows[i].key) {
      assert rows[i].key in Keys(rows);
    }
    hide Keys, Counted;
  }

  predicate NoTemplateCounts(rows: seq<Row<string>>, contextPath: string) {
    forall i :: 0 <= i < |rows| && Skipped(contextPath, rows[i].key) ==> Counts(rows[i].data) == ZERO
  }

  lemma {:induction false} ZeroIff(rows: seq<Row<string>>, names: set<string>)
    ensures Counts(SumOf(rows, names)) == ZERO
            <==> forall i :: 0 <= i < |rows| && rows[i].key in names ==> Counts(rows[i].data) == ZERO
  {
    if rows != [] {
      var rest := rows[..|rows| - 1];
      ZeroIff(rest, names);
      assert forall i :: 0 <= i < |rest| ==> rest[i] == rows[i];
    }
  }

  lemma {:induction false} TreeIsBounded(stores: seq<Store>, context: seq<string>, all: bool)
    ensures forall i :: 0 <= i < |TreeRows(stores, context, all)| ==> Bounded(TreeRows(stores, context, all)[i].data)
  {
    if stores != [] {
      var n := |stores| - 1;
      TreeIsBounded(stores[..n], context, all);
      StoreIsBounded(stores[n]);
    }
  }

  // Leaving obsolete stores out changes no count.
  lemma {:induction false} ObsoleteCountNothing(stores: seq<Store>, context: seq<string>)
    ensures Counts(Total(Data(StoresBelow(stores, context, false)))) == Counts(Total(Data(StoresBelow(stores, context, true))))
  {
    if stores != [] {
      var n := |stores| - 1;
      ObsoleteCountNothing(stores[..n], context);
      var seen, full := StoresBelow(stores[..n], context, false), StoresBelow(stores[..n], context, true);
      hide Total, Data, WordCounts;
      assert seen + [] == seen && full + [] == full;
      OneMoreStore(seen, stores[n]);
      OneMoreStore(full, stores[n]);
    }
  }

  // The top directory of a translation project counts what the project stores.
  lemma {:induction false} TopIsProject(stores: seq<Store>)
    ensures StoresBelow(stores, [], true) == stores
    ensures Total(Data(StoresBelow(stores, [], true))) == TPData(stores)
  {
    if stores != [] {
      TopIsProject(stores[..|stores| - 1]);
    }
  }

  // all_object_stats: the direct sum over what filter_data takes, which leaves
  // out the directory's own stores
  function AllObjectStats(stores: seq<Store>, context: seq<string>, all: bool): ObjectStats {
    GetObjectStats(GroupRows(stores, context, all))
  }

  function OwnStores(stores: seq<Store>, context: seq<string>): seq<Store> {
    if stores == [] then []
    else
      var n := |stores| - 1;
      OwnStores(stores[..n], context) + if stores[n].dirs == context then [stores[n]] else []
  }

  // The object's figures are those of all the stores below, as its children's
  // are, exactly when the query lists a store and the object's own stores hold
  // none; with null read as zero the second is enough. Suggestions are never shown.
  lemma ObjectCountsAllIff(stores: seq<Store>, context: seq<string>, all: bool)
    requires Names(context) && Proper(stores)
    ensures
      var shown, total := AllObjectStats(stores, context, all), FiguresOf(Total(Data(StoresBelow(stores, context, all))));
      && (shown.figures == Some(total) <==> SomeListed(stores, context, all) && OwnHoldNothing(stores, context))
      && (shown.figures.GetOr(NO_FIGURES) == total <==> OwnHoldNothing(stores, context))
      && shown.suggestions == None
  {
    hide *;
    var rows := GroupRows(stores, context, all);
    ShowsGroups(stores, context, all);
    ShownFigures(rows);
    ListedIff(stores, context, all);
    ObjectAndOwn(stores, context, all, Keys(rows));
    OwnIsZeroIff(stores, context);
    SameFiguresIff(Total(Data(StoresBelow(stores, context, all))), SumOf(rows, Keys(rows)), Total(Data(OwnStores(stores, context))));
  }

  predicate SomeListed(stores: seq<Store>, context: seq<string>, all: bool) {
    exists i :: 0 <= i < |stores| && Listed(stores[i], context, all)
  }

  predicate OwnHoldNothing(stores: seq<Store>, context: seq<string>) {
    forall i :: 0 <= i < |stores| && stores[i].dirs == context ==> FiguresOf(StoreData(stores[i])) == NO_FIGURES
  }

  lemma ShowsGroups(stores: seq<Store>, context: seq<string>, all: bool)
    ensures AllObjectStats(stores, context, all) == GetObjectStats(GroupRows(stores, context, all))
  {}

  lemma {:induction false} ListedIff(stores: seq<Store>, context: seq<string>, all: bool)
    ensures GroupRows(stores, context, all) != [] <==> SomeListed(stores, context, all)
  {
    hide Listed;
    if stores != [] {
      var n := |stores| - 1;
      ListedIff(stores[..n], context, all);
      assert forall i :: 0 <= i < n ==> stores[..n][i] == stores[i];
    }
  }

  lemma {:induction false} ObjectAndOwn(stores: seq<Store>, context: seq<string>, all: bool, keys: set<string>)
    requires Names(context) && Proper(stores) && Keys(GroupRows(stores, context, all)) <= keys
    ensures Plus(SumOf(GroupRows(stores, context, all), keys), Total(Data(OwnStores(stores, context))))
            == Total(Data(StoresBelow(stores, context, all)))
  {
    hide SumOf, Keys, Total, Data, StoreData, TpPath, Names, GroupRows, OwnStores, StoresBelow, Plus, Listed, Belongs;
    if stores == [] {
      NoStores(context, all, keys);
    } else {
      var n := |stores| - 1;
      var s, init := stores[n], stores[..n];
      var rest, own, below := GroupRows(init, context, all), OwnStores(init, context), StoresBelow(init, context, all);
      LastStore(stores, context, all);
      LastRow(rest, Row(TpPath(s.dirs), StoreData(s)), keys);
      OneMoreStore(own, s);
      OneMoreStore(below, s);
      ObjectAndOwn(init, context, all, keys);
      PlusLaws(SumOf(rest, keys), Total(Data(own)), StoreData(s));
    }
  }

  lemma NoStores(context: seq<string>, all: bool, keys: set<string>)
    ensures Plus(SumOf(GroupRows([], context, all), keys), Total(Data(OwnStores([], context))))
            == Total(Data(StoresBelow([], context, all)))
  {
    NothingToSum(keys);
    PlusLaws(ZERO, ZERO, ZERO);
    hide SumOf, Total, Data, Plus;
    assert GroupRows([], context, all) == [] && OwnStores([], context) == [] && StoresBelow([], context, all) == [];
    hide *;
  }

  // A store below the directory is in the query or is its own, not both.
  lemma LastStore(stores: seq<Store>, context: seq<string>, all: bool)
    requires Names(context) && Proper(stores) && stores != []
    ensures var n := |stores| - 1;
            var s := stores[n];
            && GroupRows(stores, context, all)
               == GroupRows(stores[..n], context, all)
                  + (if Listed(s, context, all) then [Row(TpPath(s.dirs), StoreData(s))] else [])
            && OwnStores(stores, context) == OwnStores(stores[..n], context) + (if s.dirs == context then [s] else [])
            && StoresBelow(stores, context, all)
               == StoresBelow(stores[..n], context, all) + (if Belongs(s, context, all) then [s] else [])
            && (Belongs(s, context, all) <==> Listed(s, context, all) || s.dirs == context)
            && (Listed(s, context, all) ==> s.dirs != context)
            && GroupRows(stores[..n], context, all) + [] == GroupRows(stores[..n], context, all)
            && OwnStores(stores[..n], context) + [] == OwnStores(stores[..n], context)
            && StoresBelow(stores[..n], context, all) + [] == StoresBelow(stores[..n], context, all)
  {
    RootIsChild(context, stores[|stores| - 1].dirs);
    hide TpPath, StoreData, Names;
  }

  lemma {:induction false} OwnIsZeroIff(stores: seq<Store>, context: seq<string>)
    ensures FiguresOf(Total(Data(OwnStores(stores, context)))) == NO_FIGURES <==> OwnHoldNothing(stores, context)
  {
    if stores != [] {
      var n := |stores| - 1;
      OwnIsZeroIff(stores[..n], context);
      OneMoreStore(OwnStores(stores[..n], context), stores[n]);
      assert OwnStores(stores[..n], context) + [] == OwnStores(stores[..n], context);
      hide Total, Data, StoreData;
      assert forall i :: 0 <= i < n ==> stores[..n][i] == stores[i];
    }
  }

  lemma OneStore(s: Store, context: seq<string>, all: bool, names: set<string>)
    requires Belongs(s, context, all)
    ensures TreeRows([s], context, all) == [Row(ChildName(s, context), StoreData(s))]
    ensures Total(Data(StoresBelow([s], context, all))) == StoreData(s)
    ensures SumOf(TreeRows([s], context, all), names) == if ChildName(s, context) in names then StoreData(s) else ZERO
  {
    var row := Row(ChildName(s, context), StoreData(s));
    OneRow(s, context, all);
    hide *;
    assert [] + [s] == [s] && [] + [row] == [row];
    OneMoreStore([], s);
    LastRow([], row, names);
    NothingToSum(names);
    PlusLaws(StoreData(s), ZERO, ZERO);
  }

  lemma OneRow(s: Store, context: seq<string>, all: bool)
    requires Belongs(s, context, all)
    ensures TreeRows([s], context, all) == [Row(ChildName(s, context), StoreData(s))]
    ensures StoresBelow([s], context, all) == [s]
  {
    hide StoreData, ChildName;
    var l := [s];
    var init := l[..|l| - 1];
    assert init == [] && l[|l| - 1] == s;
    assert StoresBelow(init, context, all) == [] && TreeRows(init, context, all) == [];
    assert StoresBelow(l, context, all) == [] + [s];
    assert TreeRows(l, context, all) == [] + [Row(ChildName(s, context), StoreData(s))];
  }

  // A translated store in a directory called templates is not counted above it.
  lemma TemplatesDirectoryIsLost()
    ensures
      var store := Store(["templates"], "a.po", false, [Unit(TRANSLATED, 3)], 0, 0, 0);
      var rows := TreeRows([store], [], true);
      && Total(Data(StoresBelow([store], [], true))).total == 3
      && SumOf(rows, Counted("/fr/tutorial/", rows)) == ZERO
  {
    hide TreeRows, StoresBelow, Total, Data, SumOf, Plus;
    var store := Store(["templates"], "a.po", false, [Unit(TRANSLATED, 3)], 0, 0, 0);
    ThreeWords(store);
    OneStore(store, [], true, Counted("/fr/tutorial/", TreeRows([store], [], true)));
    assert "/templates/"[1] == 't' && "/fr/tutorial/"[1] == 'f';
  }

  // A directory's own store is among its children and not in its own statistics,
  // which are null here.
  lemma OwnStoreIsLost()
    ensures
      var store := Store([], "a.po", false, [Unit(TRANSLATED, 3)], 0, 0, 0);
      && Total(Data(StoresBelow([store], [], true))).total == 3
      && AllObjectStats([store], [], true).figures == None
  {
    hide StoresBelow, Total, Data, SumOf;
    var store := Store([], "a.po", false, [Unit(TRANSLATED, 3)], 0, 0, 0);
    ThreeWords(store);
    OneStore(store, [], true, {});
    NothingListed(store);
  }

  lemma NothingListed(s: Store)
    requires s.dirs == []
    ensures GroupRows([s], [], true) == []
  {
    var l := [s];
    assert l[..|l| - 1] == [] && GroupRows(l[..|l| - 1], [], true) == [];
    assert !Listed(l[|l| - 1], [], true);
  }

  lemma ThreeWords(s: Store)
    requires !s.obsolete && s.units == [Unit(TRANSLATED, 3)]
    ensures StoreData(s).total == 3
  {
    hide Plus;
    var l := s.units;
    var init := l[..|l| - 1];
    assert init == [] && WordCounts(init) == ZERO;
    assert WordCounts(l) == Plus(ZERO, Words(l[0]));
    PlusLaws(Words(l[0]), ZERO, ZERO);
  }
}
