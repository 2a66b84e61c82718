// Word counts: summed from units to stores and translation projects, grouped
// under the children of a directory, language or project, and summed again.

module Stats {
  import opened Options

  // A latest submission of 0 stands for none.
  datatype Stats = Stats(total: nat, fuzzy: nat, translated: nat, critical: nat, suggestions: nat, lastSubmission: nat)

  const ZERO := Stats(0, 0, 0, 0, 0, 0)

  function Max(a: nat, b: nat): nat {
    if b > a then b else a
  }

  function Plus(a: Stats, b: Stats): Stats {
    Stats(
      a.total + b.total, a.fuzzy + b.fuzzy, a.translated + b.translated,
      a.critical + b.critical, a.suggestions + b.suggestions, Max(a.lastSubmission, b.lastSubmission))
  }

  lemma PlusLaws(a: Stats, b: Stats, c: Stats)
    ensures Plus(a, b) == Plus(b, a)
    ensures Plus(Plus(a, b), c) == Plus(a, Plus(b, c))
    ensures Plus(Plus(a, b), c) == Plus(Plus(a, c), b)
    ensures Plus(a, ZERO) == a && Plus(ZERO, a) == a
  {}

  function Total(rows: seq<Stats>): Stats {
    if rows == [] then ZERO else Plus(Total(rows[..|rows| - 1]), rows[|rows| - 1])
  }

  lemma {:induction false} TotalSum(a: seq<Stats>, b: seq<Stats>)
    ensures Total(a + b) == Plus(Total(a), Total(b))
  {
    if b == [] {
      assert a + b == a;
    } else {
      assert (a + b)[..|a + b| - 1] == a + b[..|b| - 1];
      TotalSum(a, b[..|b| - 1]);
    }
  }

  // ---- Units, stores and translation projects ----

  const OBSOLETE: int := -100
  const FUZZY: int := 50
  const TRANSLATED: int := 200

  datatype Unit = Unit(state: int, words: int)

  function Words(u: Unit): Stats {
    Stats(
      if u.state > OBSOLETE && u.words > 0 then u.words else 0,
      if u.state == FUZZY && u.words > 0 then u.words else 0,
      if u.state == TRANSLATED && u.words > 0 then u.words else 0,
      0, 0, 0)
  }

  datatype Store = Store(
    dirs: seq<string>, name: string, obsolete: bool, units: seq<Unit>,
    critical: nat, suggestions: nat, lastSubmission: nat)

  function WordCounts(units: seq<Unit>): Stats {
    if units == [] then ZERO else Plus(WordCounts(units[..|units| - 1]), Words(units[|units| - 1]))
  }

  // The words of the units in some states
  function WordsIn(units: seq<Unit>, states: int -> bool): nat {
    if units == [] then 0
    else
      var u := units[|units| - 1];
      WordsIn(units[..|units| - 1], states) + if states(u.state) && u.words > 0 then u.words else 0
  }

  // Translated, fuzzy and all other live units together make the total.
  lemma {:induction false} WordsByState(units: seq<Unit>)
    ensures WordCounts(units).translated == WordsIn(units, s => s == TRANSLATED)
    ensures WordCounts(units).fuzzy == WordsIn(units, s => s == FUZZY)
    ensures WordCounts(units).total
            == WordCounts(units).translated + WordCounts(units).fuzzy
               + WordsIn(units, s => s > OBSOLETE && s != TRANSLATED && s != FUZZY)
  {
    if units != [] {
      WordsByState(units[..|units| - 1]);
    }
  }

  // get_store_data: an obsolete store counts nothing, but keeps its last submission.
  function StoreData(s: Store): Stats {
    if s.obsolete then ZERO.(lastSubmission := s.lastSubmission)
    else WordCounts(s.units).(critical := s.critical, suggestions := s.suggestions, lastSubmission := s.lastSubmission)
  }

  function Data(stores: seq<Store>): seq<Stats> {
    seq(|stores|, i requires 0 <= i < |stores| => StoreData(stores[i]))
  }

  // TPDataUpdater: the sums over the stores of a translation project
  function TPData(stores: seq<Store>): Stats {
    Total(Data(stores))
  }

  // What a store shows, state by state and value by value
  lemma StoreDataIs(s: Store)
    ensures
      var d := StoreData(s);
      if s.obsolete then d == Stats(0, 0, 0, 0, 0, s.lastSubmission)
      else
        && d.translated == WordsIn(s.units, x => x == 200)
        && d.fuzzy == WordsIn(s.units, x => x == 50)
        && d.total == WordsIn(s.units, x => x > -100)
        && d.critical == s.critical && d.suggestions == s.suggestions && d.lastSubmission == s.lastSubmission
  {
    WordsByState(s.units);
    TotalIsLive(s.units);
  }

  lemma {:induction false} TotalIsLive(units: seq<Unit>)
    ensures WordCounts(units).total == WordsIn(units, x => x > -100)
  {
    if units != [] {
      TotalIsLive(units[..|units| - 1]);
    }
  }

  // The words of the units in some states, in the stores that are not obsolete
  function LiveWords(stores: seq<Store>, states: int -> bool): nat {
    if stores == [] then 0
    else
      var s := stores[|stores| - 1];
      LiveWords(stores[..|stores| - 1], states) + if s.obsolete then 0 else WordsIn(s.units, states)
  }

  predicate LatestOf(stores: seq<Store>, latest: nat) {
    && (forall i :: 0 <= i < |stores| ==> stores[i].lastSubmission <= latest)
    && (latest > 0 ==> exists i :: 0 <= i < |stores| && stores[i].lastSubmission == latest)
  }

  // What a translation project stores: the live words of its stores, and the
  // latest submission of them all
  lemma {:induction false} TPDataIs(stores: seq<Store>)
    ensures TPData(stores).translated == LiveWords(stores, x => x == 200)
    ensures TPData(stores).fuzzy == LiveWords(stores, x => x == 50)
    ensures TPData(stores).total == LiveWords(stores, x => x > -100)
    ensures LatestOf(stores, TPData(stores).lastSubmission)
  {
    if stores != [] {
      var init, s := stores[..|stores| - 1], stores[|stores| - 1];
      TPDataIs(init);
      assert Data(stores) == Data(init) + [StoreData(s)];
      assert TPData(stores) == Plus(TPData(init), StoreData(s));
      StoreDataIs(s);
      hide StoreData, TPData, WordsIn, LatestOf, Data;
      LatestMore(init, s, TPData(init).lastSubmission);
      assert stores == init + [s];
    }
  }

  lemma LatestMore(stores: seq<Store>, s: Store, latest: nat)
    requires LatestOf(stores, latest)
    ensures LatestOf(stores + [s], Max(latest, s.lastSubmission))
  {
    var more := stores + [s];
    assert more[|stores|] == s;
    if latest > 0 {
      var i :| 0 <= i < |stores| && stores[i].lastSubmission == latest;
      assert more[i] == stores[i];
    }
  }

  // The counts alone, without the latest submission
  function Counts(s: Stats): Stats {
    s.(lastSubmission := 0)
  }

  lemma SameCounts(a: Stats, b: Stats)
    ensures Counts(a) == Counts(b) <==>
      && a.total == b.total && a.fuzzy == b.fuzzy && a.translated == b.translated
      && a.critical == b.critical && a.suggestions == b.suggestions
  {}

  // ---- What an object shows without its children ----

  datatype Figures = Figures(total: nat, fuzzy: nat, translated: nat, critical: nat)

  const NO_FIGURES := Figures(0, 0, 0, 0)

  function FiguresOf(s: Stats): Figures {
    Figures(s.total, s.fuzzy, s.translated, s.critical)
  }

  datatype ObjectStats = ObjectStats(figures: Option<Figures>, suggestions: Option<nat>, lastSubmission: Option<nat>)

  // get_object_stats: one sum over all rows, which is null over none; suggestions
  // and the latest submission are then set to None.
  function GetObjectStats<K(==)>(rows: seq<Row<K>>): ObjectStats {
    ObjectStats(if rows == [] then None else Some(FiguresOf(SumOf(rows, Keys(rows)))), None, None)
  }

  lemma SameFiguresIff(all: Stats, some: Stats, rest: Stats)
    requires all == Plus(some, rest)
    ensures FiguresOf(all) == FiguresOf(some) <==> FiguresOf(rest) == NO_FIGURES
  {}

  lemma ShownFigures<K>(rows: seq<Row<K>>)
    ensures GetObjectStats(rows).figures.GetOr(NO_FIGURES) == FiguresOf(SumOf(rows, Keys(rows)))
    ensures GetObjectStats(rows).figures == if rows == [] then None else Some(FiguresOf(SumOf(rows, Keys(rows))))
    ensures rows != [] ==>
      var shown, sum := GetObjectStats(rows).figures, SumOf(rows, Keys(rows));
      && shown.Some? && shown.value.total == sum.total && shown.value.fuzzy == sum.fuzzy
      && shown.value.translated == sum.translated && shown.value.critical == sum.critical
    ensures GetObjectStats(rows).suggestions == None && GetObjectStats(rows).lastSubmission == None
  {}

  lemma NothingToSum<K>(keys: set<K>)
    ensures SumOf([], keys) == ZERO && Total([]) == ZERO && Data([]) == []
    ensures Total(Data([])) == ZERO
  {
    hide Plus;
    assert Data([]) == [];
  }

  predicate Bounded(s: Stats) {
    s.translated + s.fuzzy <= s.total
  }

  lemma {:induction false} StoreIsBounded(s: Store)
    ensures Bounded(WordCounts(s.units)) && Bounded(StoreData(s))
    decreases |s.units|
  {
    if s.units != [] {
      StoreIsBounded(s.(units := s.units[..|s.units| - 1]));
    }
  }

  lemma {:induction false} TotalIsBounded(rows: seq<Stats>)
    requires forall i :: 0 <= i < |rows| ==> Bounded(rows[i])
    ensures Bounded(Total(rows))
  {
    if rows != [] {
      TotalIsBounded(rows[..|rows| - 1]);
    }
  }

  lemma TPIsBounded(stores: seq<Store>)
    ensures Bounded(TPData(stores))
  {
    forall i | 0 <= i < |stores| ensures Bounded(Data(stores)[i]) {
      StoreIsBounded(stores[i]);
    }
    TotalIsBounded(Data(stores));
  }

  // ---- Rows grouped by a key ----

  datatype Row<K> = Row(key: K, data: Stats)

  function SumOf<K(==)>(rows: seq<Row<K>>, keys: set<K>): Stats {
    if rows == [] then ZERO
    else
      var rest := SumOf(rows[..|rows| - 1], keys);
      if rows[|rows| - 1].key in keys then Plus(rest, rows[|rows| - 1].data) else rest
  }

  function Keys<K(==)>(rows: seq<Row<K>>): set<K> {
    set i | 0 <= i < |rows| :: rows[i].key
  }

  // annotate_fields: the query grouped by its key
  function Grouped<K(==)>(rows: seq<Row<K>>): map<K, Stats> {
    map key | key in Keys(rows) :: SumOf(rows, {key})
  }

  lemma {:induction false} SumDisjoint<K>(rows: seq<Row<K>>, a: set<K>, b: set<K>)
    requires a !! b
    ensures SumOf(rows, a + b) == Plus(SumOf(rows, a), SumOf(rows, b))
  {
    hide Plus;
    PlusLaws(ZERO, ZERO, ZERO);
    if rows != [] {
      var rest, row := rows[..|rows| - 1], rows[|rows| - 1];
      SumDisjoint(rest, a, b);
      PlusLaws(SumOf(rest, a), SumOf(rest, b), row.data);
    }
  }

  lemma {:induction false} SumNone<K>(rows: seq<Row<K>>, keys: set<K>)
    requires keys !! Keys(rows)
    ensures SumOf(rows, keys) == ZERO
  {
    if rows != [] {
      assert Keys(rows[..|rows| - 1]) <= Keys(rows);
      assert rows[|rows| - 1].key in Keys(rows);
      SumNone(rows[..|rows| - 1], keys);
    }
  }

  lemma {:induction false} SumRows<K>(a: seq<Row<K>>, b: seq<Row<K>>, keys: set<K>)
    ensures SumOf(a + b, keys) == Plus(SumOf(a, keys), SumOf(b, keys))
  {
    if b == [] {
      assert a + b == a;
    } else {
      assert (a + b)[..|a + b| - 1] == a + b[..|b| - 1];
      SumRows(a, b[..|b| - 1], keys);
    }
  }

  lemma LastRow<K>(rows: seq<Row<K>>, row: Row<K>, keys: set<K>)
    ensures SumOf(rows + [row], keys) == if row.key in keys then Plus(SumOf(rows, keys), row.data) else SumOf(rows, keys)
    ensures Keys(rows + [row]) == Keys(rows) + {row.key}
  {
    var more := rows + [row];
    assert more[..|rows|] == rows && more[|rows|] == row;
    forall key | key in Keys(rows) ensures key in Keys(more) {
      var i :| 0 <= i < |rows| && rows[i].key == key;
      assert more[i].key == key;
    }
  }

  lemma {:induction false} SumIsBounded<K>(rows: seq<Row<K>>, keys: set<K>)
    requires forall i :: 0 <= i < |rows| ==> Bounded(rows[i].data)
    ensures Bounded(SumOf(rows, keys))
  {
    if rows != [] {
      SumIsBounded(rows[..|rows| - 1], keys);
    }
  }

  // The rows under the label of the child they belong to
  function Relabelled<K>(rows: seq<Row<K>>, root: K -> string): seq<Row<string>> {
    seq(|rows|, i requires 0 <= i < |rows| => Row(root(rows[i].key), rows[i].data))
  }

  function LabelledAs<K(==)>(keys: set<K>, root: K -> string, name: string): set<K> {
    set key | key in keys && root(key) == name
  }

  lemma {:induction false} SumOfLabel<K>(rows: seq<Row<K>>, root: K -> string, keys: set<K>, name: string)
    requires Keys(rows) <= keys
    ensures SumOf(Relabelled(rows, root), {name}) == SumOf(rows, LabelledAs(keys, root, name))
  {
    if rows != [] {
      var rest := rows[..|rows| - 1];
      assert Keys(rest) <= Keys(rows);
      assert rows[|rows| - 1].key in Keys(rows);
      assert Relabelled(rows, root)[..|rows| - 1] == Relabelled(rest, root);
      SumOfLabel(rest, root, keys, name);
    }
  }

  // ---- Children ----

  type Children = map<string, Stats>

  // What the children of an object should show: for each label the sum of its rows
  function ChildrenOf(rows: seq<Row<string>>): Children {
    Grouped(rows)
  }

  function Get(children: Children, root: string): Stats {
    if root in children then children[root] else ZERO
  }

  lemma OneMoreRow(rows: seq<Row<string>>, row: Row<string>)
    ensures ChildrenOf(rows + [row])
            == ChildrenOf(rows)[row.key := Plus(Get(ChildrenOf(rows), row.key), row.data)]
  {
    var more := rows + [row];
    assert more[..|rows|] == rows && more[|rows|] == row;
    forall key ensures key in Keys(more) <==> key in Keys(rows) || key == row.key {
      assert key in Keys(rows) ==> exists i :: 0 <= i < |rows| && more[i].key == key;
    }
    if row.key !in Keys(rows) {
      SumNone(rows, {row.key});
    }
  }

  // Labels of the children that do not count
  predicate TemplateLabel(name: string) {
    "templates-" <= name || name == "templates"
  }

  predicate Skipped(contextPath: string, name: string) {
    TemplateLabel(name) && !("/templates/" <= contextPath)
  }

  function Counted(contextPath: string, rows: seq<Row<string>>): set<string> {
    set name | name in Keys(rows) && !Skipped(contextPath, name)
  }

  class ChildrenStats {
    var children: Children

    constructor ()
      ensures children == map[]
    {
      children := map[];
    }

    // add_child_stats: each sum is added to, and the latest submission is kept.
    method AddChildStats(root: string, child: Stats)
      modifies this
      ensures children == old(children)[root := Plus(Get(old(children), root), child)]
    {
      if root !in children {
        children := children[root := ZERO];
      }
      var s := children[root];
      s := s.(critical := s.critical + child.critical);
      s := s.(total := s.total + child.total);
      s := s.(fuzzy := s.fuzzy + child.fuzzy);
      s := s.(translated := s.translated + child.translated);
      s := s.(suggestions := s.suggestions + child.suggestions);
      if child.lastSubmission != 0 && child.lastSubmission > s.lastSubmission {
        s := s.(lastSubmission := child.lastSubmission);
      }
      children := children[root := s];
    }

    // get_children_stats: the loop over the grouped rows
    method AddGroups<K(!new)>(ghost rows: seq<Row<K>>, qs: map<K, Stats>, root: K -> string)
      requires children == map[] && qs == Grouped(rows)
      modifies this
      ensures children == ChildrenOf(Relabelled(rows, root))
    {
      ghost var all := Keys(rows);
      var todo := qs.Keys;
      assert all - todo == {};
      NothingGathered(rows, root);
      while todo != {}
        invariant todo <= qs.Keys
        invariant Gathered(rows, all - todo, root, children)
      {
        var key :| key in todo;
        ghost var before := children;
        AddChildStats(root(key), qs[key]);
        OneMoreGroup(rows, all - todo, root, before, key);
        assert (all - todo) + {key} == all - (todo - {key});
        todo := todo - {key};
      }
      assert all - todo == all;
      AllGathered(rows, root, children);
    }

    // aggregate_children
    method AggregateChildren(ghost rows: seq<Row<string>>, contextPath: string) returns (agg: Stats)
      requires children == ChildrenOf(rows)
      ensures agg == SumOf(rows, Counted(contextPath, rows))
    {
      agg := ZERO;
      var todo := children.Keys;
      ghost var counted: set<string> := {};
      SumNone(rows, {});
      while todo != {}
        invariant todo <= children.Keys
        invariant counted == set name | name in children.Keys - todo && !Skipped(contextPath, name)
        invariant agg == SumOf(rows, counted)
      {
        var name :| name in todo;
        var child := children[name];
        if !(("templates-" <= name || name == "templates") && !("/templates/" <= contextPath)) {
          SumDisjoint(rows, counted, {name});
          counted := counted + {name};
          agg := Stats(
            agg.total + child.total, agg.fuzzy + child.fuzzy, agg.translated + child.translated,
            agg.critical + child.critical, agg.suggestions + child.suggestions,
            if child.lastSubmission > agg.lastSubmission then child.lastSubmission else agg.lastSubmission);
        }
        todo := todo - {name};
      }
      assert counted == Counted(contextPath, rows);
    }
  }

  // The groups added so far
  ghost predicate Gathered<K(!new)>(rows: seq<Row<K>>, done: set<K>, root: K -> string, children: Children) {
    && (forall name :: name in children <==> LabelledAs(done, root, name) != {})
    && (forall name :: Get(children, name) == SumOf(rows, LabelledAs(done, root, name)))
  }

  lemma NothingGathered<K(!new)>(rows: seq<Row<K>>, root: K -> string)
    ensures Gathered(rows, {}, root, map[])
  {
    SumNone(rows, {});
    forall name ensures LabelledAs({}, root, name) == {} {}
  }

  lemma OneMoreGroup<K(!new)>(rows: seq<Row<K>>, done: set<K>, root: K -> string, children: Children, key: K)
    requires Gathered(rows, done, root, children) && key !in done
    ensures Gathered(rows, done + {key}, root, children[root(key) := Plus(Get(children, root(key)), SumOf(rows, {key}))])
  {
    hide Plus, SumOf, LabelledAs;
    var name, more := root(key), done + {key};
    var after := children[name := Plus(Get(children, name), SumOf(rows, {key}))];
    forall other
      ensures Get(after, other) == SumOf(rows, LabelledAs(more, root, other))
      ensures other in after <==> LabelledAs(more, root, other) != {}
    {
      OneMoreLabelled(done, root, key, other);
      if other == name {
        SumDisjoint(rows, LabelledAs(done, root, name), {key});
      }
    }
  }

  lemma OneMoreLabelled<K>(done: set<K>, root: K -> string, key: K, other: string)
    requires key !in done
    ensures key !in LabelledAs(done, root, other)
    ensures other == root(key) ==> LabelledAs(done + {key}, root, other) == LabelledAs(done, root, other) + {key}
    ensures other == root(key) ==> LabelledAs(done + {key}, root, other) != {}
    ensures other != root(key) ==> LabelledAs(done + {key}, root, other) == LabelledAs(done, root, other)
  {
    assert other == root(key) ==> key in LabelledAs(done + {key}, root, other);
  }

  lemma AllGathered<K(!new)>(rows: seq<Row<K>>, root: K -> string, children: Children)
    requires Gathered(rows, Keys(rows), root, children)
    ensures children == ChildrenOf(Relabelled(rows, root))
  {
    var labelled := Relabelled(rows, root);
    forall name ensures name in children <==> name in Keys(labelled) {
      if i :| 0 <= i < |labelled| && labelled[i].key == name {
        assert rows[i].key in LabelledAs(Keys(rows), root, name);
      }
      if key :| key in LabelledAs(Keys(rows), root, name) {
        var i :| 0 <= i < |rows| && rows[i].key == key;
        assert labelled[i].key == name;
      }
    }
    forall name | name in children ensures children[name] == SumOf(labelled, {name}) {
      SumOfLabel(rows, root, Keys(rows), name);
    }
  }
}
