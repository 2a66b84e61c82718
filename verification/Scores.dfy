// User scores: events are summed for each day and user, the sums are brought
// into the stored rows by difference, and project scores sum the stores' rows.

module Scores {
  import opened Sequences

  datatype Field = Score | Suggested | Reviewed | Translated

  const FIELDS: seq<Field> := [Score, Suggested, Reviewed, Translated]

  datatype Key = Key(date: int, user: nat)

  // A dictionary of components, some of which may be missing
  type Values = map<Field, real>

  function Of(values: Values, f: Field): real {
    if f in values then values[f] else 0.0
  }

  function Filled(values: Values): Values {
    map f: Field | f in {Score, Suggested, Reviewed, Translated} :: Of(values, f)
  }

  // ---- Rounding ----

  // round(x, 2): to the nearest hundredth, halves away from zero
  function Round2(x: real): real {
    if x >= 0.0 then (x * 100.0 + 0.5).Floor as real / 100.0
    else -((-x * 100.0 + 0.5).Floor as real / 100.0)
  }

  function Hundredths(n: int): real {
    n as real / 100.0
  }

  // The nearest hundredth
  lemma RoundIsNear(x: real)
    ensures -0.005 <= Round2(x) - x <= 0.005
    ensures exists n :: Round2(x) == Hundredths(n)
  {
    var y := if x >= 0.0 then x else -x;
    var n := (y * 100.0 + 0.5).Floor;
    assert n as real <= y * 100.0 + 0.5 < n as real + 1.0;
    assert Round2(x) == Hundredths(if x >= 0.0 then n else -n);
  }

  lemma HalfRoundsAway(n: nat)
    ensures Round2((n as real + 0.5) / 100.0) == (n + 1) as real / 100.0
    ensures Round2(-((n as real + 0.5) / 100.0)) == -((n + 1) as real / 100.0)
  {
    var x := (n as real + 0.5) / 100.0;
    assert x * 100.0 + 0.5 == (n + 1) as real;
    assert ((n + 1) as real).Floor == n + 1;
  }

  lemma RoundTwice(x: real)
    ensures Round2(Round2(x)) == Round2(x)
  {
    var y := if x >= 0.0 then x else -x;
    var n := (y * 100.0 + 0.5).Floor;
    assert n >= 0;
    assert (n as real / 100.0) * 100.0 == n as real;
    assert (n as real + 0.5).Floor == n;
  }

  // ---- Scoring events ----

  datatype Event = Event(key: Key, known: bool, values: Values)

  // An event counts when its action is scored and some component is positive.
  predicate Counts(e: Event) {
    e.known && exists f :: f in e.values && e.values[f] > 0.0
  }

  function Part(e: Event, key: Key, f: Field): real {
    if Counts(e) && e.key == key then Of(e.values, f) else 0.0
  }

  function Total(events: seq<Event>, key: Key, f: Field): real {
    if events == [] then 0.0
    else Total(events[..|events| - 1], key, f) + Part(events[|events| - 1], key, f)
  }

  predicate Scored(events: multiset<Event>, key: Key) {
    exists e :: e in events && Counts(e) && e.key == key
  }

  predicate Gives(events: multiset<Event>, key: Key, f: Field) {
    exists e :: e in events && Counts(e) && e.key == key && Of(e.values, f) != 0.0
  }

  // Which components count: an event without a score of its own, as a new
  // suggestion is by default, counts for another that is positive.
  lemma CountsIff(e: Event)
    ensures Counts(e) <==>
      && e.known
      && (Of(e.values, Score) > 0.0 || Of(e.values, Suggested) > 0.0 || Of(e.values, Reviewed) > 0.0
          || Of(e.values, Translated) > 0.0)
  {
    if f :| f in e.values && e.values[f] > 0.0 {
      match f case Score => case Suggested => case Reviewed => case Translated =>
    }
  }

  type Calculated = map<int, map<nat, Values>>

  predicate HasKey(calculated: Calculated, key: Key) {
    key.date in calculated && key.user in calculated[key.date]
  }

  function Day(calculated: Calculated, date: int): map<nat, Values> {
    if date in calculated then calculated[date] else map[]
  }

  function At(calculated: Calculated, key: Key): Values {
    if HasKey(calculated, key) then calculated[key.date][key.user] else map[]
  }

  // The days and users with a counted event, the components that some event
  // gave them, and the sums of what the events gave
  ghost predicate IsCalculated(calculated: Calculated, events: seq<Event>) {
    && (forall key :: HasKey(calculated, key) <==> Scored(multiset(events), key))
    && (forall date :: date in calculated ==> calculated[date] != map[])
    && (forall key, f :: f in At(calculated, key) <==> Gives(multiset(events), key, f))
    && (forall key, f :: Of(At(calculated, key), f) == Total(events, key, f))
  }

  class ScoreCalculation {
    var scores: Calculated

    constructor ()
      ensures scores == map[]
    {
      scores := map[];
    }

    // score_event
    method ScoreEvent(e: Event, ghost before: seq<Event>)
      requires IsCalculated(scores, before)
      modifies this
      ensures IsCalculated(scores, before + [e])
    {
      if !e.known || !Counts(e) {
        Uncounted(scores, before, e);
        return;
      }
      var day := Day(scores, e.key.date);
      var user := At(scores, e.key);
      ghost var was := user;
      for i := 0 to |FIELDS|
        invariant forall f :: f in user <==> f in was || (f in FIELDS[..i] && Of(e.values, f) != 0.0)
        invariant forall f :: Of(user, f) == Of(was, f) + if f in FIELDS[..i] then Of(e.values, f) else 0.0
      {
        var f := FIELDS[i];
        if f in e.values && e.values[f] != 0.0 {
          user := user[f := Of(user, f) + e.values[f]];
        }
        assert FIELDS[..i + 1] == FIELDS[..i] + [f];
      }
      assert forall f: Field :: f in FIELDS[..|FIELDS|] by { EveryField(); }
      ghost var old' := scores;
      scores := scores[e.key.date := day[e.key.user := user]];
      Counted(old', scores, before, e, user);
    }
  }

  // A suggestion with a score of zero gives its user the day and the words.
  method SuggestionCounts(key: Key, words: real) returns (scores: Calculated)
    requires words > 0.0
    ensures scores == map[key.date := map[key.user := map[Suggested := words]]]
  {
    var e := Event(key, true, map[Score := 0.0, Suggested := words]);
    scores := Calculate([e]);
    SingleEvent(e, scores);
  }

  lemma SingleEvent(e: Event, scores: Calculated)
    requires e.known && e.values == map[Score := 0.0, Suggested := Of(e.values, Suggested)] && Of(e.values, Suggested) > 0.0
    requires IsCalculated(scores, [e])
    ensures scores == map[e.key.date := map[e.key.user := map[Suggested := Of(e.values, Suggested)]]]
  {
    var key, words := e.key, Of(e.values, Suggested);
    CountsIff(e);
    assert [e][..0] == [];
    assert multiset([e]) == multiset{e};
    forall k ensures HasKey(scores, k) <==> k == key {
      assert e in multiset([e]);
    }
    hide Scored, Counts;
    assert HasKey(scores, key);
    var values := At(scores, key);
    forall f ensures f in values <==> f == Suggested {
      match f case Score => case Suggested => case Reviewed => case Translated =>
    }
    assert Of(values, Suggested) == Total([e], key, Suggested) == words;
    assert values == map[Suggested := words];
    hide IsCalculated, Total, Gives;
    forall date | date in scores ensures date == key.date {
      var user :| user in scores[date];
      assert HasKey(scores, Key(date, user));
    }
    forall user | user in scores[key.date] ensures user == key.user {
      assert HasKey(scores, Key(key.date, user));
    }
    assert scores[key.date] == map[key.user := values];
  }

  lemma Uncounted(calculated: Calculated, before: seq<Event>, e: Event)
    requires IsCalculated(calculated, before) && !Counts(e)
    ensures IsCalculated(calculated, before + [e])
  {
    assert (before + [e])[..|before|] == before;
    forall key ensures Scored(multiset(before + [e]), key) <==> Scored(multiset(before), key) {
      OneMore(before, e, key, Score);
    }
    forall key, f ensures Gives(multiset(before + [e]), key, f) <==> Gives(multiset(before), key, f) {
      OneMore(before, e, key, f);
    }
  }

  lemma Counted(was: Calculated, now: Calculated, before: seq<Event>, e: Event, user: Values)
    requires IsCalculated(was, before) && Counts(e)
    requires now == was[e.key.date := Day(was, e.key.date)[e.key.user := user]]
    requires forall f :: f in user <==> f in At(was, e.key) || Of(e.values, f) != 0.0
    requires forall f :: Of(user, f) == Of(At(was, e.key), f) + Of(e.values, f)
    ensures IsCalculated(now, before + [e])
  {
    var after := before + [e];
    assert after[..|before|] == before;
    Replaced(was, now, e.key, user);
    hide HasKey, At, Scored, Gives, Counts, Of;
    forall key ensures HasKey(now, key) <==> Scored(multiset(after), key) {
      OneMore(before, e, key, Score);
    }
    forall key, f ensures f in At(now, key) <==> Gives(multiset(after), key, f) {
      OneMore(before, e, key, f);
    }
    forall key, f ensures Of(At(now, key), f) == Total(after, key, f) {
    }
  }

  lemma Replaced(was: Calculated, now: Calculated, key: Key, user: Values)
    requires now == was[key.date := Day(was, key.date)[key.user := user]]
    ensures forall k :: HasKey(now, k) <==> HasKey(was, k) || k == key
    ensures forall k :: At(now, k) == if k == key then user else At(was, k)
    ensures (forall date :: date in was ==> was[date] != map[]) ==> forall date :: date in now ==> now[date] != map[]
  {
    assert key.user in now[key.date];
  }

  lemma OneMore(before: seq<Event>, e: Event, key: Key, f: Field)
    ensures Scored(multiset(before + [e]), key) <==> Scored(multiset(before), key) || (Counts(e) && e.key == key)
    ensures Gives(multiset(before + [e]), key, f)
            <==> Gives(multiset(before), key, f) || (Counts(e) && e.key == key && Of(e.values, f) != 0.0)
  {
    hide Counts, Of;
    assert multiset(before + [e]) == multiset(before) + multiset{e};
    assert e in multiset(before + [e]);
  }

  lemma EveryField()
    ensures forall f: Field :: f in FIELDS && f in FIELDS[..|FIELDS|]
  {
    assert FIELDS[..|FIELDS|] == FIELDS;
    assert FIELDS[0] == Score && FIELDS[1] == Suggested && FIELDS[2] == Reviewed && FIELDS[3] == Translated;
    forall f: Field ensures f in FIELDS {
      match f case Score => case Suggested => case Reviewed => case Translated =>
    }
  }

  // StoreScoreUpdater.calculate
  method Calculate(events: seq<Event>) returns (scores: Calculated)
    ensures IsCalculated(scores, events)
  {
    var c := new ScoreCalculation();
    for i := 0 to |events|
      invariant IsCalculated(c.scores, events[..i])
    {
      c.ScoreEvent(events[i], events[..i]);
      assert events[..i + 1] == events[..i] + [events[i]];
    }
    assert events[..|events|] == events;
    scores := c.scores;
  }

  // The order of the events makes no difference.
  lemma OrderIndependent(a: seq<Event>, b: seq<Event>, x: Calculated, y: Calculated)
    requires multiset(a) == multiset(b) && IsCalculated(x, a) && IsCalculated(y, b)
    ensures x == y
  {
    forall key, f ensures Total(a, key, f) == Total(b, key, f) {
      TotalPermuted(a, b, key, f);
    }
    assert x.Keys <= y.Keys by { SameDates(a, b, x, y); }
    assert y.Keys <= x.Keys by { SameDates(b, a, y, x); }
    forall date | date in x ensures x[date] == y[date] {
      forall user ensures user in x[date] <==> user in y[date] {
        assert HasKey(x, Key(date, user)) <==> HasKey(y, Key(date, user));
      }
      forall user | user in x[date] ensures x[date][user] == y[date][user] {
        var key := Key(date, user);
        assert At(x, key) == x[date][user] && At(y, key) == y[date][user];
        forall f ensures f in At(x, key) <==> f in At(y, key) {}
        forall f | f in At(x, key) ensures At(x, key)[f] == At(y, key)[f] {
          assert Of(At(x, key), f) == Of(At(y, key), f);
        }
      }
    }
  }

  lemma SameDates(a: seq<Event>, b: seq<Event>, x: Calculated, y: Calculated)
    requires multiset(a) == multiset(b) && IsCalculated(x, a) && IsCalculated(y, b)
    ensures x.Keys <= y.Keys
  {
    forall date | date in x ensures date in y {
      var user :| user in x[date];
      assert HasKey(x, Key(date, user));
      assert HasKey(y, Key(date, user));
    }
  }

  lemma {:induction false} TotalPermuted(a: seq<Event>, b: seq<Event>, key: Key, f: Field)
    requires multiset(a) == multiset(b)
    ensures Total(a, key, f) == Total(b, key, f)
    decreases |a|
  {
    if a == [] {
      assert |b| == |multiset(b)| == |multiset(a)|;
    } else {
      var i := LastIn(a, b);
      TakeOut(b, i, key, f);
      hide Part;
      TotalPermuted(a[..|a| - 1], b[..i] + b[i + 1..], key, f);
    }
  }

  // Where the last event of a stands in b
  lemma LastIn(a: seq<Event>, b: seq<Event>) returns (i: nat)
    requires multiset(a) == multiset(b) && a != []
    ensures i < |b| && b[i] == a[|a| - 1]
    ensures multiset(a[..|a| - 1]) == multiset(b[..i] + b[i + 1..])
  {
    var e := a[|a| - 1];
    assert a == a[..|a| - 1] + [e];
    assert e in multiset(b);
    i :| 0 <= i < |b| && b[i] == e;
    assert b == b[..i] + [e] + b[i + 1..];
    assert multiset(b) == multiset(b[..i] + b[i + 1..]) + multiset{e};
    assert multiset(a) == multiset(a[..|a| - 1]) + multiset{e};
    assert multiset(a[..|a| - 1]) == multiset(a) - multiset{e};
    assert multiset(b[..i] + b[i + 1..]) == multiset(b) - multiset{e};
  }

  lemma TakeOut(b: seq<Event>, i: nat, key: Key, f: Field)
    requires i < |b|
    ensures Total(b, key, f) == Total(b[..i] + b[i + 1..], key, f) + Part(b[i], key, f)
  {
    hide Part;
    assert b == b[..i] + [b[i]] + b[i + 1..];
    TotalSum(b[..i], b[i + 1..], key, f);
    TotalSum(b[..i] + [b[i]], b[i + 1..], key, f);
    assert (b[..i] + [b[i]])[..i] == b[..i];
  }

  lemma {:induction false} TotalSum(a: seq<Event>, b: seq<Event>, key: Key, f: Field)
    ensures Total(a + b, key, f) == Total(a, key, f) + Total(b, key, f)
  {
    if b == [] {
      assert a + b == a;
    } else {
      assert (a + b)[..|a + b| - 1] == a + b[..|b| - 1];
      TotalSum(a, b[..|b| - 1], key, f);
    }
  }

  // ---- Bringing the stored rows in line ----

  // A row of a store or project (the context): every component has a value.
  datatype Row = Row(context: nat, key: Key, values: Values)

  // The rows by position; rows are never deleted here.
  type Table = seq<Row>

  type ScoreDict = map<Key, Values>

  predicate Whole(values: Values) {
    values.Keys == {Score, Suggested, Reviewed, Translated}
  }

  // (date, user, context) is unique.
  predicate Proper(table: Table) {
    && (forall i :: 0 <= i < |table| ==> Whole(table[i].values))
    && (forall i, j :: 0 <= i < j < |table| ==> !(table[i].context == table[j].context && table[i].key == table[j].key))
  }

  predicate Concerns(row: Row, context: nat, scores: ScoreDict) {
    row.context == context && row.key in scores
  }

  // A component stays when it agrees to two decimals.
  function NewValue(stored: real, calculated: real): real {
    if Round2(stored) == Round2(calculated) then stored else Round2(calculated)
  }

  function Adjusted(row: Row, context: nat, scores: ScoreDict): Row {
    if Concerns(row, context, scores) then
      row.(values := map f | f in row.values :: NewValue(row.values[f], Of(scores[row.key], f)))
    else row
  }

  predicate HasRow(table: Table, context: nat, key: Key) {
    exists i :: 0 <= i < |table| && table[i].context == context && table[i].key == key
  }

  // Old rows are adjusted; new ones hold what was calculated, unrounded, for
  // the keys that had no row.
  ghost predicate Reconciled(before: Table, after: Table, context: nat, scores: ScoreDict) {
    && |before| <= |after|
    && (forall i :: 0 <= i < |before| ==> after[i] == Adjusted(before[i], context, scores))
    && (forall i :: |before| <= i < |after| ==> IsNew(before, after[i], context, scores))
    && (forall key :: key in scores ==> HasRow(after, context, key))
  }

  predicate IsNew(before: Table, row: Row, context: nat, scores: ScoreDict) {
    && Concerns(row, context, scores)
    && row.values == Filled(scores[row.key])
    && !HasRow(before, context, row.key)
  }

  // What `update` is sent: the components to write, by row
  type Updates = map<nat, Values>

  function Corrected(row: Row, updates: Updates, i: nat): Row {
    if i in updates then row.(values := row.values + updates[i]) else row
  }

  class ScoreUpdater {
    var table: Table
    const context: nat

    constructor (context: nat)
      ensures table == [] && this.context == context
    {
      table, this.context := [], context;
    }

    // The components to write for one row: the inner loop of set_scores
    method Changes(old': Values, new': Values) returns (changes: Values)
      requires Whole(old')
      ensures changes.Keys <= old'.Keys
      ensures forall f :: f in old' ==> (f in changes <==> Round2(old'[f]) != Round2(Of(new', f)))
      ensures forall f :: f in changes ==> changes[f] == Round2(Of(new', f))
      ensures forall f :: f in old' ==> (old' + changes)[f] == NewValue(old'[f], Of(new', f))
    {
      hide Round2;
      changes := map[];
      for i := 0 to |FIELDS|
        invariant changes.Keys <= old'.Keys
        invariant forall f :: f in changes ==> f in FIELDS[..i] && changes[f] == Round2(Of(new', f))
        invariant forall f :: f in old' && f in FIELDS[..i] ==> (f in changes <==> Round2(old'[f]) != Round2(Of(new', f)))
        invariant forall f :: f in old' && f in FIELDS[..i] ==> (old' + changes)[f] == NewValue(old'[f], Of(new', f))
      {
        var f := FIELDS[i];
        assert f !in changes by { DistinctFields(i); }
        var newscore := Round2(Of(new', f));
        if Round2(old'[f]) != newscore {
          changes := changes[f := newscore];
        }
        assert FIELDS[..i + 1] == FIELDS[..i] + [f];
      }
      EveryField();
    }

    // find_existing_scores: the rows of the context on one of the days and for one of the users
    method FindExistingScores(scores: ScoreDict) returns (found: seq<nat>)
      ensures IsList(found, table, context)
      ensures forall i :: 0 <= i < |table| && Concerns(table[i], context, scores) ==> i in found
    {
      var users := set key | key in scores :: key.user;
      var dates := set key | key in scores :: key.date;
      found := [];
      for i := 0 to |table|
        invariant IsList(found, table, context) && forall k :: 0 <= k < |found| ==> found[k] < i
        invariant forall k :: 0 <= k < i && Concerns(table[k], context, scores) ==> k in found
      {
        if table[i].key.user in users && table[i].key.date in dates && table[i].context == context {
          found := found + [i];
        }
      }
    }

    // The loop over the existing rows: what to write, and the keys without a row
    method Compare(scores: ScoreDict, rows: seq<nat>) returns (updates: Updates, rest: ScoreDict)
      requires Proper(table) && IsList(rows, table, context)
      requires forall i :: 0 <= i < |table| && Concerns(table[i], context, scores) ==> i in rows
      ensures forall i :: 0 <= i < |table| ==> Corrected(table[i], updates, i) == Adjusted(table[i], context, scores)
      ensures rest.Keys <= scores.Keys && forall key :: key in rest ==> rest[key] == scores[key]
      ensures forall key :: key in scores ==> (key in rest <==> !HasRow(table, context, key))
    {
      hide *;
      updates, rest := map[], scores;
      ghost var done: set<nat> := {};
      NothingCompared(table, context, scores);
      for n := 0 to |rows|
        invariant Compared(table, context, scores, done, updates, rest)
        invariant forall i :: i in done <==> i in rows[..n]
      {
        RowFits(table, context, scores, rows, n);
        var row := table[rows[n]];
        ghost var before, left := updates, rest;
        NotMet(table, context, scores, done, rows[n], updates, rest);
        if row.key in rest {
          var changes := Changes(row.values, rest[row.key]);
          MakesRight(table, context, scores, rows[n], updates, changes);
          if changes != map[] {
            updates := updates[rows[n] := changes];
          }
          rest := rest - {row.key};
        } else {
          NothingToChange(table, context, scores, rows[n], updates);
        }
        OneCompared(table, context, scores, done, rows[n], before, left, updates);
        assert rows[..n + 1] == rows[..n] + [rows[n]];
        assert rest == left - {row.key};
        done := done + {rows[n]};
      }
      AllCompared(table, context, scores, rows, done, updates, rest);
    }

    method ApplyUpdates(updates: Updates)
      modifies this
      ensures |table| == old(|table|)
      ensures forall i :: 0 <= i < |table| ==> table[i] == Corrected(old(table)[i], updates, i)
    {
      var was := table;
      table := seq(|was|, i requires 0 <= i < |was| => Corrected(was[i], updates, i));
    }

    // set_scores
    method SetScores(scores: ScoreDict, existing: seq<nat>)
      requires Proper(table) && IsList(existing, table, context)
      requires existing != [] ==> forall i :: 0 <= i < |table| && Concerns(table[i], context, scores) ==> i in existing
      modifies this
      ensures Proper(table)
      ensures Reconciled(old(table), table, context, scores)
    {
      var rows := existing;
      if existing == [] {
        rows := FindExistingScores(scores);
      }
      ghost var was := table;
      var updates, rest := Compare(scores, rows);
      ApplyUpdates(updates);
      ghost var mid := table;
      AllAdjusted(was, mid, context, scores, rest);
      CreateScores(rest);
      AllReconciled(was, mid, table, context, scores, rest);
    }

    // create_scores
    method CreateScores(scores: ScoreDict)
      requires Proper(table) && forall key :: key in scores ==> !HasRow(table, context, key)
      modifies this
      ensures Proper(table)
      ensures Created(old(table), table, context, scores, scores.Keys)
    {
      ghost var was := table;
      var todo := scores.Keys;
      while todo != {}
        invariant todo <= scores.Keys && Proper(table)
        invariant Created(was, table, context, scores, scores.Keys - todo)
      {
        var key :| key in todo;
        ghost var before := table;
        table := table + [Row(context, key, Filled(scores[key]))];
        OneCreated(was, before, table, context, scores, scores.Keys - todo, key);
        todo := todo - {key};
      }
    }
  }

  // What the comparison has found out from some of the rows
  ghost predicate Compared(table: Table, context: nat, scores: ScoreDict, done: set<nat>, updates: Updates, rest: ScoreDict) {
    && rest.Keys <= scores.Keys && (forall key :: key in rest ==> rest[key] == scores[key])
    && (forall key :: key in scores ==> (key in rest <==> !Met(table, done, key)))
    && (forall i :: i in done ==> Right(table, context, scores, updates, i))
    && updates.Keys <= done
  }

  predicate Right(table: Table, context: nat, scores: ScoreDict, updates: Updates, i: nat) {
    i < |table| && table[i].context == context && Corrected(table[i], updates, i) == Adjusted(table[i], context, scores)
  }

  predicate Met(table: Table, done: set<nat>, key: Key) {
    exists i :: i in done && i < |table| && table[i].key == key
  }

  lemma RowFits(table: Table, context: nat, scores: ScoreDict, rows: seq<nat>, n: nat)
    requires Proper(table) && IsList(rows, table, context) && n < |rows|
    ensures rows[n] < |table| && Whole(table[rows[n]].values) && table[rows[n]].context == context
    ensures Concerns(table[rows[n]], context, scores) <==> table[rows[n]].key in scores
    ensures rows[n] !in rows[..n]
  {}

  lemma NothingCompared(table: Table, context: nat, scores: ScoreDict)
    ensures Compared(table, context, scores, {}, map[], scores)
  {}

  lemma OneCompared(
    table: Table, context: nat, scores: ScoreDict, done: set<nat>, i: nat, updates: Updates, rest: ScoreDict, updates': Updates)
    requires Compared(table, context, scores, done, updates, rest)
    requires i < |table| && i !in done && Right(table, context, scores, updates', i)
    requires updates'.Keys <= updates.Keys + {i} && forall j :: j in updates ==> j in updates' && updates'[j] == updates[j]
    ensures Compared(table, context, scores, done + {i}, updates', rest - {table[i].key})
  {
    MetMore(table, done, i);
    hide Met, Adjusted;
    forall j | j in done ensures Right(table, context, scores, updates', j) {
      assert Right(table, context, scores, updates, j);
    }
    hide Right;
  }

  lemma NotMet(table: Table, context: nat, scores: ScoreDict, done: set<nat>, i: nat, updates: Updates, rest: ScoreDict)
    requires Proper(table) && i < |table| && i !in done && table[i].context == context
    requires Compared(table, context, scores, done, updates, rest)
    ensures table[i].key in scores <==> table[i].key in rest
    ensures table[i].key in rest ==> rest[table[i].key] == scores[table[i].key]
    ensures i !in updates
  {
    hide Adjusted, Corrected;
    assert forall j :: j in done ==> Right(table, context, scores, updates, j);
    assert !Met(table, done, table[i].key);
  }

  lemma MetMore(table: Table, done: set<nat>, i: nat)
    requires i < |table|
    ensures forall k :: Met(table, done + {i}, k) <==> Met(table, done, k) || k == table[i].key
  {}

  lemma AdjustedBy(row: Row, context: nat, scores: ScoreDict, changes: Values)
    requires Concerns(row, context, scores) && changes.Keys <= row.values.Keys
    requires forall f :: f in row.values ==> (row.values + changes)[f] == NewValue(row.values[f], Of(scores[row.key], f))
    ensures Adjusted(row, context, scores) == row.(values := row.values + changes)
    ensures changes == map[] ==> Adjusted(row, context, scores) == row
  {
    assert row.values + changes == Adjusted(row, context, scores).values;
    assert changes == map[] ==> row.values + changes == row.values;
  }

  lemma MakesRight(table: Table, context: nat, scores: ScoreDict, i: nat, updates: Updates, changes: Values)
    requires i < |table| && i !in updates && Concerns(table[i], context, scores) && changes.Keys <= table[i].values.Keys
    requires forall f :: f in table[i].values ==>
      (table[i].values + changes)[f] == NewValue(table[i].values[f], Of(scores[table[i].key], f))
    ensures Right(table, context, scores, if changes != map[] then updates[i := changes] else updates, i)
  {
    AdjustedBy(table[i], context, scores, changes);
  }

  lemma NothingToChange(table: Table, context: nat, scores: ScoreDict, i: nat, updates: Updates)
    requires i < |table| && i !in updates && table[i].context == context && table[i].key !in scores
    ensures Right(table, context, scores, updates, i)
  {}

  lemma AllCompared(
    table: Table, context: nat, scores: ScoreDict, rows: seq<nat>, done: set<nat>, updates: Updates, rest: ScoreDict)
    requires Compared(table, context, scores, done, updates, rest)
    requires forall i :: i in done <==> i in rows[..|rows|]
    requires forall i :: 0 <= i < |table| && Concerns(table[i], context, scores) ==> i in rows
    ensures forall i :: 0 <= i < |table| ==> Corrected(table[i], updates, i) == Adjusted(table[i], context, scores)
    ensures rest.Keys <= scores.Keys && forall key :: key in rest ==> rest[key] == scores[key]
    ensures forall key :: key in scores ==> (key in rest <==> !HasRow(table, context, key))
  {
    hide NewValue, Of;
    assert rows[..|rows|] == rows;
    forall i | 0 <= i < |table| ensures Corrected(table[i], updates, i) == Adjusted(table[i], context, scores) {
      assert i in done ==> Right(table, context, scores, updates, i);
    }
    forall key | key in scores ensures Met(table, done, key) <==> HasRow(table, context, key) {
      if i :| 0 <= i < |table| && table[i].context == context && table[i].key == key {
        assert Concerns(table[i], context, scores);
      }
      if i :| i in done && i < |table| && table[i].key == key {
        assert Right(table, context, scores, updates, i);
      }
    }
  }

  ghost predicate Created(before: Table, after: Table, context: nat, scores: ScoreDict, done: set<Key>) {
    && before <= after
    && (forall i :: |before| <= i < |after| ==> after[i].key in done && IsNew(before, after[i], context, scores))
    && (forall key :: key in done ==> HasRow(after, context, key))
  }

  predicate AllBelow(l: seq<nat>, bound: nat) {
    forall i :: 0 <= i < |l| ==> l[i] < bound
  }

  // Rows of the context, each once
  predicate IsList(l: seq<nat>, table: Table, context: nat) {
    && AllBelow(l, |table|)
    && (forall i :: 0 <= i < |l| ==> table[l[i]].context == context)
    && (forall i, j :: 0 <= i < j < |l| ==> l[i] != l[j])
  }

  lemma DistinctFields(i: nat)
    requires i < |FIELDS|
    ensures FIELDS[i] !in FIELDS[..i]
  {
    assert FIELDS[0] == Score && FIELDS[1] == Suggested && FIELDS[2] == Reviewed && FIELDS[3] == Translated;
  }

  lemma OneCreated(was: Table, mid: Table, now: Table, context: nat, scores: ScoreDict, done: set<Key>, key: Key)
    requires key in scores && key !in done && !HasRow(was, context, key)
    requires Proper(mid) && Created(was, mid, context, scores, done)
    requires now == mid + [Row(context, key, Filled(scores[key]))]
    ensures Proper(now) && Created(was, now, context, scores, done + {key})
  {
    assert Whole(Filled(scores[key]));
    hide Filled;
    forall i | 0 <= i < |mid| ensures !(mid[i].context == context && mid[i].key == key) {
      if i < |was| {
        assert was[i] == mid[i];
      }
    }
    assert now[|mid|].key == key;
    forall k | k in done ensures HasRow(now, context, k) {
      var i :| 0 <= i < |mid| && mid[i].context == context && mid[i].key == k;
      assert now[i] == mid[i];
    }
  }

  lemma AllAdjusted(was: Table, mid: Table, context: nat, scores: ScoreDict, rest: ScoreDict)
    requires Proper(was) && |mid| == |was|
    requires forall i :: 0 <= i < |was| ==> mid[i] == Adjusted(was[i], context, scores)
    ensures Proper(mid) && forall key :: HasRow(mid, context, key) <==> HasRow(was, context, key)
  {
    hide NewValue, Of;
    forall key ensures HasRow(mid, context, key) <==> HasRow(was, context, key) {
      if i :| 0 <= i < |was| && was[i].context == context && was[i].key == key {
        assert mid[i].key == key;
      }
    }
  }

  lemma AllReconciled(was: Table, mid: Table, now: Table, context: nat, scores: ScoreDict, rest: ScoreDict)
    requires |mid| == |was|
    requires forall i :: 0 <= i < |was| ==> mid[i] == Adjusted(was[i], context, scores)
    requires forall key :: HasRow(mid, context, key) <==> HasRow(was, context, key)
    requires rest.Keys <= scores.Keys && forall key :: key in rest ==> rest[key] == scores[key]
    requires forall key :: key in scores ==> (key in rest <==> !HasRow(was, context, key))
    requires Created(mid, now, context, rest, rest.Keys)
    ensures Reconciled(was, now, context, scores)
  {
    hide Adjusted, Filled;
    forall i | |was| <= i < |now| ensures IsNew(was, now[i], context, scores) {
      assert IsNew(mid, now[i], context, rest);
    }
    forall key | key in scores ensures HasRow(now, context, key) {
      if key !in rest {
        var i :| 0 <= i < |mid| && mid[i].context == context && mid[i].key == key;
        assert now[i] == mid[i];
      }
    }
  }

  // ---- How far stored rows are from what was calculated ----

  predicate Near(x: real, y: real, bound: real) {
    -bound <= x - y <= bound
  }

  lemma NewValueIsNear(stored: real, calculated: real)
    ensures Round2(NewValue(stored, calculated)) == Round2(calculated)
    ensures Near(NewValue(stored, calculated), calculated, 0.01)
  {
    RoundIsNear(stored);
    RoundIsNear(calculated);
    RoundTwice(calculated);
    hide Round2;
  }

  // Every calculated day and user has exactly one row, and it agrees with the
  // calculation to two decimals; every other row is as it was.
  lemma RowsFollow(before: Table, after: Table, context: nat, scores: ScoreDict, key: Key)
    returns (i: nat)
    requires Proper(after) && Reconciled(before, after, context, scores) && key in scores
    ensures i < |after| && after[i].context == context && after[i].key == key
    ensures forall j :: 0 <= j < |after| && after[j].context == context && after[j].key == key ==> j == i
    ensures forall f :: Follows(Of(after[i].values, f), Of(scores[key], f))
  {
    hide Adjusted, Filled, Follows, Of;
    assert HasRow(after, context, key);
    i :| 0 <= i < |after| && after[i].context == context && after[i].key == key;
    if i < |before| {
      assert after[i] == Adjusted(before[i], context, scores);
      OldFollows(before[i], context, scores);
    } else {
      assert IsNew(before, after[i], context, scores);
      NewFollows(scores[key]);
    }
  }

  lemma OldFollows(row: Row, context: nat, scores: ScoreDict)
    requires Whole(Adjusted(row, context, scores).values)
    ensures Adjusted(row, context, scores).key == row.key && Adjusted(row, context, scores).context == row.context
    ensures Concerns(row, context, scores) ==>
      forall f :: Follows(Of(Adjusted(row, context, scores).values, f), Of(scores[row.key], f))
  {
    hide Round2, NewValue;
    if Concerns(row, context, scores) {
      forall f ensures Follows(Of(Adjusted(row, context, scores).values, f), Of(scores[row.key], f)) {
        assert f in row.values by {
          match f case Score => case Suggested => case Reviewed => case Translated =>
        }
        NewValueIsNear(row.values[f], Of(scores[row.key], f));
      }
    }
  }

  lemma NewFollows(values: Values)
    ensures forall f :: Follows(Of(Filled(values), f), Of(values, f))
  {
    hide Round2;
    forall f ensures Of(Filled(values), f) == Of(values, f) {
      match f case Score => case Suggested => case Reviewed => case Translated =>
    }
  }

  lemma Settled(row: Row, context: nat, scores: ScoreDict)
    requires Whole(row.values)
    requires Concerns(row, context, scores) ==> forall f :: Follows(Of(row.values, f), Of(scores[row.key], f))
    ensures Adjusted(row, context, scores) == row
  {
    hide Round2;
    if Concerns(row, context, scores) {
      forall f | f in row.values ensures NewValue(row.values[f], Of(scores[row.key], f)) == row.values[f] {
        assert Follows(Of(row.values, f), Of(scores[row.key], f));
      }
      assert Adjusted(row, context, scores).values == row.values;
    }
  }

  predicate Follows(stored: real, calculated: real) {
    Round2(stored) == Round2(calculated) && Near(stored, calculated, 0.01)
  }

  // The same scores a second time: nothing to write and nothing to create
  lemma SecondRun(first: Table, second: Table, third: Table, context: nat, scores: ScoreDict)
    requires Proper(second) && Reconciled(first, second, context, scores)
    requires Reconciled(second, third, context, scores)
    ensures third == second
  {
    hide Adjusted, Filled, Follows, Of;
    forall i | 0 <= i < |second| ensures Adjusted(second[i], context, scores) == second[i] {
      if Concerns(second[i], context, scores) {
        var n := RowsFollow(first, second, context, scores, second[i].key);
        assert n == i;
      }
      Settled(second[i], context, scores);
    }
    assert forall key :: key in scores ==> HasRow(second, context, key);
    if |third| > |second| {
      NewAt(second, third, context, scores, |second|);
      assert false;
    }
  }

  lemma NewAt(before: Table, after: Table, context: nat, scores: ScoreDict, i: nat)
    requires Reconciled(before, after, context, scores) && |before| <= i < |after|
    ensures after[i].key in scores && !HasRow(before, context, after[i].key)
  {
    assert IsNew(before, after[i], context, scores);
  }

  // ---- Stores and projects ----

  // iterate_scores
  function Flattened(calculated: Calculated): ScoreDict {
    map date, user | date in calculated && user in calculated[date] :: Key(date, user) := calculated[date][user]
  }

  function SumRows(rows: Table, stores: set<nat>, key: Key, f: Field): real {
    if rows == [] then 0.0
    else
      var row := rows[|rows| - 1];
      SumRows(rows[..|rows| - 1], stores, key, f)
      + if row.context in stores && row.key == key then Of(row.values, f) else 0.0
  }

  // TPScoreUpdater.calculate: the stores' rows grouped by day and user
  function Grouped(rows: Table, stores: set<nat>): ScoreDict {
    var keys := set i | 0 <= i < |rows| && rows[i].context in stores :: rows[i].key;
    map key | key in keys :: map f: Field | f in {Score, Suggested, Reviewed, Translated} :: SumRows(rows, stores, key, f)
  }

  // Whoever scores in a store has a row in its project.
  lemma ScoredIsGrouped(
    before: Table, rows: Table, store: nat, calculated: Calculated, events: seq<Event>, stores: set<nat>, key: Key)
    requires Reconciled(before, rows, store, Flattened(calculated)) && IsCalculated(calculated, events)
    requires Scored(multiset(events), key) && store in stores
    ensures key in Grouped(rows, stores)
  {
    assert HasKey(calculated, key);
    FlattenedAt(calculated, key);
    assert HasRow(rows, store, key);
    hide Reconciled, IsCalculated, Flattened, SumRows;
  }

  lemma {:induction false} SumDisjoint(rows: Table, a: set<nat>, b: set<nat>, key: Key, f: Field)
    requires a !! b
    ensures SumRows(rows, a + b, key, f) == SumRows(rows, a, key, f) + SumRows(rows, b, key, f)
  {
    if rows != [] {
      SumDisjoint(rows[..|rows| - 1], a, b, key, f);
    }
  }

  // A store has at most one row for a key, and its sum is what that row holds.
  lemma {:induction false} SumOfStore(rows: Table, store: nat, key: Key, f: Field)
    requires Proper(rows)
    ensures forall i :: 0 <= i < |rows| && rows[i].context == store && rows[i].key == key ==>
      SumRows(rows, {store}, key, f) == Of(rows[i].values, f)
    ensures !HasRow(rows, store, key) ==> SumRows(rows, {store}, key, f) == 0.0
  {
    if rows != [] {
      var rest := rows[..|rows| - 1];
      SumOfStore(rest, store, key, f);
      assert forall i :: 0 <= i < |rest| ==> rest[i] == rows[i];
    }
  }

  // What a store's rows hold is within a hundredth of what its events give.
  ghost predicate InStep(rows: Table, store: nat, events: seq<Event>) {
    forall key, f :: Near(SumRows(rows, {store}, key, f), Total(events, key, f), 0.01)
  }

  predicate HoldsNothing(row: Row) {
    forall f :: Near(Of(row.values, f), 0.0, 0.01)
  }

  // Rows of days and users without events are left alone, so a store is in step
  // exactly when there were none that hold something.
  lemma StoreInStep(before: Table, rows: Table, store: nat, calculated: Calculated, events: seq<Event>)
    requires Proper(rows) && Reconciled(before, rows, store, Flattened(calculated))
    requires IsCalculated(calculated, events)
    ensures InStep(rows, store, events)
            <==> forall i :: 0 <= i < |before| && before[i].context == store && !HasKey(calculated, before[i].key) ==>
              HoldsNothing(before[i])
  {
    hide Reconciled, Proper, IsCalculated, Near, Flattened;
    forall i | 0 <= i < |before| && before[i].context == store && !HasKey(calculated, before[i].key)
      ensures InStep(rows, store, events) ==> HoldsNothing(before[i])
    {
      forall f ensures Near(SumRows(rows, {store}, before[i].key, f), Total(events, before[i].key, f), 0.01)
                       <==> Near(Of(before[i].values, f), 0.0, 0.01) {
        StaleRow(before, rows, store, calculated, events, i, f);
      }
    }
    if forall i :: 0 <= i < |before| && before[i].context == store && !HasKey(calculated, before[i].key) ==> HoldsNothing(before[i]) {
      forall key, f ensures Near(SumRows(rows, {store}, key, f), Total(events, key, f), 0.01) {
        KeyInStep(before, rows, store, calculated, events, key, f);
      }
    }
  }

  // A row without events is as it was, and its events give nothing.
  lemma StaleRow(
    before: Table, rows: Table, store: nat, calculated: Calculated, events: seq<Event>, i: nat, f: Field)
    requires Proper(rows) && Reconciled(before, rows, store, Flattened(calculated))
    requires IsCalculated(calculated, events)
    requires i < |before| && before[i].context == store && !HasKey(calculated, before[i].key)
    ensures SumRows(rows, {store}, before[i].key, f) == Of(before[i].values, f)
    ensures Total(events, before[i].key, f) == 0.0
  {
    var key := before[i].key;
    assert i < |rows| && rows[i] == Adjusted(before[i], store, Flattened(calculated));
    assert key !in Flattened(calculated) && rows[i] == before[i];
    SumOfStore(rows, store, key, f);
    assert Of(At(calculated, key), f) == Total(events, key, f);
    hide Reconciled, Proper;
  }

  lemma KeyInStep(
    before: Table, rows: Table, store: nat, calculated: Calculated, events: seq<Event>, key: Key, f: Field)
    requires Proper(rows) && Reconciled(before, rows, store, Flattened(calculated))
    requires IsCalculated(calculated, events)
    requires forall i :: 0 <= i < |before| && before[i].context == store && before[i].key == key && !HasKey(calculated, key) ==>
      HoldsNothing(before[i])
    ensures Near(SumRows(rows, {store}, key, f), Total(events, key, f), 0.01)
  {
    SumOfStore(rows, store, key, f);
    var scores := Flattened(calculated);
    assert HasKey(calculated, key) <==> key in scores;
    assert Of(At(calculated, key), f) == Total(events, key, f);
    hide IsCalculated, Flattened;
    if HasKey(calculated, key) {
      assert scores[key] == At(calculated, key) by { FlattenedAt(calculated, key); }
      var i := RowsFollow(before, rows, store, scores, key);
      assert Follows(Of(rows[i].values, f), Of(scores[key], f));
    } else {
      NotCalculated(before, rows, store, scores, key);
      if i :| 0 <= i < |rows| && rows[i].context == store && rows[i].key == key {
        assert HoldsNothing(before[i]);
      }
    }
  }

  lemma FlattenedAt(calculated: Calculated, key: Key)
    requires HasKey(calculated, key)
    ensures key in Flattened(calculated) && Flattened(calculated)[key] == At(calculated, key)
  {}

  lemma NotCalculated(before: Table, rows: Table, store: nat, scores: ScoreDict, key: Key)
    requires Reconciled(before, rows, store, scores) && key !in scores
    ensures forall i :: 0 <= i < |rows| && rows[i].context == store && rows[i].key == key ==>
      i < |before| && before[i] == rows[i]
  {}

  function AsSet(stores: seq<nat>): set<nat> {
    set s | s in stores
  }

  // What the events of several stores give together
  function Given(stores: seq<nat>, events: map<nat, seq<Event>>, key: Key, f: Field): real {
    if stores == [] then 0.0
    else Given(stores[1..], events, key, f) + if stores[0] in events then Total(events[stores[0]], key, f) else 0.0
  }

  lemma {:induction false} SumInStep(rows: Table, stores: seq<nat>, events: map<nat, seq<Event>>, key: Key, f: Field)
    requires Proper(rows) && Distinct(stores)
    requires forall s :: s in stores ==> s in events && InStep(rows, s, events[s])
    ensures Near(SumRows(rows, AsSet(stores), key, f), Given(stores, events, key, f), 0.01 * |stores| as real)
  {
    var all := AsSet(stores);
    if stores == [] {
      SumDisjoint(rows, {}, {}, key, f);
      assert all == {} && {} + all == {};
    } else {
      var s, rest := stores[0], stores[1..];
      SumInStep(rows, rest, events, key, f);
      var others := AsSet(rest);
      assert all == {s} + others;
      SumDisjoint(rows, {s}, others, key, f);
      assert InStep(rows, s, events[s]);
    }
  }

  // A project's row for a day and user is within a hundredth, and one more for
  // each store, of what all the events in the project give.
  lemma ProjectInStep(
    rows: Table, stores: seq<nat>, events: map<nat, seq<Event>>,
    before: Table, after: Table, project: nat, key: Key, f: Field) returns (i: nat)
    requires Proper(rows) && Distinct(stores)
    requires forall s :: s in stores ==> s in events && InStep(rows, s, events[s])
    requires Proper(after) && Reconciled(before, after, project, Grouped(rows, AsSet(stores)))
    requires key in Grouped(rows, AsSet(stores))
    ensures i < |after| && after[i].context == project && after[i].key == key
    ensures Near(Of(after[i].values, f), Given(stores, events, key, f), 0.01 * (|stores| + 1) as real)
  {
    var all := AsSet(stores);
    i := RowsFollow(before, after, project, Grouped(rows, all), key);
    SumInStep(rows, stores, events, key, f);
    assert Follows(Of(after[i].values, f), Of(Grouped(rows, all)[key], f));
    assert Of(Grouped(rows, all)[key], f) == SumRows(rows, all, key, f);
  }
}
