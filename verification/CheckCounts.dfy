// The data of a store or project: columns that are set where they differ, and
// counts of failing checks brought in line by difference.

module CheckCounts {
  import opened Options

  type Pk = nat

  // category and name
  datatype Kind = Kind(category: nat, name: string)

  datatype CheckData = CheckData(kind: Kind, count: nat)

  // (store, category, name) is unique.
  predicate OnePerKind(rows: map<Pk, CheckData>) {
    forall a, b :: a in rows && b in rows && a != b ==> rows[a].kind != rows[b].kind
  }

  function Kinds(rows: map<Pk, CheckData>): set<Kind> {
    set pk | pk in rows :: rows[pk].kind
  }

  // The stored counts are exactly the calculated ones.
  predicate Holds(rows: map<Pk, CheckData>, calculated: map<Kind, nat>) {
    && OnePerKind(rows)
    && Kinds(rows) == calculated.Keys
    && forall pk :: pk in rows ==> rows[pk].kind in calculated && rows[pk].count == calculated[rows[pk].kind]
  }

  predicate Wrong(rows: map<Pk, CheckData>, calculated: map<Kind, nat>, pk: Pk) {
    pk in rows && rows[pk].kind in calculated && rows[pk].count != calculated[rows[pk].kind]
  }

  // The corrections for the kinds in `done`: each wrong count, and no right one.
  ghost predicate Corrects(rows: map<Pk, CheckData>, calculated: map<Kind, nat>, done: set<Kind>, updates: map<Pk, nat>) {
    && (forall pk :: pk in updates <==> Wrong(rows, calculated, pk) && rows[pk].kind in done)
    && (forall pk :: pk in updates ==> Wrong(rows, calculated, pk) && updates[pk] == calculated[rows[pk].kind])
  }

  ghost predicate Names(rows: map<Pk, CheckData>, checks: map<Kind, (Pk, nat)>) {
    forall k :: k in checks ==> checks[k].0 in rows && rows[checks[k].0] == CheckData(k, checks[k].1)
  }

  lemma NothingCorrected(rows: map<Pk, CheckData>, calculated: map<Kind, nat>)
    ensures Corrects(rows, calculated, {}, map[])
  {}

  lemma NamesLess(rows: map<Pk, CheckData>, checks: map<Kind, (Pk, nat)>, k: Kind)
    requires Names(rows, checks)
    ensures Names(rows, checks - {k})
  {}

  lemma NothingToCorrect(rows: map<Pk, CheckData>, calculated: map<Kind, nat>, done: set<Kind>, updates: map<Pk, nat>, k: Kind)
    requires Corrects(rows, calculated, done, updates) && k !in Kinds(rows)
    ensures Corrects(rows, calculated, done + {k}, updates)
  {}

  lemma OneCorrected(
    rows: map<Pk, CheckData>, calculated: map<Kind, nat>, done: set<Kind>,
    updates: map<Pk, nat>, updates': map<Pk, nat>, k: Kind, pk: Pk)
    requires OnePerKind(rows) && Corrects(rows, calculated, done, updates)
    requires k in calculated && k !in done && pk in rows && rows[pk].kind == k
    requires updates' == if rows[pk].count != calculated[k] then updates[pk := calculated[k]] else updates
    ensures Corrects(rows, calculated, done + {k}, updates')
  {}

  // Rows for the kinds in `done`, besides the rows there were
  ghost predicate Added(was: map<Pk, CheckData>, now: map<Pk, CheckData>, next: Pk, added: map<Kind, nat>, done: set<Kind>) {
    && (forall pk :: pk in was ==> pk in now && now[pk] == was[pk])
    && (forall pk :: pk in now && pk !in was ==>
        pk >= next && now[pk].kind in done && now[pk].kind in added && now[pk].count == added[now[pk].kind])
    && Kinds(now) == Kinds(was) + done
  }

  lemma NoneAdded(was: map<Pk, CheckData>, next: Pk, added: map<Kind, nat>)
    ensures Added(was, was, next, added, {})
  {}

  lemma OneAdded(
    was: map<Pk, CheckData>, now: map<Pk, CheckData>, next: Pk, pk: Pk, added: map<Kind, nat>, done: set<Kind>, k: Kind)
    requires Added(was, now, next, added, done) && OnePerKind(now)
    requires k in added && k !in done && k !in Kinds(was)
    requires next <= pk && (forall q :: q in was ==> q < pk) && (forall q :: q in now ==> q < pk)
    ensures Added(was, now[pk := CheckData(k, added[k])], next, added, done + {k})
    ensures OnePerKind(now[pk := CheckData(k, added[k])])
  {
    assert k !in Kinds(now);
    OneMoreKind(now, pk, CheckData(k, added[k]));
    hide Kinds, OnePerKind;
  }

  lemma OneMoreKind(rows: map<Pk, CheckData>, pk: Pk, row: CheckData)
    requires OnePerKind(rows) && pk !in rows && row.kind !in Kinds(rows)
    ensures Kinds(rows[pk := row]) == Kinds(rows) + {row.kind}
    ensures OnePerKind(rows[pk := row])
  {
    var more := rows[pk := row];
    assert more[pk].kind == row.kind;
    forall q | q in rows ensures more[q] == rows[q] && rows[q].kind in Kinds(rows) && rows[q].kind in Kinds(more) {
      assert more[q].kind == rows[q].kind;
    }
  }

  // What deleting and correcting leave of the rows there were
  ghost predicate OldHold(was: map<Pk, CheckData>, now: map<Pk, CheckData>, calculated: map<Kind, nat>) {
    && (forall pk :: pk in now ==> pk in was && now[pk].kind == was[pk].kind)
    && (forall pk :: pk in was ==> (pk in now <==> was[pk].kind in calculated))
    && (forall pk :: pk in now ==> now[pk].kind in calculated && now[pk].count == calculated[now[pk].kind])
  }

  lemma OldRows(was: map<Pk, CheckData>, now: map<Pk, CheckData>, calculated: map<Kind, nat>, updates: map<Pk, nat>)
    requires Corrects(was, calculated, calculated.Keys, updates)
    requires now.Keys == set pk | pk in was && was[pk].kind !in Kinds(was) - calculated.Keys
    requires forall pk :: pk in now ==> now[pk] == if pk in updates then CheckData(was[pk].kind, updates[pk]) else was[pk]
    ensures OldHold(was, now, calculated)
  {
    forall pk | pk in was ensures was[pk].kind in Kinds(was) && (pk in updates <==> Wrong(was, calculated, pk)) {
    }
  }

  lemma AllHold(
    was: map<Pk, CheckData>, corrected: map<Pk, CheckData>, now: map<Pk, CheckData>, next: Pk,
    calculated: map<Kind, nat>, toAdd: map<Kind, nat>)
    requires OldHold(was, corrected, calculated) && OnePerKind(now)
    requires toAdd == calculated - Kinds(was) && Kinds(corrected) == Kinds(was) * calculated.Keys
    requires Added(corrected, now, next, toAdd, toAdd.Keys) && forall pk :: pk in was ==> pk < next
    ensures Holds(now, calculated)
    ensures forall pk :: pk in was ==>
      (pk in now <==> was[pk].kind in calculated) && (pk in now ==> now[pk].kind == was[pk].kind)
    ensures forall pk :: pk in now && pk !in was ==> pk >= next && now[pk].kind !in Kinds(was)
  {
    hide Kinds, OnePerKind;
    assert Kinds(now) == Kinds(corrected) + toAdd.Keys == calculated.Keys;
  }

  // ---- The columns of the data ----

  datatype Column =
    | CriticalChecks | LastCreatedUnit | MaxUnitMtime | MaxUnitRevision | LastSubmission
    | TranslatedWords | TotalWords | FuzzyWords | PendingSuggestions

  // null is None
  type Columns = map<Column, Option<int>>

  // Some calculated value is not the stored one.
  predicate Differ(stored: Columns, calculated: Columns) {
    exists k :: k in stored && k in calculated && stored[k] != calculated[k]
  }

  // A change of the counts of critical checks shows in their column.
  lemma CriticalChangesDiffer(stored: Columns, calculated: Columns, before: map<Kind, nat>, after: map<Kind, nat>, critical: nat)
    requires CriticalChecks in stored && stored[CriticalChecks] == Some(CountIn(before, critical))
    requires CriticalChecks in calculated && calculated[CriticalChecks] == Some(CountIn(after, critical))
    requires CountIn(before, critical) != CountIn(after, critical)
    ensures Differ(stored, calculated)
  {}

  // get_critical_checks: the sum of the counts of one category
  ghost function CountIn(counts: map<Kind, nat>, category: nat): nat {
    if counts == map[] then 0
    else
      var k :| k in counts;
      CountIn(counts - {k}, category) + if k.category == category then counts[k] else 0
  }

  // A check of the category adds its count, and any other none.
  lemma {:induction false} CountMore(counts: map<Kind, nat>, k: Kind, n: nat, category: nat)
    requires k !in counts
    ensures CountIn(counts[k := n], category) == CountIn(counts, category) + if k.category == category then n else 0
    decreases |counts|
  {
    var more := counts[k := n];
    var j :| j in more && CountIn(more, category) == CountIn(more - {j}, category) + if j.category == category then more[j] else 0;
    if j == k {
      assert more - {k} == counts;
    } else {
      assert more - {j} == (counts - {j})[k := n];
      assert (counts - {j})[j := counts[j]] == counts;
      CountMore(counts - {j}, k, n, category);
      CountMore(counts - {j}, j, counts[j], category);
    }
  }

  // One more check of another category changes no column.
  lemma OtherChecksGoUnseen(k: Kind, n: nat, critical: nat)
    requires k.category != critical
    ensures CountIn(map[k := n], critical) == CountIn(map[k := n + 1], critical) == CountIn(map[], critical)
    ensures forall rows: map<Pk, CheckData> :: Holds(rows, map[k := n]) ==> !Holds(rows, map[k := n + 1])
  {
    assert map[k := n] - {k} == map[] && map[k := n + 1] - {k} == map[];
    forall rows: map<Pk, CheckData> | Holds(rows, map[k := n]) ensures !Holds(rows, map[k := n + 1]) {
      assert k in Kinds(rows);
      var pk :| pk in rows && rows[pk].kind == k;
      assert rows[pk].count == n;
    }
  }

  class DataUpdater {
    var checkData: map<Pk, CheckData>
    var nextPk: Pk
    var columns: Columns
    var saved: bool

    ghost predicate Valid()
      reads this
    {
      OnePerKind(checkData) && forall pk :: pk in checkData ==> pk < nextPk
    }

    // Data that is not in the database yet, with its default values
    constructor (defaults: Columns)
      ensures Valid() && checkData == map[] && columns == defaults && !saved
    {
      checkData, nextPk, columns, saved := map[], 0, defaults, false;
    }

    // update: columns, counts, and saving the data if it is new or a column was
    // set. Only that is announced: revisions and sums are renewed when data is
    // saved. Counts that change do so unannounced exactly when the data was there
    // and no column differs.
    method Update(storeData: Columns, checks: Option<map<Kind, nat>>) returns (announced: bool)
      requires Valid()
      modifies this
      ensures Valid() && saved
      ensures columns == map k | k in old(columns) :: if k in storeData then storeData[k] else old(columns)[k]
      ensures checks.Some? ==> Holds(checkData, checks.value)
      ensures checks.None? ==> checkData == old(checkData)
      ensures announced <==> !old(saved) || Differ(old(columns), storeData)
    {
      hide Holds;
      var changed := SetAll(storeData);
      if checks.Some? {
        SetCheckData(checks.value);
      }
      announced := !saved || changed != {};
      saved := true;
    }

    // set_data for every calculated value: the columns that were set
    method SetAll(storeData: Columns) returns (changed: set<Column>)
      modifies this`columns
      ensures columns == map k | k in old(columns) :: if k in storeData then storeData[k] else old(columns)[k]
      ensures changed == set k | k in storeData && k in old(columns) && old(columns)[k] != storeData[k]
      ensures changed != {} <==> Differ(old(columns), storeData)
    {
      ghost var was := columns;
      changed := {};
      var todo := storeData.Keys;
      while todo != {}
        invariant todo <= storeData.Keys
        invariant columns == map k | k in was :: if k in storeData && k !in todo then storeData[k] else was[k]
        invariant changed == set k | k in storeData && k !in todo && k in was && was[k] != storeData[k]
      {
        var k :| k in todo;
        if k in columns && columns[k] != storeData[k] {
          columns, changed := columns[k := storeData[k]], changed + {k};
        }
        todo := todo - {k};
      }
      if k :| k in was && k in storeData && was[k] != storeData[k] {
        assert k in changed;
      }
    }

    // What there is, by kind: the loop over the existing rows
    method Existing() returns (checks: map<Kind, (Pk, nat)>)
      requires Valid()
      ensures checks.Keys == Kinds(checkData)
      ensures forall k :: k in checks ==> checks[k].0 in checkData && checkData[checks[k].0] == CheckData(k, checks[k].1)
      ensures forall pk :: pk in checkData ==> checks[checkData[pk].kind].0 == pk
    {
      checks := map[];
      var todo := checkData.Keys;
      while todo != {}
        invariant todo <= checkData.Keys
        invariant forall k :: k in checks ==>
          checks[k].0 in checkData.Keys - todo && checkData[checks[k].0] == CheckData(k, checks[k].1)
        invariant forall pk :: pk in checkData.Keys - todo ==>
          checkData[pk].kind in checks && checks[checkData[pk].kind].0 == pk
      {
        var pk :| pk in todo;
        checks := checks[checkData[pk].kind := (pk, checkData[pk].count)];
        todo := todo - {pk};
      }
    }

    // The loop over the calculated checks: counts to correct, checks to create,
    // and the kinds that are left over
    method Compare(calculated: map<Kind, nat>)
      returns (toUpdate: map<Pk, nat>, toAdd: map<Kind, nat>, gone: set<Kind>)
      requires Valid()
      ensures gone == Kinds(checkData) - calculated.Keys
      ensures toAdd == calculated - Kinds(checkData)
      ensures Corrects(checkData, calculated, calculated.Keys, toUpdate)
    {
      hide Kinds, OnePerKind, Wrong, Corrects;
      var checks := Existing();
      ghost var rows := checkData;
      ghost var kinds := Kinds(rows);
      assert Names(rows, checks);
      toUpdate, toAdd := map[], map[];
      NothingCorrected(rows, calculated);
      var todo := calculated.Keys;
      ghost var done: set<Kind> := {};
      while todo != {}
        invariant done !! todo && done + todo == calculated.Keys
        invariant rows == checkData && OnePerKind(rows) && kinds == Kinds(rows)
        invariant checks.Keys == kinds - done && Names(rows, checks)
        invariant toAdd.Keys == done - kinds && forall k :: k in toAdd ==> toAdd[k] == calculated[k]
        invariant Corrects(rows, calculated, done, toUpdate)
      {
        var k :| k in todo;
        ghost var before := toUpdate;
        if k !in checks {
          toAdd := toAdd[k := calculated[k]];
          NothingToCorrect(rows, calculated, done, toUpdate, k);
        } else {
          var (pk, count) := checks[k];
          if count != calculated[k] {
            toUpdate := toUpdate[pk := calculated[k]];
          }
          OneCorrected(rows, calculated, done, before, toUpdate, k, pk);
          NamesLess(rows, checks, k);
          checks := checks - {k};
        }
        todo, done := todo - {k}, done + {k};
      }
      gone := checks.Keys;
    }

    // set_check_data. Rows whose count is right are not touched, wrong counts are
    // corrected in place, what is no longer calculated is deleted and the rest is
    // created; nothing is replaced that could stay.
    method SetCheckData(calculated: map<Kind, nat>)
      requires Valid()
      modifies this`checkData, this`nextPk
      ensures Valid() && Holds(checkData, calculated)
      ensures forall pk :: pk in old(checkData) ==>
        && (pk in checkData <==> old(checkData)[pk].kind in calculated)
        && (pk in checkData ==> checkData[pk].kind == old(checkData)[pk].kind)
      ensures forall pk :: pk in checkData && pk !in old(checkData) ==>
        pk >= old(nextPk) && checkData[pk].kind !in Kinds(old(checkData))
    {
      hide Kinds, OnePerKind, Corrects, Added, Holds;
      ghost var was := checkData;
      var toUpdate, toAdd, gone := Compare(calculated);
      DeleteKinds(gone);
      UpdateCounts(toUpdate);
      ghost var corrected := checkData;
      OldRows(was, corrected, calculated, toUpdate);
      CreateAll(toAdd);
      AllHold(was, corrected, checkData, old(nextPk), calculated, toAdd);
    }

    method DeleteKinds(kinds: set<Kind>)
      requires Valid()
      modifies this`checkData
      ensures Valid()
      ensures checkData == map pk | pk in old(checkData) && old(checkData)[pk].kind !in kinds :: old(checkData)[pk]
      ensures Kinds(checkData) == old(Kinds(checkData)) - kinds
    {
      ghost var was := checkData;
      checkData := map pk | pk in checkData && checkData[pk].kind !in kinds :: checkData[pk];
      forall k | k in Kinds(was) - kinds ensures k in Kinds(checkData) {
        var pk :| pk in was && was[pk].kind == k;
        assert checkData[pk].kind == k;
      }
    }

    method UpdateCounts(updates: map<Pk, nat>)
      requires Valid()
      modifies this`checkData
      ensures Valid()
      ensures checkData == map pk | pk in old(checkData) ::
        if pk in updates then CheckData(old(checkData)[pk].kind, updates[pk]) else old(checkData)[pk]
      ensures Kinds(checkData) == old(Kinds(checkData))
    {
      ghost var was := checkData;
      checkData := map pk | pk in checkData ::
        if pk in updates then CheckData(checkData[pk].kind, updates[pk]) else checkData[pk];
      forall k | k in Kinds(was) ensures k in Kinds(checkData) {
        var pk :| pk in was && was[pk].kind == k;
        assert checkData[pk].kind == k;
      }
    }

    method CreateAll(added: map<Kind, nat>)
      requires Valid() && added.Keys !! Kinds(checkData)
      modifies this`checkData, this`nextPk
      ensures Valid() && old(nextPk) <= nextPk
      ensures Added(old(checkData), checkData, old(nextPk), added, added.Keys)
    {
      hide Added, Kinds, OnePerKind;
      ghost var was := checkData;
      NoneAdded(was, nextPk, added);
      var todo := added.Keys;
      assert added.Keys - todo == {};
      while todo != {}
        invariant todo <= added.Keys && Valid() && old(nextPk) <= nextPk
        invariant Added(was, checkData, old(nextPk), added, added.Keys - todo)
      {
        var k :| k in todo;
        OneAdded(was, checkData, old(nextPk), nextPk, added, added.Keys - todo, k);
        checkData := checkData[nextPk := CheckData(k, added[k])];
        nextPk := nextPk + 1;
        assert added.Keys - (todo - {k}) == (added.Keys - todo) + {k};
        todo := todo - {k};
      }
      assert added.Keys - todo == added.Keys;
    }
  }
}
