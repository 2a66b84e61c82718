// The failing checks stored for each unit, brought in line with the current
// failures by difference.

module QualityChecks {
  import opened Options

  type Pk = nat
  type UnitId = nat

  datatype Failure = Failure(message: string, category: nat)

  type Failures = map<string, Failure>

  datatype QualityCheck = QualityCheck(unit: UnitId, name: string, message: string, category: nat, falsePositive: bool)

  type Table = map<Pk, QualityCheck>

  datatype Unit = Unit(tp: nat, store: nat, state: int)

  const UNTRANSLATED: int := 0

  // What is done to one unit: the names that are looked at (all of them, or a
  // given list) and those of them that fail now
  datatype Plan = Plan(names: Option<set<string>>, failures: Failures)

  predicate Requested(names: Option<set<string>>, name: string) {
    names.None? || name in names.value
  }

  predicate Sound(plan: Plan) {
    forall name :: name in plan.failures ==> Requested(plan.names, name)
  }

  // The names stored for a unit, among those looked at
  function NamesOf(rows: Table, unit: UnitId, names: Option<set<string>>): set<string> {
    set pk | pk in rows && rows[pk].unit == unit && Requested(names, rows[pk].name) :: rows[pk].name
  }

  predicate Stays(row: QualityCheck, plans: map<UnitId, Plan>) {
    row.unit in plans && Requested(plans[row.unit].names, row.name) ==> row.name in plans[row.unit].failures
  }

  predicate Stores(rows: Table, unit: UnitId, name: string) {
    exists pk :: pk in rows && rows[pk].unit == unit && rows[pk].name == name
  }

  // A row of a check that failed for the first time
  predicate Fresh(row: QualityCheck, plans: map<UnitId, Plan>) {
    && row.unit in plans
    && row.name in plans[row.unit].failures
    && Failure(row.message, row.category) == plans[row.unit].failures[row.name]
    && !row.falsePositive
  }

  // Old rows: exactly those that still fail, or are not looked at, stay, and
  // they stay as they are.
  ghost predicate Kept(before: Table, after: Table, plans: map<UnitId, Plan>) {
    forall pk :: pk in before ==>
      (pk in after <==> Stays(before[pk], plans)) && (pk in after ==> after[pk] == before[pk])
  }

  // New rows: failures that had no row, each once
  ghost predicate Created(before: Table, after: Table, next: Pk, plans: map<UnitId, Plan>) {
    && (forall pk :: pk in after && pk !in before ==>
        pk >= next && Fresh(after[pk], plans) && !Stores(before, after[pk].unit, after[pk].name))
    && (forall a, b :: a in after && a !in before && b in after && b !in before && a != b ==>
        !(after[a].unit == after[b].unit && after[a].name == after[b].name))
  }

  ghost predicate Complete(after: Table, plans: map<UnitId, Plan>) {
    forall unit, name :: unit in plans && name in plans[unit].failures ==> Stores(after, unit, name)
  }

  ghost predicate Reconciled(before: Table, after: Table, next: Pk, plans: map<UnitId, Plan>) {
    Kept(before, after, plans) && Created(before, after, next, plans) && Complete(after, plans)
  }

  // The names stored for a unit are its failures; a name that stays keeps its
  // row, and with it the false positive mark; rows of other units stay.
  lemma NamesAreFailures(before: Table, after: Table, next: Pk, plans: map<UnitId, Plan>, unit: UnitId)
    requires Reconciled(before, after, next, plans)
    requires unit in plans && Sound(plans[unit])
    ensures NamesOf(after, unit, plans[unit].names) == plans[unit].failures.Keys
  {
    var names := plans[unit].names;
    forall name | name in plans[unit].failures ensures name in NamesOf(after, unit, names) {
      assert Stores(after, unit, name);
    }
    forall name | name in NamesOf(after, unit, names) ensures name in plans[unit].failures {
      var pk :| pk in after && after[pk].unit == unit && after[pk].name == name;
      assert pk in before ==> Stays(before[pk], plans);
      assert pk !in before ==> Fresh(after[pk], plans);
    }
  }

  lemma MutedStaysMuted(before: Table, after: Table, next: Pk, plans: map<UnitId, Plan>, pk: Pk)
    requires Reconciled(before, after, next, plans) && pk in before
    ensures before[pk].unit !in plans ==> pk in after && after[pk] == before[pk]
    ensures before[pk].unit in plans && before[pk].name in plans[before[pk].unit].failures ==>
              && pk in after && after[pk] == before[pk]
              && forall q :: q in after && after[q].unit == before[pk].unit && after[q].name == before[pk].name ==> q in before
  {
    assert before[pk].unit !in plans ==> Stays(before[pk], plans);
    forall q | q in after && q !in before && after[q].unit == before[pk].unit && after[q].name == before[pk].name
      ensures false
    {
      assert Stores(before, after[q].unit, after[q].name);
    }
  }

  // Different units worked on one after the other
  lemma InTurn(
    before: Table, mid: Table, after: Table, next: Pk, next': Pk, plans: map<UnitId, Plan>, more: map<UnitId, Plan>)
    requires plans.Keys !! more.Keys && next <= next'
    requires Reconciled(before, mid, next, plans)
    requires Reconciled(mid, after, next', more)
    requires forall pk :: pk in before ==> pk < next
    ensures Reconciled(before, after, next, plans + more)
  {
    var both := plans + more;
    forall pk | pk in before
      ensures (pk in after <==> Stays(before[pk], both)) && (pk in after ==> after[pk] == before[pk])
    {
      assert pk in mid ==> (pk in after <==> Stays(mid[pk], more));
      assert pk < next';
    }
    forall pk | pk in after && pk !in before
      ensures pk >= next && Fresh(after[pk], both) && !Stores(before, after[pk].unit, after[pk].name)
    {
      if pk in mid {
        assert Fresh(mid[pk], plans);
      } else {
        assert Fresh(after[pk], more);
        if o :| o in before && before[o].unit == after[pk].unit && before[o].name == after[pk].name {
          assert Stays(before[o], plans);
          assert Stores(mid, after[pk].unit, after[pk].name);
        }
      }
    }
    forall a, b | a in after && a !in before && b in after && b !in before && a != b
      ensures !(after[a].unit == after[b].unit && after[a].name == after[b].name)
    {
      assert a in mid ==> Fresh(mid[a], plans);
      assert b in mid ==> Fresh(mid[b], plans);
      assert a !in mid ==> Fresh(after[a], more);
      assert b !in mid ==> Fresh(after[b], more);
    }
    forall u, name | u in both && name in both[u].failures ensures Stores(after, u, name) {
      if u !in more {
        assert Stores(mid, u, name);
        var pk :| pk in mid && mid[pk].unit == u && mid[pk].name == name;
        assert Stays(mid[pk], more);
      }
    }
  }

  // The names change
  predicate Changes(rows: Table, unit: UnitId, plan: Plan) {
    NamesOf(rows, unit, plan.names) != plan.failures.Keys
  }

  type StoreSets = map<nat, set<nat>>

  predicate Listing(stores: StoreSets, tp: nat, store: nat) {
    tp in stores && store in stores[tp]
  }

  // The stores reported besides those reported before are the ones where the
  // plans change anything.
  ghost predicate Reports(after: StoreSets, before: StoreSets, rows: Table, units: map<UnitId, Unit>, plans: map<UnitId, Plan>) {
    forall t, s :: Listing(after, t, s) <==> Listing(before, t, s) || Touched(rows, units, plans, t, s)
  }

  class QualityCheckUpdater {
    var table: Table
    var nextPk: Pk
    var updatedStores: StoreSets
    const units: map<UnitId, Unit>
    const checkNames: Option<set<string>>

    ghost predicate Valid()
      reads this
    {
      forall pk :: pk in table ==> pk < nextPk && table[pk].unit in units
    }

    constructor (units: map<UnitId, Unit>, checkNames: Option<set<string>>)
      ensures Valid() && table == map[] && this.units == units && this.checkNames == checkNames
    {
      this.units, this.checkNames := units, checkNames;
      table, nextPk, updatedStores := map[], 0, map[];
    }

    // update_checks: what is new is created, and what still fails is taken off
    // the list of original checks.
    method UpdateChecks(unit: UnitId, original: map<string, Pk>, failures: Failures)
      returns (updated: bool, rest: map<string, Pk>)
      requires Valid() && unit in units
      requires original.Keys == NamesOf(table, unit, checkNames)
      requires Sound(Plan(checkNames, failures))
      modifies this`table, this`nextPk
      ensures Valid() && old(nextPk) <= nextPk
      ensures rest.Keys == original.Keys - failures.Keys
      ensures updated <==> failures.Keys - original.Keys != {}
      ensures forall pk :: pk in old(table) ==> pk in table && table[pk] == old(table)[pk]
      ensures Created(old(table), table, old(nextPk), map[unit := Plan(checkNames, failures)])
      ensures Complete(table, map[unit := Plan(checkNames, failures)])
    {
      hide *;
      updated, rest := false, original;
      var newChecks: Failures := map[];
      var todo := failures.Keys;
      while todo != {}
        invariant todo <= failures.Keys
        invariant rest.Keys == original.Keys - (failures.Keys - todo)
        invariant newChecks.Keys == failures.Keys - todo - original.Keys
        invariant forall name :: name in newChecks ==> newChecks[name] == failures[name]
        invariant updated <==> newChecks.Keys != {}
      {
        var name :| name in todo;
        if name in rest {
          rest := rest - {name};
        } else {
          newChecks := newChecks[name := failures[name]];
          updated := true;
          assert name in newChecks.Keys;
        }
        todo := todo - {name};
      }
      ghost var was := table;
      Create(unit, newChecks);
      AllCreated(was, table, old(nextPk), unit, Plan(checkNames, failures), newChecks);
    }

    // One row for each of the new checks
    method Create(unit: UnitId, newChecks: Failures)
      requires Valid() && unit in units
      modifies this`table, this`nextPk
      ensures Valid() && old(nextPk) <= nextPk
      ensures CreatedFor(old(table), table, old(nextPk), unit, newChecks, newChecks.Keys)
    {
      hide CreatedFor;
      ghost var was := table;
      NoneCreated(was, nextPk, unit, newChecks);
      var todo := newChecks.Keys;
      assert newChecks.Keys - todo == {};
      while todo != {}
        invariant todo <= newChecks.Keys && Valid() && old(nextPk) <= nextPk
        invariant CreatedFor(was, table, old(nextPk), unit, newChecks, newChecks.Keys - todo)
      {
        var name :| name in todo;
        ghost var before := table;
        table := table[nextPk := QualityCheck(unit, name, newChecks[name].message, newChecks[name].category, false)];
        OneCreated(was, before, old(nextPk), nextPk, unit, newChecks, newChecks.Keys - todo, name);
        assert newChecks.Keys - (todo - {name}) == (newChecks.Keys - todo) + {name};
        nextPk := nextPk + 1;
        todo := todo - {name};
      }
      assert newChecks.Keys - todo == newChecks.Keys;
    }

    // UnitQualityCheck.update
    method UpdateUnit(unit: UnitId, original: map<string, Pk>, failures: Failures) returns (updated: bool)
      requires Valid() && unit in units
      requires original.Keys == NamesOf(table, unit, checkNames)
      requires Sound(Plan(checkNames, failures))
      modifies this`table, this`nextPk
      ensures Valid() && old(nextPk) <= nextPk
      ensures Reconciled(old(table), table, old(nextPk), map[unit := Plan(checkNames, failures)])
      ensures updated <==> Changes(old(table), unit, Plan(checkNames, failures))
    {
      ghost var plans := map[unit := Plan(checkNames, failures)];
      ghost var was := table;
      var created, rest := UpdateChecks(unit, original, failures);
      ghost var mid := table;
      if rest.Keys != {} {
        table := map pk | pk in table && !(table[pk].unit == unit && table[pk].name in rest.Keys) :: table[pk];
      }
      updated := created || rest.Keys != {};
      Removed(was, mid, table, old(nextPk), unit, Plan(checkNames, failures));
      assert original.Keys == failures.Keys <==> original.Keys - failures.Keys == {} && failures.Keys - original.Keys == {};
    }

    // update_store
    method UpdateStore(tp: nat, store: nat)
      modifies this`updatedStores
      ensures forall t, s :: Listing(updatedStores, t, s) <==> Listing(old(updatedStores), t, s) || (t == tp && s == store)
    {
      var stores := if tp in updatedStores then updatedStores[tp] else {};
      updatedStores := updatedStores[tp := stores + {store}];
    }

    // The checks of every unit in scope, read once: the cached property `checks`
    method Checks(scope: set<UnitId>) returns (all: map<UnitId, map<string, Pk>>)
      requires Valid()
      ensures forall unit :: unit in scope ==>
        NamesOf(table, unit, checkNames) == if unit in all then all[unit].Keys else {}
    {
      all := map[];
      var todo := table.Keys;
      assert table - todo == map[];
      while todo != {}
        invariant todo <= table.Keys
        invariant Indexed(Less(table, todo), scope, checkNames, all)
      {
        hide Indexed, NamesOf, Less;
        var pk :| pk in todo;
        var row := table[pk];
        ghost var before := all;
        if row.unit in scope && Requested(checkNames, row.name) {
          var names := if row.unit in all then all[row.unit] else map[];
          all := all[row.unit := names[row.name := pk]];
        }
        OneMoreIndexed(table, todo, scope, checkNames, before, pk);
        todo := todo - {pk};
      }
      assert Less(table, {}) == table;
    }

    // update_untranslated: every check of an untranslated unit goes, whatever its name.
    method UpdateUntranslated(scope: set<UnitId>)
      requires Valid() && scope <= units.Keys
      modifies this`table, this`updatedStores
      ensures Valid()
      ensures Reconciled(old(table), table, nextPk, Clearing(units, scope))
      ensures Reports(updatedStores, old(updatedStores), old(table), units, Clearing(units, scope))
    {
      ghost var was, stores := table, updatedStores;
      var gone := set pk | pk in table && table[pk].unit in scope && units[table[pk].unit].state <= UNTRANSLATED;
      var todo := gone;
      while todo != {}
        invariant todo <= gone && table == was
        invariant forall t, s :: Listing(updatedStores, t, s) <==>
          Listing(stores, t, s) || InStore(table, units, gone - todo, t, s)
      {
        var pk :| pk in todo;
        var unit := units[table[pk].unit];
        UpdateStore(unit.tp, unit.store);
        assert InStore(table, units, {pk}, unit.tp, unit.store);
        todo := todo - {pk};
      }
      table := table - gone;
      assert table.Keys == was.Keys - gone;
      forall t, s ensures InStore(was, units, gone, t, s) <==> Touched(was, units, Clearing(units, scope), t, s) {
        ClearedStores(was, units, scope, gone, t, s);
      }
    }

    // update_translated_unit
    method UpdateTranslatedUnit(unit: UnitId, original: map<string, Pk>, failures: Failures) returns (updated: bool)
      requires Valid() && unit in units
      requires original.Keys == NamesOf(table, unit, checkNames)
      requires Sound(Plan(checkNames, failures))
      modifies this`table, this`nextPk, this`updatedStores
      ensures Valid() && old(nextPk) <= nextPk
      ensures Reconciled(old(table), table, old(nextPk), map[unit := Plan(checkNames, failures)])
      ensures updated <==> Changes(old(table), unit, Plan(checkNames, failures))
      ensures Reports(updatedStores, old(updatedStores), old(table), units, map[unit := Plan(checkNames, failures)])
    {
      hide Reconciled, Changes, NamesOf, Sound;
      updated := UpdateUnit(unit, original, failures);
      if updated {
        UpdateStore(units[unit].tp, units[unit].store);
      }
      ghost var plans := map[unit := Plan(checkNames, failures)];
      assert unit in plans;
    }

    // update_translated: the checks of every unit that has a checker
    method UpdateTranslated(scope: set<UnitId>, checker: map<UnitId, Failures>)
      requires Valid() && scope <= units.Keys
      requires forall unit :: unit in checker ==> Sound(Plan(checkNames, checker[unit]))
      modifies this`table, this`nextPk, this`updatedStores
      ensures Valid() && old(nextPk) <= nextPk
      ensures Reconciled(old(table), table, old(nextPk), Checking(units, scope, checker, checkNames))
      ensures Reports(updatedStores, old(updatedStores), old(table), units, Checking(units, scope, checker, checkNames))
    {
      hide *;
      ghost var was, start, stores := table, nextPk, updatedStores;
      ghost var plans := Checking(units, scope, checker, checkNames);
      var checks := Checks(scope);
      var todo := set unit | unit in scope && units[unit].state > UNTRANSLATED && unit in checker;
      CheckingIs(units, scope, checker, checkNames, todo);
      Bounded();
      NothingDone(was, start, units, stores);
      while todo != {}
        invariant todo <= plans.Keys
        invariant Valid() && start <= nextPk
        invariant Reconciled(was, table, start, Except(plans, todo))
        invariant Reports(updatedStores, stores, was, units, Except(plans, todo))
      {
        var unit :| unit in todo;
        ghost var done, one := Except(plans, todo), map[unit := plans[unit]];
        ghost var mid, next, reported := table, nextPk, updatedStores;
        OneLess(plans, todo, unit);
        NotYet(was, mid, start, done, unit, checkNames);
        var updated := UpdateTranslatedUnit(unit, if unit in checks then checks[unit] else map[], checker[unit]);
        Compose(was, mid, table, start, next, units, done, one, stores, reported, updatedStores);
        todo := todo - {unit};
      }
    }

    lemma Bounded()
      requires Valid()
      ensures forall pk :: pk in table ==> pk < nextPk
    {}

    // update: the stored names of every unit in scope that is untranslated, or
    // has a checker, become its failures; the stores where that changed anything
    // are reported.
    method Update(scope: set<UnitId>, checker: map<UnitId, Failures>) returns (updated: StoreSets)
      requires Valid() && scope <= units.Keys && updatedStores == map[]
      requires forall unit :: unit in checker ==> Sound(Plan(checkNames, checker[unit]))
      modifies this
      ensures Valid() && updatedStores == map[]
      ensures Reconciled(old(table), table, old(nextPk), Plans(units, scope, checker, checkNames))
      ensures Reports(updated, map[], old(table), units, Plans(units, scope, checker, checkNames))
    {
      ghost var was, start := table, nextPk;
      UpdateUntranslated(scope);
      ghost var mid, reported := table, updatedStores;
      UpdateTranslated(scope, checker);
      updated := updatedStores;
      updatedStores := map[];
      ghost var clearing, checking := Clearing(units, scope), Checking(units, scope, checker, checkNames);
      assert clearing.Keys !! checking.Keys;
      hide Clearing, Checking, Reconciled, Touched;
      Compose(was, mid, table, start, start, units, clearing, checking, map[], reported, updated);
    }
  }

  // The units that `plans` changes anything for are in these stores.
  predicate Touched(rows: Table, units: map<UnitId, Unit>, plans: map<UnitId, Plan>, tp: nat, store: nat) {
    exists unit :: unit in plans && unit in units && Changes(rows, unit, plans[unit]) && units[unit].tp == tp && units[unit].store == store
  }

  predicate InStore(rows: Table, units: map<UnitId, Unit>, pks: set<Pk>, tp: nat, store: nat) {
    exists pk :: pk in pks && pk in rows && rows[pk].unit in units && units[rows[pk].unit].tp == tp && units[rows[pk].unit].store == store
  }

  // No check of an untranslated unit stays.
  function Clearing(units: map<UnitId, Unit>, scope: set<UnitId>): map<UnitId, Plan> {
    map unit | unit in scope && unit in units && units[unit].state <= UNTRANSLATED :: Plan(None, map[])
  }

  function Checking(
    units: map<UnitId, Unit>, scope: set<UnitId>, checker: map<UnitId, Failures>, names: Option<set<string>>): map<UnitId, Plan>
  {
    map unit | unit in scope && unit in units && units[unit].state > UNTRANSLATED && unit in checker :: Plan(names, checker[unit])
  }

  function Plans(
    units: map<UnitId, Unit>, scope: set<UnitId>, checker: map<UnitId, Failures>, names: Option<set<string>>): map<UnitId, Plan>
  {
    Clearing(units, scope) + Checking(units, scope, checker, names)
  }

  predicate IsCheck(row: QualityCheck, unit: UnitId, failures: Failures) {
    && row.unit == unit && row.name in failures
    && Failure(row.message, row.category) == failures[row.name] && !row.falsePositive
  }

  // One row for each of the names done, besides the rows there were
  ghost predicate CreatedFor(was: Table, now: Table, next: Pk, unit: UnitId, newChecks: Failures, done: set<string>) {
    && (forall pk :: pk in was ==> pk in now && now[pk] == was[pk])
    && (forall pk :: pk in now && pk !in was ==> pk >= next && IsCheck(now[pk], unit, newChecks) && now[pk].name in done)
    && OneRowEach(was, now)
    && (forall name :: name in done ==> Stores(now, unit, name))
  }

  // The stores reported are exactly those with a unit whose stored names are not
  // what they were.
  lemma ReportedIff(
    before: Table, after: Table, next: Pk, units: map<UnitId, Unit>, plans: map<UnitId, Plan>, updated: StoreSets,
    tp: nat, store: nat)
    requires Reconciled(before, after, next, plans) && Reports(updated, map[], before, units, plans)
    requires forall unit :: unit in plans ==> Sound(plans[unit])
    ensures Listing(updated, tp, store) <==>
      exists unit :: unit in units && units[unit].tp == tp && units[unit].store == store
        && NamesOf(before, unit, None) != NamesOf(after, unit, None)
  {
    forall unit ensures NamesOf(before, unit, None) != NamesOf(after, unit, None) <==>
                          unit in plans && Changes(before, unit, plans[unit]) {
      if unit in plans {
        NamesChange(before, after, next, plans, unit);
      } else {
        NotPlanned(before, after, next, plans, unit);
      }
    }
    hide NamesOf, Changes, Reconciled;
  }

  lemma NamesChange(before: Table, after: Table, next: Pk, plans: map<UnitId, Plan>, unit: UnitId)
    requires Reconciled(before, after, next, plans) && unit in plans && Sound(plans[unit])
    ensures NamesOf(before, unit, None) != NamesOf(after, unit, None) <==> Changes(before, unit, plans[unit])
  {
    var names := plans[unit].names;
    NamesAreFailures(before, after, next, plans, unit);
    forall name | !Requested(names, name)
      ensures name in NamesOf(before, unit, None) <==> name in NamesOf(after, unit, None) {
      NotRequested(before, after, next, plans, unit, name);
    }
    forall rows: Table, name
      ensures name in NamesOf(rows, unit, names) <==> name in NamesOf(rows, unit, None) && Requested(names, name) {
    }
    hide NamesOf, Reconciled;
    var a, b := NamesOf(before, unit, None), NamesOf(after, unit, None);
    assert NamesOf(before, unit, names) == NamesOf(after, unit, names) ==> forall name :: name in a <==> name in b;
  }

  lemma NotRequested(before: Table, after: Table, next: Pk, plans: map<UnitId, Plan>, unit: UnitId, name: string)
    requires Reconciled(before, after, next, plans) && unit in plans && Sound(plans[unit])
    requires !Requested(plans[unit].names, name)
    ensures name in NamesOf(before, unit, None) <==> name in NamesOf(after, unit, None)
  {
    forall pk | pk in before && before[pk].unit == unit && before[pk].name == name ensures pk in after && after[pk] == before[pk] {
      assert Stays(before[pk], plans);
    }
    forall pk | pk in after && pk !in before ensures !(after[pk].unit == unit && after[pk].name == name) {
      assert Fresh(after[pk], plans);
    }
  }

  // A row that was not there says what fails now, and is not muted.
  lemma NewRowsSay(before: Table, after: Table, next: Pk, plans: map<UnitId, Plan>, pk: Pk)
    requires Reconciled(before, after, next, plans) && pk in after && pk !in before
    ensures
      var row := after[pk];
      && row.unit in plans && row.name in plans[row.unit].failures && !row.falsePositive
      && row.message == plans[row.unit].failures[row.name].message
      && row.category == plans[row.unit].failures[row.name].category
  {
    assert Fresh(after[pk], plans);
  }

  // What an update does to a unit, by its state: above 0, where fuzzy (50) and
  // translated (200) are, it has the failures of its checker, and without a checker
  // what it had; untranslated (0) or obsolete (-100), none at all.
  lemma ByState(
    before: Table, after: Table, next: Pk, units: map<UnitId, Unit>, scope: set<UnitId>,
    checker: map<UnitId, Failures>, names: Option<set<string>>, unit: UnitId)
    requires Reconciled(before, after, next, Plans(units, scope, checker, names))
    requires unit in scope && unit in units && (unit in checker ==> Sound(Plan(names, checker[unit])))
    ensures units[unit].state > 0 && unit in checker ==>
      && NamesOf(after, unit, names) == checker[unit].Keys
      && (names.None? ==> NamesOf(after, unit, None) == checker[unit].Keys)
      && forall pk :: pk in before && before[pk].unit == unit && names.Some? && before[pk].name !in names.value ==> pk in after
    ensures units[unit].state > 0 && unit !in checker ==> NamesOf(after, unit, None) == NamesOf(before, unit, None)
    ensures units[unit].state <= 0 ==> NamesOf(after, unit, None) == {}
  {
    var plans := Plans(units, scope, checker, names);
    if units[unit].state > 0 && unit in checker {
      assert plans[unit] == Plan(names, checker[unit]);
      NamesAreFailures(before, after, next, plans, unit);
    } else if units[unit].state > 0 {
      assert unit !in plans;
      NotPlanned(before, after, next, plans, unit);
    } else {
      assert plans[unit] == Plan(None, map[]);
      NamesAreFailures(before, after, next, plans, unit);
    }
  }

  lemma NotPlanned(before: Table, after: Table, next: Pk, plans: map<UnitId, Plan>, unit: UnitId)
    requires Reconciled(before, after, next, plans) && unit !in plans
    ensures NamesOf(after, unit, None) == NamesOf(before, unit, None)
  {
    forall pk | pk in before && before[pk].unit == unit ensures pk in after && after[pk] == before[pk] {
      assert Stays(before[pk], plans);
    }
    forall pk | pk in after && pk !in before ensures after[pk].unit != unit {
      assert Fresh(after[pk], plans);
    }
  }

  lemma NoneCreated(was: Table, next: Pk, unit: UnitId, newChecks: Failures)
    ensures CreatedFor(was, was, next, unit, newChecks, {})
  {}

  lemma OneCreated(
    was: Table, now: Table, next: Pk, pk: Pk, unit: UnitId, newChecks: Failures, done: set<string>, name: string)
    requires CreatedFor(was, now, next, unit, newChecks, done) && name in newChecks && name !in done
    requires next <= pk && (forall q :: q in was ==> q < next) && (forall q :: q in now ==> q < pk)
    ensures CreatedFor(
      was, now[pk := QualityCheck(unit, name, newChecks[name].message, newChecks[name].category, false)],
      next, unit, newChecks, done + {name})
  {
    var row := QualityCheck(unit, name, newChecks[name].message, newChecks[name].category, false);
    StoresMore(now, pk, row, unit);
    assert forall q :: q in now && q !in was ==> now[q].name != name;
    OneMoreEach(was, now, pk, row);
    hide Stores, OneRowEach;
  }

  lemma StoresMore(rows: Table, pk: Pk, row: QualityCheck, unit: UnitId)
    requires pk !in rows
    ensures forall name :: Stores(rows[pk := row], unit, name) <==> Stores(rows, unit, name) || (row.unit == unit && row.name == name)
  {
    var more := rows[pk := row];
    forall name | Stores(rows, unit, name) ensures Stores(more, unit, name) {
      var q :| q in rows && rows[q].unit == unit && rows[q].name == name;
      assert more[q] == rows[q];
    }
    assert more[pk] == row;
  }

  lemma OneMoreEach(was: Table, now: Table, pk: Pk, row: QualityCheck)
    requires OneRowEach(was, now) && pk !in now
    requires forall q :: q in now && q !in was ==> now[q].name != row.name
    ensures OneRowEach(was, now[pk := row])
  {}

  ghost predicate OneRowEach(before: Table, after: Table) {
    forall a, b :: a in after && a !in before && b in after && b !in before && a != b ==>
      !(after[a].unit == after[b].unit && after[a].name == after[b].name)
  }

  lemma AllCreated(was: Table, now: Table, next: Pk, unit: UnitId, plan: Plan, newChecks: Failures)
    requires Sound(plan) && newChecks.Keys == plan.failures.Keys - NamesOf(was, unit, plan.names)
    requires forall name :: name in newChecks ==> newChecks[name] == plan.failures[name]
    requires CreatedFor(was, now, next, unit, newChecks, newChecks.Keys)
    ensures Created(was, now, next, map[unit := plan]) && Complete(now, map[unit := plan])
    ensures forall pk :: pk in was ==> pk in now && now[pk] == was[pk]
  {
    forall name | name in plan.failures ensures Stores(now, unit, name) {
      if name in NamesOf(was, unit, plan.names) {
        var pk :| pk in was && was[pk].unit == unit && was[pk].name == name;
        assert now[pk] == was[pk];
      }
    }
    forall pk | pk in now && pk !in was ensures !Stores(was, unit, now[pk].name) {
      assert now[pk].name in newChecks.Keys;
    }
  }

  lemma FewerCreated(was: Table, mid: Table, now: Table, next: Pk, plans: map<UnitId, Plan>)
    requires Created(was, mid, next, plans) && now.Keys <= mid.Keys && forall pk :: pk in now ==> now[pk] == mid[pk]
    ensures Created(was, now, next, plans)
  {
    hide Fresh, Stores;
  }

  // Deleting by name what no longer fails
  lemma Removed(was: Table, mid: Table, now: Table, next: Pk, unit: UnitId, plan: Plan)
    requires Sound(plan) && forall pk :: pk in was ==> pk in mid && mid[pk] == was[pk]
    requires Created(was, mid, next, map[unit := plan]) && Complete(mid, map[unit := plan])
    requires now.Keys == set pk | pk in mid && !(mid[pk].unit == unit && mid[pk].name in NamesOf(was, unit, plan.names) - plan.failures.Keys)
    requires forall pk :: pk in now ==> now[pk] == mid[pk]
    ensures Reconciled(was, now, next, map[unit := plan])
  {
    FewerCreated(was, mid, now, next, map[unit := plan]);
    StillComplete(was, mid, now, unit, plan);
    RestKept(was, mid, now, unit, plan);
    hide Created, Complete, Kept;
  }

  lemma StillComplete(was: Table, mid: Table, now: Table, unit: UnitId, plan: Plan)
    requires Complete(mid, map[unit := plan])
    requires now.Keys == set pk | pk in mid && !(mid[pk].unit == unit && mid[pk].name in NamesOf(was, unit, plan.names) - plan.failures.Keys)
    requires forall pk :: pk in now ==> now[pk] == mid[pk]
    ensures Complete(now, map[unit := plan])
  {
    hide NamesOf;
    forall name | name in plan.failures ensures Stores(now, unit, name) {
      assert Stores(mid, unit, name);
      var pk :| pk in mid && mid[pk].unit == unit && mid[pk].name == name;
      assert pk in now;
    }
  }

  lemma RestKept(was: Table, mid: Table, now: Table, unit: UnitId, plan: Plan)
    requires forall pk :: pk in was ==> pk in mid && mid[pk] == was[pk]
    requires now.Keys == set pk | pk in mid && !(mid[pk].unit == unit && mid[pk].name in NamesOf(was, unit, plan.names) - plan.failures.Keys)
    requires forall pk :: pk in now ==> now[pk] == mid[pk]
    ensures Kept(was, now, map[unit := plan])
  {
    forall pk | pk in was && was[pk].unit == unit
      ensures was[pk].name in NamesOf(was, unit, plan.names) <==> Requested(plan.names, was[pk].name) {
    }
    hide NamesOf, Requested;
  }

  function Less(table: Table, todo: set<Pk>): Table {
    table - todo
  }

  predicate Indexed(rows: Table, scope: set<UnitId>, names: Option<set<string>>, all: map<UnitId, map<string, Pk>>) {
    forall unit :: unit in scope ==> NamesOf(rows, unit, names) == Indexes(all, unit)
  }

  function Indexes(all: map<UnitId, map<string, Pk>>, unit: UnitId): set<string> {
    if unit in all then all[unit].Keys else {}
  }

  lemma OneMoreIndexed(
    table: Table, todo: set<Pk>, scope: set<UnitId>, names: Option<set<string>>, all: map<UnitId, map<string, Pk>>, pk: Pk)
    requires pk in todo && pk in table && Indexed(Less(table, todo), scope, names, all)
    ensures var row := table[pk];
            var unitNames := if row.unit in all then all[row.unit] else map[];
            Indexed(Less(table, todo - {pk}), scope, names,
                    if row.unit in scope && Requested(names, row.name)
                    then all[row.unit := unitNames[row.name := pk]] else all)
  {
    var before, after, row := Less(table, todo), Less(table, todo - {pk}), table[pk];
    assert after == before[pk := row];
    forall unit | unit in scope
      ensures NamesOf(after, unit, names)
              == NamesOf(before, unit, names) + (if row.unit == unit && Requested(names, row.name) then {row.name} else {})
    {
      OneMoreRow(before, after, pk, row, unit, names);
    }
    hide NamesOf, Less, Requested;
  }

  lemma OneMoreRow(before: Table, after: Table, pk: Pk, row: QualityCheck, unit: UnitId, names: Option<set<string>>)
    requires pk !in before && after == before[pk := row]
    ensures NamesOf(after, unit, names)
            == NamesOf(before, unit, names) + (if row.unit == unit && Requested(names, row.name) then {row.name} else {})
  {
    forall name | name in NamesOf(before, unit, names) ensures name in NamesOf(after, unit, names) {
      var q :| q in before && before[q].unit == unit && before[q].name == name;
      assert after[q] == before[q];
    }
    assert after[pk] == row;
  }

  lemma ClearedStores(rows: Table, units: map<UnitId, Unit>, scope: set<UnitId>, gone: set<Pk>, tp: nat, store: nat)
    requires scope <= units.Keys
    requires gone == set pk | pk in rows && rows[pk].unit in scope && units[rows[pk].unit].state <= UNTRANSLATED
    ensures InStore(rows, units, gone, tp, store) <==> Touched(rows, units, Clearing(units, scope), tp, store)
  {
    var plans := Clearing(units, scope);
    if InStore(rows, units, gone, tp, store) {
      var pk :| pk in gone && units[rows[pk].unit].tp == tp && units[rows[pk].unit].store == store;
      assert rows[pk].name in NamesOf(rows, rows[pk].unit, None);
      assert Changes(rows, rows[pk].unit, plans[rows[pk].unit]);
    }
    if Touched(rows, units, plans, tp, store) {
      var unit :| unit in plans && Changes(rows, unit, plans[unit]) && units[unit].tp == tp && units[unit].store == store;
      var name :| name in NamesOf(rows, unit, None);
      var pk :| pk in rows && rows[pk].unit == unit && rows[pk].name == name;
      assert pk in gone;
    }
  }

  function Except(plans: map<UnitId, Plan>, todo: set<UnitId>): map<UnitId, Plan> {
    plans - todo
  }

  lemma OneLess(plans: map<UnitId, Plan>, todo: set<UnitId>, unit: UnitId)
    requires unit in todo && unit in plans
    ensures Except(plans, todo - {unit}) == Except(plans, todo) + map[unit := plans[unit]]
    ensures unit !in Except(plans, todo)
  {}

  lemma CheckingIs(
    units: map<UnitId, Unit>, scope: set<UnitId>, checker: map<UnitId, Failures>, names: Option<set<string>>, todo: set<UnitId>)
    requires scope <= units.Keys
    requires todo == set unit | unit in scope && units[unit].state > UNTRANSLATED && unit in checker
    ensures Checking(units, scope, checker, names).Keys == todo
    ensures forall unit :: unit in todo ==> Checking(units, scope, checker, names)[unit] == Plan(names, checker[unit])
    ensures Except(Checking(units, scope, checker, names), todo) == map[]
    ensures Except(Checking(units, scope, checker, names), {}) == Checking(units, scope, checker, names)
  {}

  lemma NothingDone(rows: Table, next: Pk, units: map<UnitId, Unit>, stores: StoreSets)
    ensures Reconciled(rows, rows, next, map[])
    ensures Reports(stores, stores, rows, units, map[])
  {}

  // A unit that has not been worked on stores what it did.
  lemma NotYet(was: Table, mid: Table, next: Pk, done: map<UnitId, Plan>, unit: UnitId, names: Option<set<string>>)
    requires Reconciled(was, mid, next, done) && unit !in done
    ensures NamesOf(mid, unit, names) == NamesOf(was, unit, names)
  {
    forall name | name in NamesOf(was, unit, names) ensures name in NamesOf(mid, unit, names) {
      var pk :| pk in was && was[pk].unit == unit && was[pk].name == name;
      assert Stays(was[pk], done);
    }
    forall name | name in NamesOf(mid, unit, names) ensures name in NamesOf(was, unit, names) {
      var pk :| pk in mid && mid[pk].unit == unit && mid[pk].name == name;
      assert pk !in was ==> Fresh(mid[pk], done);
    }
  }

  lemma TouchedBoth(
    rows: Table, units: map<UnitId, Unit>, plans: map<UnitId, Plan>, more: map<UnitId, Plan>, tp: nat, store: nat)
    requires plans.Keys !! more.Keys
    ensures Touched(rows, units, plans + more, tp, store)
            <==> Touched(rows, units, plans, tp, store) || Touched(rows, units, more, tp, store)
  {
    hide Changes;
    var both := plans + more;
    if u :| u in plans && u in units && Changes(rows, u, plans[u]) && units[u].tp == tp && units[u].store == store {
      assert both[u] == plans[u];
    }
    if u :| u in more && u in units && Changes(rows, u, more[u]) && units[u].tp == tp && units[u].store == store {
      assert both[u] == more[u];
    }
  }

  // What is still to do does not depend on what was done for other units.
  lemma TouchedLater(
    was: Table, mid: Table, next: Pk, units: map<UnitId, Unit>, done: map<UnitId, Plan>, more: map<UnitId, Plan>, tp: nat, store: nat)
    requires Reconciled(was, mid, next, done) && done.Keys !! more.Keys
    ensures Touched(mid, units, more, tp, store) <==> Touched(was, units, more, tp, store)
  {
    forall u | u in more ensures Changes(mid, u, more[u]) == Changes(was, u, more[u]) {
      NotYet(was, mid, next, done, u, more[u].names);
    }
    hide Changes, Reconciled;
  }

  lemma Compose(
    was: Table, mid: Table, now: Table, next: Pk, next': Pk,
    units: map<UnitId, Unit>, plans: map<UnitId, Plan>, more: map<UnitId, Plan>,
    first: StoreSets, second: StoreSets, third: StoreSets)
    requires plans.Keys !! more.Keys && next <= next' && forall pk :: pk in was ==> pk < next
    requires Reconciled(was, mid, next, plans) && Reconciled(mid, now, next', more)
    requires Reports(second, first, was, units, plans) && Reports(third, second, mid, units, more)
    ensures Reconciled(was, now, next, plans + more)
    ensures Reports(third, first, was, units, plans + more)
  {
    InTurn(was, mid, now, next, next', plans, more);
    hide Reconciled, Touched, Listing;
    forall t, s
      ensures Listing(third, t, s) <==> Listing(first, t, s) || Touched(was, units, plans + more, t, s)
    {
      TouchedBoth(was, units, plans, more, t, s);
      TouchedLater(was, mid, next, units, plans, more, t, s);
    }
  }
}
