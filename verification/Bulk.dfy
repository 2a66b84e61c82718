// BulkCRUD: updating many rows, with a shortcut when all updates are the same.

module Bulk {
  import opened Options
  import opened Sequences

  type Pk = nat
  type Field = string
  type Value = int
  type Row = map<Field, Value>
  type Table = map<Pk, Row>
  type Updates = map<Pk, Row>

  function SetFields(row: Row, update: Row): Row {
    row + update
  }

  // What updating by dictionary does: rows that exist get the new values.
  function Updated(t: Table, updates: Updates): Table {
    map pk | pk in t :: if pk in updates then SetFields(t[pk], updates[pk]) else t[pk]
  }

  // ---- Updates that come with objects ----

  // Objects in memory, by primary key, with the values of their attributes
  type Objects = map<Pk, Row>

  datatype Object = Object(pk: Pk, row: Row)

  // There may be several for one row, but they hold the same: as when one object
  // in memory is listed twice.
  predicate Consistent(objects: seq<Object>) {
    forall i, j :: 0 <= i < |objects| && 0 <= j < |objects| && objects[i].pk == objects[j].pk ==>
      objects[i].row == objects[j].row
  }

  function ByPk(objects: seq<Object>): Objects
    requires Consistent(objects)
  {
    map i | 0 <= i < |objects| :: objects[i].pk := objects[i].row
  }

  // One object for each row that is listed. Which one is written when they differ
  // is left open.
  ghost predicate Chosen(chosen: Objects, objects: seq<Object>) {
    && (forall pk :: pk in chosen <==> ListedIn(objects, pk))
    && (forall pk :: pk in chosen ==> Object(pk, chosen[pk]) in objects)
  }

  predicate ListedIn(objects: seq<Object>, pk: Pk) {
    exists i :: 0 <= i < |objects| && objects[i].pk == pk
  }

  // The fields that the updates change on some listed object
  function AllChanges(objects: seq<Object>, updates: Updates): set<Field> {
    set i, k | 0 <= i < |objects| && k in ChangedOn(objects[i], updates) :: k
  }

  function ChangedOn(o: Object, updates: Updates): set<Field> {
    if o.pk in updates then set k | k in updates[o.pk] && !(k in o.row && o.row[k] == updates[o.pk][k]) else {}
  }

  lemma ChosenChanges(chosen: Objects, objects: seq<Object>, updates: Updates)
    requires Chosen(chosen, objects)
    ensures Changes(chosen, updates) <= AllChanges(objects, updates)
  {
    forall k | k in Changes(chosen, updates) ensures k in AllChanges(objects, updates) {
      var pk :| pk in chosen && pk in updates && k in updates[pk] && !(k in chosen[pk] && chosen[pk][k] == updates[pk][k]);
      var i :| 0 <= i < |objects| && objects[i] == Object(pk, chosen[pk]);
      assert k in ChangedOn(objects[i], updates);
    }
  }

  lemma ChosenIsByPk(chosen: Objects, objects: seq<Object>, updates: Updates)
    requires Chosen(chosen, objects) && Consistent(objects)
    ensures chosen == ByPk(objects) && AllChanges(objects, updates) == Changes(chosen, updates)
  {
    forall pk | pk in chosen ensures chosen[pk] == ByPk(objects)[pk] {
      var i :| 0 <= i < |objects| && objects[i] == Object(pk, chosen[pk]);
    }
    ChosenChanges(chosen, objects, updates);
    forall k | k in AllChanges(objects, updates) ensures k in Changes(chosen, updates) {
      var i :| 0 <= i < |objects| && k in ChangedOn(objects[i], updates);
      assert objects[i].pk in chosen && chosen[objects[i].pk] == objects[i].row;
    }
  }

  // The fields that the updates change on some object
  function Changes(objects: Objects, updates: Updates): set<Field> {
    set pk, k | pk in objects && pk in updates && k in updates[pk] && !(k in objects[pk] && objects[pk][k] == updates[pk][k]) :: k
  }

  // The rows that are updated without being listed
  function Fetched(t: Table, objects: Objects, updates: Updates): Objects {
    map pk | pk in t && pk in updates && pk !in objects :: t[pk]
  }

  // The fields that are saved: all of them, unless some are named or an update
  // changes one on a listed object
  function Written(t: Table, objects: Objects, updates: Updates, fields: set<Field>): Option<set<Field>> {
    var own := fields + Changes(objects, updates);
    if own == {} then None else Some(own + Changes(Fetched(t, objects, updates), updates))
  }

  function Only(row: Row, fields: Option<set<Field>>): Row {
    match fields
    case None => row
    case Some(names) => map k | k in row && k in names :: row[k]
  }

  function Saved(t: Table, objects: Objects, fields: Option<set<Field>>): Table {
    map pk | pk in t :: if pk in objects then t[pk] + Only(objects[pk], fields) else t[pk]
  }

  // The table after an update with objects, a dictionary and field names. Listed
  // objects are saved with the updates set on them; all other rows are updated.
  function UpdateResult(t: Table, objects: Objects, updates: Updates, fields: set<Field>): Table {
    Saved(Updated(t, updates - objects.Keys), Updated(objects, updates), Written(t, objects, updates, fields))
  }

  lemma NoObjects(t: Table, updates: Updates, fields: set<Field>)
    ensures UpdateResult(t, map[], updates, fields) == Updated(t, updates)
  {
    assert updates - {} == updates;
  }

  lemma SameWritten(t: Table, objects: Objects, updates: Updates, fields: set<Field>)
    ensures UpdateResult(t, objects, updates, fields + Changes(objects, updates)) == UpdateResult(t, objects, updates, fields)
  {
    hide Changes;
    assert fields + Changes(objects, updates) + Changes(objects, updates) == fields + Changes(objects, updates);
  }

  // What a listed object holds reaches its row exactly where the field is among
  // those written, or the row holds it already.
  lemma ReachesRow(t: Table, objects: Objects, updates: Updates, fields: set<Field>, pk: Pk, k: Field)
    requires pk in t && pk in objects && k in objects[pk]
    ensures
      var row, r := UpdateResult(t, objects, updates, fields)[pk], Written(t, objects, updates, fields);
      var held := Updated(objects, updates)[pk][k];
      k in row && row[k] == held
      <==> r.None? || k in r.value || (k in t[pk] && t[pk][k] == held)
  {
    hide Written;
  }

  // So an attribute set on an object is lost when an update changes another one,
  // and saved when there is no update.
  lemma AttributeLost(t: Table, objects: Objects, updates: Updates, pk: Pk, a: Field, b: Field)
    requires objects.Keys == {pk} && updates.Keys == {pk} && updates[pk].Keys == {b} && a != b
    requires b in objects[pk] && objects[pk][b] != updates[pk][b]
    requires pk in t && a in t[pk] && a in objects[pk]
    ensures a in UpdateResult(t, objects, updates, {})[pk] && a in UpdateResult(t, objects, map[], {})[pk]
    ensures UpdateResult(t, objects, updates, {})[pk][a] == t[pk][a]
    ensures UpdateResult(t, objects, map[], {})[pk][a] == objects[pk][a]
  {
    OneField(objects, updates, pk, b);
    NothingElse(t, objects, updates);
    NothingElse(t, objects, map[]);
    hide Written, Changes, Fetched;
  }

  lemma NothingElse(t: Table, objects: Objects, updates: Updates)
    requires updates.Keys <= objects.Keys
    ensures Written(t, objects, updates, {})
            == if Changes(objects, updates) == {} then None else Some(Changes(objects, updates))
  {
    assert Fetched(t, objects, updates) == map[];
    NothingUpdated(updates);
    hide Changes;
    assert {} + Changes(objects, updates) + {} == {} + Changes(objects, updates) == Changes(objects, updates);
  }

  lemma OneField(objects: Objects, updates: Updates, pk: Pk, k: Field)
    requires pk in objects && objects.Keys == {pk} && updates.Keys == {pk} && updates[pk].Keys == {k}
    requires k in objects[pk] && objects[pk][k] != updates[pk][k]
    ensures Changes(objects, updates) == {k} && Changes(objects, map[]) == {}
  {
    assert k in updates[pk];
  }

  // Saving the rows that were fetched and updated is updating them, as every
  // field that changed on them is written.
  lemma StoredIsResult(t: Table, given: Objects, updates: Updates, fields: Option<set<Field>>, written: Option<set<Field>>)
    requires fields.Some? ==> fields.value != {} && Changes(given, updates) <= fields.value
    requires fields.None? ==> Changes(given, updates) == {}
    requires written == if fields.Some? then Some(fields.value + Changes(Fetched(t, given, updates), updates)) else None
    ensures Saved(t, Updated(given, updates) + Updated(Fetched(t, given, updates), updates), written)
            == UpdateResult(t, given, updates, fields.GetOr({}))
  {
    var fetched := Fetched(t, given, updates);
    assert Written(t, given, updates, fields.GetOr({})) == written by {
      hide Changes;
      assert fields.Some? ==> fields.value + Changes(given, updates) == fields.value;
    }
    FetchedChanges(fetched, updates);
    hide Written, Changes, Only, SetFields, Fetched;
    forall pk | pk in t
      ensures Saved(t, Updated(given, updates) + Updated(fetched, updates), written)[pk]
              == UpdateResult(t, given, updates, fields.GetOr({}))[pk] {
      FetchedIs(t, given, updates, pk);
      if pk in fetched {
        OneFetched(t[pk], updates[pk], written);
      }
    }
  }

  lemma FetchedIs(t: Table, given: Objects, updates: Updates, pk: Pk)
    ensures pk in Fetched(t, given, updates) <==> pk in t && pk in updates && pk !in given
    ensures pk in Fetched(t, given, updates) ==> Fetched(t, given, updates)[pk] == t[pk]
  {}

  lemma FetchedChanges(objects: Objects, updates: Updates)
    ensures forall pk, k :: pk in objects && pk in updates && k in updates[pk] ==>
      k in Changes(objects, updates) || (k in objects[pk] && objects[pk][k] == updates[pk][k])
  {}

  lemma OneFetched(row: Row, update: Row, fields: Option<set<Field>>)
    ensures (fields.Some? ==> forall k :: k in update && !(k in row && row[k] == update[k]) ==> k in fields.value)
      ==> row + Only(SetFields(row, update), fields) == SetFields(row, update)
  {}

  predicate AllAre(updates: Updates, values: Row) {
    forall pk :: pk in updates ==> updates[pk] == values
  }

  ghost predicate Shared(updates: Updates) {
    exists values :: AllAre(updates, values)
  }

  lemma NotShared(updates: Updates, a: Pk, b: Pk)
    requires a in updates && b in updates && updates[a] != updates[b]
    ensures !Shared(updates)
  {
  }

  // all_updates_common: the update that all rows share, or None. The dictionaries
  // are compared by size and entry by entry.
  method AllUpdatesCommon(updates: Updates) returns (r: Option<Row>)
    ensures r.Some? <==> Shared(updates)
    ensures r.Some? ==> AllAre(updates, r.value) && (updates == map[] ==> r.value == map[])
  {
    var keys := Listed(updates.Keys);
    var values: Row := map[];
    var first := true;
    for i := 0 to |keys|
      invariant first <==> i == 0
      invariant first ==> values == map[]
      invariant forall j :: 0 <= j < i ==> updates[keys[j]] == values
    {
      assert keys[i] in keys && keys[0] in keys;
      var update := updates[keys[i]];
      if !first && |values| != |update| {
        NotShared(updates, keys[0], keys[i]);
        return None;
      }
      if !first && !SameEntries(values, update) {
        NotShared(updates, keys[0], keys[i]);
        return None;
      }
      if first {
        values := update;
      }
      first := false;
    }
    forall pk | pk in updates ensures updates[pk] == values {
      assert pk in keys;
    }
    assert |keys| > 0 ==> keys[|keys| - 1] in keys;
    assert AllAre(updates, values);
    r := Some(values);
  }

  // With as many entries on both sides, one direction is enough.
  predicate SameEntries(values: Row, update: Row)
    requires |values| == |update|
    ensures SameEntries(values, update) <==> values == update
  {
    SubsetOfSameSize(values, update);
    forall k :: k in update ==> k in values && values[k] == update[k]
  }

  lemma SubsetOfSameSize(values: Row, update: Row)
    requires |values| == |update|
    ensures (forall k :: k in update ==> k in values && values[k] == update[k]) ==> values == update
  {
    if forall k :: k in update ==> k in values && values[k] == update[k] {
      assert update.Keys <= values.Keys;
      SameSize(update.Keys, values.Keys);
    }
  }

  lemma {:induction false} SameSize<T>(a: set<T>, b: set<T>)
    requires a <= b && |a| == |b|
    ensures a == b
  {
    if a != b {
      var x :| x in b && x !in a;
      SmallerSubset(a, b - {x});
    }
  }

  lemma {:induction false} SmallerSubset<T>(a: set<T>, b: set<T>)
    requires a <= b
    ensures |a| <= |b|
  {
    if a != {} {
      var x :| x in a;
      SmallerSubset(a - {x}, b - {x});
    }
  }

  class Model {
    var rows: Table

    constructor (rows: Table)
      ensures this.rows == rows
    {
      this.rows := rows;
    }

    // update. With an instance that is saved, and nothing else.
    method Update(objects: seq<Object>, updates: Updates, updateFields: set<Field>, instance: Option<Object>)
      returns (outcome: Outcome, chosen: Objects)
      modifies this
      ensures Chosen(chosen, objects)
      ensures instance.Some? ==>
        rows == old(rows)[instance.value.pk := Lookup(old(rows), instance.value.pk).GetOr(map[]) + instance.value.row]
      ensures instance.None? ==>
        && rows == UpdateResult(old(rows), chosen, updates, updateFields + AllChanges(objects, updates))
        && outcome == OutcomeOf(old(rows), chosen, updates)
      ensures instance.None? && Consistent(objects) ==> rows == UpdateResult(old(rows), ByPk(objects), updates, updateFields)
    {
      hide UpdateResult, Updated, Changes, AllChanges, ByPk, OutcomeOf, Consistent, Chosen;
      chosen := Choose(objects);
      if instance.Some? {
        rows := rows[instance.value.pk := Lookup(rows, instance.value.pk).GetOr(map[]) + instance.value.row];
        return Stored, chosen;
      }
      // update_object_list
      var changed := UpdateList(objects, updates);
      var fields := updateFields + changed;
      ChosenChanges(chosen, objects, updates);
      ghost var was := rows;
      var listed, _ := UpdateObjects(chosen, updates);
      assert Changes(chosen, updates) <= fields;
      outcome := UpdateObjectDict(chosen, listed, updates, if fields == {} then None else Some(fields));
      if Consistent(objects) {
        ChosenIsByPk(chosen, objects, updates);
        SameWritten(was, chosen, updates, updateFields);
      }
    }

    method Choose(objects: seq<Object>) returns (chosen: Objects)
      ensures Chosen(chosen, objects)
    {
      chosen := map[];
      for i := 0 to |objects|
        invariant forall pk :: pk in chosen <==> ListedIn(objects[..i], pk)
        invariant forall pk :: pk in chosen ==> Object(pk, chosen[pk]) in objects[..i]
      {
        ghost var before := objects[..i];
        assert objects[..i + 1] == before + [objects[i]];
        OneMoreListed(before, objects[i]);
        if objects[i].pk !in chosen {
          chosen := chosen[objects[i].pk := objects[i].row];
        }
      }
      assert objects[..|objects|] == objects;
    }

    // update_objects over the listed objects: the fields that were changed
    method UpdateList(objects: seq<Object>, updates: Updates) returns (fields: set<Field>)
      ensures fields == AllChanges(objects, updates)
    {
      fields := {};
      for i := 0 to |objects|
        invariant fields == AllChanges(objects[..i], updates)
      {
        assert objects[..i + 1] == objects[..i] + [objects[i]];
        OneMoreChanged(objects[..i], objects[i], updates);
        if objects[i].pk in updates {
          var _, changed := UpdateObject(objects[i].row, updates[objects[i].pk]);
          fields := fields + changed;
        }
      }
      assert objects[..|objects|] == objects;
    }

    // update_object_dict: without objects one statement for all rows when they
    // share a non-empty update, and otherwise fetching, changing and saving each.
    // Both leave the same table.
    method UpdateObjectDict(ghost given: Objects, objects: Objects, updates: Updates, fields: Option<set<Field>>)
      returns (outcome: Outcome)
      requires objects == Updated(given, updates)
      requires fields.Some? ==> fields.value != {} && Changes(given, updates) <= fields.value
      requires fields.None? ==> Changes(given, updates) == {}
      modifies this
      ensures rows == UpdateResult(old(rows), given, updates, fields.GetOr({}))
      ensures outcome == OutcomeOf(old(rows), given, updates)
    {
      hide *;
      ghost var was := rows;
      assert objects == map[] <==> given == map[] by { UpdatedKeys(given, updates); }
      if updates.Keys <= objects.Keys && objects == map[] {
        NothingToUpdate(rows, updates, fields.GetOr({}));
        return Nothing;
      }
      if objects == map[] {
        NoObjects(rows, updates, fields.GetOr({}));
        var common := AllUpdatesCommon(updates);
        if common.Some? && common.value != map[] {
          UpdateCommonObjects(updates.Keys, common.value);
          CommonIsUpdated(was, rows, updates, common.value);
          OutcomeCommon(was, updates, common.value);
          return Common;
        }
        NotCommon(updates, common);
      }
      var toFetch := map pk | pk in rows && pk in updates && pk !in objects :: rows[pk];
      assert toFetch == Fetched(rows, given, updates) by { FetchedMap(rows, given, objects, updates); }
      var fetched, extra := UpdateObjects(toFetch, updates);
      var all := objects + fetched;
      OutcomeFetched(rows, given, objects, updates, fetched, fields.GetOr({}));
      if all == map[] {
        return Fails;
      }
      var written := if fields.Some? then Some(fields.value + extra) else None;
      StoredIsResult(rows, given, updates, fields, written);
      BulkUpdate(all, written);
      outcome := Stored;
    }

    // The fields in `values` of the rows in `ids` are set; no other field, and no
    // other row, changes.
    method UpdateCommonObjects(ids: set<Pk>, values: Row)
      modifies this
      ensures rows.Keys == old(rows).Keys
      ensures forall pk :: pk in rows && pk !in ids ==> rows[pk] == old(rows)[pk]
      ensures forall pk, k :: pk in rows && pk in ids && k in values ==> k in rows[pk] && rows[pk][k] == values[k]
      ensures forall pk :: pk in rows && pk in ids ==> rows[pk] - values.Keys == old(rows)[pk] - values.Keys
    {
      rows := map pk | pk in rows :: if pk in ids then SetFields(rows[pk], values) else rows[pk];
    }

    // update_objects: the objects with the updates set on them, and the fields
    // that this changed
    method UpdateObjects(toUpdate: Objects, updates: Updates) returns (objects: Objects, fields: set<Field>)
      ensures objects == Updated(toUpdate, updates)
      ensures fields == Changes(toUpdate, updates)
    {
      objects, fields := map[], {};
      var todo := toUpdate.Keys;
      NothingUpdated(updates);
      assert toUpdate - todo == map[];
      hide Updated, Changes, SetFields;
      while todo != {}
        invariant todo <= toUpdate.Keys
        invariant objects == Updated(toUpdate - todo, updates)
        invariant fields == Changes(toUpdate - todo, updates)
      {
        var pk :| pk in todo;
        var row, changed := toUpdate[pk], {};
        if pk in updates {
          row, changed := UpdateObject(row, updates[pk]);
        }
        OneMoreUpdated(toUpdate - todo, updates, pk, toUpdate[pk]);
        assert toUpdate - (todo - {pk}) == (toUpdate - todo)[pk := toUpdate[pk]];
        objects, fields := objects[pk := row], fields + changed;
        todo := todo - {pk};
      }
      assert toUpdate - todo == toUpdate;
    }

    // Only attributes that differ are set.
    method UpdateObject(row: Row, update: Row) returns (r: Row, changed: set<Field>)
      ensures r == SetFields(row, update)
      ensures changed == set k | k in update && !(k in row && row[k] == update[k])
    {
      r, changed := row, {};
      var todo := update.Keys;
      while todo != {}
        invariant todo <= update.Keys
        invariant r == row + map k | k in update && k !in todo :: update[k]
        invariant changed == set k | k in update && k !in todo && !(k in row && row[k] == update[k])
      {
        var k :| k in todo;
        if k !in r || r[k] != update[k] {
          r, changed := r[k := update[k]], changed + {k};
        }
        todo := todo - {k};
      }
    }

    // Each listed object's fields are written to its row, if there is one.
    method BulkUpdate(objects: Objects, fields: Option<set<Field>>)
      modifies this
      ensures rows == Saved(old(rows), objects, fields)
    {
      ghost var was := rows;
      var todo := objects.Keys;
      assert objects - todo == map[] && Saved(was, map[], fields) == was;
      hide Saved, Only;
      while todo != {}
        invariant todo <= objects.Keys && rows.Keys == was.Keys
        invariant rows == Saved(was, objects - todo, fields)
      {
        var pk :| pk in todo;
        OneMoreSaved(was, objects - todo, fields, pk, objects[pk]);
        assert objects - (todo - {pk}) == (objects - todo)[pk := objects[pk]];
        if pk in rows {
          rows := rows[pk := rows[pk] + Only(objects[pk], fields)];
        }
        todo := todo - {pk};
      }
      assert objects - todo == objects;
    }
  }

  lemma OneMoreListed(objects: seq<Object>, o: Object)
    ensures forall pk :: ListedIn(objects + [o], pk) <==> ListedIn(objects, pk) || pk == o.pk
  {
    assert (objects + [o])[|objects|] == o;
    forall pk | ListedIn(objects, pk) ensures ListedIn(objects + [o], pk) {
      var i :| 0 <= i < |objects| && objects[i].pk == pk;
      assert (objects + [o])[i].pk == pk;
    }
  }

  lemma OneMoreChanged(objects: seq<Object>, o: Object, updates: Updates)
    ensures AllChanges(objects + [o], updates) == AllChanges(objects, updates) + ChangedOn(o, updates)
  {
    hide ChangedOn;
    var more := objects + [o];
    assert more[|objects|] == o;
    forall k | k in AllChanges(objects, updates) ensures k in AllChanges(more, updates) {
      var i :| 0 <= i < |objects| && k in ChangedOn(objects[i], updates);
      assert more[i] == objects[i];
    }
  }

  // How an update went: there was nothing to do, all rows were updated at once,
  // objects were saved, or none of the rows exists and the result is never set.
  datatype Outcome = Nothing | Common | Stored | Fails

  ghost predicate SharedAndSet(updates: Updates) {
    updates != map[] && exists values: Row :: values != map[] && AllAre(updates, values)
  }

  ghost function OutcomeOf(t: Table, objects: Objects, updates: Updates): Outcome {
    if objects != map[] then Stored
    else if updates == map[] then Nothing
    else if SharedAndSet(updates) then Common
    else if updates.Keys !! t.Keys then Fails
    else Stored
  }

  // Two different updates of rows that are not there, or an empty one: the result
  // is never set.
  method NoRowIsUpdated(p: Pk, q: Pk, a: Row, b: Row) returns (first: Outcome, second: Outcome)
    requires p != q && a != b
    ensures first == Fails && second == Fails
  {
    var model := new Model(map[]);
    var two := map[p := a, q := b];
    assert two[p] == a && two[q] == b && !SharedAndSet(two);
    var chosen;
    first, chosen := model.Update([], two, {}, None);
    assert model.rows.Keys == {};
    var empty: Row := map[];
    var one := map[p := empty];
    assert one[p] == empty && !SharedAndSet(one);
    second, chosen := model.Update([], one, {}, None);
  }

  lemma NotCommon(updates: Updates, common: Option<Row>)
    requires updates != map[] && (common.Some? <==> Shared(updates))
    requires common.Some? ==> AllAre(updates, common.value) && common.value == map[]
    ensures !SharedAndSet(updates)
  {
    var pk :| pk in updates;
    forall values: Row | AllAre(updates, values) ensures values == map[] {
      assert Shared(updates);
      assert values == updates[pk];
    }
  }

  lemma CommonIsUpdated(was: Table, now: Table, updates: Updates, values: Row)
    requires AllAre(updates, values) && now.Keys == was.Keys
    requires forall pk :: pk in now && pk !in updates.Keys ==> now[pk] == was[pk]
    requires forall pk, k :: pk in now && pk in updates.Keys && k in values ==> k in now[pk] && now[pk][k] == values[k]
    requires forall pk :: pk in now && pk in updates.Keys ==> now[pk] - values.Keys == was[pk] - values.Keys
    ensures now == Updated(was, updates)
  {
    forall pk | pk in now && pk in updates.Keys ensures now[pk] == SetFields(was[pk], values) {
      assert forall k :: k in now[pk] && k !in values ==> k in now[pk] - values.Keys;
      assert forall k :: k in was[pk] && k !in values ==> k in was[pk] - values.Keys;
    }
  }

  lemma UpdatedKeys(objects: Objects, updates: Updates)
    ensures Updated(objects, updates).Keys == objects.Keys
    ensures Updated(objects, updates) == map[] <==> objects == map[]
  {
    assert Updated(objects, updates).Keys == objects.Keys;
  }

  lemma NothingToUpdate(t: Table, updates: Updates, fields: set<Field>)
    requires updates.Keys <= {}
    ensures UpdateResult(t, map[], updates, fields) == t && OutcomeOf(t, map[], updates) == Nothing
  {
    NoObjects(t, updates, fields);
    assert updates == map[];
  }

  lemma OutcomeCommon(t: Table, updates: Updates, values: Row)
    requires updates != map[] && values != map[] && AllAre(updates, values)
    ensures OutcomeOf(t, map[], updates) == Common
  {}

  lemma FetchedMap(t: Table, given: Objects, objects: Objects, updates: Updates)
    requires objects == Updated(given, updates)
    ensures (map pk | pk in t && pk in updates && pk !in objects :: t[pk]) == Fetched(t, given, updates)
  {
    UpdatedKeys(given, updates);
  }

  lemma OutcomeFetched(t: Table, given: Objects, objects: Objects, updates: Updates, fetched: Objects, fields: set<Field>)
    requires objects == Updated(given, updates) && fetched == Updated(Fetched(t, given, updates), updates)
    requires given == map[] ==> updates != map[] && !SharedAndSet(updates)
    ensures objects + fetched == map[] ==> UpdateResult(t, given, updates, fields) == t
    ensures OutcomeOf(t, given, updates) == if objects + fetched == map[] then Fails else Stored
  {
    UpdatedKeys(given, updates);
    UpdatedKeys(Fetched(t, given, updates), updates);
    assert (objects + fetched).Keys == objects.Keys + fetched.Keys;
    assert Fetched(t, given, updates).Keys == t.Keys * updates.Keys - given.Keys;
    if objects + fetched == map[] {
      assert given == map[] && t.Keys * updates.Keys == {};
      NoObjects(t, updates, fields);
    }
    hide SharedAndSet, UpdateResult;
    assert objects + fetched != map[] ==> (objects + fetched).Keys != {};
    assert t.Keys * updates.Keys != {} ==> !(updates.Keys !! t.Keys);
    assert given != map[] ==> given.Keys != {};
  }

  lemma NothingUpdated(updates: Updates)
    ensures Updated(map[], updates) == map[] && Changes(map[], updates) == {}
  {}

  lemma OneMoreUpdated(objects: Objects, updates: Updates, pk: Pk, row: Row)
    requires pk !in objects
    ensures Updated(objects[pk := row], updates)
            == Updated(objects, updates)[pk := if pk in updates then SetFields(row, updates[pk]) else row]
    ensures Changes(objects[pk := row], updates)
            == Changes(objects, updates)
               + if pk in updates then set k | k in updates[pk] && !(k in row && row[k] == updates[pk][k]) else {}
  {
    hide SetFields;
    var more := objects[pk := row];
    forall k | k in Changes(objects, updates) ensures k in Changes(more, updates) {
      var q :| q in objects && q in updates && k in updates[q] && !(k in objects[q] && objects[q][k] == updates[q][k]);
      assert more[q] == objects[q];
    }
    assert more[pk] == row;
  }

  lemma OneMoreSaved(t: Table, objects: Objects, fields: Option<set<Field>>, pk: Pk, row: Row)
    requires pk !in objects
    ensures Saved(t, objects, fields).Keys == t.Keys
    ensures pk in t ==> Saved(t, objects, fields)[pk] == t[pk]
    ensures Saved(t, objects[pk := row], fields)
            == if pk in t then Saved(t, objects, fields)[pk := t[pk] + Only(row, fields)] else Saved(t, objects, fields)
  {
    hide Only;
  }
}
