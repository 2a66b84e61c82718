// bulk_context: creates, deletes and updates sent inside it are gathered and
// carried out together at its end.

module BulkContext {
  import opened Options
  import opened Bulk

  // Which rows of a table a queryset matches: it is evaluated when it is used.
  type Query = (Pk, Row) -> bool

  datatype Send =
    | Create(objects: Table)        // new rows, with the keys they will get
    | DeleteObjects(query: Query)
    | DeleteInstance(pk: Pk)
    | Update(updates: Updates)
    // any mixture of what `update` takes
    | UpdateWith(changes: Option<Updates>, listed: Option<seq<Object>>, instance: Option<Object>, fields: set<Field>)

  // The sends that come without objects in memory
  predicate Plain(sends: seq<Send>) {
    forall i :: 0 <= i < |sends| ==> !sends[i].UpdateWith?
  }

  predicate Sendable(s: Send) {
    s.UpdateWith? ==> Consistent(s.listed.GetOr([]))
  }

  predicate AllSendable(sends: seq<Send>) {
    forall i :: 0 <= i < |sends| ==> Sendable(sends[i])
  }

  // ---- What the sends would do one by one ----

  function Immediate(t: Table, s: Send): Table
    requires Sendable(s)
  {
    match s
    case Create(objects) => t + objects
    case DeleteObjects(query) => map pk | pk in t && !query(pk, t[pk]) :: t[pk]
    case DeleteInstance(pk) => t - {pk}
    case Update(updates) => Updated(t, updates)
    case UpdateWith(changes, listed, instance, fields) =>
      // an instance is saved whole, and nothing else is looked at
      if instance.Some? then
        t[instance.value.pk := Lookup(t, instance.value.pk).GetOr(map[]) + instance.value.row]
      else UpdateResult(t, ByPk(listed.GetOr([])), changes.GetOr(map[]), fields)
  }

  function Sequential(t: Table, sends: seq<Send>): Table
    requires AllSendable(sends)
  {
    if sends == [] then t
    else Immediate(Sequential(t, sends[..|sends| - 1]), sends[|sends| - 1])
  }

  // ---- What is gathered ----

  datatype Gathered = Gathered(create: Option<Table>, deleteQs: Option<seq<Query>>, deleteIds: Option<set<Pk>>,
                               updates: Option<Updates>, objects: Option<seq<Object>>, fields: Option<set<Field>>)

  const NOTHING := Gathered(None, None, None, None, None, None)

  function Gather(g: Gathered, s: Send): Gathered {
    match s
    case Create(objects) =>
      if objects == map[] then g else g.(create := Some(g.create.GetOr(map[]) + objects))
    case DeleteObjects(query) => g.(deleteQs := Some(g.deleteQs.GetOr([]) + [query]))
    case DeleteInstance(pk) => g.(deleteIds := Some(g.deleteIds.GetOr({}) + {pk}))
    case Update(updates) => g.(updates := Some(g.updates.GetOr(map[]) + updates))
    case UpdateWith(changes, listed, instance, fields) =>
      g.(updates := if changes.Some? then Some(g.updates.GetOr(map[]) + changes.value) else g.updates,
         objects :=
           if listed.None? && instance.None? then g.objects
           else Some(g.objects.GetOr([]) + listed.GetOr([]) + (if instance.Some? then [instance.value] else [])),
         fields := if fields == {} then g.fields else Some(g.fields.GetOr({}) + fields))
  }

  function GatherAll(sends: seq<Send>): Gathered {
    if sends == [] then NOTHING
    else Gather(GatherAll(sends[..|sends| - 1]), sends[|sends| - 1])
  }

  predicate Matches(queries: seq<Query>, pk: Pk, row: Row) {
    exists i :: 0 <= i < |queries| && queries[i](pk, row)
  }

  // The deletes, with all queries evaluated on the same table, and the creates
  function Base(t: Table, g: Gathered): Table {
    (map pk | pk in t && pk !in g.deleteIds.GetOr({}) && !Matches(g.deleteQs.GetOr([]), pk, t[pk]) :: t[pk])
    + g.create.GetOr(map[])
  }

  // The callback: deletes first, then creates, then one update
  function FinishedWith(t: Table, g: Gathered, chosen: Objects): Table {
    if g.objects.None? && g.updates.None? then Base(t, g)
    else
      UpdateResult(Base(t, g), chosen, g.updates.GetOr(map[]),
                   g.fields.GetOr({}) + AllChanges(g.objects.GetOr([]), g.updates.GetOr(map[])))
  }

  function Finished(t: Table, g: Gathered): Table
    requires Consistent(g.objects.GetOr([]))
  {
    if g.objects.None? && g.updates.None? then Base(t, g)
    else UpdateResult(Base(t, g), ByPk(g.objects.GetOr([])), g.updates.GetOr(map[]), g.fields.GetOr({}))
  }

  // The same when no objects were sent
  function CarryOut(t: Table, g: Gathered): Table {
    Updated(Base(t, g), g.updates.GetOr(map[]))
  }

  lemma FinishedPlainly(t: Table, g: Gathered)
    requires g.objects.None?
    ensures Finished(t, g) == CarryOut(t, g)
  {
    assert Updated(Base(t, g), map[]) == Base(t, g);
    assert ByPk([]) == map[];
    NoObjects(Base(t, g), g.updates.GetOr(map[]), g.fields.GetOr({}));
    hide Base, UpdateResult, ByPk;
  }

  lemma FinishedConsistently(t: Table, g: Gathered, chosen: Objects)
    requires Consistent(g.objects.GetOr([])) && Chosen(chosen, g.objects.GetOr([]))
    ensures FinishedWith(t, g, chosen) == Finished(t, g)
  {
    hide Base, UpdateResult, ByPk, AllChanges, Changes, Consistent, Chosen;
    ChosenIsByPk(chosen, g.objects.GetOr([]), g.updates.GetOr(map[]));
    SameWritten(Base(t, g), chosen, g.updates.GetOr(map[]), g.fields.GetOr({}));
  }

  class BulkUpdated {
    var create: Option<Table>
    var deleteQs: Option<seq<Query>>
    var deleteIds: Option<set<Pk>>
    var updates: Option<Updates>
    var updateObjects: Option<seq<Object>>
    var updateFields: Option<set<Field>>

    ghost function Now(): Gathered
      reads this
    {
      Gathered(create, deleteQs, deleteIds, updates, updateObjects, updateFields)
    }

    constructor ()
      ensures Now() == NOTHING
    {
      create, deleteQs, deleteIds, updates, updateObjects, updateFields := None, None, None, None, None, None;
    }

    // The three handlers
    method Handle(s: Send)
      modifies this
      ensures Now() == Gather(old(Now()), s)
    {
      match s
      case Create(objects) =>
        if objects != map[] {
          create := Some(create.GetOr(map[]) + objects);
        }
      case DeleteObjects(query) =>
        if deleteQs.None? {
          deleteQs := Some([query]);
        } else {
          deleteQs := Some(deleteQs.value + [query]);
        }
        assert [] + [query] == [query];
      case DeleteInstance(pk) =>
        if deleteIds.None? {
          deleteIds := Some({});
        }
        deleteIds := Some(deleteIds.value + {pk});
      case Update(more) =>
        HandleUpdates(more);
      case UpdateWith(changes, listed, instance, fields) =>
        if fields != {} {
          if updateFields.None? {
            updateFields := Some({});
          }
          updateFields := Some(updateFields.value + fields);
        }
        if changes.Some? {
          HandleUpdates(changes.value);
        }
        HandleObjects(listed, instance);
    }

    method HandleObjects(listed: Option<seq<Object>>, instance: Option<Object>)
      modifies this`updateObjects
      ensures updateObjects ==
        if listed.None? && instance.None? then old(updateObjects)
        else Some(old(updateObjects).GetOr([]) + listed.GetOr([]) + (if instance.Some? then [instance.value] else []))
    {
      ghost var before := updateObjects.GetOr([]);
      if listed.Some? {
        updateObjects := if updateObjects.None? then listed else Some(updateObjects.value + listed.value);
      }
      assert updateObjects.GetOr([]) == before + listed.GetOr([]);
      if instance.Some? {
        updateObjects := if updateObjects.None? then Some([instance.value]) else Some(updateObjects.value + [instance.value]);
      }
      assert updateObjects.GetOr([]) == before + listed.GetOr([]) + (if instance.Some? then [instance.value] else []);
    }

    // Later dictionaries replace earlier ones whole.
    method HandleUpdates(more: Updates)
      modifies this`updates
      ensures updates == Some(old(updates).GetOr(map[]) + more)
    {
      if updates.None? {
        updates := Some(more);
      } else {
        updates := Some(updates.value + more);
      }
      assert map[] + more == more;
    }

    method Callback(model: Model) returns (ghost chosen: Objects)
      modifies model
      ensures Chosen(chosen, updateObjects.GetOr([]))
      ensures model.rows == FinishedWith(old(model.rows), Now(), chosen)
    {
      hide UpdateResult, AllChanges, OutcomeOf, Chosen, Consistent, ByPk;
      ghost var t := model.rows;
      var ids, queries := deleteIds.GetOr({}), deleteQs.GetOr([]);
      if deleteIds.Some? || deleteQs.Some? {
        model.rows := map pk | pk in model.rows && pk !in ids && !Matches(queries, pk, model.rows[pk]) :: model.rows[pk];
      }
      if create.Some? {
        model.rows := model.rows + create.value;
      }
      BaseIs(t, Now(), model.rows);
      hide Base;
      if updateObjects.Some? || updates.Some? {
        var _, c := model.Update(updateObjects.GetOr([]), updates.GetOr(map[]), updateFields.GetOr({}), None);
        chosen := c;
      } else {
        chosen := map[];
        NoneListed(chosen);
      }
    }
  }

  lemma BaseIs(t: Table, g: Gathered, rows: Table)
    requires
      var kept := if g.deleteIds.None? && g.deleteQs.None? then t
        else map pk | pk in t && pk !in g.deleteIds.GetOr({}) && !Matches(g.deleteQs.GetOr([]), pk, t[pk]) :: t[pk];
      rows == if g.create.Some? then kept + g.create.value else kept
    ensures rows == Base(t, g)
  {}

  lemma NoneListed(chosen: Objects)
    requires chosen == map[]
    ensures Chosen(chosen, [])
  {}

  // A run of sends inside one bulk_context. Up to the callback the table is not
  // touched.
  method RunInContext(model: Model, sends: seq<Send>) returns (ghost chosen: Objects)
    modifies model
    ensures Chosen(chosen, GatherAll(sends).objects.GetOr([]))
    ensures model.rows == FinishedWith(old(model.rows), GatherAll(sends), chosen)
    ensures Consistent(GatherAll(sends).objects.GetOr([])) ==> model.rows == Finished(old(model.rows), GatherAll(sends))
    ensures Plain(sends) && Compatible(sends) ==> model.rows == Sequential(old(model.rows), sends)
  {
    hide Compatible, Consistent, Chosen, FinishedWith, Finished;
    var updated := new BulkUpdated();
    for i := 0 to |sends|
      invariant fresh(updated) && updated.Now() == GatherAll(sends[..i])
      invariant model.rows == old(model.rows)
    {
      assert sends[..i + 1][..i] == sends[..i];
      updated.Handle(sends[i]);
    }
    assert sends[..|sends|] == sends;
    chosen := updated.Callback(model);
    if Consistent(GatherAll(sends).objects.GetOr([])) {
      FinishedConsistently(old(model.rows), GatherAll(sends), chosen);
    }
    if Plain(sends) && Compatible(sends) {
      PlainGathers(sends);
      PlainConsistently(old(model.rows), GatherAll(sends), chosen);
      DeferredIsSequential(old(model.rows), sends);
    }
  }

  lemma PlainConsistently(t: Table, g: Gathered, chosen: Objects)
    requires g.objects.None? && Chosen(chosen, g.objects.GetOr([]))
    ensures FinishedWith(t, g, chosen) == CarryOut(t, g)
  {
    FinishedConsistently(t, g, chosen);
    FinishedPlainly(t, g);
  }

  lemma {:induction false} PlainGathers(sends: seq<Send>)
    requires Plain(sends)
    ensures GatherAll(sends).objects.None? && GatherAll(sends).fields.None?
  {
    if sends != [] {
      PlainGathers(sends[..|sends| - 1]);
    }
  }

  // ---- Row by row ----

  // What a send does to one row
  function OneSent(row: Option<Row>, s: Send, pk: Pk): Option<Row>
    requires !s.UpdateWith?
  {
    match s
    case Create(objects) => if pk in objects then Some(objects[pk]) else row
    case DeleteObjects(query) => if row.Some? && query(pk, row.value) then None else row
    case DeleteInstance(p) => if pk == p then None else row
    case Update(updates) => if row.Some? && pk in updates then Some(SetFields(row.value, updates[pk])) else row
  }

  function AllSent(row: Option<Row>, sends: seq<Send>, pk: Pk): Option<Row>
    requires Plain(sends)
  {
    if sends == [] then row else OneSent(AllSent(row, sends[..|sends| - 1], pk), sends[|sends| - 1], pk)
  }

  function UpdateOf(g: Gathered, pk: Pk): Row {
    Lookup(g.updates.GetOr(map[]), pk).GetOr(map[])
  }

  // What the callback does to it
  function Deferred(row: Option<Row>, g: Gathered, pk: Pk): Option<Row> {
    var kept := if row.Some? && (pk in g.deleteIds.GetOr({}) || Matches(g.deleteQs.GetOr([]), pk, row.value)) then None else row;
    var there := if pk in g.create.GetOr(map[]) then Some(g.create.GetOr(map[])[pk]) else kept;
    if there.Some? then Some(SetFields(there.value, UpdateOf(g, pk))) else None
  }

  lemma {:induction false} SequentialRow(t: Table, sends: seq<Send>, pk: Pk)
    requires Plain(sends)
    ensures Lookup(Sequential(t, sends), pk) == AllSent(Lookup(t, pk), sends, pk)
  {
    if sends != [] {
      SequentialRow(t, sends[..|sends| - 1], pk);
    }
  }

  lemma DeferredRow(t: Table, g: Gathered, pk: Pk)
    ensures Lookup(CarryOut(t, g), pk) == Deferred(Lookup(t, pk), g, pk)
  {
    forall row { SetNothing(row); }
    hide SetFields;
  }

  // The row comes to the same, whatever it holds.
  ghost predicate RowsAgree(sends: seq<Send>, pk: Pk)
    requires Plain(sends)
  {
    forall row :: Deferred(row, GatherAll(sends), pk) == AllSent(row, sends, pk)
  }

  // A run can be deferred, whatever the table, exactly when it can for every row,
  // whatever it holds.
  lemma DeferredIff(sends: seq<Send>)
    requires Plain(sends)
    ensures (forall t: Table :: CarryOut(t, GatherAll(sends)) == Sequential(t, sends)) <==> forall pk :: RowsAgree(sends, pk)
  {
    hide CarryOut, Sequential, Deferred, AllSent, GatherAll;
    if forall pk :: RowsAgree(sends, pk) {
      forall t: Table ensures CarryOut(t, GatherAll(sends)) == Sequential(t, sends) {
        SameTables(t, sends);
      }
    } else {
      var pk :| !RowsAgree(sends, pk);
      var row :| Deferred(row, GatherAll(sends), pk) != AllSent(row, sends, pk);
      var t := TellingTable(sends, pk, row);
    }
  }

  lemma SameTables(t: Table, sends: seq<Send>)
    requires Plain(sends) && forall pk :: RowsAgree(sends, pk)
    ensures CarryOut(t, GatherAll(sends)) == Sequential(t, sends)
  {
    hide CarryOut, Sequential, Deferred, AllSent, GatherAll;
    var a, b := CarryOut(t, GatherAll(sends)), Sequential(t, sends);
    forall pk ensures Lookup(a, pk) == Lookup(b, pk) {
      assert RowsAgree(sends, pk);
      DeferredRow(t, GatherAll(sends), pk);
      SequentialRow(t, sends, pk);
    }
    assert forall pk :: (pk in a <==> Lookup(a, pk).Some?) && (pk in b <==> Lookup(b, pk).Some?);
  }

  lemma TellingTable(sends: seq<Send>, pk: Pk, row: Option<Row>) returns (t: Table)
    requires Plain(sends) && Deferred(row, GatherAll(sends), pk) != AllSent(row, sends, pk)
    ensures CarryOut(t, GatherAll(sends)) != Sequential(t, sends)
  {
    hide CarryOut, Sequential, Deferred, AllSent, GatherAll;
    t := if row.Some? then map[pk := row.value] else map[];
    assert Lookup(t, pk) == row;
    DeferredRow(t, GatherAll(sends), pk);
    SequentialRow(t, sends, pk);
  }

  // ---- When deferring changes nothing ----

  // A send that can wait: rows are created before they are updated or deleted in
  // the run, a query answers the same on a row before and after the updates that
  // wait, and an update of a row updated before sets at least the same fields,
  // since its dictionary replaces the earlier one.
  ghost predicate Fits(g: Gathered, s: Send) {
    forall pk :: FitsRow(g, s, pk)
  }

  ghost predicate FitsRow(g: Gathered, s: Send, pk: Pk) {
    match s
    case Create(objects) => pk in objects ==> pk !in g.updates.GetOr(map[])
    case DeleteObjects(query) =>
      if pk in g.create.GetOr(map[]) then !query(pk, SetFields(g.create.GetOr(map[])[pk], UpdateOf(g, pk)))
      else forall row :: query(pk, row) == query(pk, SetFields(row, UpdateOf(g, pk)))
    case DeleteInstance(p) => pk == p ==> pk !in g.create.GetOr(map[])
    case Update(updates) =>
      pk in updates && pk in g.updates.GetOr(map[]) ==> g.updates.GetOr(map[])[pk].Keys <= updates[pk].Keys
    case UpdateWith(_, _, _, _) => true
  }

  ghost predicate Compatible(sends: seq<Send>) {
    forall n :: 0 <= n < |sends| ==> Fits(GatherAll(sends[..n]), sends[n])
  }

  lemma DeferredIsSequential(t: Table, sends: seq<Send>)
    requires Plain(sends) && Compatible(sends)
    ensures CarryOut(t, GatherAll(sends)) == Sequential(t, sends)
  {
    hide CarryOut, Sequential, Deferred, AllSent, GatherAll;
    forall pk ensures RowsAgree(sends, pk) {
      forall row ensures Deferred(row, GatherAll(sends), pk) == AllSent(row, sends, pk) {
        CompatibleRow(row, sends, pk);
      }
    }
    SameTables(t, sends);
  }

  lemma {:induction false} CompatibleRow(row: Option<Row>, sends: seq<Send>, pk: Pk)
    requires Plain(sends) && Compatible(sends)
    ensures Deferred(row, GatherAll(sends), pk) == AllSent(row, sends, pk)
  {
    hide Fits, OneSent;
    if sends == [] {
      NothingDeferred(row, pk);
    } else {
      var init, s := sends[..|sends| - 1], sends[|sends| - 1];
      forall n | 0 <= n < |init| ensures Fits(GatherAll(init[..n]), init[n]) {
        assert init[..n] == sends[..n];
      }
      CompatibleRow(row, init, pk);
      OneMoreRow(row, GatherAll(init), s, pk);
    }
  }

  lemma NothingDeferred(row: Option<Row>, pk: Pk)
    ensures Deferred(row, NOTHING, pk) == row
  {
    if row.Some? {
      SetNothing(row.value);
    }
  }

  lemma OneMoreRow(row: Option<Row>, g: Gathered, s: Send, pk: Pk)
    requires Fits(g, s) && !s.UpdateWith?
    ensures Deferred(row, Gather(g, s), pk) == OneSent(Deferred(row, g, pk), s, pk)
  {
    assert FitsRow(g, s, pk);
    match s
    case Create(objects) => OneMoreCreate(row, g, objects, pk);
    case DeleteObjects(query) => OneMoreQuery(row, g, query, pk);
    case DeleteInstance(p) =>
    case Update(updates) => OneMoreUpdate(row, g, updates, pk);
  }

  lemma OneMoreCreate(row: Option<Row>, g: Gathered, objects: Table, pk: Pk)
    requires FitsRow(g, Create(objects), pk)
    ensures Deferred(row, Gather(g, Create(objects)), pk) == OneSent(Deferred(row, g, pk), Create(objects), pk)
  {
    if pk in objects {
      SetNothing(objects[pk]);
    }
    hide SetFields, Matches;
  }

  lemma OneMoreQuery(row: Option<Row>, g: Gathered, query: Query, pk: Pk)
    requires FitsRow(g, DeleteObjects(query), pk)
    ensures Deferred(row, Gather(g, DeleteObjects(query)), pk) == OneSent(Deferred(row, g, pk), DeleteObjects(query), pk)
  {
    if row.Some? {
      OneMoreMatch(g.deleteQs.GetOr([]), query, pk, row.value);
    }
    hide SetFields, Matches;
  }

  lemma OneMoreMatch(queries: seq<Query>, query: Query, pk: Pk, row: Row)
    ensures Matches(queries + [query], pk, row) <==> Matches(queries, pk, row) || query(pk, row)
  {
    assert (queries + [query])[|queries|] == query;
    if i :| 0 <= i < |queries| && queries[i](pk, row) {
      assert (queries + [query])[i](pk, row);
    }
  }

  lemma OneMoreUpdate(row: Option<Row>, g: Gathered, updates: Updates, pk: Pk)
    requires FitsRow(g, Update(updates), pk)
    ensures Deferred(row, Gather(g, Update(updates)), pk) == OneSent(Deferred(row, g, pk), Update(updates), pk)
  {
    forall r: Row ensures pk in updates ==>
      SetFields(SetFields(r, UpdateOf(g, pk)), updates[pk]) == SetFields(r, updates[pk]) {
      if pk in updates {
        Covered(r, UpdateOf(g, pk), updates[pk]);
      }
    }
    hide SetFields, Matches;
  }

  lemma Covered(row: Row, before: Row, update: Row)
    requires before.Keys <= update.Keys
    ensures SetFields(SetFields(row, before), update) == SetFields(row, update)
  {
  }

  // ---- Updates alone: the exact condition ----

  function Updating(us: seq<Updates>): (r: seq<Send>)
    ensures Plain(r)
  {
    seq(|us|, i requires 0 <= i < |us| => Update(us[i]))
  }

  function Last(us: seq<Updates>): Updates {
    if us == [] then map[] else Last(us[..|us| - 1]) + us[|us| - 1]
  }

  // Everything the updates say about one row
  function Said(us: seq<Updates>, pk: Pk): Row {
    if us == [] then map[]
    else
      var before, u := Said(us[..|us| - 1], pk), us[|us| - 1];
      if pk in u then SetFields(before, u[pk]) else before
  }

  // The last update of each row sets every field that any update of it sets.
  predicate LastCovers(us: seq<Updates>) {
    forall pk :: pk in Last(us) ==> Said(us, pk).Keys <= Last(us)[pk].Keys
  }

  lemma {:induction false} SaidAndLast(us: seq<Updates>, pk: Pk)
    ensures pk !in Last(us) ==> Said(us, pk) == map[]
    ensures pk in Last(us) ==> forall k :: k in Last(us)[pk] ==>
      k in Said(us, pk) && Said(us, pk)[k] == Last(us)[pk][k]
  {
    if us != [] {
      SaidAndLast(us[..|us| - 1], pk);
    }
  }

  lemma SetTwice(row: Row, a: Row, b: Row)
    ensures SetFields(SetFields(row, a), b) == SetFields(row, SetFields(a, b))
  {
  }

  lemma SetNothing(row: Row)
    ensures SetFields(row, map[]) == row
  {
  }

  lemma {:induction false} UpdatesSequential(t: Table, us: seq<Updates>, pk: Pk)
    ensures pk in Sequential(t, Updating(us)) <==> pk in t
    ensures pk in t ==> Sequential(t, Updating(us))[pk] == SetFields(t[pk], Said(us, pk))
  {
    if us == [] {
      if pk in t {
        SetNothing(t[pk]);
      }
    } else {
      var init, u := us[..|us| - 1], us[|us| - 1];
      assert Updating(us)[..|us| - 1] == Updating(init);
      UpdatesSequential(t, init, pk);
      if pk in t && pk in u {
        SetTwice(t[pk], Said(init, pk), u[pk]);
      }
    }
  }

  lemma {:induction false} UpdatesGathered(us: seq<Updates>)
    ensures GatherAll(Updating(us)) == NOTHING.(updates := if us == [] then None else Some(Last(us)))
  {
    if us != [] {
      assert Updating(us)[..|us| - 1] == Updating(us[..|us| - 1]);
      UpdatesGathered(us[..|us| - 1]);
      assert map[] + us[|us| - 1] == us[|us| - 1];
    }
  }

  lemma UpdatesDeferred(t: Table, us: seq<Updates>, pk: Pk)
    ensures pk in CarryOut(t, GatherAll(Updating(us))) <==> pk in t
    ensures pk in t && pk in Last(us) ==>
      CarryOut(t, GatherAll(Updating(us)))[pk] == SetFields(t[pk], Last(us)[pk])
    ensures pk in t && pk !in Last(us) ==> CarryOut(t, GatherAll(Updating(us)))[pk] == t[pk]
  {
    UpdatesGathered(us);
    assert t - ({} + {}) + map[] == t;
  }

  // Deferring a run of updates gives the same table, whatever the table, exactly
  // when the last update of each row covers the others.
  lemma DeferredUpdates(us: seq<Updates>)
    ensures (forall t: Table :: CarryOut(t, GatherAll(Updating(us))) == Sequential(t, Updating(us)))
            <==> LastCovers(us)
  {
    if LastCovers(us) {
      forall t: Table ensures CarryOut(t, GatherAll(Updating(us))) == Sequential(t, Updating(us)) {
        var a, b := CarryOut(t, GatherAll(Updating(us))), Sequential(t, Updating(us));
        forall pk ensures (pk in a <==> pk in b) && (pk in a ==> a[pk] == b[pk]) {
          CoveredRow(us, t, pk);
        }
        hide *;
      }
    } else {
      var pk :| pk in Last(us) && !(Said(us, pk).Keys <= Last(us)[pk].Keys);
      var t := LostField(us, pk);
    }
  }

  lemma CoveredRow(us: seq<Updates>, t: Table, pk: Pk)
    requires LastCovers(us)
    ensures
      var a, b := CarryOut(t, GatherAll(Updating(us))), Sequential(t, Updating(us));
      (pk in a <==> pk in b) && (pk in a ==> a[pk] == b[pk])
  {
    UpdatesDeferred(t, us, pk);
    UpdatesSequential(t, us, pk);
    SaidIsLast(us, pk);
    hide CarryOut, Sequential, SetFields;
  }

  lemma SaidIsLast(us: seq<Updates>, pk: Pk)
    requires LastCovers(us)
    ensures Said(us, pk) == if pk in Last(us) then Last(us)[pk] else map[]
    ensures forall row :: SetFields(row, map[]) == row
  {
    SaidAndLast(us, pk);
    forall row { SetNothing(row); }
  }

  // A row that already holds another value in the field that gets lost
  lemma LostField(us: seq<Updates>, pk: Pk) returns (t: Table)
    requires pk in Last(us) && !(Said(us, pk).Keys <= Last(us)[pk].Keys)
    ensures CarryOut(t, GatherAll(Updating(us))) != Sequential(t, Updating(us))
  {
    var k :| k in Said(us, pk) && k !in Last(us)[pk];
    var row: Row := map[k := Said(us, pk)[k] + 1];
    t := map[pk := row];
    UpdatesSequential(t, us, pk);
    UpdatesDeferred(t, us, pk);
    assert SetFields(row, Said(us, pk))[k] != SetFields(row, Last(us)[pk])[k];
  }

  // ---- Deletes of rows fixed in advance: the exact condition, key by key ----

  // The query goes by the key alone.
  ghost predicate Fixed(query: Query) {
    forall pk, a, b :: query(pk, a) == query(pk, b)
  }

  ghost predicate AllFixed(sends: seq<Send>) {
    forall i :: 0 <= i < |sends| && sends[i].DeleteObjects? ==> Fixed(sends[i].query)
  }

  // What a run does to one row: fields are set on it if it exists, or it becomes
  // something else whatever it was.
  datatype Effect = Sets(fields: Row) | Becomes(row: Option<Row>)

  function Applied(e: Effect, row: Option<Row>): Option<Row> {
    match e
    case Sets(fields) => if row.Some? then Some(SetFields(row.value, fields)) else None
    case Becomes(r) => r
  }

  const ANY_ROW: Row := map[]

  function Then(e: Effect, s: Send, pk: Pk): Effect
    requires !s.UpdateWith?
  {
    match s
    case Create(objects) => if pk in objects then Becomes(Some(objects[pk])) else e
    case DeleteObjects(query) => if query(pk, ANY_ROW) then Becomes(None) else e
    case DeleteInstance(p) => if pk == p then Becomes(None) else e
    case Update(updates) =>
      if pk !in updates then e
      else match e
        case Sets(fields) => Sets(SetFields(fields, updates[pk]))
        case Becomes(r) => Becomes(if r.Some? then Some(SetFields(r.value, updates[pk])) else None)
  }

  // One send after the other
  function InOrder(sends: seq<Send>, pk: Pk): Effect
    requires Plain(sends)
  {
    if sends == [] then Sets(map[]) else Then(InOrder(sends[..|sends| - 1], pk), sends[|sends| - 1], pk)
  }

  // Gathered: the last created row, or a deletion, and on top of it the last update
  function AtOnce(g: Gathered, pk: Pk): Effect {
    if pk in g.create.GetOr(map[]) then Becomes(Some(SetFields(g.create.GetOr(map[])[pk], UpdateOf(g, pk))))
    else if pk in g.deleteIds.GetOr({}) || Matches(g.deleteQs.GetOr([]), pk, ANY_ROW) then Becomes(None)
    else Sets(UpdateOf(g, pk))
  }

  lemma {:induction false} InOrderIs(row: Option<Row>, sends: seq<Send>, pk: Pk)
    requires Plain(sends) && AllFixed(sends)
    ensures AllSent(row, sends, pk) == Applied(InOrder(sends, pk), row)
  {
    hide Then, OneSent, Fixed;
    if sends == [] {
      if row.Some? {
        SetNothing(row.value);
      }
    } else {
      var init, s := sends[..|sends| - 1], sends[|sends| - 1];
      InOrderIs(row, init, pk);
      hide Applied;
      OneMoreEffect(row, s, InOrder(init, pk), pk);
    }
  }

  lemma OneMoreEffect(row: Option<Row>, s: Send, e: Effect, pk: Pk)
    requires !s.UpdateWith? && (s.DeleteObjects? ==> Fixed(s.query))
    ensures OneSent(Applied(e, row), s, pk) == Applied(Then(e, s, pk), row)
  {
    if s.Update? && pk in s.updates && e.Sets? && row.Some? {
      SetTwice(row.value, e.fields, s.updates[pk]);
    }
    hide SetFields;
  }

  lemma {:induction false} GatheredFixed(sends: seq<Send>, pk: Pk, row: Row)
    requires AllFixed(sends)
    ensures Matches(GatherAll(sends).deleteQs.GetOr([]), pk, row) == Matches(GatherAll(sends).deleteQs.GetOr([]), pk, ANY_ROW)
  {
    if sends != [] {
      var init, s := sends[..|sends| - 1], sends[|sends| - 1];
      GatheredFixed(init, pk, row);
      if s.DeleteObjects? {
        OneMoreMatch(GatherAll(init).deleteQs.GetOr([]), s.query, pk, row);
        OneMoreMatch(GatherAll(init).deleteQs.GetOr([]), s.query, pk, ANY_ROW);
      }
      hide Matches;
    }
  }

  lemma AtOnceIs(row: Option<Row>, sends: seq<Send>, pk: Pk)
    requires AllFixed(sends)
    ensures Deferred(row, GatherAll(sends), pk) == Applied(AtOnce(GatherAll(sends), pk), row)
  {
    if row.Some? {
      GatheredFixed(sends, pk, row.value);
    }
    hide SetFields, Matches, GatherAll;
  }

  lemma SameEffect(a: Effect, b: Effect)
    ensures (forall row :: Applied(a, row) == Applied(b, row)) <==> a == b
  {
    if forall row :: Applied(a, row) == Applied(b, row) {
      assert Applied(a, None) == Applied(b, None) && Applied(a, Some(ANY_ROW)) == Applied(b, Some(ANY_ROW));
      assert a.Sets? ==> SetFields(ANY_ROW, a.fields) == a.fields;
      assert b.Sets? ==> SetFields(ANY_ROW, b.fields) == b.fields;
    }
  }

  // Such a run can be deferred, whatever the table, exactly when it comes to the
  // same for every key.
  lemma DeferredFixedIff(sends: seq<Send>)
    requires Plain(sends) && AllFixed(sends)
    ensures (forall t: Table :: CarryOut(t, GatherAll(sends)) == Sequential(t, sends))
            <==> forall pk :: AtOnce(GatherAll(sends), pk) == InOrder(sends, pk)
  {
    hide *;
    DeferredIff(sends);
    forall pk ensures RowsAgree(sends, pk) <==> AtOnce(GatherAll(sends), pk) == InOrder(sends, pk) {
      AgreeIff(sends, pk);
    }
  }

  lemma AgreeIff(sends: seq<Send>, pk: Pk)
    requires Plain(sends) && AllFixed(sends)
    ensures RowsAgree(sends, pk) <==> AtOnce(GatherAll(sends), pk) == InOrder(sends, pk)
  {
    hide AtOnce, InOrder, Applied, GatherAll, Deferred, AllSent, AllFixed, Plain;
    forall row ensures Deferred(row, GatherAll(sends), pk) == Applied(AtOnce(GatherAll(sends), pk), row)
                       && AllSent(row, sends, pk) == Applied(InOrder(sends, pk), row) {
      AtOnceIs(row, sends, pk);
      InOrderIs(row, sends, pk);
    }
    SameEffect(AtOnce(GatherAll(sends), pk), InOrder(sends, pk));
  }

  // A row created and then deleted is there after all.
  lemma CreatedThenDeleted(pk: Pk, row: Row)
    ensures
      var sends, t: Table := [Create(map[pk := row]), DeleteInstance(pk)], map[];
      pk in CarryOut(t, GatherAll(sends)) && pk !in Sequential(t, sends)
  {
    var create, delete := Create(map[pk := row]), DeleteInstance(pk);
    TwoSends(create, delete);
    hide GatherAll, Sequential;
  }

  lemma TwoSends(a: Send, b: Send)
    requires !a.UpdateWith? && !b.UpdateWith?
    ensures GatherAll([a, b]) == Gather(Gather(NOTHING, a), b)
    ensures forall t: Table :: Sequential(t, [a, b]) == Immediate(Immediate(t, a), b)
    ensures forall row, pk :: AllSent(row, [a, b], pk) == OneSent(OneSent(row, a, pk), b, pk)
  {
    hide Gather, Immediate, OneSent;
    assert [a, b][..1] == [a] && [a][..0] == [];
    assert GatherAll([a]) == Gather(GatherAll([a][..0]), a);
    forall t: Table ensures Sequential(t, [a]) == Immediate(t, a) {
      assert Sequential(t, [a]) == Immediate(Sequential(t, [a][..0]), a);
    }
    forall row, pk ensures AllSent(row, [a], pk) == OneSent(row, a, pk) {
      assert AllSent(row, [a], pk) == OneSent(AllSent(row, [a][..0], pk), a, pk);
    }
  }

  // The update does not change what the query answers.
  ghost predicate Steady(updates: Updates, query: Query, pk: Pk) {
    pk in updates ==> forall row :: query(pk, row) == query(pk, SetFields(row, updates[pk]))
  }

  // An update followed by a delete can be deferred exactly when that is so for
  // every row that is updated.
  lemma UpdateThenDelete(updates: Updates, query: Query)
    ensures
      var sends := [Update(updates), DeleteObjects(query)];
      (forall t: Table :: CarryOut(t, GatherAll(sends)) == Sequential(t, sends))
      <==> forall pk :: Steady(updates, query, pk)
  {
    var sends := [Update(updates), DeleteObjects(query)];
    hide *;
    assert Plain(sends) by { TwoPlain(updates, query); }
    DeferredIff(sends);
    forall pk ensures RowsAgree(sends, pk) <==> Steady(updates, query, pk) {
      SteadyIff(updates, query, pk);
    }
  }

  lemma TwoPlain(updates: Updates, query: Query)
    ensures Plain([Update(updates), DeleteObjects(query)])
  {}

  lemma SteadyIff(updates: Updates, query: Query, pk: Pk)
    ensures RowsAgree([Update(updates), DeleteObjects(query)], pk) <==> Steady(updates, query, pk)
  {
    hide GatherAll, AllSent, Deferred, SetFields, Plain;
    var sends := [Update(updates), DeleteObjects(query)];
    TwoPlain(updates, query);
    if RowsAgree(sends, pk) && pk in updates {
      forall row ensures query(pk, row) == query(pk, SetFields(row, updates[pk])) {
        UpdatedThenMatched(updates, query, pk, row);
        assert Deferred(Some(row), GatherAll(sends), pk) == AllSent(Some(row), sends, pk);
      }
    }
    if Steady(updates, query, pk) {
      forall row ensures Deferred(row, GatherAll(sends), pk) == AllSent(row, sends, pk) {
        UpdatedThenMatched(updates, query, pk, row.GetOr(ANY_ROW));
        assert row == None || row == Some(row.GetOr(ANY_ROW));
      }
    }
  }

  lemma UpdatedThenMatched(updates: Updates, query: Query, pk: Pk, row: Row)
    ensures
      var sends := [Update(updates), DeleteObjects(query)];
      && (Deferred(Some(row), GatherAll(sends), pk) == AllSent(Some(row), sends, pk)
          <==> (pk in updates ==> query(pk, row) == query(pk, SetFields(row, updates[pk]))))
      && Deferred(None, GatherAll(sends), pk) == AllSent(None, sends, pk)
  {
    var a, b := Update(updates), DeleteObjects(query);
    TwoSends(a, b);
    hide GatherAll, AllSent;
    var g := Gather(Gather(NOTHING, a), b);
    assert [] + [query] == [query] && map[] + updates == updates;
    assert g == NOTHING.(updates := Some(updates), deleteQs := Some([query]));
    OneMatch(query, pk, row);
    SetNothing(row);
    hide Matches, SetFields;
  }

  lemma OneMatch(query: Query, pk: Pk, row: Row)
    ensures Matches([query], pk, row) <==> query(pk, row)
  {
    assert [query][0] == query;
  }

  // A row that is updated to be matched is deleted in order, and stays deferred.
  lemma MatchedTooLate(pk: Pk, k: Field)
    ensures
      var updates: Updates := map[pk := map[k := 5]];
      var query: Query := (p, row: Row) => k in row && row[k] == 5;
      var sends := [Update(updates), DeleteObjects(query)];
      exists t: Table :: CarryOut(t, GatherAll(sends)) != Sequential(t, sends)
  {
    var updates: Updates := map[pk := map[k := 5]];
    var query: Query := (p, row: Row) => k in row && row[k] == 5;
    UpdateThenDelete(updates, query);
    hide CarryOut, Sequential, GatherAll;
    assert query(pk, ANY_ROW) != query(pk, SetFields(ANY_ROW, updates[pk]));
    assert !Steady(updates, query, pk);
  }
}
