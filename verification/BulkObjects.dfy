// Objects in memory sent to be saved inside a bulk_context: the field names of
// all sends are joined, and all objects are saved in all of them.

module BulkObjects {
  import opened Options
  import opened Bulk
  import opened BulkContext

  // A list of objects, or one instance
  predicate ObjectSend(s: Send) {
    s.UpdateWith? && s.changes.None? && (s.listed.Some? <==> s.instance.None?)
  }

  predicate ObjectSends(sends: seq<Send>) {
    forall i :: 0 <= i < |sends| ==> ObjectSend(sends[i])
  }

  function ObjectsOf(s: Send): seq<Object>
    requires ObjectSend(s)
  {
    if s.listed.Some? then s.listed.value else [s.instance.value]
  }

  // There is one object in memory for each row, however often it is sent.
  predicate InMemory(s: Send, rows: Objects)
    requires ObjectSend(s)
  {
    forall i :: 0 <= i < |ObjectsOf(s)| ==> ObjectsOf(s)[i].pk in rows && rows[ObjectsOf(s)[i].pk] == ObjectsOf(s)[i].row
  }

  predicate AllInMemory(sends: seq<Send>, rows: Objects)
    requires ObjectSends(sends)
  {
    forall i :: 0 <= i < |sends| ==> InMemory(sends[i], rows)
  }

  // The fields that a send on its own saves: an instance is saved whole.
  function Saves(s: Send): Option<set<Field>>
    requires ObjectSend(s)
  {
    if s.instance.Some? || s.fields == {} then None else Some(s.fields)
  }

  predicate IsIn(k: Field, fields: Option<set<Field>>) {
    fields.None? || k in fields.value
  }

  predicate SentFor(sends: seq<Send>, pk: Pk)
    requires ObjectSends(sends)
  {
    exists i :: 0 <= i < |sends| && ListedIn(ObjectsOf(sends[i]), pk)
  }

  // Sent one by one, the field of the row is saved.
  predicate SavedFor(sends: seq<Send>, pk: Pk, k: Field)
    requires ObjectSends(sends)
  {
    exists i :: 0 <= i < |sends| && ListedIn(ObjectsOf(sends[i]), pk) && IsIn(k, Saves(sends[i]))
  }

  // All the fields that are named, for whatever object
  function Named(sends: seq<Send>): set<Field>
    requires ObjectSends(sends)
  {
    set i, k | 0 <= i < |sends| && k in sends[i].fields :: k
  }

  function Together(sends: seq<Send>): Option<set<Field>>
    requires ObjectSends(sends)
  {
    if Named(sends) == {} then None else Some(Named(sends))
  }

  // ---- One by one ----

  function Part(sends: seq<Send>, rows: Objects, pk: Pk): Row
    requires ObjectSends(sends)
  {
    if pk in rows then map k | k in rows[pk] && SavedFor(sends, pk, k) :: rows[pk][k] else map[]
  }

  lemma SendIsConsistent(s: Send, rows: Objects)
    requires ObjectSend(s) && InMemory(s, rows)
    ensures Sendable(s) && Consistent(ObjectsOf(s))
  {
    assert Consistent(ObjectsOf(s));
    assert s.listed.Some? ==> s.listed.GetOr([]) == ObjectsOf(s);
    assert s.listed.None? ==> s.listed.GetOr([]) == [];
  }

  lemma AllAreSendable(sends: seq<Send>, rows: Objects)
    requires ObjectSends(sends) && AllInMemory(sends, rows)
    ensures AllSendable(sends)
  {
    forall i | 0 <= i < |sends| ensures Sendable(sends[i]) {
      SendIsConsistent(sends[i], rows);
    }
  }

  lemma OneSave(t: Table, s: Send, rows: Objects, pk: Pk)
    requires ObjectSend(s) && InMemory(s, rows) && rows.Keys <= t.Keys && Sendable(s)
    ensures Immediate(t, s).Keys == t.Keys
    ensures pk in t ==>
      Immediate(t, s)[pk] == t[pk] + (if ListedIn(ObjectsOf(s), pk) then Only(rows[pk], Saves(s)) else map[])
  {
    hide UpdateResult, ByPk, Consistent, Only, Saved;
    SendIsConsistent(s, rows);
    if s.instance.Some? {
      OneInstance(t, s, rows, pk);
    } else {
      ListedIsByPk(s.listed.value, rows, pk);
      SavedObjects(t, ByPk(s.listed.value), s.fields);
      SavedRow(t, ByPk(s.listed.value), Saves(s), pk);
      hide ListedIn;
    }
  }

  lemma OneInstance(t: Table, s: Send, rows: Objects, pk: Pk)
    requires ObjectSend(s) && InMemory(s, rows) && rows.Keys <= t.Keys && Sendable(s) && s.instance.Some?
    ensures Immediate(t, s).Keys == t.Keys
    ensures pk in t ==>
      Immediate(t, s)[pk] == t[pk] + (if ListedIn(ObjectsOf(s), pk) then Only(rows[pk], Saves(s)) else map[])
  {
    hide UpdateResult, ByPk, Consistent;
    assert ObjectsOf(s)[0] == s.instance.value;
    assert ListedIn(ObjectsOf(s), pk) <==> pk == s.instance.value.pk;
    if pk in t {
      assert t[pk] + map[] == t[pk];
    }
  }

  lemma ListedIsByPk(objects: seq<Object>, rows: Objects, pk: Pk)
    requires Consistent(objects)
    requires forall i :: 0 <= i < |objects| ==> objects[i].pk in rows && rows[objects[i].pk] == objects[i].row
    ensures pk in ByPk(objects) <==> ListedIn(objects, pk)
    ensures pk in ByPk(objects) ==> pk in rows && ByPk(objects)[pk] == rows[pk]
    ensures ByPk(objects).Keys <= rows.Keys
  {}

  // Without a dictionary the objects are saved in the fields named, or whole.
  lemma SavedObjects(t: Table, objects: Objects, fields: set<Field>)
    ensures UpdateResult(t, objects, map[], fields) == Saved(t, objects, if fields == {} then None else Some(fields))
  {
    var none: Updates := map[];
    assert none - objects.Keys == none && Updated(t, none) == t && Updated(objects, none) == objects;
    assert Changes(objects, none) == {} && Fetched(t, objects, none) == map[];
    NothingUpdated(none);
    assert fields + {} == fields && fields + {} + {} == fields;
    hide Saved, Updated, Changes, Fetched;
  }

  lemma {:induction false} SequentialPart(t: Table, sends: seq<Send>, rows: Objects, pk: Pk)
    requires ObjectSends(sends) && AllInMemory(sends, rows) && AllSendable(sends) && rows.Keys <= t.Keys
    ensures Sequential(t, sends).Keys == t.Keys
    ensures pk in t ==> Sequential(t, sends)[pk] == t[pk] + Part(sends, rows, pk)
  {
    hide *;
    if sends == [] {
      NothingSaved(t, rows, pk);
    } else {
      var init, s := sends[..|sends| - 1], sends[|sends| - 1];
      LastSend(t, sends, rows);
      SequentialPart(t, init, rows, pk);
      OneSave(Sequential(t, init), s, rows, pk);
      PartMore(init, s, rows, pk);
      assert sends == init + [s];
      if pk in t {
        Overlaid(t[pk], Part(init, rows, pk), if ListedIn(ObjectsOf(s), pk) then Only(rows[pk], Saves(s)) else map[]);
      }
    }
  }

  lemma Overlaid(a: Row, b: Row, c: Row)
    ensures a + b + c == a + (b + c)
  {}

  lemma NothingSaved(t: Table, rows: Objects, pk: Pk)
    ensures Sequential(t, []) == t && ObjectSends([]) && Part([], rows, pk) == map[]
    ensures pk in t ==> t[pk] + map[] == t[pk]
  {
    assert Part([], rows, pk) == map[];
  }

  lemma LastSend(t: Table, sends: seq<Send>, rows: Objects)
    requires ObjectSends(sends) && AllInMemory(sends, rows) && AllSendable(sends) && sends != []
    ensures var init, s := sends[..|sends| - 1], sends[|sends| - 1];
            && ObjectSends(init) && ObjectSend(s) && AllInMemory(init, rows) && InMemory(s, rows)
            && AllSendable(init) && Sendable(s) && Sequential(t, sends) == Immediate(Sequential(t, init), s)
  {
    hide ObjectSend, InMemory, Sendable, Immediate;
    var n := |sends| - 1;
    assert forall i :: 0 <= i < n ==> sends[..n][i] == sends[i];
  }

  lemma SavedForMore(init: seq<Send>, s: Send, pk: Pk, k: Field)
    requires ObjectSends(init) && ObjectSend(s) && ObjectSends(init + [s])
    ensures SavedFor(init + [s], pk, k)
            <==> SavedFor(init, pk, k) || (ListedIn(ObjectsOf(s), pk) && IsIn(k, Saves(s)))
  {
    hide ListedIn, IsIn, Saves, ObjectsOf;
    var sends := init + [s];
    assert sends[|init|] == s;
    if i :| 0 <= i < |init| && ListedIn(ObjectsOf(init[i]), pk) && IsIn(k, Saves(init[i])) {
      assert sends[i] == init[i];
    }
  }

  lemma PartMore(init: seq<Send>, s: Send, rows: Objects, pk: Pk)
    requires ObjectSends(init) && ObjectSend(s) && InMemory(s, rows)
    ensures ObjectSends(init + [s])
    ensures ListedIn(ObjectsOf(s), pk) ==> pk in rows
    ensures Part(init + [s], rows, pk)
            == Part(init, rows, pk) + (if ListedIn(ObjectsOf(s), pk) then Only(rows[pk], Saves(s)) else map[])
  {
    forall k ensures SavedFor(init + [s], pk, k)
                     <==> SavedFor(init, pk, k) || (ListedIn(ObjectsOf(s), pk) && IsIn(k, Saves(s))) {
      SavedForMore(init, s, pk, k);
    }
    hide SavedFor, Saves, ObjectsOf;
  }

  // ---- Deferred ----

  predicate FromMemory(objects: seq<Object>, rows: Objects) {
    forall i :: 0 <= i < |objects| ==> objects[i].pk in rows && rows[objects[i].pk] == objects[i].row
  }

  lemma {:induction false} AllGathered(sends: seq<Send>, rows: Objects, pk: Pk)
    requires ObjectSends(sends) && AllInMemory(sends, rows)
    ensures
      var g := GatherAll(sends);
      && g == NOTHING.(objects := g.objects, fields := g.fields)
      && g.fields.GetOr({}) == Named(sends)
      && (sends != [] <==> g.objects.Some?)
      && FromMemory(g.objects.GetOr([]), rows)
      && (ListedIn(g.objects.GetOr([]), pk) <==> SentFor(sends, pk))
  {
    if sends != [] {
      var init, s := sends[..|sends| - 1], sends[|sends| - 1];
      assert sends == init + [s];
      assert GatherAll(sends) == Gather(GatherAll(init), s);
      hide Gather, GatherAll, Named, SentFor, FromMemory, ListedIn, InMemory, ObjectSend, ObjectsOf;
      assert ObjectSends(init) && ObjectSend(s) && AllInMemory(init, rows) && InMemory(s, rows) by {
        assert forall i :: 0 <= i < |init| ==> init[i] == sends[i];
      }
      AllGathered(init, rows, pk);
      OneGathered(GatherAll(init), s, rows);
      NamedMore(init, s);
      SentForMore(init, s, pk);
      ListedMore(GatherAll(init).objects.GetOr([]), ObjectsOf(s), pk);
    }
  }

  lemma OneGathered(g: Gathered, s: Send, rows: Objects)
    requires ObjectSend(s) && InMemory(s, rows) && FromMemory(g.objects.GetOr([]), rows)
    ensures Gather(g, s) == g.(objects := Gather(g, s).objects, fields := Gather(g, s).fields)
    ensures Gather(g, s).objects == Some(g.objects.GetOr([]) + ObjectsOf(s))
    ensures Gather(g, s).fields.GetOr({}) == g.fields.GetOr({}) + s.fields
    ensures FromMemory(g.objects.GetOr([]) + ObjectsOf(s), rows)
  {
    var before, mine := g.objects.GetOr([]), ObjectsOf(s);
    assert before + [] + mine == before + mine && before + mine + [] == before + mine;
  }

  lemma NamedMore(init: seq<Send>, s: Send)
    requires ObjectSends(init) && ObjectSend(s)
    ensures ObjectSends(init + [s]) && Named(init + [s]) == Named(init) + s.fields
  {
    var sends := init + [s];
    assert sends[|init|] == s;
    forall k | k in Named(init) ensures k in Named(sends) {
      var i :| 0 <= i < |init| && k in init[i].fields;
      assert sends[i] == init[i];
    }
  }

  lemma SentForMore(init: seq<Send>, s: Send, pk: Pk)
    requires ObjectSends(init) && ObjectSend(s)
    ensures ObjectSends(init + [s])
    ensures SentFor(init + [s], pk) <==> SentFor(init, pk) || ListedIn(ObjectsOf(s), pk)
  {
    hide ListedIn, ObjectsOf;
    var sends := init + [s];
    assert sends[|init|] == s;
    if i :| 0 <= i < |init| && ListedIn(ObjectsOf(init[i]), pk) {
      assert sends[i] == init[i];
    }
  }

  lemma ListedMore(a: seq<Object>, b: seq<Object>, pk: Pk)
    ensures ListedIn(a + b, pk) <==> ListedIn(a, pk) || ListedIn(b, pk)
  {
    if i :| 0 <= i < |a| && a[i].pk == pk {
      assert (a + b)[i].pk == pk;
    }
    if i :| 0 <= i < |b| && b[i].pk == pk {
      assert (a + b)[|a| + i].pk == pk;
    }
  }

  lemma GatheredConsistently(sends: seq<Send>, rows: Objects)
    requires ObjectSends(sends) && AllInMemory(sends, rows)
    ensures Consistent(GatherAll(sends).objects.GetOr([]))
  {
    AllGathered(sends, rows, 0);
  }

  lemma DeferredPart(t: Table, sends: seq<Send>, rows: Objects, pk: Pk)
    requires ObjectSends(sends) && AllInMemory(sends, rows) && rows.Keys <= t.Keys
    requires Consistent(GatherAll(sends).objects.GetOr([]))
    ensures Finished(t, GatherAll(sends)).Keys == t.Keys
    ensures SentFor(sends, pk) ==> pk in rows
    ensures pk in t ==>
      Finished(t, GatherAll(sends))[pk] == t[pk] + (if SentFor(sends, pk) then Only(rows[pk], Together(sends)) else map[])
  {
    hide Finished, GatherAll, Saved, ByPk, Named, SentFor, Together, Only, ListedIn, Consistent, AllInMemory, ObjectSends;
    AllGathered(sends, rows, pk);
    var g := GatherAll(sends);
    FinishedObjects(t, g);
    NamedTogether(sends);
    if sends == [] {
      NoneSent(pk);
      if pk in t {
        assert t[pk] + map[] == t[pk];
      }
    } else {
      ListedIsByPk(g.objects.value, rows, pk);
      SavedRow(t, ByPk(g.objects.value), Together(sends), pk);
    }
  }

  lemma NamedTogether(sends: seq<Send>)
    requires ObjectSends(sends)
    ensures Together(sends) == if Named(sends) == {} then None else Some(Named(sends))
  {}

  lemma NoneSent(pk: Pk)
    ensures ObjectSends([]) && !SentFor([], pk)
  {}

  lemma SavedRow(t: Table, objects: Objects, fields: Option<set<Field>>, pk: Pk)
    ensures Saved(t, objects, fields).Keys == t.Keys
    ensures pk in t ==>
      Saved(t, objects, fields)[pk] == t[pk] + (if pk in objects then Only(objects[pk], fields) else map[])
  {
    hide Only;
    if pk in t {
      assert t[pk] + map[] == t[pk];
    }
  }

  lemma FinishedObjects(t: Table, g: Gathered)
    requires g == NOTHING.(objects := g.objects, fields := g.fields) && Consistent(g.objects.GetOr([]))
    ensures Finished(t, g) == if g.objects.None? then t
      else Saved(t, ByPk(g.objects.value), if g.fields.GetOr({}) == {} then None else Some(g.fields.GetOr({})))
  {
    hide UpdateResult, ByPk, Saved, Consistent;
    BaseIsTable(t, g);
    if g.objects.Some? {
      SavedObjects(t, ByPk(g.objects.value), g.fields.GetOr({}));
    }
    hide Base;
  }

  lemma BaseIsTable(t: Table, g: Gathered)
    requires g == NOTHING.(objects := g.objects, fields := g.fields)
    ensures Base(t, g) == t
  {
    assert forall pk, row :: !Matches([], pk, row);
  }

  // ---- The exact condition ----

  // Every field of an object is named for it, or it and all others are saved
  // whole, unless it is named for none.
  predicate Alike(sends: seq<Send>, rows: Objects, pk: Pk)
    requires ObjectSends(sends)
  {
    SentFor(sends, pk) && pk in rows ==> forall k :: k in rows[pk] ==> (SavedFor(sends, pk, k) <==> IsIn(k, Together(sends)))
  }

  // On every table that has the rows, deferring saves what sending one by one
  // saves exactly when each object's own fields are those named by all.
  lemma DeferredObjectsIff(sends: seq<Send>, rows: Objects)
    requires ObjectSends(sends) && AllInMemory(sends, rows)
    requires AllSendable(sends) && Consistent(GatherAll(sends).objects.GetOr([]))
    ensures (forall t: Table :: rows.Keys <= t.Keys ==> Finished(t, GatherAll(sends)) == Sequential(t, sends))
            <==> forall pk :: Alike(sends, rows, pk)
  {
    hide Finished, Sequential, GatherAll, Alike, AllInMemory, AllSendable, Consistent;
    if forall pk :: Alike(sends, rows, pk) {
      forall t: Table | rows.Keys <= t.Keys ensures Finished(t, GatherAll(sends)) == Sequential(t, sends) {
        AlikeTables(t, sends, rows);
      }
    } else {
      var pk :| !Alike(sends, rows, pk);
      var t := BareTable(sends, rows, pk);
    }
  }

  lemma PartsIff(sends: seq<Send>, rows: Objects, pk: Pk)
    requires ObjectSends(sends) && (SentFor(sends, pk) ==> pk in rows)
    ensures Part(sends, rows, pk) == (if SentFor(sends, pk) then Only(rows[pk], Together(sends)) else map[])
            <==> Alike(sends, rows, pk)
  {
    hide Together;
    if SentFor(sends, pk) {
      var a, b := Part(sends, rows, pk), Only(rows[pk], Together(sends));
      assert forall k :: k in a <==> k in rows[pk] && SavedFor(sends, pk, k);
      assert forall k :: k in b <==> k in rows[pk] && IsIn(k, Together(sends));
      assert forall k :: k in a && k in b ==> a[k] == b[k];
      hide Part, Only, SavedFor, IsIn, SentFor;
    } else {
      assert forall k :: !SavedFor(sends, pk, k);
      assert Part(sends, rows, pk) == map[];
    }
  }

  lemma AlikeTables(t: Table, sends: seq<Send>, rows: Objects)
    requires ObjectSends(sends) && AllInMemory(sends, rows) && rows.Keys <= t.Keys
    requires AllSendable(sends) && Consistent(GatherAll(sends).objects.GetOr([]))
    requires forall pk :: Alike(sends, rows, pk)
    ensures Finished(t, GatherAll(sends)) == Sequential(t, sends)
  {
    hide Finished, Sequential, GatherAll, Alike, Part, Only, Together, SentFor;
    var a, b := Finished(t, GatherAll(sends)), Sequential(t, sends);
    forall pk ensures a.Keys == t.Keys == b.Keys && (pk in t ==> a[pk] == b[pk]) {
      SequentialPart(t, sends, rows, pk);
      DeferredPart(t, sends, rows, pk);
      PartsIff(sends, rows, pk);
    }
  }

  lemma BareTable(sends: seq<Send>, rows: Objects, pk: Pk) returns (t: Table)
    requires ObjectSends(sends) && AllInMemory(sends, rows)
    requires AllSendable(sends) && Consistent(GatherAll(sends).objects.GetOr([]))
    requires !Alike(sends, rows, pk)
    ensures rows.Keys <= t.Keys && Finished(t, GatherAll(sends)) != Sequential(t, sends)
  {
    var bare: Row := map[];
    t := map p | p in rows :: bare;
    assert pk in rows;
    SequentialPart(t, sends, rows, pk);
    DeferredPart(t, sends, rows, pk);
    PartsIff(sends, rows, pk);
    hide *;
    assert forall r: Row :: bare + r == r;
  }

  // Two objects, each with its own field named: both fields are saved of both.
  lemma NamedForAnother(p: Pk, q: Pk, a: Field, b: Field, x: Row, y: Row)
    requires p != q && a != b && b in x
    ensures
      var sends := [UpdateWith(None, Some([Object(p, x)]), None, {a}), UpdateWith(None, Some([Object(q, y)]), None, {b})];
      ObjectSends(sends) && AllInMemory(sends, map[p := x, q := y]) && !Alike(sends, map[p := x, q := y], p)
  {
    var sends := [UpdateWith(None, Some([Object(p, x)]), None, {a}), UpdateWith(None, Some([Object(q, y)]), None, {b})];
    assert sends[0].fields == {a} && sends[1].fields == {b} && ObjectsOf(sends[0])[0].pk == p;
    assert ListedIn(ObjectsOf(sends[0]), p) && !ListedIn(ObjectsOf(sends[1]), p);
    assert SentFor(sends, p) && b in Named(sends) && !SavedFor(sends, p, b);
  }

  // An instance that has no row yet is saved at once, and not at all at the exit.
  lemma InstanceIsNotCreated(o: Object)
    ensures
      var s := UpdateWith(None, None, Some(o), {});
      var none: Table := map[];
      && o.pk in Immediate(none, s)
      && Consistent(GatherAll([s]).objects.GetOr([])) && Finished(none, GatherAll([s])) == map[]
  {
    var s := UpdateWith(None, None, Some(o), {});
    assert [s][..0] == [];
    assert GatherAll([s]) == Gather(GatherAll([s][..0]), s);
    assert [] + [] + [o] == [o];
  }
}
