// The plugin itself: rows, stores and files are updated in place, action by
// action, from a state that was computed when the action started.

module FsPlugin {
  import opened Options
  import opened FsModel
  import opened FsResources
  import opened FsState
  import opened FsFiles
  import opened FsActions
  import opened FsRuns
  import opened FsSync
  import opened Sequences

  datatype Action =
    | PulledToPootle | AddedFromPootle | AddedFromFs | ReaddedFromPootle | ReaddedFromFs
    | PushedToFs | StagedForOverwriteFs | StagedForOverwritePootle | StagedForRemoval
    | Removed | StagedForMergeFs | StagedForMergePootle | MergedFromFs | MergedFromPootle
    | Unstaged

  datatype Item = Item(action: Action, path: Path)

  function Report(action: Action, ps: seq<Path>): (r: seq<Item>)
    ensures |r| == |ps| && forall i :: 0 <= i < |r| ==> r[i] == Item(action, ps[i])
  {
    seq(|ps|, i requires 0 <= i < |ps| => Item(action, ps[i]))
  }

  predicate Mentions(response: seq<Item>, p: Path) {
    exists i :: 0 <= i < |response| && response[i].path == p
  }

  lemma MentionsReport(action: Action, ps: seq<Path>, p: Path)
    ensures Mentions(Report(action, ps), p) <==> p in ps
  {
    if p in ps {
      var i :| 0 <= i < |ps| && ps[i] == p;
      assert Report(action, ps)[i].path == p;
    }
  }

  lemma MentionsSum(a: seq<Item>, b: seq<Item>, p: Path)
    ensures Mentions(a + b, p) <==> Mentions(a, p) || Mentions(b, p)
  {
    if Mentions(a, p) {
      var i :| 0 <= i < |a| && a[i].path == p;
      assert (a + b)[i].path == p;
    }
    if Mentions(b, p) {
      var i :| 0 <= i < |b| && b[i].path == p;
      assert (a + b)[|a| + i].path == p;
    }
  }

  lemma MentionsFour(a1: Action, ps1: seq<Path>, a2: Action, ps2: seq<Path>,
                     a3: Action, ps3: seq<Path>, a4: Action, ps4: seq<Path>, p: Path)
    ensures Mentions(Report(a1, ps1) + Report(a2, ps2) + Report(a3, ps3) + Report(a4, ps4), p)
            <==> p in ps1 + ps2 + ps3 + ps4
  {
    MentionsReport(a1, ps1, p);
    MentionsReport(a2, ps2, p);
    MentionsReport(a3, ps3, p);
    MentionsReport(a4, ps4, p);
    MentionsSum(Report(a1, ps1), Report(a2, ps2), p);
    MentionsSum(Report(a1, ps1) + Report(a2, ps2), Report(a3, ps3), p);
    MentionsSum(Report(a1, ps1) + Report(a2, ps2) + Report(a3, ps3), Report(a4, ps4), p);
  }

  lemma MentionsFive(a1: Action, ps1: seq<Path>, a2: Action, ps2: seq<Path>, a3: Action, ps3: seq<Path>,
                     a4: Action, ps4: seq<Path>, a5: Action, ps5: seq<Path>, p: Path)
    ensures Mentions(Report(a1, ps1) + Report(a2, ps2) + Report(a3, ps3) + (Report(a4, ps4) + Report(a5, ps5)), p)
            <==> p in ps1 + ps2 + ps3 + ps4 + ps5
  {
    MentionsFour(a1, ps1, a2, ps2, a3, ps3, a3, [], p);
    MentionsReport(a4, ps4, p);
    MentionsReport(a5, ps5, p);
    MentionsSum(Report(a4, ps4), Report(a5, ps5), p);
    var r := Report(a1, ps1) + Report(a2, ps2) + Report(a3, ps3);
    assert r + Report(a3, []) == r;
    MentionsSum(r, Report(a4, ps4) + Report(a5, ps5), p);
  }

  function AllKinds(): set<Kind> {
    {Conflict, ConflictUntracked, PootleAhead, PootleUntracked, PootleStaged, PootleRemoved, FsAhead,
     FsUntracked, FsStaged, FsRemoved, MergePootleWins, MergeFsWins, Remove, BothRemoved}
  }

  lemma EveryKind(k: Kind)
    ensures k in AllKinds()
  {
    match k case Conflict => case _ =>
  }

  // The effect of the three row helpers on one row; None leaves a column as it is.
  function Created(row: Option<Row>, hit: bool, r: Row): Option<Row> {
    if hit then Some(r) else row
  }

  function Deleted(row: Option<Row>, hit: bool): Option<Row> {
    if hit then None else row
  }

  function Changed(row: Option<Row>, hit: bool, winner: Option<Winner>, merge: Option<bool>,
                   removal: Option<bool>): Option<Row> {
    if hit && row.Some? then
      var r := row.value;
      Some(r.(winner := winner.GetOr(r.winner), merge := merge.GetOr(r.merge), removal := removal.GetOr(r.removal)))
    else row
  }

  lemma AddRow(c: Cell, force: bool, update: Side, fsUntracked: bool, pootleUntracked: bool,
               fsRemoved: bool, pootleRemoved: bool)
    requires fsUntracked <==> FsUntracked in Kinds(c)
    requires pootleUntracked <==> PootleUntracked in Kinds(c)
    requires fsRemoved <==> FsRemoved in Kinds(c)
    requires pootleRemoved <==> PootleRemoved in Kinds(c)
    ensures
      var created := (fsUntracked && Covers(update, Pootle)) || (pootleUntracked && Covers(update, Fs));
      var readdPootle := fsRemoved && force && Covers(update, Pootle);
      var readdFs := pootleRemoved && force && Covers(update, Fs);
      && Add(c, force, update) == c.(row :=
           Changed(Changed(Created(c.row, created, NewRow(false, false, Unset)),
                           readdPootle, Some(PootleWins), None, None),
                   readdFs, Some(SourceWins), None, None))
      && (Add(c, force, update) != c <==> created || readdPootle || readdFs)
  {
  }

  lemma ResolveRow(c: Cell, merge: bool, pootleWins: bool, conflict: bool, untracked: bool)
    requires conflict <==> Conflict in Kinds(c)
    requires untracked <==> ConflictUntracked in Kinds(c)
    ensures
      var winner := if pootleWins then PootleWins else SourceWins;
      && Resolve(c, merge, pootleWins) == c.(row :=
           Changed(Created(c.row, untracked, NewRow(false, merge, winner)),
                   conflict, Some(winner), if merge then Some(true) else None, None))
      && (Resolve(c, merge, pootleWins) != c <==> conflict || untracked)
  {
  }

  lemma RmRow(c: Cell, force: bool, update: Side, toUpdate: bool, toCreate: bool,
              bothRemoved: bool, pootleRemoved: bool, fsRemoved: bool, conflict: bool,
              conflictUntracked: bool, pootleUntracked: bool, fsUntracked: bool)
    requires bothRemoved <==> BothRemoved in Kinds(c)
    requires pootleRemoved <==> PootleRemoved in Kinds(c)
    requires fsRemoved <==> FsRemoved in Kinds(c)
    requires conflict <==> Conflict in Kinds(c)
    requires conflictUntracked <==> ConflictUntracked in Kinds(c)
    requires pootleUntracked <==> PootleUntracked in Kinds(c)
    requires fsUntracked <==> FsUntracked in Kinds(c)
    requires toUpdate <==> || bothRemoved || (pootleRemoved && Covers(update, Fs))
                           || (fsRemoved && Covers(update, Pootle)) || (conflict && force)
    requires toCreate <==> force && (|| conflictUntracked || (pootleUntracked && Covers(update, Fs))
                                     || (fsUntracked && Covers(update, Pootle)))
    ensures Rm(c, force, update) == c.(row :=
              Created(Changed(c.row, toUpdate, None, None, Some(true)), toCreate, NewRow(true, false, Unset)))
    ensures Rm(c, force, update) != c <==> toUpdate || toCreate
    ensures toUpdate <==> c.row.Some? && Rm(c, force, update) != c
  {
  }

  predicate NeverSynced(r: Row) {
    r.revision.GetOr(0) == 0 && r.hash.None?
  }

  predicate ToReset(rows: map<Path, Row>, staged: seq<Path>, ahead: seq<Path>, p: Path) {
    p in staged || (p in ahead && p in rows && rows[p].winner != Unset)
  }

  predicate StagedAs(c: Cell, staged: bool, ahead: bool) {
    && (staged <==> || Remove in Kinds(c) || MergePootleWins in Kinds(c) || MergeFsWins in Kinds(c)
                    || PootleStaged in Kinds(c) || FsStaged in Kinds(c))
    && (ahead <==> PootleAhead in Kinds(c) || FsAhead in Kinds(c))
  }

  lemma StagedAsLists(c: Cell, staged: bool, ahead: bool, remove: bool, mergePootle: bool, mergeFs: bool,
                      pootleStaged: bool, fsStaged: bool, pootleAhead: bool, fsAhead: bool)
    requires staged <==> remove || mergePootle || mergeFs || pootleStaged || fsStaged
    requires ahead <==> pootleAhead || fsAhead
    requires remove <==> Remove in Kinds(c)
    requires mergePootle <==> MergePootleWins in Kinds(c)
    requires mergeFs <==> MergeFsWins in Kinds(c)
    requires pootleStaged <==> PootleStaged in Kinds(c)
    requires fsStaged <==> FsStaged in Kinds(c)
    requires pootleAhead <==> PootleAhead in Kinds(c)
    requires fsAhead <==> FsAhead in Kinds(c)
    ensures StagedAs(c, staged, ahead)
  {
  }

  lemma UnstageRow(c: Cell, staged: bool, ahead: bool, toReset: bool, toRemove: bool)
    requires StagedAs(c, staged, ahead)
    requires
      var hit := staged || (ahead && c.row.Some? && c.row.value.winner != Unset);
      && (toRemove <==> hit && c.row.Some? && NeverSynced(c.row.value))
      && (toReset <==> hit && !(c.row.Some? && NeverSynced(c.row.value)))
    ensures Unstage(c) == c.(row :=
              Deleted(Changed(c.row, toReset, Some(Unset), Some(false), Some(false)), toRemove))
    ensures Unstage(c) != c <==> toReset || toRemove
  {
  }

  // A ProjectFSState: one list per class, and the resources that sync overwrites.
  class ProjectState {
    var lists: map<Kind, seq<Path>>
    var pootleRevisions: map<Path, Option<nat>>
    var fileHashes: map<Path, Option<nat>>

    constructor ()
      ensures lists == map[] && pootleRevisions == map[] && fileHashes == map[]
    {
      lists, pootleRevisions, fileHashes := map[], map[], map[];
    }

    ghost predicate Reflects(w: World)
      reads this
    {
      && (forall k: Kind :: k in lists && Distinct(lists[k])
            && forall p :: p in lists[k] <==> k in Kinds(At(w, p)))
      && pootleRevisions == PootleRevisions(w)
      && fileHashes == FileHashes(w)
    }

    // reload: fill every class from its generator
    method Load(w: World)
      modifies this
      ensures Reflects(w)
    {
      var todo := AllKinds();
      lists := map[];
      forall k: Kind { EveryKind(k); }
      while todo != {}
        invariant forall k: Kind :: k !in todo ==>
          && k in lists && Distinct(lists[k])
          && forall p :: p in lists[k] <==> k in Kinds(At(w, p))
      {
        var k :| k in todo;
        var l := Listed(Members(w, k));
        forall p ensures p in l <==> k in Kinds(At(w, p)) {
          MembersAreKinds(w, p, k);
        }
        lists := lists[k := l];
        todo := todo - {k};
      }
      pootleRevisions := PootleRevisions(w);
      fileHashes := FileHashes(w);
    }
  }

  class Plugin {
    const formats: Formats
    var rows: map<Path, Row>
    var stores: map<Path, Store>
    var files: map<Path, File>
    var revision: nat
    var mtime: nat

    function W(): World
      reads this
    {
      World(rows, stores, files, revision, mtime)
    }

    // A project that nothing tracks yet
    constructor (formats: Formats)
      ensures this.formats == formats
      ensures W() == World(map[], map[], map[], 0, 0) && Inv(W())
    {
      this.formats := formats;
      rows, stores, files, revision, mtime := map[], map[], map[], 0, 0;
    }

    method State() returns (state: ProjectState)
      ensures fresh(state) && state.Reflects(W())
    {
      state := new ProjectState();
      state.Load(W());
    }

    // ---- Rows ----

    method CreateStoreFs(items: seq<Path>, r: Row)
      modifies this`rows
      ensures forall p :: Lookup(rows, p) == Created(Lookup(old(rows), p), p in items, r)
    {
      for i := 0 to |items|
        invariant forall p :: Lookup(rows, p) == Created(Lookup(old(rows), p), p in items[..i], r)
      {
        assert items[..i + 1] == items[..i] + [items[i]];
        rows := rows[items[i] := r];
      }
      assert items[..|items|] == items;
    }

    method DeleteStoreFs(items: seq<Path>)
      modifies this`rows
      ensures forall p :: Lookup(rows, p) == Deleted(Lookup(old(rows), p), p in items)
    {
      for i := 0 to |items|
        invariant forall p :: Lookup(rows, p) == Deleted(Lookup(old(rows), p), p in items[..i])
      {
        assert items[..i + 1] == items[..i] + [items[i]];
        rows := rows - {items[i]};
      }
      assert items[..|items|] == items;
    }

    method UpdateStoreFs(items: seq<Path>, winner: Option<Winner>, merge: Option<bool>, removal: Option<bool>)
      modifies this`rows
      ensures forall p :: Lookup(rows, p) == Changed(Lookup(old(rows), p), p in items, winner, merge, removal)
    {
      for i := 0 to |items|
        invariant forall p :: Lookup(rows, p) == Changed(Lookup(old(rows), p), p in items[..i], winner, merge, removal)
      {
        assert items[..i + 1] == items[..i] + [items[i]];
        if items[i] in rows {
          rows := rows[items[i] := Changed(Some(rows[items[i]]), true, winner, merge, removal).value];
        }
      }
      assert items[..|items|] == items;
    }

    // ---- Staging ----

    method AddAction(state: ProjectState, force: bool, update: Side) returns (response: seq<Item>)
      requires state.Reflects(W())
      modifies this`rows
      ensures Step(formats, old(W()), DoAdd(force, update), W())
      ensures forall p :: Mentions(response, p) <==> At(W(), p) != old(At(W(), p))
    {
      ghost var w := W();
      var fsUntracked, pootleUntracked := state.lists[FsUntracked], state.lists[PootleUntracked];
      var fsRemoved, pootleRemoved := state.lists[FsRemoved], state.lists[PootleRemoved];
      var untracked := [];
      if update == All {
        untracked := fsUntracked + pootleUntracked;
      } else if update == Pootle {
        untracked := fsUntracked;
      } else {
        untracked := pootleUntracked;
      }
      CreateStoreFs(untracked, NewRow(false, false, Unset));
      ghost var rows1 := rows;
      if force && (update == All || update == Pootle) {
        UpdateStoreFs(fsRemoved, Some(PootleWins), None, None);
      }
      ghost var rows2 := rows;
      if force && (update == All || update == Fs) {
        UpdateStoreFs(pootleRemoved, Some(SourceWins), None, None);
      }
      response := Report(AddedFromFs, if Covers(update, Pootle) then fsUntracked else [])
        + Report(AddedFromPootle, if Covers(update, Fs) then pootleUntracked else [])
        + Report(ReaddedFromPootle, if force && Covers(update, Pootle) then fsRemoved else [])
        + Report(ReaddedFromFs, if force && Covers(update, Fs) then pootleRemoved else []);
      forall p
        ensures At(W(), p) == Add(At(w, p), force, update)
        ensures Mentions(response, p) <==> At(W(), p) != At(w, p)
      {
        hide Add, Mentions, Created, Changed;
        AddRow(At(w, p), force, update, p in fsUntracked, p in pootleUntracked, p in fsRemoved, p in pootleRemoved);
        assert Lookup(rows1, p) == Created(Lookup(w.rows, p), p in untracked, NewRow(false, false, Unset));
        assert At(W(), p) == Add(At(w, p), force, update);
        MentionsFour(AddedFromFs, if Covers(update, Pootle) then fsUntracked else [],
          AddedFromPootle, if Covers(update, Fs) then pootleUntracked else [],
          ReaddedFromPootle, if force && Covers(update, Pootle) then fsRemoved else [],
          ReaddedFromFs, if force && Covers(update, Fs) then pootleRemoved else [], p);
      }
    }

    method ResolveAction(state: ProjectState, merge: bool, pootleWins: bool) returns (response: seq<Item>)
      requires state.Reflects(W())
      modifies this`rows
      ensures Step(formats, old(W()), DoResolve(merge, pootleWins), W())
      ensures forall p :: Mentions(response, p) <==> At(W(), p) != old(At(W(), p))
    {
      ghost var w := W();
      var conflict, untracked := state.lists[Conflict], state.lists[ConflictUntracked];
      var winner := if pootleWins then PootleWins else SourceWins;
      CreateStoreFs(untracked, NewRow(false, merge, winner));
      ghost var rows1 := rows;
      UpdateStoreFs(conflict, Some(winner), if merge then Some(true) else None, None);
      var action := if merge then (if pootleWins then StagedForMergePootle else StagedForMergeFs)
                    else (if pootleWins then StagedForOverwritePootle else StagedForOverwriteFs);
      response := Report(action, conflict + untracked);
      forall p
        ensures At(W(), p) == Resolve(At(w, p), merge, pootleWins)
        ensures Mentions(response, p) <==> At(W(), p) != At(w, p)
      {
        hide Resolve, Mentions;
        ResolveRow(At(w, p), merge, pootleWins, p in conflict, p in untracked);
        assert Lookup(rows1, p) == Created(Lookup(w.rows, p), p in untracked, NewRow(false, merge, winner));
        MentionsReport(action, conflict + untracked, p);
      }
    }

    // What rm stages. `to_update` starts as the state's own list of both_removed
    // and is extended in place, so that list changes with it.
    method ToRemove(state: ProjectState, force: bool, update: Side) returns (toCreate: seq<Path>)
      requires forall k: Kind :: k in state.lists
      modifies state`lists
      ensures BothRemoved in state.lists
      ensures state.lists == old(state.lists)[BothRemoved := state.lists[BothRemoved]]
      ensures state.lists[BothRemoved] == old(state.lists[BothRemoved])
        + (if Covers(update, Fs) then old(state.lists[PootleRemoved]) else [])
        + (if Covers(update, Pootle) then old(state.lists[FsRemoved]) else [])
        + (if force then old(state.lists[Conflict]) else [])
      ensures toCreate == if !force then [] else
        old(state.lists[ConflictUntracked])
        + (if Covers(update, Fs) then old(state.lists[PootleUntracked]) else [])
        + (if Covers(update, Pootle) then old(state.lists[FsUntracked]) else [])
    {
      toCreate := [];
      var toUpdate := state.lists[BothRemoved];
      if update == All || update == Fs {
        toUpdate := toUpdate + state.lists[PootleRemoved];
      }
      if update == All || update == Pootle {
        toUpdate := toUpdate + state.lists[FsRemoved];
      }
      if force {
        toUpdate := toUpdate + state.lists[Conflict];
        toCreate := toCreate + state.lists[ConflictUntracked];
        if update == All || update == Fs {
          toCreate := toCreate + state.lists[PootleUntracked];
        }
        if update == All || update == Pootle {
          toCreate := toCreate + state.lists[FsUntracked];
        }
      }
      state.lists := state.lists[BothRemoved := toUpdate];
    }

    method RmAction(state: ProjectState, force: bool, update: Side) returns (response: seq<Item>)
      requires state.Reflects(W())
      modifies this`rows, state`lists
      ensures Step(formats, old(W()), DoRm(force, update), W())
      ensures forall p :: Mentions(response, p) <==> At(W(), p) != old(At(W(), p))
      ensures BothRemoved in state.lists
      ensures forall p :: p in state.lists[BothRemoved] <==>
        p in old(W().rows) && At(W(), p) != old(At(W(), p))
    {
      ghost var w, l := W(), state.lists;
      var toCreate := ToRemove(state, force, update);
      var toUpdate := state.lists[BothRemoved];
      UpdateStoreFs(toUpdate, None, None, Some(true));
      ghost var rows1 := rows;
      CreateStoreFs(toCreate, NewRow(true, false, Unset));
      response := Report(StagedForRemoval, toCreate + toUpdate);
      forall p
        ensures At(W(), p) == Rm(At(w, p), force, update)
        ensures Mentions(response, p) <==> At(W(), p) != At(w, p)
        ensures p in toUpdate <==> p in w.rows && At(W(), p) != At(w, p)
      {
        hide Rm, Mentions;
        RmRow(At(w, p), force, update, p in toUpdate, p in toCreate,
              p in l[BothRemoved], p in l[PootleRemoved], p in l[FsRemoved], p in l[Conflict],
              p in l[ConflictUntracked], p in l[PootleUntracked], p in l[FsUntracked]);
        assert Lookup(rows1, p) == Changed(Lookup(w.rows, p), p in toUpdate, None, None, Some(true));
        MentionsReport(StagedForRemoval, toCreate + toUpdate, p);
      }
    }

    // The staged rows, and the rows ahead on one side that have been resolved,
    // parted into those that were never synced and the rest
    method ToUnstage(staged: seq<Path>, ahead: seq<Path>) returns (toRemove: seq<Path>, toReset: seq<Path>)
      ensures forall p :: p in toRemove <==> ToReset(rows, staged, ahead, p) && p in rows && NeverSynced(rows[p])
      ensures forall p :: p in toReset <==> ToReset(rows, staged, ahead, p) && !(p in rows && NeverSynced(rows[p]))
    {
      var toUpdate := staged;
      for i := 0 to |ahead|
        invariant forall p :: p in toUpdate <==> ToReset(rows, staged, ahead[..i], p)
      {
        assert ahead[..i + 1] == ahead[..i] + [ahead[i]];
        if ahead[i] in rows && rows[ahead[i]].winner in {SourceWins, PootleWins} {
          toUpdate := toUpdate + [ahead[i]];
        }
      }
      assert ahead[..|ahead|] == ahead;
      toRemove, toReset := [], [];
      for i := 0 to |toUpdate|
        invariant forall p :: p in toRemove <==> p in toUpdate[..i] && p in rows && NeverSynced(rows[p])
        invariant forall p :: p in toReset <==> p in toUpdate[..i] && !(p in rows && NeverSynced(rows[p]))
      {
        assert toUpdate[..i + 1] == toUpdate[..i] + [toUpdate[i]];
        if toUpdate[i] in rows && NeverSynced(rows[toUpdate[i]]) {
          toRemove := toRemove + [toUpdate[i]];
        } else {
          toReset := toReset + [toUpdate[i]];
        }
      }
      assert toUpdate[..|toUpdate|] == toUpdate;
    }

    method UnstageAction(state: ProjectState) returns (response: seq<Item>)
      requires state.Reflects(W())
      modifies this`rows
      ensures Step(formats, old(W()), DoUnstage, W())
      ensures forall p :: Mentions(response, p) <==> At(W(), p) != old(At(W(), p))
    {
      ghost var w := W();
      var l := state.lists;
      var staged := l[Remove] + l[MergePootleWins] + l[MergeFsWins] + l[PootleStaged] + l[FsStaged];
      var ahead := l[PootleAhead] + l[FsAhead];
      forall p ensures StagedAs(At(w, p), p in staged, p in ahead) {
        StagedAsLists(At(w, p), p in staged, p in ahead, p in l[Remove], p in l[MergePootleWins],
          p in l[MergeFsWins], p in l[PootleStaged], p in l[FsStaged], p in l[PootleAhead], p in l[FsAhead]);
      }
      hide Kinds, StagedAs, Unstage;
      var toRemove, toReset := ToUnstage(staged, ahead);
      UpdateStoreFs(toReset, Some(Unset), Some(false), Some(false));
      ghost var rows1 := rows;
      DeleteStoreFs(toRemove);
      response := Report(Unstaged, toRemove + toReset);
      forall p
        ensures At(W(), p) == Unstage(At(w, p))
        ensures Mentions(response, p) <==> At(W(), p) != At(w, p)
      {
        assert StagedAs(At(w, p), p in staged, p in ahead);
        UnstageRow(At(w, p), p in staged, p in ahead, p in toReset, p in toRemove);
        assert Lookup(rows1, p) == Changed(Lookup(w.rows, p), p in toReset, Some(Unset), Some(false), Some(false));
        MentionsReport(Unstaged, toRemove + toReset, p);
      }
    }

    // ---- FSFile ----

    // What the next update and the next write would be stamped with
    function Next(): Stamps
      reads this`revision, this`mtime
    {
      Stamps(revision + 1, revision + 2, mtime + 1, mtime + 1)
    }

    // FSFile._sync_to_pootle. An update of a store that differs from its file
    // counts the site's revision up twice, once for itself and once for units that
    // stay unsynced.
    method SyncToPootle(p: Path, store: Store, merge: bool, pootleWins: Option<bool>)
      returns (updated: Store, returned: Option<nat>)
      requires p in rows && p in files
      modifies this`revision
      ensures
        var asked := if pootleWins == Some(true) then PootleWins else SourceWins;
        var winner := if pootleWins.None? && rows[p].winner == PootleWins then PootleWins else asked;
        var base := if merge then Some(rows[p].revision.GetOr(0)) else None;
        var u := formats.update(store.text, files[p].text, winner, base);
        && updated == store.(text := u.text, revision := Highest(u.effect, store.revision, old(Next())))
        && revision == old(revision) + (if u.effect.NoDifference? then 0 else 2)
        && returned == if u.effect.NoDifference? then None else Some(old(Next()).issued)
    {
      var winner;
      if pootleWins.None? {
        winner := if rows[p].winner != Unset then rows[p].winner else SourceWins;
      } else {
        winner := if pootleWins.value then PootleWins else SourceWins;
      }
      var base := if merge then Some(rows[p].revision.GetOr(0)) else None;
      var u := formats.update(store.text, files[p].text, winner, base);
      updated, returned := store.(text := u.text), None;
      if !u.effect.NoDifference? {
        revision := revision + 1;
        returned := Some(revision);
        if u.effect.Saved? {
          updated := updated.(revision := revision);
        }
        revision := revision + 1;
        if u.effect.Renewed? {
          updated := updated.(revision := revision);
        }
      }
    }

    method PullFile(p: Path, merge: bool, pootleWins: Option<bool>) returns (returned: Option<nat>)
      requires p in rows && Bounded(W())
      modifies this`stores, this`revision
      ensures old(revision) <= revision && Bounded(W())
      ensures At(W(), p) == Pull(formats, old(At(W(), p)), merge, pootleWins, old(Next()))
      ensures returned == Returned(formats, old(At(W(), p)), merge, pootleWins, old(Next()))
      ensures returned.GetOr(0) <= revision
      ensures forall q :: q != p ==> At(W(), q) == old(At(W(), q))
    {
      ghost var w := W();
      var c := At(W(), p);
      assert CellBounded(c, w.revision, w.mtime);
      hide Bounded;
      if c.store.Some? && !c.FileChanged() {
        return None;
      }
      var store := if p in stores then stores[p] else Store(false, 0, formats.empty);
      store := store.(obsolete := false);
      returned := None;
      if p in files {
        store, returned := SyncToPootle(p, store, merge, pootleWins);
      }
      stores := stores[p := store];
      StillBounded(w, W(), p);
    }

    method PushFile(p: Path) returns (written: Option<nat>)
      requires p in rows && Bounded(W())
      modifies this`files, this`mtime
      ensures old(mtime) <= mtime && Bounded(W())
      ensures At(W(), p) == Push(formats, old(At(W(), p)), old(Next()).mtime)
      ensures written == if PushSkips(old(At(W(), p))) then None else Some(stores[p].revision)
      ensures forall q :: q != p ==> At(W(), q) == old(At(W(), q))
    {
      ghost var w := W();
      var c := At(W(), p);
      assert CellBounded(At(w, p), w.revision, w.mtime);
      if c.store.None? || (c.file.Some? && !c.StoreChanged()) {
        return None;
      }
      mtime := mtime + 1;
      var disk := if p in files then Some(files[p].text) else None;
      files := files[p := File(mtime, formats.write(stores[p].text, disk))];
      written := Some(stores[p].revision);
      StillBounded(w, W(), p);
    }

    // pull(merge=True) and, if both sides are synchronised, push()
    method MergeFile(p: Path, pootleWins: bool, push: bool) returns (written: Option<nat>)
      requires p in rows && Bounded(W())
      modifies this`stores, this`files, this`revision, this`mtime
      ensures old(revision) <= revision && old(mtime) <= mtime && Bounded(W())
      ensures At(W(), p) == Worked(formats, Merging(pootleWins, push), old(At(W(), p)), old(Next()))
      ensures written == Recorded(formats, Merging(pootleWins, push), old(At(W(), p)), old(Next()))
      ensures written.GetOr(0) <= revision
      ensures forall q :: q != p ==> At(W(), q) == old(At(W(), q))
    {
      written := PullFile(p, true, Some(pootleWins));
      if push {
        assert CellBounded(At(W(), p), revision, mtime);
        written := PushFile(p);
      }
    }

    method DeleteFile(p: Path)
      modifies this`rows, this`stores, this`files
      ensures At(W(), p) == Delete(old(At(W(), p)))
      ensures p !in rows && p !in files
      ensures p in stores <==> p in old(stores)
      ensures p in stores ==> stores[p] == old(stores)[p].(obsolete := true)
      ensures forall q :: q != p ==> At(W(), q) == old(At(W(), q))
    {
      if p in stores {
        stores := stores[p := stores[p].(obsolete := true)];
      }
      rows := rows - {p};
      files := files - {p};
    }

    // ---- Synchronisation ----

    // sync_rm
    method SyncRm(state: ProjectState) returns (removed: seq<Path>)
      requires Remove in state.lists && Bounded(W())
      modifies this`rows, this`stores, this`files, state`pootleRevisions
      ensures Bounded(W()) && removed == state.lists[Remove]
      ensures forall p :: At(W(), p) == if p in removed then Delete(old(At(W(), p))) else old(At(W(), p))
      ensures forall p :: p !in removed ==>
        Lookup(state.pootleRevisions, p) == Lookup(old(state.pootleRevisions), p)
    {
      ghost var w := W();
      removed := state.lists[Remove];
      for i := 0 to |removed|
        invariant forall p :: At(W(), p) == if p in removed[..i] then Delete(At(w, p)) else At(w, p)
        invariant forall p :: p !in removed[..i] ==>
          Lookup(state.pootleRevisions, p) == Lookup(old(state.pootleRevisions), p)
        invariant removed == state.lists[Remove]
      {
        assert removed[..i + 1] == removed[..i] + [removed[i]];
        DeleteFile(removed[i]);
        if removed[i] in stores {
          state.pootleRevisions := state.pootleRevisions[removed[i] := Some(stores[removed[i]].revision)];
        }
      }
      assert removed[..|removed|] == removed;
      forall p ensures CellBounded(At(W(), p), revision, mtime) {
        assert CellBounded(At(w, p), w.revision, w.mtime);
      }
    }

    ghost function Log(state: ProjectState): SyncLog
      reads state
    {
      SyncLog(state.pootleRevisions, state.fileHashes)
    }

    // sync_merge, for the rows that one side wins
    method SyncMerge(state: ProjectState, items: seq<Path>, pootleWins: bool, push: bool) returns (merged: seq<Path>)
      requires Bounded(W()) && Distinct(items)
      modifies this`stores, this`files, this`revision, this`mtime, state`pootleRevisions, state`fileHashes
      ensures merged == items
      ensures Bounded(W())
      ensures PhaseDone(formats, Merging(pootleWins, push), items, old(W()), W(), old(Log(state)), Log(state))
    {
      ghost var w, l := W(), Log(state);
      merged := items;
      for i := 0 to |items|
        invariant Bounded(W())
        invariant PhaseDone(formats, Merging(pootleWins, push), items[..i], w, W(), l, Log(state))
      {
        ghost var wi, li := W(), Log(state);
        var p := items[i];
        ghost var t := Next();
        if p in rows {
          var written := MergeFile(p, pootleWins, push);
          state.pootleRevisions := state.pootleRevisions[p := written];
          state.fileHashes := state.fileHashes[p := At(W(), p).LatestHash()];
        }
        PhaseStep(formats, Merging(pootleWins, push), items, i, w, wi, W(), l, li, Log(state), t);
      }
      assert items[..|items|] == items;
    }

    method SyncPull(state: ProjectState, items: seq<Path>) returns (pulled: seq<Path>)
      requires Bounded(W()) && Distinct(items)
      modifies this`stores, this`revision, state`pootleRevisions, state`fileHashes
      ensures pulled == items
      ensures Bounded(W()) && PhaseDone(formats, Pulling, items, old(W()), W(), old(Log(state)), Log(state))
    {
      ghost var w, l := W(), Log(state);
      pulled := items;
      for i := 0 to |items|
        invariant Bounded(W())
        invariant PhaseDone(formats, Pulling, items[..i], w, W(), l, Log(state))
      {
        ghost var wi, li := W(), Log(state);
        var p := items[i];
        ghost var t := Next();
        if p in rows {
          var _ := PullFile(p, false, None);
          assert CellBounded(At(W(), p), revision, mtime);
          if p in stores {
            state.pootleRevisions := state.pootleRevisions[p := Some(stores[p].revision)];
          }
          state.fileHashes := state.fileHashes[p := At(W(), p).LatestHash()];
        }
        PhaseStep(formats, Pulling, items, i, w, wi, W(), l, li, Log(state), t);
      }
      assert items[..|items|] == items;
    }

    method SyncPush(state: ProjectState, items: seq<Path>) returns (pushed: seq<Path>)
      requires Bounded(W()) && Distinct(items)
      requires forall p :: p in items && p in rows ==> p in stores
      modifies this`files, this`mtime, state`pootleRevisions, state`fileHashes
      ensures pushed == items
      ensures Bounded(W()) && PhaseDone(formats, Pushing, items, old(W()), W(), old(Log(state)), Log(state))
    {
      ghost var w, l := W(), Log(state);
      pushed := items;
      for i := 0 to |items|
        invariant Bounded(W())
        invariant PhaseDone(formats, Pushing, items[..i], w, W(), l, Log(state))
      {
        ghost var wi, li := W(), Log(state);
        var p := items[i];
        ghost var t := Next();
        if p in rows {
          var _ := PushFile(p);
          assert CellBounded(At(W(), p), revision, mtime);
          state.pootleRevisions := state.pootleRevisions[p := Some(stores[p].revision)];
          state.fileHashes := state.fileHashes[p := At(W(), p).LatestHash()];
        }
        PhaseStep(formats, Pushing, items, i, w, wi, W(), l, li, Log(state), t);
      }
      assert items[..|items|] == items;
    }

    // The last part of sync: on_sync for every item that was merged, pulled or
    // pushed, with what the loops left in the state's resources.
    method FinishSync(state: ProjectState, items: seq<Path>)
      modifies this`rows
      ensures AfterFinish(items, old(W()), Log(state), W())
    {
      for i := 0 to |items|
        invariant AfterFinish(items[..i], old(W()), Log(state), W())
      {
        assert items[..i + 1] == items[..i] + [items[i]];
        var p := items[i];
        if p in rows {
          var revision := Lookup(state.pootleRevisions, p).GetOr(None);
          var hash := Lookup(state.fileHashes, p).GetOr(At(W(), p).LatestHash());
          rows := rows[p := OnSync(rows[p], hash, revision)];
        }
      }
      assert items[..|items|] == items;
    }

    // The phases one after the other, over lists that were made beforehand
    method SyncLists(state: ProjectState, update: Side, remove: seq<Path>, mergePootle: seq<Path>, mergeFs: seq<Path>,
                     pull: seq<Path>, staged: seq<Path>, ahead: seq<Path>)
      returns (ghost tr: Trace)
      requires Bounded(W()) && Remove in state.lists && remove == state.lists[Remove]
      requires Distinct(mergePootle) && Distinct(mergeFs) && Distinct(pull) && Distinct(staged) && Distinct(ahead)
      requires forall p :: p in staged + ahead ==> p in stores
      modifies this`rows, this`stores, this`files, this`revision, this`mtime
      modifies state`pootleRevisions, state`fileHashes
      ensures Phases(formats, update, remove, mergePootle, mergeFs, pull, staged, ahead, old(W()), old(Log(state)), tr)
      ensures AfterFinish(staged + ahead + pull + mergePootle + mergeFs, tr.w6, tr.l6, W())
    {
      ghost var w0, l0 := W(), Log(state);
      var _ := SyncRm(state);
      ghost var w1, l1 := W(), Log(state);
      var _ := SyncMerge(state, mergePootle, true, update == All);
      ghost var w2, l2 := W(), Log(state);
      var _ := SyncMerge(state, mergeFs, false, update == All);
      ghost var w3, l3 := W(), Log(state);
      var _ := SyncPull(state, pull);
      ghost var w4, l4 := W(), Log(state);
      forall p | p in staged + ahead ensures p in stores {
        assert At(w1, p).store.Some?;
        PhaseKeepsStore(formats, Merging(true, update == All), mergePootle, w1, w2, l1, l2, p);
        PhaseKeepsStore(formats, Merging(false, update == All), mergeFs, w2, w3, l2, l3, p);
        PhaseKeepsStore(formats, Pulling, pull, w3, w4, l3, l4, p);
      }
      var _ := SyncPush(state, staged);
      ghost var w5, l5 := W(), Log(state);
      forall p | p in ahead ensures p in stores {
        PhaseKeepsStore(formats, Pushing, staged, w4, w5, l4, l5, p);
      }
      var _ := SyncPush(state, ahead);
      ghost var w6, l6 := W(), Log(state);
      FinishSync(state, staged + ahead + pull + mergePootle + mergeFs);
      tr := Trace(w1, w2, w3, w4, w5, w6, l1, l2, l3, l4, l5, l6);
    }

    // sync. A side that is not asked for has nothing to work on.
    method SyncAction(state: ProjectState, update: Side) returns (response: seq<Item>)
      requires state.Reflects(W()) && Bounded(W())
      modifies this`rows, this`stores, this`files, this`revision, this`mtime
      modifies state`pootleRevisions, state`fileHashes
      ensures Step(formats, old(W()), DoSync(update), W())
      ensures forall p :: Mentions(response, p) <==> SyncActsOn(update, old(At(W(), p)))
    {
      ghost var w, l := W(), Log(state);
      var remove := state.lists[Remove];
      var mergePootle, mergeFs, fsStaged, fsAhead, staged, ahead := [], [], [], [], [], [];
      if Covers(update, Pootle) {
        mergePootle, mergeFs := state.lists[MergePootleWins], state.lists[MergeFsWins];
        fsStaged, fsAhead := state.lists[FsStaged], state.lists[FsAhead];
      }
      if Covers(update, Fs) {
        staged, ahead := state.lists[PootleStaged], state.lists[PootleAhead];
      }
      var pull := fsStaged + fsAhead;
      forall p
        ensures SelectedAs(update, At(w, p), p in remove, p in mergePootle, p in mergeFs, p in pull, p in staged,
                           p in ahead)
        ensures !(p in fsStaged && p in fsAhead)
        ensures p in staged + ahead ==> At(w, p).Live()
      {
        Selected(update, At(w, p), p in remove, p in mergePootle, p in mergeFs,
                 p in fsStaged, p in fsAhead, p in staged, p in ahead);
      }
      DistinctSum(fsStaged, fsAhead);
      hide Kinds, Phases, Mentions, SelectedAs, SyncActsOn, Step;
      ghost var tr := SyncLists(state, update, remove, mergePootle, mergeFs, pull, staged, ahead);
      SyncSteps(formats, update, remove, mergePootle, mergeFs, pull, staged, ahead, w, l, tr, W());
      response := Report(Removed, remove) + Report(MergedFromPootle, mergePootle)
        + Report(MergedFromFs, mergeFs) + (Report(PulledToPootle, pull) + Report(PushedToFs, staged + ahead));
      forall p ensures Mentions(response, p) <==> SyncActsOn(update, At(w, p)) {
        MentionsFive(Removed, remove, MergedFromPootle, mergePootle, MergedFromFs, mergeFs,
                     PulledToPootle, pull, PushedToFs, staged + ahead, p);
        SelectedActs(update, At(w, p), p in remove, p in mergePootle, p in mergeFs, p in pull, p in staged,
                     p in ahead);
      }
    }
  }
}
