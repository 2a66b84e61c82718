// Whole runs: any interleaving of the plugin's actions with edits, creations
// and deletions on both sides.

module FsRuns {
  import opened Options
  import opened FsModel
  import opened FsResources
  import opened FsState
  import opened FsFiles
  import opened FsActions

  datatype Event =
    | DoAdd(force: bool, update: Side)
    | DoResolve(merge: bool, pootleWins: bool)
    | DoRm(force: bool, update: Side)
    | DoUnstage
    | DoSync(update: Side)
    // outside the plugin
    | StoreSaved(path: Path, text: Text)
    | StoreObsoleted(path: Path)
    | StoreResurrected(path: Path)
    | StoreDeleted(path: Path)
    | FileSaved(path: Path, newText: Text)
    | FileDeleted(path: Path)

  predicate IsStaging(e: Event) {
    e.DoAdd? || e.DoResolve? || e.DoRm? || e.DoUnstage?
  }

  function Stage(c: Cell, e: Event): Cell
    requires IsStaging(e)
  {
    match e
    case DoAdd(force, update) => Add(c, force, update)
    case DoResolve(merge, wins) => Resolve(c, merge, wins)
    case DoRm(force, update) => Rm(c, force, update)
    case DoUnstage => Unstage(c)
  }

  // What an outside event does to its path. A store that is saved gets a
  // revision, and a file a time stamp, that were never issued before.
  function Outside(c: Cell, e: Event, revision: nat, mtime: nat): Cell
    requires !IsStaging(e) && !e.DoSync?
  {
    match e
    case StoreSaved(_, text) => c.(store := Some(Store(false, revision + 1, text)))
    case StoreObsoleted(_) =>
      if c.store.Some? then c.(store := Some(c.store.value.(obsolete := true))) else c
    case StoreResurrected(_) =>
      if c.store.Some? then c.(store := Some(c.store.value.(obsolete := false))) else c
    case StoreDeleted(_) => c.(store := None)
    case FileSaved(_, text) => c.(file := Some(File(mtime + 1, text)))
    case FileDeleted(_) => c.(file := None)
  }

  ghost predicate Synchronised(f: Formats, w: World, update: Side, c: Cell, c': Cell) {
    exists t :: Fresh(t, w) && c' == Sync(f, update, c, t)
  }

  ghost predicate Step(f: Formats, w: World, e: Event, w': World) {
    if IsStaging(e) then
      && w'.revision == w.revision && w'.mtime == w.mtime
      && forall p :: At(w', p) == Stage(At(w, p), e)
    else if e.DoSync? then
      && w.revision <= w'.revision && w.mtime <= w'.mtime
      && Bounded(w')
      && forall p :: Synchronised(f, w, e.update, At(w, p), At(w', p))
    else
      && w'.revision == (if e.StoreSaved? then w.revision + 1 else w.revision)
      && w'.mtime == (if e.FileSaved? then w.mtime + 1 else w.mtime)
      && (forall p :: At(w', p) == if p == e.path then Outside(At(w, p), e, w.revision, w.mtime) else At(w, p))
  }

  ghost predicate Run(f: Formats, ws: seq<World>, es: seq<Event>) {
    |ws| == |es| + 1 && forall i :: 0 <= i < |es| ==> Step(f, ws[i], es[i], ws[i + 1])
  }

  // ---- The invariant ----

  // A row with a hash and no revision, which is in no class: a merge that was not
  // pushed leaves it when store and file turn out not to differ.
  predicate Stranded(c: Cell) {
    c.row.Some? && c.row.value.hash.Some? && c.row.value.revision.None?
    && !c.Staged() && c.row.value.winner == Unset
  }

  predicate RowInv(c: Cell) {
    c.row.Some? ==>
      var r := c.row.value;
      && !(r.removal && r.merge)
      && (r.merge ==> r.winner != Unset)
      && ((r.revision.Some? <==> r.hash.Some?) || Stranded(c))
      // what is staged for merge has moved on both sides, and stays so
      && (r.merge && r.hash.Some? ==> c.FileChanged() && (c.store.Some? ==> c.StoreChanged()))
  }

  ghost predicate Inv(w: World) {
    Bounded(w) && forall p :: RowInv(At(w, p))
  }

  ghost predicate CellInv(c: Cell, revision: nat, mtime: nat) {
    RowInv(c) && CellBounded(c, revision, mtime)
  }

  lemma AddKeepsInv(c: Cell, force: bool, update: Side, revision: nat, mtime: nat)
    requires CellInv(c, revision, mtime)
    ensures CellInv(Add(c, force, update), revision, mtime)
  {
  }

  lemma ResolveKeepsInv(c: Cell, merge: bool, wins: bool, revision: nat, mtime: nat)
    requires CellInv(c, revision, mtime)
    ensures CellInv(Resolve(c, merge, wins), revision, mtime)
  {
  }

  lemma RmKeepsInv(c: Cell, force: bool, update: Side, revision: nat, mtime: nat)
    requires CellInv(c, revision, mtime)
    ensures CellInv(Rm(c, force, update), revision, mtime)
  {
  }

  lemma UnstageKeepsInv(c: Cell, revision: nat, mtime: nat)
    requires CellInv(c, revision, mtime)
    ensures CellInv(Unstage(c), revision, mtime)
  {
  }

  lemma StagingKeepsInv(c: Cell, e: Event, revision: nat, mtime: nat)
    requires IsStaging(e) && CellInv(c, revision, mtime)
    ensures CellInv(Stage(c, e), revision, mtime)
  {
    hide CellInv, Add, Resolve, Rm, Unstage;
    match e
    case DoAdd(force, update) => AddKeepsInv(c, force, update, revision, mtime);
    case DoResolve(merge, wins) => ResolveKeepsInv(c, merge, wins, revision, mtime);
    case DoRm(force, update) => RmKeepsInv(c, force, update, revision, mtime);
    case DoUnstage => UnstageKeepsInv(c, revision, mtime);
  }

  lemma OutsideKeepsInv(c: Cell, e: Event, revision: nat, mtime: nat)
    requires !IsStaging(e) && !e.DoSync?
    requires RowInv(c) && CellBounded(c, revision, mtime)
    ensures RowInv(Outside(c, e, revision, mtime))
    ensures CellBounded(Outside(c, e, revision, mtime), revision + 1, mtime + 1)
    ensures !e.StoreSaved? ==> CellBounded(Outside(c, e, revision, mtime), revision, mtime + 1)
    ensures !e.FileSaved? ==> CellBounded(Outside(c, e, revision, mtime), revision + 1, mtime)
  {
  }

  // The row left by a merge: it always ends in a push.
  lemma MergeAlwaysPushes(f: Formats, c: Cell, t: Stamps, revision: nat)
    requires Parseable(f)
    requires RowInv(c) && c.row.Some? && c.row.value.merge
    requires c.row.value.revision.GetOr(0) <= revision < t.issued < t.renewed
    ensures !PushSkips(Pull(f, c, true, MergeWins(c), t))
  {
  }

  lemma SyncKeepsInv(f: Formats, w: World, update: Side, c: Cell, t: Stamps)
    requires Parseable(f) && Fresh(t, w)
    requires RowInv(c) && CellBounded(c, w.revision, w.mtime)
    ensures RowInv(Sync(f, update, c, t))
  {
    if c.row.Some? && c.row.value.merge {
      MergeAlwaysPushes(f, c, t, w.revision);
    }
  }

  lemma StepKeepsInv(f: Formats, w: World, e: Event, w': World)
    requires Parseable(f) && Inv(w) && Step(f, w, e, w')
    ensures Inv(w')
  {
    forall p ensures RowInv(At(w', p)) && CellBounded(At(w', p), w'.revision, w'.mtime) {
      var c := At(w, p);
      assert RowInv(c) && CellBounded(c, w.revision, w.mtime);
      if IsStaging(e) {
        StagingKeepsInv(c, e, w.revision, w.mtime);
      } else if e.DoSync? {
        assert Synchronised(f, w, e.update, c, At(w', p));
        var t :| Fresh(t, w) && At(w', p) == Sync(f, e.update, c, t);
        SyncKeepsInv(f, w, e.update, c, t);
      } else if p == e.path {
        OutsideKeepsInv(c, e, w.revision, w.mtime);
      }
    }
  }

  // Over any interleaving, no row carries both staging flags, whatever is staged
  // for merge has a winner, and sync revision and hash are both set or both null,
  // but for stranded rows.
  lemma {:induction false} InvariantOverRuns(f: Formats, ws: seq<World>, es: seq<Event>, i: nat)
    requires Parseable(f) && Run(f, ws, es) && Inv(ws[0]) && i < |ws|
    ensures Inv(ws[i])
    ensures forall p :: p in ws[i].rows ==>
      var r := ws[i].rows[p];
      && !(r.removal && r.merge)
      && (r.merge ==> r.winner != Unset)
      && ((r.revision.Some? <==> r.hash.Some?) || Stranded(At(ws[i], p)))
  {
    if i > 0 {
      InvariantOverRuns(f, ws, es, i - 1);
      StepKeepsInv(f, ws[i - 1], es[i - 1], ws[i]);
    }
    forall p | p in ws[i].rows
      ensures RowInv(At(ws[i], p)) && At(ws[i], p).row == Some(ws[i].rows[p])
    {
    }
  }

  // ---- What a sync leaves behind ----

  // Two staged cells do not end up in step: the re-add that pull's guard turns
  // away, and a merge of an obsolete store with a file that has gone before the
  // first sync, which writes the obsolete store out without resurrecting it.
  predicate LeftObsolete(c: Cell) {
    || UntouchedReadd(c)
    || (c.row.Some? && c.row.value.merge && c.row.value.hash.None?
        && c.store.Some? && c.store.value.obsolete && c.file.None?)
  }

  // A merge that a sync of the side of Pootle works on, and does not push
  predicate MergedUnpushed(update: Side, c: Cell) {
    update == Pootle && Kinds(c) * {MergePootleWins, MergeFsWins} != {}
  }

  // Where such a merge leaves its path. It is synced with the revision of the
  // update; if the update gave a later one to units that are still to be pushed,
  // or none to any unit, the path is ahead in Pootle.
  function AfterHalfMerge(f: Formats, c: Cell): set<Kind>
    requires c.row.Some?
  {
    if LeftObsolete(c) then {}
    else if c.file.None? then {PootleStaged}
    else
      match Update(f, c, true, MergeWins(c)).effect
      case NoDifference => {}
      case Saved => {}
      case _ => {PootleAhead}
  }

  lemma HalfMergeKinds(f: Formats, w: World, c: Cell, t: Stamps)
    requires Parseable(f) && Fresh(t, w) && MergedUnpushed(Pootle, c)
    requires RowInv(c) && CellBounded(c, w.revision, w.mtime)
    ensures c.row.Some? && Sync(f, Pootle, c, t).file == c.file
    ensures Kinds(Sync(f, Pootle, c, t)) == AfterHalfMerge(f, c)
    ensures Stranded(Sync(f, Pootle, c, t)) <==> MergedForNothing(f, c)
  {
    assert Kinds(c) == {if c.row.value.winner == PootleWins then MergePootleWins else MergeFsWins};
  }

  predicate MergedForNothing(f: Formats, c: Cell) {
    && c.row.Some? && c.row.value.merge && c.file.Some?
    && Update(f, c, true, MergeWins(c)).effect.NoDifference?
  }

  ghost predicate LeftBehind(f: Formats, update: Side, c: Cell, c': Cell) {
    if !SyncActsOn(update, c) then c' == c
    else if MergedUnpushed(update, c) then c'.file == c.file && Kinds(c') == AfterHalfMerge(f, c)
    else if Remove in Kinds(c) then c' == Delete(c) && Kinds(c') == {}
    else InStep(c, c')
  }

  ghost predicate InStep(c: Cell, c': Cell) {
    && c'.store.Some? && c'.file.Some?
    && c'.row == Some(Row(Some(c'.store.value.revision), Some(c'.file.value.mtime), false, false, Unset))
    && Kinds(c') == (if LeftObsolete(c) then {PootleRemoved} else {})
    && c'.store.value.obsolete == LeftObsolete(c)
  }

  lemma SyncOneCell(f: Formats, w: World, update: Side, c: Cell, t: Stamps)
    requires Parseable(f) && Fresh(t, w)
    requires RowInv(c) && CellBounded(c, w.revision, w.mtime)
    ensures LeftBehind(f, update, c, Sync(f, update, c, t))
  {
    if MergedUnpushed(update, c) {
      HalfMergeKinds(f, w, c, t);
    } else if Kinds(c) * {MergePootleWins, MergeFsWins} != {} {
      MergedInStep(f, w, update, c, t);
    } else if Kinds(c) * {FsStaged, FsAhead} != {} {
      PulledInStep(f, w, update, c, t);
    } else {
      PushedInStep(f, w, update, c, t);
    }
  }

  lemma MergedInStep(f: Formats, w: World, update: Side, c: Cell, t: Stamps)
    requires Parseable(f) && Fresh(t, w)
    requires RowInv(c) && CellBounded(c, w.revision, w.mtime)
    requires Kinds(c) * {MergePootleWins, MergeFsWins} != {} && update != Pootle
    ensures LeftBehind(f, update, c, Sync(f, update, c, t))
  {
    assert Kinds(c) == {if c.row.value.winner == PootleWins then MergePootleWins else MergeFsWins};
    MergeAlwaysPushes(f, c, t, w.revision);
  }

  lemma PulledInStep(f: Formats, w: World, update: Side, c: Cell, t: Stamps)
    requires Parseable(f) && Fresh(t, w)
    requires RowInv(c) && CellBounded(c, w.revision, w.mtime)
    requires Kinds(c) * {FsStaged, FsAhead} != {}
    ensures LeftBehind(f, update, c, Sync(f, update, c, t))
  {
  }

  lemma PushedInStep(f: Formats, w: World, update: Side, c: Cell, t: Stamps)
    requires Fresh(t, w)
    requires RowInv(c) && CellBounded(c, w.revision, w.mtime)
    requires Kinds(c) * {MergePootleWins, MergeFsWins, FsStaged, FsAhead} == {}
    ensures LeftBehind(f, update, c, Sync(f, update, c, t))
  {
  }

  // After a sync everything it selected is in step (with the exact exception),
  // everything staged for removal is gone, and everything else is untouched.
  lemma SyncReachesFixpoint(f: Formats, w: World, update: Side, w': World, p: Path, k: Kind)
    requires Parseable(f) && Inv(w) && Step(f, w, DoSync(update), w')
    requires p in Members(w, k)
    ensures k == Remove ==> At(w', p) == Delete(At(w, p))
    ensures k in SyncKinds(update) && k != Remove && !(update == Pootle && k in {MergePootleWins, MergeFsWins}) ==>
      && (Unchanged(w', p) <==> !LeftObsolete(At(w, p)))
      && (p in Members(w', PootleRemoved) <==> LeftObsolete(At(w, p)))
    ensures k !in SyncKinds(update) ==> At(w', p) == At(w, p)
  {
    hide Members;
    MembersAreKinds(w, p, k);
    var t := SyncStamps(f, w, update, w', p);
    SyncOneCell(f, w, update, At(w, p), t);
    KindsApart(update, At(w, p), k);
    if k in SyncKinds(update) && k != Remove && !MergedUnpushed(update, At(w, p)) {
      UnchangedMeansInStep(w', p);
      MembersAreKinds(w', p, PootleRemoved);
    }
  }

  // What is staged for removal loses its row and file; its store is kept, obsolete.
  lemma RemovedIsRetired(f: Formats, w: World, update: Side, w': World, p: Path)
    requires Parseable(f) && Inv(w) && Step(f, w, DoSync(update), w')
    requires p in Members(w, Remove)
    ensures p !in w'.rows && p !in w'.files
    ensures p in w.stores <==> p in w'.stores
    ensures p in w.stores ==> w'.stores[p] == w.stores[p].(obsolete := true)
  {
    SyncReachesFixpoint(f, w, update, w', p, Remove);
    assert At(w', p).row.None? && At(w', p).file.None?;
    hide Members, Step, Inv;
  }

  lemma KindsApart(update: Side, c: Cell, k: Kind)
    requires RowInv(c) && k in Kinds(c)
    ensures Remove in Kinds(c) <==> k == Remove
    ensures SyncActsOn(update, c) <==> k in SyncKinds(update)
    ensures MergedUnpushed(update, c) <==> update == Pootle && k in {MergePootleWins, MergeFsWins}
  {
    hide Kinds, RowInv;
    forall j | j in Kinds(c) ensures j == k || Are(j, k, PootleAhead, PootleStaged) {
      KindsTogether(c, j, k);
    }
    assert k in SyncKinds(update) ==> k in Kinds(c) * SyncKinds(update);
    assert k in {MergePootleWins, MergeFsWins} ==> k in Kinds(c) * {MergePootleWins, MergeFsWins};
  }

  lemma KindsTogether(c: Cell, j: Kind, k: Kind)
    requires RowInv(c) && j in Kinds(c) && k in Kinds(c)
    ensures j == k || Are(j, k, PootleAhead, PootleStaged)
  {
    hide Kinds;
    if j != k {
      KindsOverlap(c, j, k);
    }
  }

  lemma SyncStamps(f: Formats, w: World, update: Side, w': World, p: Path) returns (t: Stamps)
    requires Inv(w) && Step(f, w, DoSync(update), w')
    ensures Fresh(t, w) && At(w', p) == Sync(f, update, At(w, p), t)
    ensures RowInv(At(w, p)) && CellBounded(At(w, p), w.revision, w.mtime)
  {
    assert RowInv(At(w, p)) && CellBounded(At(w, p), w.revision, w.mtime);
    assert Synchronised(f, w, update, At(w, p), At(w', p));
    t :| Fresh(t, w) && At(w', p) == Sync(f, update, At(w, p), t);
  }

  // A path in none of the classes that sync works on keeps row, store and file.
  lemma SyncFrame(f: Formats, w: World, update: Side, w': World, p: Path)
    requires Parseable(f) && Inv(w) && Step(f, w, DoSync(update), w')
    requires forall k :: k in SyncKinds(update) ==> p !in Members(w, k)
    ensures At(w', p) == At(w, p)
  {
    hide Members;
    var c := At(w, p);
    forall k | k in SyncKinds(update) ensures k !in Kinds(c) {
      MembersAreKinds(w, p, k);
    }
    var t := SyncStamps(f, w, update, w', p);
    SyncOneCell(f, w, update, c, t);
  }

  function OldText(f: Formats, c: Cell): Text {
    if c.store.Some? then c.store.value.text else f.empty
  }

  function Disk(c: Cell): Option<Text> {
    if c.file.Some? then Some(c.file.value.text) else None
  }

  // The store has taken in an update, under a new revision if it saved units.
  predicate TookIn(w: World, c: Cell, c': Cell, u: Updated) {
    && c'.store.Some? && c'.store.value.text == u.text
    && (if u.effect in {Saved, Renewed} then w.revision < c'.store.value.revision
        else c'.store.value.revision == if c.store.Some? then c.store.value.revision else 0)
  }

  predicate WroteOut(w: World, c': Cell, text: Text) {
    c'.file.Some? && c'.file.value.text == text && w.mtime < c'.file.value.mtime
  }

  // What a sync makes of the contents: what is pulled comes from the file, which
  // stays, and wins unless Pootle was chosen; what is pushed from the store, which
  // stays; and a merge writes out what the merge with the revision last synced
  // gave. A merge that is not pushed leaves the file as it is.
  ghost predicate Wrote(f: Formats, w: World, update: Side, c: Cell, c': Cell) {
    var ks, text := Kinds(c), OldText(f, c);
    if MergePootleWins in ks || MergeFsWins in ks then
      var winner := if MergePootleWins in ks then PootleWins else SourceWins;
      && c'.store.Some?
      && (if c.file.None? then TookIn(w, c, c', Updated(text, NoDifference))
          else TookIn(w, c, c', f.update(text, c.file.value.text, winner, Some(c.row.value.revision.GetOr(0)))))
      && (if update == All then WroteOut(w, c', f.write(c'.store.value.text, Disk(c))) else c'.file == c.file)
    else if FsStaged in ks || FsAhead in ks then
      var winner := if c.row.value.winner == PootleWins then PootleWins else SourceWins;
      && c'.file == c.file && c.file.Some?
      && TookIn(w, c, c', if UntouchedReadd(c) then Updated(text, NoDifference)
                          else f.update(text, c.file.value.text, winner, None))
    else
      && c'.store == c.store
      && WroteOut(w, c', f.write(text, if {PootleStaged, PootleAhead} <= ks then Some(f.write(text, None)) else Disk(c)))
  }

  lemma SyncWrites(f: Formats, w: World, update: Side, w': World, p: Path)
    requires Parseable(f) && Inv(w) && Step(f, w, DoSync(update), w')
    requires SyncActsOn(update, At(w, p)) && Remove !in Kinds(At(w, p))
    ensures Wrote(f, w, update, At(w, p), At(w', p))
  {
    var t := SyncStamps(f, w, update, w', p);
    CellWrites(f, w, update, At(w, p), t);
  }

  lemma CellWrites(f: Formats, w: World, update: Side, c: Cell, t: Stamps)
    requires Parseable(f) && Fresh(t, w)
    requires RowInv(c) && CellBounded(c, w.revision, w.mtime)
    requires SyncActsOn(update, c) && Remove !in Kinds(c)
    ensures Wrote(f, w, update, c, Sync(f, update, c, t))
  {
    if MergePootleWins in Kinds(c) || MergeFsWins in Kinds(c) {
      MergeWrites(f, w, update, c, t);
    } else if FsStaged in Kinds(c) || FsAhead in Kinds(c) {
      PullWrites(f, w, update, c, t);
    } else {
      PushWrites(f, w, update, c, t);
    }
  }

  lemma MergeWrites(f: Formats, w: World, update: Side, c: Cell, t: Stamps)
    requires Parseable(f) && Fresh(t, w)
    requires RowInv(c) && CellBounded(c, w.revision, w.mtime)
    requires SyncActsOn(update, c) && (MergePootleWins in Kinds(c) || MergeFsWins in Kinds(c))
    ensures Wrote(f, w, update, c, Sync(f, update, c, t))
  {
    assert Kinds(c) == {if c.row.value.winner == PootleWins then MergePootleWins else MergeFsWins};
    MergeAlwaysPushes(f, c, t, w.revision);
  }

  lemma PullWrites(f: Formats, w: World, update: Side, c: Cell, t: Stamps)
    requires Fresh(t, w) && RowInv(c) && CellBounded(c, w.revision, w.mtime)
    requires SyncActsOn(update, c) && (FsStaged in Kinds(c) || FsAhead in Kinds(c))
    ensures Wrote(f, w, update, c, Sync(f, update, c, t))
  {
  }

  lemma PushWrites(f: Formats, w: World, update: Side, c: Cell, t: Stamps)
    requires Fresh(t, w) && RowInv(c) && CellBounded(c, w.revision, w.mtime)
    requires SyncActsOn(update, c) && Kinds(c) * {Remove, MergePootleWins, MergeFsWins, FsStaged, FsAhead} == {}
    ensures Wrote(f, w, update, c, Sync(f, update, c, t))
  {
  }

  // A second sync of the same side, or of both, changes nothing at all.
  lemma SyncIsIdempotent(f: Formats, w: World, update: Side, w': World, w'': World)
    requires Parseable(f) && Inv(w)
    requires Step(f, w, DoSync(update), w') && Step(f, w', DoSync(update), w'')
    ensures forall p :: At(w'', p) == At(w', p)
  {
    StepKeepsInv(f, w, DoSync(update), w');
    forall p ensures At(w'', p) == At(w', p) {
      var t := SyncStamps(f, w, update, w', p);
      var t' := SyncStamps(f, w', update, w'', p);
      SyncTwice(f, w, update, At(w, p), t);
      SyncOneCell(f, w', update, At(w', p), t');
    }
  }

  lemma SyncTwice(f: Formats, w: World, update: Side, c: Cell, t: Stamps)
    requires Parseable(f) && Fresh(t, w)
    requires RowInv(c) && CellBounded(c, w.revision, w.mtime)
    ensures !SyncActsOn(update, Sync(f, update, c, t))
  {
    SyncOneCell(f, w, update, c, t);
  }

  // A conflict that is resolved and synchronised ends as was asked: overwritten
  // from one side, or merged with the chosen side winning.
  lemma ResolutionHolds(f: Formats, w: World, merge: bool, wins: bool, w1: World, update: Side, w2: World, p: Path)
    requires Parseable(f) && Inv(w)
    requires Step(f, w, DoResolve(merge, wins), w1) && Step(f, w1, DoSync(update), w2)
    requires p in Members(w, Conflict) + Members(w, ConflictUntracked) && p in w.files
    ensures p in w.stores
    ensures !merge && !wins && Covers(update, Pootle) ==>
      && p in w2.stores && w2.stores[p].text == f.update(w.stores[p].text, w.files[p].text, SourceWins, None).text
      && p in w2.files && w2.files[p] == w.files[p]
    ensures !merge && wins && Covers(update, Fs) ==>
      && p in w2.stores && w2.stores[p] == w.stores[p]
      && p in w2.files && w2.files[p].text == f.write(w.stores[p].text, Some(w.files[p].text))
    ensures merge && Covers(update, Pootle) ==>
      var base := if p in w.rows then w.rows[p].revision.GetOr(0) else 0;
      && p in w2.stores
      && w2.stores[p].text
         == f.update(w.stores[p].text, w.files[p].text, if wins then PootleWins else SourceWins, Some(base)).text
      && (update == All ==> p in w2.files && w2.files[p].text == f.write(w2.stores[p].text, Some(w.files[p].text)))
  {
    hide Members;
    var c, c1 := At(w, p), At(w1, p);
    MembersAreKinds(w, p, Conflict);
    MembersAreKinds(w, p, ConflictUntracked);
    StepKeepsInv(f, w, DoResolve(merge, wins), w1);
    assert c1 == Resolve(c, merge, wins);
    ResolvedKinds(c, merge, wins, update);
    if SyncActsOn(update, c1) {
      SyncWrites(f, w1, update, w2, p);
    }
    hide Step, Inv, Resolve, SyncActsOn;
  }

  lemma ResolvedKinds(c: Cell, merge: bool, wins: bool, update: Side)
    requires (Conflict in Kinds(c) || ConflictUntracked in Kinds(c)) && c.file.Some?
    ensures c.Live()
    ensures
      var c1 := Resolve(c, merge, wins);
      && c1.row.Some? && c1.store == c.store && c1.file == c.file
      && c1.row.value.winner == (if wins then PootleWins else SourceWins)
      && c1.row.value.revision == (if c.row.Some? then c.row.value.revision else None)
      && Kinds(c1) == {if merge then (if wins then MergePootleWins else MergeFsWins)
                       else if c.row.Some? then (if wins then PootleAhead else FsAhead)
                       else if wins then PootleStaged else FsStaged}
      && (SyncActsOn(update, c1) <==> Covers(update, if wins && !merge then Fs else Pootle))
  {
  }

  // ---- No unauthorised overwrite ----

  // Whatever a sync does to a file that is not the one last synced, or to a live
  // store that is not the one last synced, somebody asked for.
  ghost predicate Authorised(c: Cell, c': Cell) {
    && (c.file.Some? && c'.file != c.file ==>
          && c.row.Some?
          && (c.FileChanged() ==>
                c.row.value.removal || c.row.value.merge || c.row.value.winner == PootleWins))
    && (c.Live() && c'.store != c.store ==>
          && c.row.Some?
          && (c.row.value.hash.Some? && c.StoreChanged() ==>
                c.row.value.removal || c.row.value.merge || c.row.value.winner == SourceWins))
  }

  // In every run, whatever it starts from
  lemma NoUnauthorisedOverwrite(f: Formats, ws: seq<World>, es: seq<Event>, i: nat, p: Path)
    requires Run(f, ws, es) && i < |es| && es[i].DoSync?
    ensures Authorised(At(ws[i], p), At(ws[i + 1], p))
  {
    assert Step(f, ws[i], es[i], ws[i + 1]);
    assert Synchronised(f, ws[i], es[i].update, At(ws[i], p), At(ws[i + 1], p));
  }

  // The events that may end a conflict at p.
  predicate EndsConflict(e: Event, p: Path) {
    || e.DoResolve?
    || (e.DoRm? && e.force)
    || ((e.StoreObsoleted? || e.StoreDeleted?) && e.path == p)
  }

  // A conflict stays a conflict, its row as it was and both its sides out of the
  // reach of every sync, until it is resolved, removed or loses its store.
  lemma {:induction false} ConflictPersists(f: Formats, ws: seq<World>, es: seq<Event>, i: nat, p: Path)
    requires Parseable(f) && Run(f, ws, es) && Inv(ws[0])
    requires i < |ws| && p in Members(ws[0], Conflict)
    requires forall j :: 0 <= j < i ==> !EndsConflict(es[j], p)
    ensures p in Members(ws[i], Conflict) && At(ws[i], p).row == At(ws[0], p).row
    ensures i > 0 && es[i - 1].DoSync? ==> At(ws[i], p) == At(ws[i - 1], p)
  {
    hide Members;
    MembersAreKinds(ws[0], p, Conflict);
    if i > 0 {
      ConflictPersists(f, ws, es, i - 1, p);
      InvariantOverRuns(f, ws, es, i - 1);
      MembersAreKinds(ws[i - 1], p, Conflict);
      ConflictStep(f, ws[i - 1], es[i - 1], ws[i], p);
      MembersAreKinds(ws[i], p, Conflict);
    }
  }

  lemma ConflictStep(f: Formats, w: World, e: Event, w': World, p: Path)
    requires Inv(w) && Step(f, w, e, w') && !EndsConflict(e, p)
    requires Conflict in Kinds(At(w, p))
    ensures Conflict in Kinds(At(w', p)) && At(w', p).row == At(w, p).row
    ensures e.DoSync? ==> At(w', p) == At(w, p)
  {
    var c := At(w, p);
    assert CellBounded(c, w.revision, w.mtime);
    if e.DoSync? {
      var t := SyncStamps(f, w, e.update, w', p);
      ConflictIdle(f, e.update, c, t);
    } else if IsStaging(e) {
      ConflictUnstaged(c, e);
    } else if p == e.path {
      ConflictOutside(c, e, w.revision, w.mtime);
    }
  }

  lemma ConflictIdle(f: Formats, update: Side, c: Cell, t: Stamps)
    requires Conflict in Kinds(c)
    ensures Sync(f, update, c, t) == c
  {
  }

  lemma ConflictUnstaged(c: Cell, e: Event)
    requires Conflict in Kinds(c)
    requires IsStaging(e) && !e.DoResolve? && !(e.DoRm? && e.force)
    ensures Stage(c, e) == c
  {
  }

  lemma ConflictOutside(c: Cell, e: Event, revision: nat, mtime: nat)
    requires Conflict in Kinds(c) && CellBounded(c, revision, mtime)
    requires !IsStaging(e) && !e.DoSync? && !e.StoreObsoleted? && !e.StoreDeleted?
    ensures Conflict in Kinds(Outside(c, e, revision, mtime))
    ensures Outside(c, e, revision, mtime).row == c.row
  {
  }

  // ---- Where staging moves a path ----

  // The class that an action moves a path of class k to, if it takes it up
  function Moved(k: Kind, e: Event): Option<Kind> {
    match e
    case DoAdd(force, update) =>
      if k == FsUntracked && Covers(update, Pootle) then Some(FsStaged)
      else if k == PootleUntracked && Covers(update, Fs) then Some(PootleStaged)
      else if k == FsRemoved && force && Covers(update, Pootle) then Some(PootleStaged)
      else if k == PootleRemoved && force && Covers(update, Fs) then Some(FsStaged)
      else None
    case DoResolve(merge, wins) =>
      if k != Conflict && k != ConflictUntracked then None
      else if merge then Some(if wins then MergePootleWins else MergeFsWins)
      else if k == Conflict then Some(if wins then PootleAhead else FsAhead)
      else Some(if wins then PootleStaged else FsStaged)
    case DoRm(force, update) =>
      if || k == BothRemoved
         || (k in {Conflict, ConflictUntracked} && force)
         || (k == PootleRemoved && Covers(update, Fs)) || (k == PootleUntracked && force && Covers(update, Fs))
         || (k == FsRemoved && Covers(update, Pootle)) || (k == FsUntracked && force && Covers(update, Pootle))
      then Some(Remove)
      else None
    case _ => None
  }

  // add, resolve and rm take each path from its class to the class that sync
  // will treat as asked, and leave all other paths alone. A conflict whose file
  // is missing, overwritten from the filesystem, reaches no class.
  lemma StagingMoves(f: Formats, w: World, e: Event, w': World, p: Path, k: Kind)
    requires e.DoAdd? || e.DoResolve? || e.DoRm?
    requires Step(f, w, e, w') && p in Members(w, k)
    ensures Moved(k, e).Some? ==> (p in Members(w', Moved(k, e).value) <==> !LostResolution(w, e, p))
    ensures LostResolution(w, e, p) ==> Unchanged(w', p)
    ensures (forall j :: p in Members(w, j) ==> Moved(j, e).None?) ==> At(w', p) == At(w, p)
  {
    hide Members, Moved;
    var c, c' := At(w, p), At(w', p);
    forall j ensures p in Members(w, j) <==> j in Kinds(c) {
      MembersAreKinds(w, p, j);
    }
    if Moved(k, e).Some? {
      MembersAreKinds(w', p, Moved(k, e).value);
    }
    assert c' == Stage(c, e);
    assert LostResolution(w, e, p) <==> e == DoResolve(false, false) && Conflict in Kinds(c) && c.file.None?;
    hide Kinds;
    CellMoves(c, e, k);
    if LostResolution(w, e, p) {
      UnchangedMeansInStep(w', p);
      LostIsUnchanged(c, e);
    }
  }

  lemma CellMoves(c: Cell, e: Event, k: Kind)
    requires (e.DoAdd? || e.DoResolve? || e.DoRm?) && k in Kinds(c)
    ensures Moved(k, e).Some? ==>
      (Moved(k, e).value in Kinds(Stage(c, e)) <==> !(e == DoResolve(false, false) && Conflict in Kinds(c) && c.file.None?))
    ensures (forall j :: j in Kinds(c) ==> Moved(j, e).None?) ==> Stage(c, e) == c
  {
  }

  // What staging writes: rows alone, and in them these columns alone.
  lemma StagingWrites(f: Formats, w: World, e: Event, w': World, p: Path, k: Kind)
    requires IsStaging(e) && Step(f, w, e, w') && p in Members(w, k)
    ensures At(w', p).store == At(w, p).store && At(w', p).file == At(w, p).file
    ensures e.DoAdd? && Moved(k, e).Some? ==>
      p in w'.rows && w'.rows[p] == (if k in {FsUntracked, PootleUntracked} then Row(None, None, false, false, Unset)
                                     else w.rows[p].(winner := if k == FsRemoved then PootleWins else SourceWins))
    ensures e.DoResolve? && Moved(k, e).Some? ==>
      var winner := if e.pootleWins then PootleWins else SourceWins;
      p in w'.rows && w'.rows[p] == (if k == ConflictUntracked then Row(None, None, false, e.merge, winner)
                                     else w.rows[p].(winner := winner, merge := e.merge))
    ensures e.DoRm? && Moved(k, e).Some? ==>
      p in w'.rows && w'.rows[p] == (if p in w.rows then w.rows[p].(removal := true) else Row(None, None, true, false, Unset))
    ensures e.DoUnstage? ==>
      if UnstageTakes(w, p, k) then
        if w.rows[p].revision.GetOr(0) == 0 && w.rows[p].hash.None? then p !in w'.rows
        else p in w'.rows && w'.rows[p] == w.rows[p].(winner := Unset, merge := false, removal := false)
      else At(w', p) == At(w, p)
  {
    hide Members, Moved;
    var c := At(w, p);
    MembersAreKinds(w, p, k);
    assert At(w', p) == Stage(c, e);
    assert Lookup(w'.rows, p) == Stage(c, e).row && Lookup(w.rows, p) == c.row;
    assert p in w'.rows <==> Stage(c, e).row.Some?;
    match e
    case DoAdd(_, _) => AddWrites(c, e, k);
    case DoResolve(_, _) => ResolveWrites(c, e, k);
    case DoRm(_, _) => RmWrites(c, e, k);
    case DoUnstage => UnstageWrites(c, k);
  }

  // What is staged, and what is ahead because it was resolved
  predicate UnstageTakes(w: World, p: Path, k: Kind) {
    && p in w.rows
    && (k in {Remove, MergePootleWins, MergeFsWins, PootleStaged, FsStaged}
        || (k in {PootleAhead, FsAhead} && w.rows[p].winner != Unset))
  }

  lemma AddWrites(c: Cell, e: Event, k: Kind)
    requires e.DoAdd? && k in Kinds(c)
    ensures Stage(c, e).store == c.store && Stage(c, e).file == c.file
    ensures Moved(k, e).Some? ==> k in {FsUntracked, PootleUntracked, FsRemoved, PootleRemoved}
    ensures Moved(k, e).Some? && k in {FsUntracked, PootleUntracked} ==>
      Stage(c, e).row == Some(Row(None, None, false, false, Unset))
    ensures Moved(k, e).Some? && k in {FsRemoved, PootleRemoved} ==>
      c.row.Some? && Stage(c, e).row == Some(c.row.value.(winner := if k == FsRemoved then PootleWins else SourceWins))
  {
  }

  lemma ResolveWrites(c: Cell, e: Event, k: Kind)
    requires e.DoResolve? && k in Kinds(c)
    ensures Stage(c, e).store == c.store && Stage(c, e).file == c.file
    ensures Moved(k, e).Some? ==>
      var winner := if e.pootleWins then PootleWins else SourceWins;
      && (k == Conflict <==> c.row.Some?)
      && Stage(c, e).row == Some(if k == ConflictUntracked then Row(None, None, false, e.merge, winner)
                                 else c.row.value.(winner := winner, merge := e.merge))
  {
  }

  lemma RmWrites(c: Cell, e: Event, k: Kind)
    requires e.DoRm? && k in Kinds(c)
    ensures Stage(c, e).store == c.store && Stage(c, e).file == c.file
    ensures Moved(k, e).Some? ==>
      Stage(c, e).row
        == Some(if c.row.Some? then c.row.value.(removal := true) else Row(None, None, true, false, Unset))
  {
  }

  lemma UnstageWrites(c: Cell, k: Kind)
    requires k in Kinds(c)
    ensures Unstage(c).store == c.store && Unstage(c).file == c.file
    ensures
      if c.row.Some?
         && (k in {Remove, MergePootleWins, MergeFsWins, PootleStaged, FsStaged}
             || (k in {PootleAhead, FsAhead} && c.row.value.winner != Unset))
      then
        if c.row.value.revision.GetOr(0) == 0 && c.row.value.hash.None? then Unstage(c).row == None
        else Unstage(c).row == Some(c.row.value.(winner := Unset, merge := false, removal := false))
      else Unstage(c) == c
  {
  }

  lemma LostIsUnchanged(c: Cell, e: Event)
    requires e == DoResolve(false, false) && Conflict in Kinds(c) && c.file.None?
    ensures Stage(c, e).Synced() && Stage(c, e).Live()
    ensures ChangedStoreMissingFile(Stage(c, e)) && Stage(c, e).row.value.winner == SourceWins
  {
  }

  // ---- Unstaging undoes staging ----

  predicate Clean(c: Cell) {
    c.row.Some? ==> c.Synced() && c.row.value.winner == Unset
  }

  // The one staging that unstage does not see: overwriting from the filesystem
  // a conflict whose file has gone.
  predicate LostResolution(w: World, e: Event, p: Path) {
    e == DoResolve(false, false) && p in Members(w, Conflict) && p !in w.files
  }

  lemma UnstageUndoes(f: Formats, w: World, e: Event, w1: World, w2: World, p: Path)
    requires e.DoAdd? || e.DoResolve? || e.DoRm?
    requires forall q :: Clean(At(w, q))
    requires Step(f, w, e, w1) && Step(f, w1, DoUnstage, w2)
    ensures At(w2, p) == At(w, p) <==> !LostResolution(w, e, p)
    ensures p in w2.rows <==> p in w.rows
    ensures LostResolution(w, e, p) ==> Unchanged(w2, p)
  {
    hide Members;
    var c := At(w, p);
    assert Clean(c);
    assert At(w1, p) == Stage(c, e) && At(w2, p) == Unstage(At(w1, p));
    MembersAreKinds(w, p, Conflict);
    UnstageUndoesCell(c, e);
    if LostResolution(w, e, p) {
      UnchangedMeansInStep(w2, p);
    }
  }

  lemma UnstageUndoesCell(c: Cell, e: Event)
    requires e.DoAdd? || e.DoResolve? || e.DoRm?
    requires Clean(c)
    ensures
      var c2 := Unstage(Stage(c, e));
      if e == DoResolve(false, false) && Conflict in Kinds(c) && c.file.None?
      then c2 == c.(row := Some(c.row.value.(winner := SourceWins))) && ChangedStoreMissingFile(c2)
      else c2 == c
  {
  }

  // ---- Two runs a user might not expect ----

  // add --force promises to restore a removed store from its file. When the
  // store was made obsolete and the file is untouched, the sync that follows
  // leaves the store obsolete and the path removed from Pootle as before.
  lemma ReaddDoesNotRestore(f: Formats, w: World, w1: World, w2: World, p: Path)
    requires Parseable(f) && Inv(w)
    requires p in Members(w, PootleRemoved)
    requires Step(f, w, DoAdd(true, All), w1) && Step(f, w1, DoSync(All), w2)
    ensures At(w2, p).Live() && Unchanged(w2, p)
            <==> !(p in w.stores && !At(w, p).FileChanged())
    ensures p in w.stores && !At(w, p).FileChanged() ==> p in Members(w2, PootleRemoved)
  {
    hide Members;
    MembersAreKinds(w, p, PootleRemoved);
    StepKeepsInv(f, w, DoAdd(true, All), w1);
    assert At(w1, p) == Add(At(w, p), true, All);
    MembersAreKinds(w1, p, FsStaged);
    SyncReachesFixpoint(f, w1, All, w2, p, FsStaged);
    UnchangedMeansInStep(w2, p);
    MembersAreKinds(w2, p, PootleRemoved);
  }

  // When a sync writes over a store that holds something new, although nobody
  // chose a winner: exactly when the row was never synced and there is a file.
  // The file then wins; every other such store stays as it is.
  lemma PulledOverIff(f: Formats, w: World, update: Side, w': World, p: Path)
    requires Parseable(f) && Inv(w) && Step(f, w, DoSync(update), w')
    requires At(w, p).row.Some? && At(w, p).Live() && !At(w, p).Staged()
    requires At(w, p).row.value.winner == Unset
    requires At(w, p).row.value.hash.None? || At(w, p).StoreChanged()
    ensures p in Members(w, FsStaged) + Members(w, FsAhead) <==> At(w, p).Unsynced() && p in w.files
    ensures
      if Covers(update, Pootle) && At(w, p).Unsynced() && p in w.files then
        p in w'.stores && w'.stores[p].text == f.update(w.stores[p].text, w.files[p].text, SourceWins, None).text
      else
        At(w', p).store == At(w, p).store
  {
    hide Members;
    var c := At(w, p);
    assert RowInv(c);
    MembersAreKinds(w, p, FsStaged);
    MembersAreKinds(w, p, FsAhead);
    if SyncActsOn(update, c) {
      SyncWrites(f, w, update, w', p);
    } else {
      var t := SyncStamps(f, w, update, w', p);
      SyncOneCell(f, w, update, c, t);
    }
    hide Step, Inv;
  }

  // A tracked file that was never synced is pulled over a store that appeared
  // after it was added, although nobody chose a winner.
  lemma NeverSyncedIsPulledOver(f: Formats, w: World, w1: World, w2: World, w3: World, p: Path, text: Text)
    requires Parseable(f) && Inv(w)
    requires p in Members(w, FsUntracked)
    requires Step(f, w, DoAdd(false, All), w1)
    requires Step(f, w1, StoreSaved(p, text), w2)
    requires Step(f, w2, DoSync(All), w3)
    ensures p in Members(w2, FsStaged) && At(w2, p).row.value.winner == Unset
    ensures p in w3.stores && w3.stores[p].text == f.update(text, w.files[p].text, SourceWins, None).text
  {
    hide Members;
    MembersAreKinds(w, p, FsUntracked);
    assert At(w1, p) == Add(At(w, p), false, All);
    assert At(w2, p) == Outside(At(w1, p), StoreSaved(p, text), w1.revision, w1.mtime);
    MembersAreKinds(w2, p, FsStaged);
    assert Synchronised(f, w2, All, At(w2, p), At(w3, p));
  }
}
