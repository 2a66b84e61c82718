// The classification of paths (ProjectFSState) over the resource queries, and
// the decision table it amounts to.

module FsState {
  import opened Options
  import opened FsModel
  import opened FsResources

  datatype Kind =
    | Conflict | ConflictUntracked
    | PootleAhead | PootleUntracked | PootleStaged | PootleRemoved
    | FsAhead | FsUntracked | FsStaged | FsRemoved
    | MergePootleWins | MergeFsWins | Remove | BothRemoved

  function NoLiveStore(w: World): set<Path> {
    set p | p in w.rows && (p !in w.stores || w.stores[p].obsolete)
  }

  // FSFile.fs_changed and file_exists, which look at the working directory
  function ChangedOnDisk(w: World): set<Path> {
    set p | p in w.rows && At(w, p).FileChanged()
  }

  // The paths that each state_<kind> generator yields.
  function Members(w: World, kind: Kind): (ps: set<Path>)
  {
    match kind
    case Conflict =>
      set p | p in PootleChanged(w) && w.rows[p].winner == Unset && p in ChangedOnDisk(w)
    case ConflictUntracked =>
      TrackableStores(w) * FoundFilePaths(w)
    case PootleAhead =>
      set p | p in PootleChanged(w)
              && (p !in ChangedOnDisk(w) || w.rows[p].winner == PootleWins)
    case PootleUntracked =>
      TrackableStores(w) - FoundFilePaths(w)
    case PootleStaged =>
      var unsynced := set p | p in Unsynced(w) - NoLiveStore(w) && w.rows[p].winner != SourceWins;
      var readded := set p | p in (Synced(w) - NoLiveStore(w)) * MissingFilePaths(w)
                             && w.rows[p].winner == PootleWins;
      set p | p in unsynced + readded && !(w.rows[p].winner != PootleWins && p in w.files)
    case PootleRemoved =>
      set p | p in (Synced(w) - MissingFilePaths(w)) * NoLiveStore(w) && w.rows[p].winner != SourceWins
    case FsAhead =>
      var changed := Synced(w) * FsChanged(w);
      var candidates := (changed - PootleChanged(w))
        + (set p | p in changed * PootleChanged(w) && w.rows[p].winner == SourceWins);
      set p | p in candidates
              && !(p in w.stores && w.stores[p].obsolete)
              && p in FileHashes(w)
              && p in PootleRevisions(w)
    case FsUntracked =>
      FoundFilePaths(w) - Tracked(w) - TrackableStores(w)
    case FsStaged =>
      (set p | p in Unsynced(w) - MissingFilePaths(w) && w.rows[p].winner != PootleWins)
      + (set p | p in Synced(w) * NoLiveStore(w) - MissingFilePaths(w) && w.rows[p].winner == SourceWins)
    case FsRemoved =>
      set p | p in Synced(w) * MissingFilePaths(w) - NoLiveStore(w) - PootleChanged(w)
              && w.rows[p].winner != PootleWins
    case MergePootleWins =>
      set p | p in Tracked(w) && w.rows[p].merge && w.rows[p].winner == PootleWins
    case MergeFsWins =>
      set p | p in Tracked(w) && w.rows[p].merge && w.rows[p].winner == SourceWins
    case Remove =>
      set p | p in Tracked(w) && w.rows[p].removal
    case BothRemoved =>
      Synced(w) * NoLiveStore(w) * MissingFilePaths(w)
  }

  // state_unchanged: synced rows that no generator yields
  ghost predicate Unchanged(w: World, p: Path) {
    p in Synced(w) && forall k :: p !in Members(w, k)
  }

  // The same classification read off one path: what each combination of row,
  // store and file means.
  function Kinds(c: Cell): set<Kind> {
    if c.row.None? then
      if c.Live() then (if c.file.Some? then {ConflictUntracked} else {PootleUntracked})
      else if c.file.Some? then {FsUntracked}
      else {}
    else
      var r := c.row.value;
      if c.Staged() then
        (if r.removal then {Remove} else {})
        + (if r.merge && r.winner == PootleWins then {MergePootleWins} else {})
        + (if r.merge && r.winner == SourceWins then {MergeFsWins} else {})
      else if c.Unsynced() then
        if c.file.Some? && r.winner != PootleWins then {FsStaged}
        else if c.Live() && r.winner != SourceWins then {PootleStaged}
        else {}
      else if !c.Synced() then {}
      else if !c.Live() then
        if c.file.None? then {BothRemoved}
        else if r.winner == SourceWins then {FsStaged}
        else {PootleRemoved}
      else if !c.StoreChanged() then
        if c.file.None? then (if r.winner == PootleWins then {PootleStaged} else {FsRemoved})
        else if c.FileChanged() then {FsAhead}
        else {}
      else if !c.FileChanged() then {PootleAhead}
      else match r.winner
        case Unset => {Conflict}
        case SourceWins => if c.file.Some? then {FsAhead} else {}
        case PootleWins => if c.file.Some? then {PootleAhead} else {PootleAhead, PootleStaged}
  }

  // The set queries and the decision table agree, class by class.
  lemma MembersAreKinds(w: World, p: Path, k: Kind)
    ensures p in Members(w, k) <==> k in Kinds(At(w, p))
  {
    match k
    case Conflict => ChangedMembers(w, p, k);
    case PootleAhead => ChangedMembers(w, p, k);
    case FsAhead => ChangedMembers(w, p, k);
    case PootleStaged => StagedMembers(w, p, k);
    case FsStaged => StagedMembers(w, p, k);
    case PootleRemoved => StagedMembers(w, p, k);
    case ConflictUntracked => case PootleUntracked => case FsUntracked =>
    case FsRemoved => case BothRemoved =>
    case MergePootleWins => case MergeFsWins => case Remove =>
  }

  lemma ChangedMembers(w: World, p: Path, k: Kind)
    requires k == Conflict || k == PootleAhead || k == FsAhead
    ensures p in Members(w, k) <==> k in Kinds(At(w, p))
  {
  }

  lemma StagedMembers(w: World, p: Path, k: Kind)
    requires k == PootleStaged || k == FsStaged || k == PootleRemoved
    ensures p in Members(w, k) <==> k in Kinds(At(w, p))
  {
  }

  // A store changed since its last sync whose file has gone: the one cell of
  // the table with two classes (under PootleWins), and the one that reads as
  // unchanged although both sides moved (under SourceWins).
  predicate ChangedStoreMissingFile(c: Cell) {
    c.Synced() && c.Live() && c.StoreChanged() && c.file.None?
  }

  predicate Are(k1: Kind, k2: Kind, a: Kind, b: Kind) {
    (k1 == a && k2 == b) || (k1 == b && k2 == a)
  }

  // The two cells of the table with two classes
  predicate Doubled(c: Cell, k1: Kind, k2: Kind) {
    || (ChangedStoreMissingFile(c) && c.row.value.winner == PootleWins && Are(k1, k2, PootleAhead, PootleStaged))
    || (c.row.Some? && c.row.value.removal && c.row.value.merge
        && ((c.row.value.winner == PootleWins && Are(k1, k2, Remove, MergePootleWins))
            || (c.row.value.winner == SourceWins && Are(k1, k2, Remove, MergeFsWins))))
  }

  lemma KindsOverlap(c: Cell, k1: Kind, k2: Kind)
    requires k1 != k2
    ensures k1 in Kinds(c) && k2 in Kinds(c) <==> Doubled(c, k1, k2)
  {
    if c.Staged() {
      StagedOverlap(c, k1, k2);
    } else if c.Synced() {
      SyncedOverlap(c, k1, k2);
    }
  }

  lemma StagedOverlap(c: Cell, k1: Kind, k2: Kind)
    requires k1 != k2 && c.Staged()
    ensures k1 in Kinds(c) && k2 in Kinds(c) <==> Doubled(c, k1, k2)
  {
  }

  lemma SyncedOverlap(c: Cell, k1: Kind, k2: Kind)
    requires k1 != k2 && c.Synced()
    ensures k1 in Kinds(c) && k2 in Kinds(c) <==> Doubled(c, k1, k2)
  {
  }

  // Two different classes share a path exactly in that cell under PootleWins,
  // or when a row carries both staging flags.
  lemma ClassesOverlap(w: World, p: Path, k1: Kind, k2: Kind)
    requires k1 != k2
    ensures p in Members(w, k1) && p in Members(w, k2) <==> Doubled(At(w, p), k1, k2)
  {
    hide *;
    MembersAreKinds(w, p, k1);
    MembersAreKinds(w, p, k2);
    KindsOverlap(At(w, p), k1, k2);
  }

  // A synced row reads as unchanged exactly when store and file are both there
  // and neither moved, or in the gap of the table named above.
  lemma UnchangedMeansInStep(w: World, p: Path)
    ensures Unchanged(w, p) <==>
      var c := At(w, p);
      && c.Synced() && c.Live()
      && ((c.file.Some? && !c.StoreChanged() && !c.FileChanged())
          || (ChangedStoreMissingFile(c) && c.row.value.winner == SourceWins))
  {
    hide Members;
    var c := At(w, p);
    forall k ensures p in Members(w, k) <==> k in Kinds(c) {
      MembersAreKinds(w, p, k);
    }
    if Unchanged(w, p) {
      forall k ensures k !in Kinds(c) {
        assert p !in Members(w, k);
      }
      assert Conflict !in Kinds(c) && FsAhead !in Kinds(c) && FsRemoved !in Kinds(c);
    }
  }

  // Which paths are in no class at all: untracked ones with neither live store nor
  // file; merges without a winner; unsynced rows that have nothing to bring in on
  // any side the winner allows; synced rows that are unchanged; and all others.
  lemma InNoClassIff(w: World, p: Path)
    ensures (forall k :: p !in Members(w, k)) <==>
      var c := At(w, p);
      if c.row.None? then !c.Live() && p !in w.files
      else if c.Staged() then !c.row.value.removal && c.row.value.winner == Unset
      else if c.Unsynced() then
        && (p !in w.files || c.row.value.winner == PootleWins)
        && (!c.Live() || c.row.value.winner == SourceWins)
      else c.Synced() ==> Unchanged(w, p)
  {
    hide Members;
    var c := At(w, p);
    forall k ensures p in Members(w, k) <==> k in Kinds(c) {
      MembersAreKinds(w, p, k);
    }
    assert c.file.Some? <==> p in w.files;
    assert c.Synced() <==> p in Synced(w) by { SyncedAt(w, p); }
    if !c.Synced() {
      NoKindIff(c);
    }
  }

  lemma SyncedAt(w: World, p: Path)
    ensures p in Synced(w) <==> At(w, p).Synced()
  {}

  lemma NoKindIff(c: Cell)
    requires !c.Synced()
    ensures (forall k :: k !in Kinds(c)) <==>
      if c.row.None? then !c.Live() && c.file.None?
      else if c.Staged() then !c.row.value.removal && c.row.value.winner == Unset
      else c.Unsynced() ==>
        && (c.file.None? || c.row.value.winner == PootleWins)
        && (!c.Live() || c.row.value.winner == SourceWins)
  {
    assert (forall k :: k !in Kinds(c)) <==> Kinds(c) == {};
    if Kinds(c) != {} {
      var k :| k in Kinds(c);
    }
  }

  // Where each path can be: synced rows among eight classes, unsynced rows
  // among two, paths without a row among three.
  lemma ClassesByRow(w: World, p: Path, k: Kind)
    requires p in Members(w, k)
    ensures
      var c := At(w, p);
      if c.row.None? then k in {ConflictUntracked, PootleUntracked, FsUntracked}
      else if c.Staged() then k in {Remove, MergePootleWins, MergeFsWins}
      else if c.Unsynced() then k in {FsStaged, PootleStaged}
      else c.Synced() && k in {Conflict, PootleAhead, FsAhead, PootleStaged, FsStaged,
                               PootleRemoved, FsRemoved, BothRemoved}
  {
    hide Members;
    MembersAreKinds(w, p, k);
  }
}
