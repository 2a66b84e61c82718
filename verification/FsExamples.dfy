// Runs of a project with one path, from nothing, that end where the laws of
// FsRuns have their exceptions.

module FsExamples {
  import opened Options
  import opened FsModel
  import opened FsState
  import opened FsFiles
  import opened FsActions
  import opened FsRuns

  datatype State = State(cell: Cell, revision: nat, mtime: nat)

  const START := State(Cell(None, None, None), 0, 0)

  function Single(p: Path, s: State): World {
    World(
      if s.cell.row.Some? then map[p := s.cell.row.value] else map[],
      if s.cell.store.Some? then map[p := s.cell.store.value] else map[],
      if s.cell.file.Some? then map[p := s.cell.file.value] else map[],
      s.revision, s.mtime)
  }

  lemma SingleAt(p: Path, s: State, q: Path)
    ensures At(Single(p, s), q) == if q == p then s.cell else Cell(None, None, None)
  {}

  function Next(s: State): Stamps {
    Stamps(s.revision + 1, s.revision + 2, s.mtime + 1, s.mtime + 2)
  }

  function After(f: Formats, s: State, e: Event): State {
    if IsStaging(e) then s.(cell := Stage(s.cell, e))
    else if e.DoSync? then
      State(Sync(f, e.update, s.cell, Next(s)), s.revision + 2, s.mtime + 2)
    else
      State(
        Outside(s.cell, e, s.revision, s.mtime),
        if e.StoreSaved? then s.revision + 1 else s.revision,
        if e.FileSaved? then s.mtime + 1 else s.mtime)
  }

  function End(f: Formats, es: seq<Event>): State {
    if es == [] then START else After(f, End(f, es[..|es| - 1]), es[|es| - 1])
  }

  predicate Concerns(e: Event, p: Path) {
    IsStaging(e) || e.DoSync? || e.path == p
  }

  ghost predicate Sound(s: State) {
    CellInv(s.cell, s.revision, s.mtime)
  }

  lemma AfterIsStep(f: Formats, p: Path, s: State, e: Event)
    requires Parseable(f) && Concerns(e, p) && Sound(s)
    ensures Step(f, Single(p, s), e, Single(p, After(f, s, e))) && Sound(After(f, s, e))
  {
    if IsStaging(e) {
      StagingIsStep(f, p, s, e);
    } else if e.DoSync? {
      SyncIsStep(f, p, s, e);
    } else {
      OutsideIsStep(f, p, s, e);
    }
    hide *;
  }

  lemma StagingIsStep(f: Formats, p: Path, s: State, e: Event)
    requires IsStaging(e) && Sound(s)
    ensures Step(f, Single(p, s), e, Single(p, After(f, s, e))) && Sound(After(f, s, e))
  {
    hide Single, Stage, At, CellInv;
    SinglesDiffer(p, s);
    SinglesDiffer(p, After(f, s, e));
    StagingKeepsInv(s.cell, e, s.revision, s.mtime);
    NothingStaged(e);
  }

  lemma SyncIsStep(f: Formats, p: Path, s: State, e: Event)
    requires Parseable(f) && Sound(s) && e.DoSync?
    ensures Step(f, Single(p, s), e, Single(p, After(f, s, e))) && Sound(After(f, s, e))
  {
    hide Single, Sync, At, RowInv, CellBounded, Parseable;
    var w, w' := Single(p, s), Single(p, After(f, s, e));
    var t := Next(s);
    SinglesDiffer(p, s);
    SinglesDiffer(p, After(f, s, e));
    SyncedIsBounded(f, e.update, s);
    SyncKeepsInv(f, w, e.update, s.cell, t);
    NothingIsBounded(s.revision + 2, s.mtime + 2);
    forall q ensures Synchronised(f, w, e.update, At(w, q), At(w', q)) {
      assert Fresh(t, w) && At(w', q) == Sync(f, e.update, At(w, q), t);
    }
  }

  lemma NothingIsBounded(revision: nat, mtime: nat)
    ensures CellBounded(Cell(None, None, None), revision, mtime)
  {}

  lemma OutsideIsStep(f: Formats, p: Path, s: State, e: Event)
    requires !IsStaging(e) && !e.DoSync? && e.path == p && Sound(s)
    ensures Step(f, Single(p, s), e, Single(p, After(f, s, e))) && Sound(After(f, s, e))
  {
    hide Single, Outside, At, RowInv, CellBounded;
    SinglesDiffer(p, s);
    SinglesDiffer(p, After(f, s, e));
    OutsideKeepsInv(s.cell, e, s.revision, s.mtime);
    StillBounded(s.cell, e, s.revision, s.mtime);
  }

  lemma StillBounded(c: Cell, e: Event, revision: nat, mtime: nat)
    requires !IsStaging(e) && !e.DoSync? && CellBounded(c, revision, mtime)
    ensures CellBounded(
      Outside(c, e, revision, mtime), if e.StoreSaved? then revision + 1 else revision, if e.FileSaved? then mtime + 1 else mtime)
  {}

  lemma SinglesDiffer(p: Path, s: State)
    ensures forall q :: At(Single(p, s), q) == if q == p then s.cell else Cell(None, None, None)
    ensures Single(p, s).revision == s.revision && Single(p, s).mtime == s.mtime
  {}

  lemma NothingStaged(e: Event)
    requires IsStaging(e)
    ensures Stage(Cell(None, None, None), e) == Cell(None, None, None)
  {}

  lemma SyncedIsBounded(f: Formats, update: Side, s: State)
    requires CellBounded(s.cell, s.revision, s.mtime)
    ensures CellBounded(Sync(f, update, s.cell, Next(s)), s.revision + 2, s.mtime + 2)
    ensures Sync(f, update, Cell(None, None, None), Next(s)) == Cell(None, None, None)
  {
    hide Pull, Push, Returned, Sync, Kinds;
    var c, t := s.cell, Next(s);
    if c.row.Some? {
      PulledIsBounded(f, c, true, MergeWins(c), s);
      PulledIsBounded(f, c, false, None, s);
      PushedIsBounded(f, Pull(f, c, true, MergeWins(c), t), s.revision + 2, s.mtime, t.mtime);
      PushedIsBounded(f, c, s.revision, s.mtime, t.mtime);
      PushedIsBounded(f, Push(f, c, t.mtime), s.revision, t.mtime, t.again);
    }
    SyncIsBounded(f, update, c, t, s.revision + 2, s.mtime + 2);
  }

  lemma SyncIsBounded(f: Formats, update: Side, c: Cell, t: Stamps, revision: nat, mtime: nat)
    requires CellBounded(c, revision, mtime)
    requires c.row.Some? ==>
      && CellBounded(Pull(f, c, true, MergeWins(c), t), revision, mtime)
      && CellBounded(Push(f, Pull(f, c, true, MergeWins(c), t), t.mtime), revision, mtime)
      && CellBounded(Pull(f, c, false, None, t), revision, mtime)
      && CellBounded(Push(f, c, t.mtime), revision, mtime)
      && CellBounded(Push(f, Push(f, c, t.mtime), t.again), revision, mtime)
      && Returned(f, c, true, MergeWins(c), t).GetOr(0) <= revision
    ensures CellBounded(Sync(f, update, c, t), revision, mtime)
    ensures Sync(f, update, Cell(None, None, None), t) == Cell(None, None, None)
  {
    hide Pull, Returned;
  }

  lemma PulledIsBounded(f: Formats, c: Cell, merge: bool, pootleWins: Option<bool>, s: State)
    requires c.row.Some? && CellBounded(c, s.revision, s.mtime)
    ensures CellBounded(Pull(f, c, merge, pootleWins, Next(s)), s.revision + 2, s.mtime)
    ensures Pull(f, c, merge, pootleWins, Next(s)).row == c.row
    ensures Returned(f, c, merge, pootleWins, Next(s)).GetOr(0) <= s.revision + 2
  {}

  lemma PushedIsBounded(f: Formats, c: Cell, revision: nat, mtime: nat, stamp: nat)
    requires c.row.Some? && CellBounded(c, revision, mtime) && mtime <= stamp
    ensures CellBounded(Push(f, c, stamp), revision, stamp) && Push(f, c, stamp).row == c.row
  {}

  // Such a list of events is a run from a project with nothing in it.
  lemma {:induction false} EndIsReached(f: Formats, p: Path, es: seq<Event>) returns (ws: seq<World>)
    requires Parseable(f) && forall i :: 0 <= i < |es| ==> Concerns(es[i], p)
    ensures Run(f, ws, es)
    ensures ws[0] == World(map[], map[], map[], 0, 0) && ws[|es|] == Single(p, End(f, es)) && Sound(End(f, es))
  {
    if es == [] {
      ws := [Single(p, START)];
    } else {
      var n := |es| - 1;
      hide Step, Sound, Concerns, After;
      var init := EndIsReached(f, p, es[..n]);
      AfterIsStep(f, p, End(f, es[..n]), es[n]);
      ws := init + [Single(p, End(f, es))];
      forall i | 0 <= i < |es| ensures Step(f, ws[i], es[i], ws[i + 1]) {
        assert i < n ==> Step(f, init[i], es[..n][i], init[i + 1]);
      }
    }
  }

  lemma OneMoreEvent(f: Formats, es: seq<Event>, e: Event)
    ensures End(f, es + [e]) == After(f, End(f, es), e)
  {
    assert (es + [e])[..|es|] == es;
  }

  // A file is added and synchronised.
  function Added(p: Path, text: Text): seq<Event> {
    [FileSaved(p, text), DoAdd(false, All), DoSync(All)]
  }

  lemma AddedEnds(f: Formats, p: Path, text: Text)
    requires Parseable(f)
    ensures
      var s := End(f, Added(p, text));
      && s.cell.store.Some? && !s.cell.store.value.obsolete && s.cell.store.value.revision <= s.revision
      && s.cell.row == Some(Row(Some(s.cell.store.value.revision), Some(1), false, false, Unset))
      && s.cell.file == Some(File(1, text)) && s.revision == 2 && s.mtime == 3
  {
    var e1, e2, e3 := FileSaved(p, text), DoAdd(false, All), DoSync(All);
    OneMoreEvent(f, [], e1);
    OneMoreEvent(f, [e1], e2);
    OneMoreEvent(f, [e1, e2], e3);
    assert [] + [e1] == [e1] && [e1] + [e2] == [e1, e2] && [e1, e2] + [e3] == Added(p, text);
    var s1 := After(f, START, e1);
    assert s1 == State(Cell(None, None, Some(File(1, text))), 0, 1);
    var s2 := After(f, s1, e2);
    assert s2.cell.row == Some(NewRow(false, false, Unset)) && s2.cell.file == s1.cell.file && s2.cell.store.None?;
    hide End;
  }

  // The store is made obsolete and added again by force: the sync leaves it as it was.
  lemma ReaddedStaysRemoved(f: Formats, p: Path, text: Text)
    requires Parseable(f)
    ensures
      var es := Added(p, text) + [StoreObsoleted(p), DoAdd(true, All), DoSync(All)];
      && p in Members(Single(p, End(f, es)), PootleRemoved)
      && p in Single(p, End(f, es)).stores && Single(p, End(f, es)).stores[p].obsolete
  {
    var s := End(f, Added(p, text));
    AddedEnds(f, p, text);
    var s1, s2, s3 := ThreeMore(f, Added(p, text), StoreObsoleted(p), DoAdd(true, All), DoSync(All));
    hide End, Members, Sync;
    assert Kinds(s1.cell) == {PootleRemoved};
    assert Kinds(s2.cell) == {FsStaged} && UntouchedReadd(s2.cell);
    UntouchedStaysRemoved(f, s2.cell, Next(s2));
    SingleAt(p, s3, p);
    MembersAreKinds(Single(p, s3), p, PootleRemoved);
  }

  lemma UntouchedStaysRemoved(f: Formats, c: Cell, t: Stamps)
    requires UntouchedReadd(c)
    ensures Sync(f, All, c, t).store == c.store && Kinds(Sync(f, All, c, t)) == {PootleRemoved}
  {
    assert Kinds(c) == {FsStaged};
  }

  lemma ThreeMore(f: Formats, es: seq<Event>, a: Event, b: Event, c: Event) returns (s1: State, s2: State, s3: State)
    ensures s1 == After(f, End(f, es), a) && s2 == After(f, s1, b) && s3 == After(f, s2, c)
    ensures End(f, es + [a, b, c]) == s3
  {
    hide *;
    s1 := After(f, End(f, es), a);
    s2 := After(f, s1, b);
    s3 := After(f, s2, c);
    OneMoreEvent(f, es, a);
    OneMoreEvent(f, es + [a], b);
    OneMoreEvent(f, es + [a] + [b], c);
    assert es + [a] + [b] + [c] == es + [a, b, c];
  }

  // The store changes and the file is deleted: overwriting from the filesystem
  // leaves the conflict in no class, and unstage leaves the resolution.
  lemma ResolvedToNothing(f: Formats, p: Path, text: Text, more: Text)
    requires Parseable(f)
    ensures
      var es := Added(p, text) + [StoreSaved(p, more), FileDeleted(p), DoResolve(false, false)];
      var w := Single(p, End(f, es));
      && Unchanged(w, p) && p !in w.files
      && p in w.stores && p in w.rows && Some(w.stores[p].revision) != w.rows[p].revision
      && Stage(At(w, p), DoUnstage) == At(w, p) && w.rows[p].winner == SourceWins
  {
    AddedEnds(f, p, text);
    var s1, s2, s3 := ThreeMore(f, Added(p, text), StoreSaved(p, more), FileDeleted(p), DoResolve(false, false));
    hide End, Members, Sync;
    assert Kinds(s2.cell) == {Conflict};
    hide After;
    SingleAt(p, s3, p);
    UnchangedMeansInStep(Single(p, s3), p);
  }

  // ... and overwriting from Pootle puts it in two classes.
  lemma ResolvedTwice(f: Formats, p: Path, text: Text, more: Text)
    requires Parseable(f)
    ensures
      var es := Added(p, text) + [StoreSaved(p, more), FileDeleted(p), DoResolve(false, true)];
      var w := Single(p, End(f, es));
      p in Members(w, PootleAhead) && p in Members(w, PootleStaged)
  {
    AddedEnds(f, p, text);
    var s1, s2, s3 := ThreeMore(f, Added(p, text), StoreSaved(p, more), FileDeleted(p), DoResolve(false, true));
    hide End, Members, Sync;
    assert Kinds(s2.cell) == {Conflict};
    hide After;
    SingleAt(p, s3, p);
    MembersAreKinds(Single(p, s3), p, PootleAhead);
    MembersAreKinds(Single(p, s3), p, PootleStaged);
  }

  // An untracked conflict is resolved by merging; then the store is made obsolete
  // and the file deleted. The sync writes the file and leaves the store obsolete.
  lemma MergedStaysObsolete(f: Formats, p: Path, text: Text, more: Text, wins: bool)
    requires Parseable(f)
    ensures
      var es := MergeStaged(p, text, more, wins) + [StoreObsoleted(p), FileDeleted(p), DoSync(All)];
      var w := Single(p, End(f, es));
      p in Members(w, PootleRemoved) && p in w.stores && w.stores[p].obsolete && p in w.files
  {
    MergeStagedEnds(f, p, text, more, wins);
    var s1, s2, s3 := ThreeMore(f, MergeStaged(p, text, more, wins), StoreObsoleted(p), FileDeleted(p), DoSync(All));
    hide End, Members, Sync, Kinds;
    MergedObsolete(f, s2.cell, Next(s2), wins);
    SingleAt(p, s3, p);
    MembersAreKinds(Single(p, s3), p, PootleRemoved);
  }

  // Both sides make the same change, the conflict is resolved by merging and the
  // project updated from its files: the path is in no class, although its row is
  // there, and by FsSides.StrandedForGood will not be in one again.
  lemma UpdatedForNothing(f: Formats, p: Path, text: Text, wins: bool, k: Kind)
    requires Parseable(f)
    requires f.update(text, text, if wins then PootleWins else SourceWins, Some(0)).effect.NoDifference?
    ensures
      var es := MergeStaged(p, text, text, wins) + [DoSync(Pootle)];
      var w := Single(p, End(f, es));
      && Stranded(At(w, p)) && !Unchanged(w, p) && p !in Members(w, k)
      && p in w.stores && w.stores[p].revision == 1 && At(w, p).LatestHash() == w.rows[p].hash
  {
    MergeStagedEnds(f, p, text, text, wins);
    var es := MergeStaged(p, text, text, wins);
    var s := End(f, es);
    OneMoreEvent(f, es, DoSync(Pootle));
    hide End, Members;
    var s' := After(f, s, DoSync(Pootle));
    MergedForNought(f, s.cell, Next(s), wins);
    SingleAt(p, s', p);
    MembersAreKinds(Single(p, s'), p, k);
  }

  lemma MergedForNought(f: Formats, c: Cell, t: Stamps, wins: bool)
    requires c.row == Some(NewRow(false, true, if wins then PootleWins else SourceWins))
    requires c.store.Some? && c.file.Some? && !c.store.value.obsolete && MergedForNothing(f, c)
    ensures
      var c' := Sync(f, Pootle, c, t);
      && Stranded(c') && c'.store.Some? && c'.store.value.revision == c.store.value.revision
      && c'.LatestHash() == c'.row.value.hash
  {
    assert Kinds(c) == {if wins then MergePootleWins else MergeFsWins};
  }

  function MergeStaged(p: Path, text: Text, more: Text, wins: bool): seq<Event> {
    [StoreSaved(p, text), FileSaved(p, more), DoResolve(true, wins)]
  }

  lemma MergeStagedEnds(f: Formats, p: Path, text: Text, more: Text, wins: bool)
    ensures
      var s := End(f, MergeStaged(p, text, more, wins));
      && s.cell.row == Some(NewRow(false, true, if wins then PootleWins else SourceWins))
      && s.cell.store == Some(Store(false, 1, text)) && s.cell.file == Some(File(1, more))
  {
    var es := MergeStaged(p, text, more, wins);
    var s1, s2, s3 := ThreeMore(f, [], es[0], es[1], es[2]);
    assert [] + [es[0], es[1], es[2]] == es;
    assert End(f, []) == START;
    hide End;
    assert s2.cell == Cell(None, Some(Store(false, 1, text)), Some(File(1, more)));
    assert Kinds(s2.cell) == {ConflictUntracked};
  }

  lemma MergedObsolete(f: Formats, c: Cell, t: Stamps, wins: bool)
    requires c.row == Some(NewRow(false, true, if wins then PootleWins else SourceWins)) && c.file.None?
    requires c.store.Some? && c.store.value.obsolete
    ensures Kinds(Sync(f, All, c, t)) == {PootleRemoved}
    ensures Sync(f, All, c, t).store == c.store && Sync(f, All, c, t).file.Some?
  {
    assert Kinds(c) == {if wins then MergePootleWins else MergeFsWins};
  }
}
