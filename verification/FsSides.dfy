// A sync of one side only, as update_stores (from the filesystem into Pootle)
// and sync_stores (from Pootle to the filesystem) make it: what it leaves alone,
// what it leaves of a merge, and when two of them do the work of a full sync.

module FsSides {
  import opened Options
  import opened FsModel
  import opened FsState
  import opened FsFiles
  import opened FsActions
  import opened FsRuns

  // But for what is staged for removal, a sync of one side writes nothing to the
  // other: it keeps the files, or the stores.
  lemma OtherSideStays(f: Formats, w: World, update: Side, w': World, p: Path)
    requires Inv(w) && Step(f, w, DoSync(update), w') && p !in Members(w, Remove)
    ensures update == Pootle ==> At(w', p).file == At(w, p).file
    ensures update == Fs ==> At(w', p).store == At(w, p).store
  {
    hide Members;
    MembersAreKinds(w, p, Remove);
    var t := SyncStamps(f, w, update, w', p);
    OtherSideOfCell(f, update, At(w, p), t);
  }

  lemma OtherSideOfCell(f: Formats, update: Side, c: Cell, t: Stamps)
    requires Remove !in Kinds(c)
    ensures update == Pootle ==> Sync(f, update, c, t).file == c.file
    ensures update == Fs ==> Sync(f, update, c, t).store == c.store
  {
    hide Kinds;
  }

  // What a sync into Pootle makes of a path staged for merge. The merge is to be
  // pushed afterwards, unless the update saved units and renewed none, or there is
  // nothing to push; it ends in no class if file and store did not differ.
  lemma HalfMergeLeaves(f: Formats, w: World, w': World, p: Path)
    requires Parseable(f) && Inv(w) && Step(f, w, DoSync(Pootle), w')
    requires p in Members(w, MergePootleWins) + Members(w, MergeFsWins)
    ensures p in w.rows && At(w', p).file == At(w, p).file
    ensures
      var c := At(w, p);
      && (p in Members(w', PootleAhead) <==>
            p in w.files && Update(f, c, true, MergeWins(c)).effect in {NothingSaved, Renewed})
      && (p in Members(w', PootleStaged) <==> p !in w.files && !LeftObsolete(c))
      && (Unchanged(w', p) <==> p in w.files && Update(f, c, true, MergeWins(c)).effect.Saved?)
      && (Stranded(At(w', p)) <==> p in w.files && Update(f, c, true, MergeWins(c)).effect.NoDifference?)
    ensures forall k :: p in Members(w', k) ==> k in {PootleAhead, PootleStaged}
  {
    hide Members;
    var c, c' := At(w, p), At(w', p);
    MembersAreKinds(w, p, MergePootleWins);
    MembersAreKinds(w, p, MergeFsWins);
    KindsAreMerge(c);
    var t := SyncStamps(f, w, Pootle, w', p);
    HalfMergeKinds(f, w, c, t);
    UnchangedMeansInStep(w', p);
    HalfMergeInStep(f, w, c, t);
    forall k ensures p in Members(w', k) <==> k in Kinds(c') {
      MembersAreKinds(w', p, k);
    }
  }

  lemma KindsAreMerge(c: Cell)
    requires RowInv(c)
    ensures MergePootleWins in Kinds(c) || MergeFsWins in Kinds(c) <==> c.row.Some? && c.row.value.merge
    ensures MergedUnpushed(Pootle, c) <==> c.row.Some? && c.row.value.merge
  {
    assert c.row.Some? && c.row.value.merge ==>
      Kinds(c) == {if c.row.value.winner == PootleWins then MergePootleWins else MergeFsWins};
  }

  lemma HalfMergeInStep(f: Formats, w: World, c: Cell, t: Stamps)
    requires Parseable(f) && Fresh(t, w) && RowInv(c) && CellBounded(c, w.revision, w.mtime)
    requires c.row.Some? && c.row.value.merge && MergedUnpushed(Pootle, c)
    ensures
      var c' := Sync(f, Pootle, c, t);
      (&& c'.Synced() && c'.Live()
       && ((c'.file.Some? && !c'.StoreChanged() && !c'.FileChanged())
           || (ChangedStoreMissingFile(c') && c'.row.value.winner == SourceWins)))
      <==> c.file.Some? && Update(f, c, true, MergeWins(c)).effect.Saved?
  {
  }

  // ---- Both sides, one after the other ----

  // A merge whose file a full sync would write and two half syncs do not
  predicate NeverPushed(f: Formats, c: Cell) {
    && c.row.Some? && c.row.value.merge
    && (if c.file.Some? then Update(f, c, true, MergeWins(c)).effect in {NoDifference, Saved}
        else LeftObsolete(c))
  }

  // A sync into Pootle and then one to the filesystem come to one sync of both,
  // on every path but those.
  lemma SidesInTurn(f: Formats, w: World, w1: World, w2: World, p: Path)
    requires Parseable(f) && Inv(w) && Step(f, w, DoSync(Pootle), w1) && Step(f, w1, DoSync(Fs), w2)
    ensures Synchronised(f, w, All, At(w, p), At(w2, p)) <==> !NeverPushed(f, At(w, p))
    ensures NeverPushed(f, At(w, p)) ==> At(w2, p) == At(w1, p) && At(w2, p).file == At(w, p).file
  {
    var c := At(w, p);
    StepKeepsInv(f, w, DoSync(Pootle), w1);
    var t := SyncStamps(f, w, Pootle, w1, p);
    var t' := SyncStamps(f, w1, Fs, w2, p);
    var both := Stamps(t.issued, t.renewed, t'.mtime, t'.again);
    assert Fresh(both, w) && Fresh(t', w);
    hide Inv, Step;
    KindsAreMerge(c);
    if c.row.Some? && c.row.value.merge {
      MergedInTurn(f, w, c, t, t');
      if NeverPushed(f, c) {
        forall u | Fresh(u, w) ensures Sync(f, All, c, u) != At(w2, p) {
          MergeIsPushed(f, w, c, u);
        }
      } else {
        assert At(w2, p) == Sync(f, All, c, both);
      }
    } else if SyncActsOn(Pootle, c) {
      PulledInTurn(f, w, c, t, t');
      assert At(w2, p) == Sync(f, All, c, t);
    } else {
      PushedInTurn(f, w, c, t, t');
      assert At(w2, p) == Sync(f, All, c, t');
    }
  }

  lemma MergedInTurn(f: Formats, w: World, c: Cell, t: Stamps, t': Stamps)
    requires Parseable(f) && Fresh(t, w) && RowInv(c) && CellBounded(c, w.revision, w.mtime)
    requires c.row.Some? && c.row.value.merge && MergedUnpushed(Pootle, c)
    ensures
      var c1 := Sync(f, Pootle, c, t);
      var c2 := Sync(f, Fs, c1, t');
      if NeverPushed(f, c) then c2 == c1 && c2.file == c.file
      else c2 == Sync(f, All, c, Stamps(t.issued, t.renewed, t'.mtime, t'.again))
  {
    HalfMergeKinds(f, w, c, t);
    var c1 := Sync(f, Pootle, c, t);
    if NeverPushed(f, c) {
      assert Kinds(c1) == {};
    } else {
      MergeAlwaysPushes(f, c, t, w.revision);
      HalfMergePushed(f, w, c, t, t');
    }
  }

  lemma HalfMergePushed(f: Formats, w: World, c: Cell, t: Stamps, t': Stamps)
    requires Parseable(f) && Fresh(t, w) && RowInv(c) && CellBounded(c, w.revision, w.mtime)
    requires c.row.Some? && c.row.value.merge && MergedUnpushed(Pootle, c) && !NeverPushed(f, c)
    requires !PushSkips(Pull(f, c, true, MergeWins(c), t))
    requires Kinds(Sync(f, Pootle, c, t)) == AfterHalfMerge(f, c)
    ensures Sync(f, Fs, Sync(f, Pootle, c, t), t')
      == Sync(f, All, c, Stamps(t.issued, t.renewed, t'.mtime, t'.again))
  {
    assert Kinds(c) == {if c.row.value.winner == PootleWins then MergePootleWins else MergeFsWins};
  }

  lemma MergeIsPushed(f: Formats, w: World, c: Cell, t: Stamps)
    requires Parseable(f) && Fresh(t, w) && RowInv(c) && CellBounded(c, w.revision, w.mtime)
    requires c.row.Some? && c.row.value.merge
    ensures Sync(f, All, c, t).file != c.file
  {
    MergeAlwaysPushes(f, c, t, w.revision);
    KindsAreMerge(c);
  }

  lemma PulledInTurn(f: Formats, w: World, c: Cell, t: Stamps, t': Stamps)
    requires Parseable(f) && Fresh(t, w) && RowInv(c) && CellBounded(c, w.revision, w.mtime)
    requires SyncActsOn(Pootle, c) && !(c.row.Some? && c.row.value.merge)
    ensures Sync(f, Fs, Sync(f, Pootle, c, t), t') == Sync(f, All, c, t)
  {
    SyncOneCell(f, w, Pootle, c, t);
  }

  lemma PushedInTurn(f: Formats, w: World, c: Cell, t: Stamps, t': Stamps)
    requires RowInv(c) && !SyncActsOn(Pootle, c)
    ensures Sync(f, Fs, Sync(f, Pootle, c, t), t') == Sync(f, All, c, t')
  {
    assert forall k :: k in SyncKinds(Pootle) && k in Kinds(c) ==> k in Kinds(c) * SyncKinds(Pootle);
  }

  // ---- Stranded paths ----

  // The one way in: a sync into Pootle merges a file that does not differ.
  lemma StrandedIff(f: Formats, w: World, e: Event, w': World, p: Path)
    requires Parseable(f) && Inv(w) && Step(f, w, e, w')
    ensures Stranded(At(w', p)) <==>
      Stranded(At(w, p)) || (e == DoSync(Pootle) && MergedForNothing(f, At(w, p)))
    ensures Stranded(At(w, p)) ==> At(w', p).row == At(w, p).row
  {
    var c := At(w, p);
    assert RowInv(c);
    if e.DoSync? {
      var t := SyncStamps(f, w, e.update, w', p);
      StrandedBySync(f, w, e.update, c, t);
    } else if IsStaging(e) {
      StrandedByStaging(c, e);
    }
  }

  lemma StrandedBySync(f: Formats, w: World, update: Side, c: Cell, t: Stamps)
    requires Parseable(f) && Fresh(t, w) && RowInv(c) && CellBounded(c, w.revision, w.mtime)
    ensures Stranded(Sync(f, update, c, t)) <==> Stranded(c) || (update == Pootle && MergedForNothing(f, c))
    ensures Stranded(c) ==> Sync(f, update, c, t) == c
  {
    hide RowInv;
    KindsAreMerge(c);
    if MergedUnpushed(update, c) {
      HalfMergeKinds(f, w, c, t);
    } else {
      SyncOneCell(f, w, update, c, t);
    }
  }

  lemma StrandedByStaging(c: Cell, e: Event)
    requires IsStaging(e) && RowInv(c)
    ensures Stranded(Stage(c, e)) <==> Stranded(c)
    ensures Stranded(c) ==> Stage(c, e) == c
  {
  }

  // There is no way out: whatever happens on either side, no action ever takes
  // the path up again.
  lemma {:induction false} StrandedForGood(f: Formats, ws: seq<World>, es: seq<Event>, i: nat, p: Path, k: Kind)
    requires Parseable(f) && Run(f, ws, es) && Inv(ws[0]) && i < |ws|
    ensures Stranded(At(ws[i], p)) <==>
      || Stranded(At(ws[0], p))
      || exists j :: 0 <= j < i && es[j] == DoSync(Pootle) && MergedForNothing(f, At(ws[j], p))
    ensures forall j :: 0 <= j <= i && Stranded(At(ws[j], p)) ==>
      Stranded(At(ws[i], p)) && At(ws[i], p).row == At(ws[j], p).row
    ensures Stranded(At(ws[i], p)) ==> p !in Members(ws[i], k) && !Unchanged(ws[i], p)
  {
    hide Members, Step;
    if i > 0 {
      StrandedForGood(f, ws, es, i - 1, p, k);
      InvariantOverRuns(f, ws, es, i - 1);
      StrandedIff(f, ws[i - 1], es[i - 1], ws[i], p);
    }
    MembersAreKinds(ws[i], p, k);
  }
}
