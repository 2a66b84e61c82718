// A sync works in phases, each on its own list of rows. What the phases do
// together to one path is what FsActions.Sync says.

module FsSync {
  import opened Options
  import opened Sequences
  import opened FsModel
  import opened FsState
  import opened FsFiles
  import opened FsActions
  import opened FsRuns

  lemma StillBounded(w: World, w': World, p: Path)
    requires Bounded(w) && w.revision <= w'.revision && w.mtime <= w'.mtime
    requires forall q :: q != p ==> At(w', q) == At(w, q)
    requires CellBounded(At(w', p), w'.revision, w'.mtime)
    ensures Bounded(w')
  {
    forall q ensures CellBounded(At(w', q), w'.revision, w'.mtime) {
      assert CellBounded(At(w, q), w.revision, w.mtime);
    }
  }

  // A merge pushes only when both sides are synchronised.
  datatype Mode = Merging(pootleWins: bool, push: bool) | Pulling | Pushing

  // What a phase does to the store and file of a row that it selects, and the
  // revision it leaves in the state's resources for that row.
  function Worked(f: Formats, m: Mode, c: Cell, t: Stamps): Cell
    requires c.row.Some?
  {
    match m
    case Merging(wins, push) =>
      var pulled := Pull(f, c, true, Some(wins), t);
      if push then Push(f, pulled, t.mtime) else pulled
    case Pulling => Pull(f, c, false, None, t)
    case Pushing => Push(f, c, t.mtime)
  }

  function Recorded(f: Formats, m: Mode, c: Cell, t: Stamps): Option<nat>
    requires c.row.Some?
  {
    var c' := Worked(f, m, c, t);
    if m.Merging? && !m.push then Returned(f, c, true, Some(m.pootleWins), t)
    else if m.Merging? && PushSkips(Pull(f, c, true, Some(m.pootleWins), t)) then None
    else if c'.store.Some? then Some(c'.store.value.revision)
    else None
  }

  datatype SyncLog = SyncLog(revisions: map<Path, Option<nat>>, hashes: map<Path, Option<nat>>)

  ghost predicate PathDone(f: Formats, m: Mode, items: seq<Path>, w: World, w': World,
                           l: SyncLog, l': SyncLog, p: Path) {
    var c, c' := At(w, p), At(w', p);
    if p in items && c.row.Some? then
      exists t {:trigger Fresh(t, w)} :: Fresh(t, w) && c' == Worked(f, m, c, t)
        && Lookup(l'.revisions, p) == Some(Recorded(f, m, c, t))
        && Lookup(l'.hashes, p) == Some(c'.LatestHash())
        && Recorded(f, m, c, t).GetOr(0) <= w'.revision
    else
      && c' == c
      && Lookup(l'.revisions, p) == Lookup(l.revisions, p)
      && Lookup(l'.hashes, p) == Lookup(l.hashes, p)
  }

  ghost predicate PhaseDone(f: Formats, m: Mode, items: seq<Path>, w: World, w': World, l: SyncLog, l': SyncLog) {
    && w.revision <= w'.revision && w.mtime <= w'.mtime
    && w'.rows == w.rows
    && forall p {:trigger PathDone(f, m, items, w, w', l, l', p)} :: PathDone(f, m, items, w, w', l, l', p)
  }

  // One more turn of the loop over `items`
  lemma PhaseStep(f: Formats, m: Mode, items: seq<Path>, i: nat, w: World, w1: World, w2: World,
                  l: SyncLog, l1: SyncLog, l2: SyncLog, t: Stamps)
    requires Distinct(items) && i < |items|
    requires PhaseDone(f, m, items[..i], w, w1, l, l1)
    requires w1.revision <= w2.revision && w1.mtime <= w2.mtime && w2.rows == w1.rows
    requires forall p :: p != items[i] ==>
      && At(w2, p) == At(w1, p)
      && Lookup(l2.revisions, p) == Lookup(l1.revisions, p)
      && Lookup(l2.hashes, p) == Lookup(l1.hashes, p)
    requires
      var p := items[i];
      if At(w1, p).row.Some? then
        && Fresh(t, w1)
        && At(w2, p) == Worked(f, m, At(w1, p), t)
        && Lookup(l2.revisions, p) == Some(Recorded(f, m, At(w1, p), t))
        && Lookup(l2.hashes, p) == Some(At(w2, p).LatestHash())
        && Recorded(f, m, At(w1, p), t).GetOr(0) <= w2.revision
      else
        w2 == w1 && l2 == l1
    ensures PhaseDone(f, m, items[..i + 1], w, w2, l, l2)
  {
    assert items[..i + 1] == items[..i] + [items[i]];
    assert items[i] !in items[..i];
    var done := items[..i + 1];
    forall p ensures PathDone(f, m, done, w, w2, l, l2, p) {
      assert PathDone(f, m, items[..i], w, w1, l, l1, p);
      if p == items[i] && At(w1, p).row.Some? {
        assert Fresh(t, w);
      }
    }
  }

  function Finished(row: Option<Row>, hit: bool, l: SyncLog, latest: Option<nat>, p: Path): Option<Row> {
    if hit && row.Some? then
      Some(OnSync(row.value, Lookup(l.hashes, p).GetOr(latest), Lookup(l.revisions, p).GetOr(None)))
    else row
  }

  ghost predicate AfterFinish(items: seq<Path>, w: World, l: SyncLog, w': World) {
    && w'.revision == w.revision && w'.mtime == w.mtime
    && forall p :: At(w', p) == At(w, p).(row := Finished(At(w, p).row, p in items, l, At(w, p).LatestHash(), p))
  }

  ghost predicate AfterRm(remove: seq<Path>, w: World, w': World, l: SyncLog, l': SyncLog) {
    && w'.revision == w.revision && w'.mtime == w.mtime
    && forall p ::
      && At(w', p) == (if p in remove then Delete(At(w, p)) else At(w, p))
      && (p !in remove ==> Lookup(l'.revisions, p) == Lookup(l.revisions, p))
  }

  datatype Trace = Trace(w1: World, w2: World, w3: World, w4: World, w5: World, w6: World,
                         l1: SyncLog, l2: SyncLog, l3: SyncLog, l4: SyncLog, l5: SyncLog, l6: SyncLog)

  ghost predicate Phases(f: Formats, update: Side, remove: seq<Path>, mergePootle: seq<Path>, mergeFs: seq<Path>,
                         pull: seq<Path>, staged: seq<Path>, ahead: seq<Path>, w: World, l: SyncLog, tr: Trace) {
    && AfterRm(remove, w, tr.w1, l, tr.l1)
    && PhaseDone(f, Merging(true, update == All), mergePootle, tr.w1, tr.w2, tr.l1, tr.l2)
    && PhaseDone(f, Merging(false, update == All), mergeFs, tr.w2, tr.w3, tr.l2, tr.l3)
    && PhaseDone(f, Pulling, pull, tr.w3, tr.w4, tr.l3, tr.l4)
    && PhaseDone(f, Pushing, staged, tr.w4, tr.w5, tr.l4, tr.l5)
    && PhaseDone(f, Pushing, ahead, tr.w5, tr.w6, tr.l5, tr.l6)
    && Bounded(tr.w6)
  }

  lemma PhaseKeepsStore(f: Formats, m: Mode, items: seq<Path>, w: World, w': World, l: SyncLog, l': SyncLog, p: Path)
    requires PhaseDone(f, m, items, w, w', l, l') && p in w.stores
    ensures p in w'.stores
  {
    assert At(w, p).store.Some?;
    assert PathDone(f, m, items, w, w', l, l', p);
    assert At(w', p).store.Some?;
  }

  // Which phases of a sync select a path
  predicate SelectedAs(update: Side, c: Cell, remove: bool, mergePootle: bool, mergeFs: bool, pull: bool,
                       staged: bool, ahead: bool) {
    && (remove <==> Remove in Kinds(c))
    && (mergePootle <==> Covers(update, Pootle) && MergePootleWins in Kinds(c))
    && (mergeFs <==> Covers(update, Pootle) && MergeFsWins in Kinds(c))
    && (pull <==> Covers(update, Pootle) && (FsStaged in Kinds(c) || FsAhead in Kinds(c)))
    && (staged <==> Covers(update, Fs) && PootleStaged in Kinds(c))
    && (ahead <==> Covers(update, Fs) && PootleAhead in Kinds(c))
    // no two phases share a path, but for the two pushes, and removal
    && (remove || mergePootle || mergeFs ==> !pull && !staged && !ahead)
    && !(mergePootle && mergeFs)
    && !(pull && (staged || ahead))
    && (staged || ahead ==> c.Live())
    && (remove || mergePootle || mergeFs || pull || staged || ahead ==> c.row.Some? )
    && (SyncActsOn(update, c) <==> remove || mergePootle || mergeFs || pull || staged || ahead)
  }

  lemma SelectedActs(update: Side, c: Cell, remove: bool, mergePootle: bool, mergeFs: bool, pull: bool,
                     staged: bool, ahead: bool)
    requires SelectedAs(update, c, remove, mergePootle, mergeFs, pull, staged, ahead)
    ensures SyncActsOn(update, c) <==> remove || mergePootle || mergeFs || pull || staged || ahead
  {
  }

  lemma Selected(update: Side, c: Cell, remove: bool, mergePootle: bool, mergeFs: bool, fsStaged: bool, fsAhead: bool,
                 staged: bool, ahead: bool)
    requires remove <==> Remove in Kinds(c)
    requires mergePootle <==> Covers(update, Pootle) && MergePootleWins in Kinds(c)
    requires mergeFs <==> Covers(update, Pootle) && MergeFsWins in Kinds(c)
    requires fsStaged <==> Covers(update, Pootle) && FsStaged in Kinds(c)
    requires fsAhead <==> Covers(update, Pootle) && FsAhead in Kinds(c)
    requires staged <==> Covers(update, Fs) && PootleStaged in Kinds(c)
    requires ahead <==> Covers(update, Fs) && PootleAhead in Kinds(c)
    ensures SelectedAs(update, c, remove, mergePootle, mergeFs, fsStaged || fsAhead, staged, ahead)
    ensures !(fsStaged && fsAhead)
  {
    var acting := SyncKinds(update);
    assert forall k :: k in Kinds(c) * acting <==> k in Kinds(c) && k in acting;
    assert SyncActsOn(update, c) <==> exists k :: k in Kinds(c) && k in acting;
  }

  // A phase that does not select a path leaves it and its log alone.
  ghost predicate Same(w: World, w': World, l: SyncLog, l': SyncLog, p: Path) {
    && At(w', p) == At(w, p)
    && Lookup(l'.revisions, p) == Lookup(l.revisions, p)
    && Lookup(l'.hashes, p) == Lookup(l.hashes, p)
  }

  lemma Idle(f: Formats, m: Mode, items: seq<Path>, w: World, w': World, l: SyncLog, l': SyncLog, p: Path)
    requires PhaseDone(f, m, items, w, w', l, l')
    requires !(p in items && At(w, p).row.Some?)
    ensures Same(w, w', l, l', p)
  {
    assert PathDone(f, m, items, w, w', l, l', p);
  }

  lemma Hit(f: Formats, m: Mode, items: seq<Path>, w: World, w': World, l: SyncLog, l': SyncLog, p: Path)
    returns (t: Stamps)
    requires PhaseDone(f, m, items, w, w', l, l')
    requires p in items && At(w, p).row.Some?
    ensures Fresh(t, w) && At(w', p) == Worked(f, m, At(w, p), t)
    ensures Lookup(l'.revisions, p) == Some(Recorded(f, m, At(w, p), t))
    ensures Lookup(l'.hashes, p) == Some(At(w', p).LatestHash())
    ensures Recorded(f, m, At(w, p), t).GetOr(0) <= w'.revision
  {
    assert PathDone(f, m, items, w, w', l, l', p);
    t :| Fresh(t, w) && At(w', p) == Worked(f, m, At(w, p), t)
         && Lookup(l'.revisions, p) == Some(Recorded(f, m, At(w, p), t))
         && Lookup(l'.hashes, p) == Some(At(w', p).LatestHash())
         && Recorded(f, m, At(w, p), t).GetOr(0) <= w'.revision;
  }

  // What Sync says of one path, phase by phase
  predicate Selects(update: Side, m: Mode, c: Cell) {
    && Remove !in Kinds(c)
    && match m
       case Merging(wins, push) =>
         && Covers(update, Pootle) && push == (update == All)
         && (if wins then MergePootleWins else MergeFsWins) in Kinds(c)
       case Pulling => Covers(update, Pootle) && (FsStaged in Kinds(c) || FsAhead in Kinds(c))
       case Pushing => Covers(update, Fs) && (PootleStaged in Kinds(c)) != (PootleAhead in Kinds(c))
  }

  function PhaseResult(f: Formats, m: Mode, c: Cell, t: Stamps): Cell
    requires c.row.Some?
  {
    var c' := Worked(f, m, c, t);
    c'.(row := Some(OnSync(c.row.value, c'.LatestHash(), Recorded(f, m, c, t))))
  }

  lemma WorkedIsSync(f: Formats, update: Side, m: Mode, c: Cell, t: Stamps)
    requires Selects(update, m, c)
    ensures c.row.Some? && Sync(f, update, c, t) == PhaseResult(f, m, c, t)
  {
    match m
    case Merging(_, _) => MergingIsSync(f, update, m, c, t);
    case Pulling => PullingIsSync(f, update, c, t);
    case Pushing => PushingIsSync(f, update, c, t);
  }

  lemma MergingIsSync(f: Formats, update: Side, m: Mode, c: Cell, t: Stamps)
    requires Selects(update, m, c) && m.Merging?
    ensures c.row.Some? && Sync(f, update, c, t) == PhaseResult(f, m, c, t)
  {
  }

  lemma PullingIsSync(f: Formats, update: Side, c: Cell, t: Stamps)
    requires Selects(update, Pulling, c)
    ensures c.row.Some? && Sync(f, update, c, t) == PhaseResult(f, Pulling, c, t)
  {
  }

  lemma PushingIsSync(f: Formats, update: Side, c: Cell, t: Stamps)
    requires Selects(update, Pushing, c)
    ensures c.row.Some? && Sync(f, update, c, t) == PhaseResult(f, Pushing, c, t)
  {
  }

  lemma PushedTwiceIsSync(f: Formats, update: Side, c: Cell, t: Stamps, t': Stamps)
    requires PootleStaged in Kinds(c) && PootleAhead in Kinds(c) && Covers(update, Fs)
    ensures c.row.Some?
    ensures
      var c1 := Worked(f, Pushing, c, t);
      var c2 := Worked(f, Pushing, c1, t');
      Sync(f, update, c, t.(again := t'.mtime))
        == c2.(row := Some(OnSync(c.row.value, c2.LatestHash(), Recorded(f, Pushing, c1, t'))))
  {
  }

  // The phases before the pushes
  lemma UpToPull(f: Formats, update: Side, remove: seq<Path>, mergePootle: seq<Path>,
                 mergeFs: seq<Path>, pull: seq<Path>, staged: seq<Path>, ahead: seq<Path>,
                 w: World, l: SyncLog, tr: Trace, p: Path)
    returns (m: Mode, t: Stamps)
    requires Phases(f, update, remove, mergePootle, mergeFs, pull, staged, ahead, w, l, tr)
    requires p !in remove && At(w, p).row.Some?
    requires (if p in mergePootle then 1 else 0) + (if p in mergeFs then 1 else 0) + (if p in pull then 1 else 0) == 1
    ensures m == if p in mergePootle || p in mergeFs then Merging(p in mergePootle, update == All) else Pulling
    ensures Fresh(t, w) && At(tr.w4, p) == Worked(f, m, At(w, p), t)
    ensures Lookup(tr.l4.revisions, p) == Some(Recorded(f, m, At(w, p), t))
    ensures Lookup(tr.l4.hashes, p) == Some(At(tr.w4, p).LatestHash())
    ensures Recorded(f, m, At(w, p), t).GetOr(0) <= tr.w6.revision
  {
    assert At(tr.w1, p) == At(w, p);
    if p in mergePootle {
      m := Merging(true, update == All);
      t := Hit(f, m, mergePootle, tr.w1, tr.w2, tr.l1, tr.l2, p);
    } else {
      Idle(f, Merging(true, update == All), mergePootle, tr.w1, tr.w2, tr.l1, tr.l2, p);
    }
    if p in mergeFs {
      m := Merging(false, update == All);
      t := Hit(f, m, mergeFs, tr.w2, tr.w3, tr.l2, tr.l3, p);
    } else {
      Idle(f, Merging(false, update == All), mergeFs, tr.w2, tr.w3, tr.l2, tr.l3, p);
    }
    if p in pull {
      m := Pulling;
      t := Hit(f, m, pull, tr.w3, tr.w4, tr.l3, tr.l4, p);
    } else {
      Idle(f, Pulling, pull, tr.w3, tr.w4, tr.l3, tr.l4, p);
    }
  }

  lemma IdleUpToPull(f: Formats, update: Side, remove: seq<Path>, mergePootle: seq<Path>,
                     mergeFs: seq<Path>, pull: seq<Path>, staged: seq<Path>, ahead: seq<Path>,
                     w: World, l: SyncLog, tr: Trace, p: Path)
    requires Phases(f, update, remove, mergePootle, mergeFs, pull, staged, ahead, w, l, tr)
    requires At(tr.w1, p).row.None? || (p !in mergePootle && p !in mergeFs && p !in pull)
    ensures At(tr.w4, p) == At(tr.w1, p)
  {
    Idle(f, Merging(true, update == All), mergePootle, tr.w1, tr.w2, tr.l1, tr.l2, p);
    Idle(f, Merging(false, update == All), mergeFs, tr.w2, tr.w3, tr.l2, tr.l3, p);
    Idle(f, Pulling, pull, tr.w3, tr.w4, tr.l3, tr.l4, p);
  }

  lemma IdlePush(f: Formats, update: Side, remove: seq<Path>, mergePootle: seq<Path>,
                 mergeFs: seq<Path>, pull: seq<Path>, staged: seq<Path>, ahead: seq<Path>,
                 w: World, l: SyncLog, tr: Trace, p: Path)
    requires Phases(f, update, remove, mergePootle, mergeFs, pull, staged, ahead, w, l, tr)
    requires At(tr.w4, p).row.None? || (p !in staged && p !in ahead)
    ensures Same(tr.w4, tr.w6, tr.l4, tr.l6, p)
  {
    Idle(f, Pushing, staged, tr.w4, tr.w5, tr.l4, tr.l5, p);
    Idle(f, Pushing, ahead, tr.w5, tr.w6, tr.l5, tr.l6, p);
  }

  // Put together, the phases do to each path what Sync says.
  lemma SyncPath(f: Formats, update: Side, remove: seq<Path>, mergePootle: seq<Path>,
                 mergeFs: seq<Path>, pull: seq<Path>, staged: seq<Path>, ahead: seq<Path>,
                 w: World, l: SyncLog, tr: Trace, w': World, p: Path)
    requires Phases(f, update, remove, mergePootle, mergeFs, pull, staged, ahead, w, l, tr)
    requires AfterFinish(staged + ahead + pull + mergePootle + mergeFs, tr.w6, tr.l6, w')
    requires SelectedAs(update, At(w, p), p in remove, p in mergePootle, p in mergeFs, p in pull, p in staged,
                        p in ahead)
    ensures Synchronised(f, w, update, At(w, p), At(w', p))
    ensures SyncActsOn(update, At(w, p)) && At(w', p).row.Some? ==>
      At(w', p).row.value.revision.GetOr(0) <= w'.revision
  {
    var c := At(w, p);
    if p in remove || !SyncActsOn(update, c) {
      IdleUpToPull(f, update, remove, mergePootle, mergeFs, pull, staged, ahead, w, l, tr, p);
      IdlePush(f, update, remove, mergePootle, mergeFs, pull, staged, ahead, w, l, tr, p);
      var t := Stamps(w.revision + 1, w.revision + 2, w.mtime + 1, w.mtime + 1);
      assert Fresh(t, w) && At(w', p) == Sync(f, update, c, t);
    } else if p in mergePootle || p in mergeFs || p in pull {
      var m, t := UpToPull(f, update, remove, mergePootle, mergeFs, pull, staged, ahead, w, l, tr, p);
      IdlePush(f, update, remove, mergePootle, mergeFs, pull, staged, ahead, w, l, tr, p);
      WorkedIsSync(f, update, m, c, t);
      assert Fresh(t, w) && At(w', p) == Sync(f, update, c, t);
    } else {
      IdleUpToPull(f, update, remove, mergePootle, mergeFs, pull, staged, ahead, w, l, tr, p);
      assert At(tr.w4, p) == c;
      if p in staged && p in ahead {
        var t := Hit(f, Pushing, staged, tr.w4, tr.w5, tr.l4, tr.l5, p);
        var t' := Hit(f, Pushing, ahead, tr.w5, tr.w6, tr.l5, tr.l6, p);
        PushedTwiceIsSync(f, update, c, t, t');
        assert Fresh(t.(again := t'.mtime), w) && At(w', p) == Sync(f, update, c, t.(again := t'.mtime));
      } else {
        var t;
        if p in staged {
          t := Hit(f, Pushing, staged, tr.w4, tr.w5, tr.l4, tr.l5, p);
          Idle(f, Pushing, ahead, tr.w5, tr.w6, tr.l5, tr.l6, p);
        } else {
          Idle(f, Pushing, staged, tr.w4, tr.w5, tr.l4, tr.l5, p);
          t := Hit(f, Pushing, ahead, tr.w5, tr.w6, tr.l5, tr.l6, p);
        }
        WorkedIsSync(f, update, Pushing, c, t);
        assert Fresh(t, w) && At(w', p) == Sync(f, update, c, t);
      }
    }
  }

  lemma SyncSteps(f: Formats, update: Side, remove: seq<Path>, mergePootle: seq<Path>,
                  mergeFs: seq<Path>, pull: seq<Path>, staged: seq<Path>, ahead: seq<Path>,
                  w: World, l: SyncLog, tr: Trace, w': World)
    requires Phases(f, update, remove, mergePootle, mergeFs, pull, staged, ahead, w, l, tr)
    requires AfterFinish(staged + ahead + pull + mergePootle + mergeFs, tr.w6, tr.l6, w')
    requires forall p {:trigger At(w, p)} ::
      SelectedAs(update, At(w, p), p in remove, p in mergePootle, p in mergeFs, p in pull, p in staged,
                 p in ahead)
    ensures Step(f, w, DoSync(update), w')
  {
    forall p
      ensures Synchronised(f, w, update, At(w, p), At(w', p))
      ensures CellBounded(At(w', p), w'.revision, w'.mtime)
    {
      assert SelectedAs(update, At(w, p), p in remove, p in mergePootle, p in mergeFs, p in pull, p in staged,
                        p in ahead);
      SyncPath(f, update, remove, mergePootle, mergeFs, pull, staged, ahead, w, l, tr, w', p);
      SyncPathBounded(f, update, remove, mergePootle, mergeFs, pull, staged, ahead, w, l, tr, w', p);
      hide *;
    }
  }

  lemma SyncPathBounded(f: Formats, update: Side, remove: seq<Path>, mergePootle: seq<Path>,
                        mergeFs: seq<Path>, pull: seq<Path>, staged: seq<Path>, ahead: seq<Path>,
                        w: World, l: SyncLog, tr: Trace, w': World, p: Path)
    requires Phases(f, update, remove, mergePootle, mergeFs, pull, staged, ahead, w, l, tr)
    requires AfterFinish(staged + ahead + pull + mergePootle + mergeFs, tr.w6, tr.l6, w')
    requires Synchronised(f, w, update, At(w, p), At(w', p))
    requires SelectedAs(update, At(w, p), p in remove, p in mergePootle, p in mergeFs, p in pull, p in staged,
                        p in ahead)
    requires SyncActsOn(update, At(w, p)) && At(w', p).row.Some? ==>
      At(w', p).row.value.revision.GetOr(0) <= w'.revision
    ensures CellBounded(At(w', p), w'.revision, w'.mtime)
  {
    assert CellBounded(At(tr.w6, p), tr.w6.revision, tr.w6.mtime);
  }
}
