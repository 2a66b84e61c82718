// FSFile: what pulling, pushing and deleting do to one path, and that their
// own guards agree with the classes that select paths for them.

module FsFiles {
  import opened Options
  import opened FsModel
  import opened FsState

  // How far an update of a store goes: file and store do not differ; they differ
  // but no unit is saved; units are saved under the revision of the update; or
  // units changed in Pootle since the last sync get the revision after it, so
  // that they are still to be pushed.
  datatype Effect = NoDifference | NothingSaved | Saved | Renewed

  datatype Updated = Updated(text: Text, effect: Effect) {
    predicate Bumped() {
      effect.Saved? || effect.Renewed?
    }
  }

  // The two operations on contents that this model leaves abstract. `update`
  // is Store.update: given the store's text, the file's text, who wins and the
  // revision to compare with (None to overwrite), the store's new text and
  // how far it went. `write` is Syncer.sync: the file's new text from
  // the store's text and the file's old text.
  datatype Formats = Formats(
    update: (Text, Text, Winner, Option<nat>) -> Updated,
    write: (Text, Option<Text>) -> Text,
    empty: Text)

  // Every file holds at least one unit that an empty store lacks.
  ghost predicate Parseable(f: Formats) {
    forall t, winner, base :: f.update(f.empty, t, winner, base).Bumped()
  }

  predicate PullSkips(c: Cell)
    requires c.row.Some?
  {
    c.store.Some? && !c.FileChanged()
  }

  function PullWinner(r: Row, pootleWins: Option<bool>): Winner {
    match pootleWins
    case None => if r.winner == Unset then SourceWins else r.winner
    case Some(wins) => if wins then PootleWins else SourceWins
  }

  // What an update of the store from the file comes to
  function Update(f: Formats, c: Cell, merge: bool, pootleWins: Option<bool>): Updated
    requires c.row.Some? && c.file.Some?
  {
    var r := c.row.value;
    var text := if c.store.Some? then c.store.value.text else f.empty;
    f.update(text, c.file.value.text, PullWinner(r, pootleWins), if merge then Some(r.revision.GetOr(0)) else None)
  }

  // The highest revision of a store after an update
  function Highest(e: Effect, revision: nat, t: Stamps): nat {
    match e
    case Saved => t.issued
    case Renewed => t.renewed
    case _ => revision
  }

  // FSFile.pull: the cell it leaves, and the revision it returns
  function Pull(f: Formats, c: Cell, merge: bool, pootleWins: Option<bool>, t: Stamps): Cell
    requires c.row.Some?
  {
    if PullSkips(c) then c
    else
      var store := if c.store.None? then Store(false, 0, f.empty) else c.store.value.(obsolete := false);
      if c.file.None? then c.(store := Some(store))
      else
        var u := Update(f, c, merge, pootleWins);
        c.(store := Some(Store(false, Highest(u.effect, store.revision, t), u.text)))
  }

  function Returned(f: Formats, c: Cell, merge: bool, pootleWins: Option<bool>, t: Stamps): Option<nat>
    requires c.row.Some?
  {
    if PullSkips(c) || c.file.None? || Update(f, c, merge, pootleWins).effect.NoDifference? then None
    else Some(t.issued)
  }

  predicate PushSkips(c: Cell)
    requires c.row.Some?
  {
    c.store.None? || (c.file.Some? && !c.StoreChanged())
  }

  // FSFile.push, with `mtime` the time of writing
  function Push(f: Formats, c: Cell, mtime: nat): Cell
    requires c.row.Some?
  {
    if PushSkips(c) then c
    else
      var disk := if c.file.Some? then Some(c.file.value.text) else None;
      c.(file := Some(File(mtime, f.write(c.store.value.text, disk))))
  }

  // FSFile.delete
  function Delete(c: Cell): Cell {
    Cell(None,
         if c.store.Some? then Some(c.store.value.(obsolete := true)) else None,
         None)
  }

  // FSFile.on_sync
  function OnSync(r: Row, hash: Option<nat>, revision: Option<nat>): Row {
    r.(winner := Unset, merge := false, hash := hash, revision := revision)
  }

  // An obsolete store whose file has not been touched since the last sync,
  // staged to be added again: pull returns before it would resurrect the store.
  predicate UntouchedReadd(c: Cell) {
    && c.Synced() && c.store.Some? && c.store.value.obsolete
    && c.file.Some? && !c.FileChanged() && c.row.value.winner == SourceWins
  }

  // The guard of pull lets through what sync_pull selects, apart from that re-add.
  lemma PullGuardAgrees(w: World, p: Path)
    requires p in Members(w, FsStaged) + Members(w, FsAhead)
    ensures At(w, p).row.Some?
    ensures PullSkips(At(w, p)) <==> UntouchedReadd(At(w, p))
  {
    hide Members;
    MembersAreKinds(w, p, FsStaged);
    MembersAreKinds(w, p, FsAhead);
  }

  // The guard of push lets through everything that sync_push selects.
  lemma PushGuardAgrees(w: World, p: Path)
    requires p in Members(w, PootleStaged) + Members(w, PootleAhead)
    ensures At(w, p).row.Some? && At(w, p).Live() && !PushSkips(At(w, p))
  {
    hide Members;
    MembersAreKinds(w, p, PootleStaged);
    MembersAreKinds(w, p, PootleAhead);
  }

  // Conversely, on a synced unstaged row with a live store and a file, the two
  // guards both open exactly when the row is in conflict or was resolved by
  // overwriting, and both close exactly when it is unchanged.
  lemma GuardsDecideClass(w: World, p: Path)
    requires At(w, p).Synced() && At(w, p).Live() && At(w, p).file.Some?
    ensures
      var c := At(w, p);
      && (PullSkips(c) && PushSkips(c) <==> Unchanged(w, p))
      && (PullSkips(c) && !PushSkips(c) <==> p in Members(w, PootleAhead) && !c.FileChanged())
      && (!PullSkips(c) && PushSkips(c) <==> p in Members(w, FsAhead) && !c.StoreChanged())
      && (!PullSkips(c) && !PushSkips(c) <==>
            || p in Members(w, Conflict)
            || (p in Members(w, PootleAhead) && c.row.value.winner == PootleWins && c.FileChanged())
            || (p in Members(w, FsAhead) && c.row.value.winner == SourceWins && c.StoreChanged()))
  {
    hide Members;
    MembersAreKinds(w, p, PootleAhead);
    MembersAreKinds(w, p, FsAhead);
    MembersAreKinds(w, p, Conflict);
    UnchangedMeansInStep(w, p);
  }
}
