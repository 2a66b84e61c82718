// What the synchronisation of one Pootle project acts on: the tracking rows
// (StoreFS), the stores in the database and the files in the working directory.

module FsModel {
  import opened Options

  // A store's path and the path of its file determine each other (module
  // FsPaths), so one Path names both.
  type Path = string
  type Text = string

  // resolve_conflict; the column's two "no choice" values, 0 and null, are one.
  datatype Winner = Unset | PootleWins | SourceWins

  datatype Row = Row(
    revision: Option<nat>,  // last_sync_revision
    hash: Option<nat>,      // last_sync_hash
    removal: bool,          // staged_for_removal
    merge: bool,            // staged_for_merge
    winner: Winner)

  // `revision` is the highest unit revision of the store.
  datatype Store = Store(obsolete: bool, revision: nat, text: Text)

  // The hash of a file is its modification time.
  datatype File = File(mtime: nat, text: Text)

  // All there is to know about one path.
  datatype Cell = Cell(row: Option<Row>, store: Option<Store>, file: Option<File>) {
    predicate Live() {
      store.Some? && !store.value.obsolete
    }
    predicate Staged() {
      row.Some? && (row.value.removal || row.value.merge)
    }
    predicate Synced() {
      row.Some? && !Staged() && row.value.revision.Some? && row.value.hash.Some?
    }
    predicate Unsynced() {
      row.Some? && !Staged() && row.value.revision.None? && row.value.hash.None?
    }
    function LatestHash(): Option<nat> {
      if file.Some? then Some(file.value.mtime) else None
    }
    // FSFile.fs_changed and FSFile.pootle_changed
    predicate FileChanged() requires row.Some? {
      LatestHash() != row.value.hash
    }
    predicate StoreChanged() requires row.Some? {
      store.Some? && Some(store.value.revision) != row.value.revision
    }
  }

  // `revision` is the site-wide unit revision counter; `mtime` the clock that
  // stamps files.
  datatype World = World(
    rows: map<Path, Row>,
    stores: map<Path, Store>,
    files: map<Path, File>,
    revision: nat,
    mtime: nat)

  function At(w: World, p: Path): Cell {
    Cell(Lookup(w.rows, p), Lookup(w.stores, p), Lookup(w.files, p))
  }

  // Nothing carries a revision or a time stamp that has not been issued yet.
  ghost predicate CellBounded(c: Cell, revision: nat, mtime: nat) {
    && (c.row.Some? ==>
          && c.row.value.revision.GetOr(0) <= revision
          && c.row.value.hash.GetOr(0) <= mtime)
    && (c.store.Some? ==> c.store.value.revision <= revision)
    && (c.file.Some? ==> c.file.value.mtime <= mtime)
  }

  ghost predicate Bounded(w: World) {
    forall p :: CellBounded(At(w, p), w.revision, w.mtime)
  }

  // Fresh stamps for whatever a sync writes at one path: the revision that an
  // update of the store returns, the later one it may give to units that stay
  // unsynced, the time of a write, and the time of a repeated write.
  datatype Stamps = Stamps(issued: nat, renewed: nat, mtime: nat, again: nat)

  ghost predicate Fresh(t: Stamps, w: World) {
    w.revision < t.issued < t.renewed && w.mtime < t.mtime && w.mtime < t.again
  }
}
