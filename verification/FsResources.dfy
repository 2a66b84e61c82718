// The queries over rows, stores and found files (FSProjectStateResources).

module FsResources {
  import opened Options
  import opened FsModel

  function Tracked(w: World): set<Path> {
    w.rows.Keys
  }

  function ExcludeStaged(w: World, qs: set<Path>): set<Path>
    requires qs <= w.rows.Keys
  {
    set p | p in qs && !w.rows[p].removal && !w.rows[p].merge
  }

  function Synced(w: World): set<Path> {
    ExcludeStaged(w, set p | p in Tracked(w) && w.rows[p].revision.Some? && w.rows[p].hash.Some?)
  }

  function Unsynced(w: World): set<Path> {
    ExcludeStaged(w, set p | p in Tracked(w) && w.rows[p].revision.None? && w.rows[p].hash.None?)
  }

  function TrackableStores(w: World): set<Path> {
    set p | p in w.stores && !w.stores[p].obsolete && p !in w.rows
  }

  function FoundFilePaths(w: World): set<Path> {
    w.files.Keys
  }

  function MissingFilePaths(w: World): set<Path> {
    Tracked(w) - FoundFilePaths(w)
  }

  function PootleChanged(w: World): set<Path> {
    set p | p in Synced(w) && p in w.stores && !w.stores[p].obsolete
            && w.rows[p].revision != Some(w.stores[p].revision)
  }

  function PootleRevisions(w: World): map<Path, Option<nat>> {
    map p | p in Synced(w) && p in w.stores && !w.stores[p].obsolete :: Some(w.stores[p].revision)
  }

  function FileHashes(w: World): map<Path, Option<nat>> {
    map p | p in FoundFilePaths(w) :: Some(w.files[p].mtime)
  }

  function FsChanged(w: World): set<Path> {
    set p | p in Synced(w) && w.rows[p].hash != Lookup(FileHashes(w), p).GetOr(None)
  }
}
