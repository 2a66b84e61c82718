// What each action of the plugin does to one path, as a function of its class
// when the action started.

module FsActions {
  import opened Options
  import opened FsModel
  import opened FsState
  import opened FsFiles

  datatype Side = All | Pootle | Fs

  predicate Covers(update: Side, side: Side) {
    update == All || update == side
  }

  // A row as create_store_fs makes it
  function NewRow(removal: bool, merge: bool, winner: Winner): Row {
    Row(None, None, removal, merge, winner)
  }

  function Create(c: Cell, r: Row): Cell {
    c.(row := Some(r))
  }

  function Add(c: Cell, force: bool, update: Side): Cell {
    var ks := Kinds(c);
    if FsUntracked in ks then
      if Covers(update, Pootle) then Create(c, NewRow(false, false, Unset)) else c
    else if PootleUntracked in ks then
      if Covers(update, Fs) then Create(c, NewRow(false, false, Unset)) else c
    else if FsRemoved in ks && force && Covers(update, Pootle) then
      Create(c, c.row.value.(winner := PootleWins))
    else if PootleRemoved in ks && force && Covers(update, Fs) then
      Create(c, c.row.value.(winner := SourceWins))
    else c
  }

  function Resolve(c: Cell, merge: bool, pootleWins: bool): Cell {
    var ks := Kinds(c);
    var winner := if pootleWins then PootleWins else SourceWins;
    if ConflictUntracked in ks then
      Create(c, NewRow(false, merge, winner))
    else if Conflict in ks then
      Create(c, c.row.value.(winner := winner, merge := merge || c.row.value.merge))
    else c
  }

  function Rm(c: Cell, force: bool, update: Side): Cell {
    var ks := Kinds(c);
    if || BothRemoved in ks
       || (PootleRemoved in ks && Covers(update, Fs))
       || (FsRemoved in ks && Covers(update, Pootle))
       || (Conflict in ks && force)
    then Create(c, c.row.value.(removal := true))
    else if force && (|| ConflictUntracked in ks
                      || (PootleUntracked in ks && Covers(update, Fs))
                      || (FsUntracked in ks && Covers(update, Pootle)))
    then Create(c, NewRow(true, false, Unset))
    else c
  }

  function Unstage(c: Cell): Cell {
    var ks := Kinds(c);
    if || Remove in ks || MergePootleWins in ks || MergeFsWins in ks
       || PootleStaged in ks || FsStaged in ks
       || ((PootleAhead in ks || FsAhead in ks) && c.row.value.winner != Unset)
    then
      if c.row.value.revision.GetOr(0) == 0 && c.row.value.hash.None? then c.(row := None)
      else Create(c, c.row.value.(winner := Unset, merge := false, removal := false))
    else c
  }

  function Finish(c: Cell): Cell
    requires c.row.Some?
  {
    var revision := if c.store.Some? then Some(c.store.value.revision) else None;
    Create(c, OnSync(c.row.value, c.LatestHash(), revision))
  }

  function MergeWins(c: Cell): Option<bool> {
    Some(MergePootleWins in Kinds(c))
  }

  // sync: removal, then merge and pull for the side of Pootle, and push for that
  // of the filesystem. Only a sync of both pushes what it has merged.
  function Sync(f: Formats, update: Side, c: Cell, t: Stamps): Cell {
    var ks := Kinds(c);
    if Remove in ks then Delete(c)
    else if MergePootleWins in ks || MergeFsWins in ks then
      if Covers(update, Pootle) then Merge(f, update == All, c, t) else c
    else if FsStaged in ks || FsAhead in ks then
      if Covers(update, Pootle) then Finish(Pull(f, c, false, None, t)) else c
    else if !Covers(update, Fs) then c
    else if PootleStaged in ks && PootleAhead in ks then
      Finish(Push(f, Push(f, c, t.mtime), t.again))
    else if PootleStaged in ks || PootleAhead in ks then
      Finish(Push(f, c, t.mtime))
    else c
  }

  // The revision recorded is the one that push returns, if it wrote at all, or,
  // without a push, the one that pull returned.
  function Merge(f: Formats, push: bool, c: Cell, t: Stamps): Cell
    requires c.row.Some?
  {
    var pulled := Pull(f, c, true, MergeWins(c), t);
    var merged := if push then Push(f, pulled, t.mtime) else pulled;
    var revision :=
      if !push then Returned(f, c, true, MergeWins(c), t)
      else if PushSkips(pulled) then None
      else Some(merged.store.value.revision);
    Create(merged, OnSync(c.row.value, merged.LatestHash(), revision))
  }

  // The classes that a sync works on
  function SyncKinds(update: Side): set<Kind> {
    {Remove}
    + (if Covers(update, Pootle) then {MergePootleWins, MergeFsWins, FsStaged, FsAhead} else {})
    + (if Covers(update, Fs) then {PootleStaged, PootleAhead} else {})
  }

  predicate SyncActsOn(update: Side, c: Cell) {
    Kinds(c) * SyncKinds(update) != {}
  }
}
