// Statistics cached under the revision of a directory: persistent_property
// reads and fills the cache, RevisionUpdater changes revisions. Some statistics
// are computed from the stores, others from sums kept for each translation
// project, which are renewed separately.

module RevisionCache {
  import opened Options
  import opened UrlHelpers
  import opened RevisionPaths

  datatype StoreId = StoreId(place: Place, name: string)

  datatype Tp = Tp(language: string, project: string)

  function TpOf(p: Place): Tp {
    Tp(p.language, p.project)
  }

  // A missing revision is None; revisions are tokens that never repeat.
  datatype Key = Key(context: Context, revision: Option<nat>, property: string)

  datatype Site<D, T, S> = State(
    stores: map<StoreId, D>,
    sums: map<Tp, T>,
    dirs: set<string>,
    revisions: map<(string, string), nat>,
    cache: map<Key, S>,
    issued: nat)

  // What a property is computed from
  datatype Seen<D, T> = OfStores(stores: map<StoreId, D>) | OfSums(sums: map<Tp, T>)

  // How properties are computed, and the sum of a translation project
  datatype Tool<!D, !T, !S> = Tool(compute: (string, Context, Seen<D, T>) -> S, total: map<StoreId, D> -> T)

  const CHECKS: set<string> := {"all_checks_data", "checks_data"}

  // The data tools of languages, projects and the project set read the sums, and
  // so do the checks of a translation project; all else is read from the stores.
  predicate ReadsSums(c: Context, property: string) {
    c.Language? || c.Project? || c.ProjectSet? || (c.TranslationProject? && property in CHECKS)
  }

  predicate CoversTp(c: Context, tp: Tp) {
    Covers(c, Place(tp.language, tp.project, []))
  }

  function Under<D>(stores: map<StoreId, D>, c: Context): map<StoreId, D> {
    map s | s in stores && Covers(c, s.place) :: stores[s]
  }

  function SumsUnder<T>(sums: map<Tp, T>, c: Context): map<Tp, T> {
    map tp | tp in sums && CoversTp(c, tp) :: sums[tp]
  }

  function StoresOf<D>(stores: map<StoreId, D>, tp: Tp): map<StoreId, D> {
    map s | s in stores && TpOf(s.place) == tp :: stores[s]
  }

  function Sees<D, T, S>(s: Site<D, T, S>, c: Context, property: string): Seen<D, T> {
    if ReadsSums(c, property) then OfSums(SumsUnder(s.sums, c)) else OfStores(Under(s.stores, c))
  }

  function Recomputed<D, T, S>(f: Tool<D, T, S>, s: Site<D, T, S>, c: Context, property: string): S {
    f.compute(property, c, Sees(s, c, property))
  }

  // RevisionContext.get(key="stats")
  function Revision<D, T, S>(s: Site<D, T, S>, c: Context): Option<nat> {
    Lookup(s.revisions, (RevisionDir(c), "stats"))
  }

  function CacheKey<D, T, S>(s: Site<D, T, S>, c: Context, property: string): Key {
    Key(c, Revision(s, c), property)
  }

  function Pairs(parents: set<string>, keys: set<string>): (r: set<(string, string)>)
    ensures forall dk :: dk in r <==> dk.0 in parents && dk.1 in keys
  {
    set d, k | d in parents && k in keys :: (d, k)
  }

  lemma NoPairs(keys: set<string>)
    ensures Pairs({}, keys) == {}
  {
  }

  lemma PairsSum(parents: set<string>, parent: string, keys: set<string>)
    ensures Pairs(parents + {parent}, keys) == Pairs(parents, keys) + Pairs({parent}, keys)
  {
  }

  lemma WriteBoth<K>(m: map<K, nat>, a: set<K>, b: set<K>, token: nat)
    ensures m + (map k | k in a :: token) + (map k | k in b :: token) == m + map k | k in a + b :: token
  {
  }

  // RevisionUpdater.update
  function Bumped<D, T, S>(s: Site<D, T, S>, paths: set<string>, keys: set<string>): Site<D, T, S> {
    s.(issued := s.issued + 1,
       revisions := s.revisions + map dk | dk in Pairs(ParentPaths(paths) * s.dirs, keys) :: s.issued + 1)
  }

  function Changed<D, T, S>(s: Site<D, T, S>, id: StoreId, data: Option<D>): Site<D, T, S> {
    s.(stores := if data.Some? then s.stores[id := data.value] else s.stores - {id})
  }

  // The data of a translation project are updated from its stores.
  function Refreshed<D, T, S>(f: Tool<D, T, S>, s: Site<D, T, S>, tp: Tp): Site<D, T, S> {
    s.(sums := s.sums[tp := f.total(StoresOf(s.stores, tp))])
  }

  // ---- When a cache entry is right ----

  // What is still to come, and what came too late: `dirty` are the directories
  // of changed stores whose revisions have not been renewed, `behind` the
  // translation projects whose sums have not, and `late` the cache keys whose
  // value may have been computed before a sum that it reads was renewed.
  datatype Pending = Pending(dirty: multiset<Place>, behind: set<Tp>, late: set<Key>)

  predicate Clean(dirty: multiset<Place>, c: Context) {
    forall p :: p in dirty ==> !Covers(c, p)
  }

  predicate Settled(w: Pending, k: Key) {
    if ReadsSums(k.context, k.property) then k !in w.late else Clean(w.dirty, k.context)
  }

  predicate Tracked<D, T, S>(s: Site<D, T, S>, c: Context) {
    WellFormedContext(c) && RevisionDir(c) in s.dirs
  }

  ghost predicate EntryOk<D, T, S>(f: Tool<D, T, S>, s: Site<D, T, S>, w: Pending, k: Key, v: S) {
    && k.revision.GetOr(0) <= s.issued
    && (k.revision == Revision(s, k.context) && Tracked(s, k.context) && Settled(w, k) ==>
          v == Recomputed(f, s, k.context, k.property))
  }

  // Sums that are not behind are those of the stores.
  ghost predicate SumsOk<D, T, S>(f: Tool<D, T, S>, s: Site<D, T, S>, w: Pending) {
    && (forall tp :: tp in s.sums && tp !in w.behind ==> s.sums[tp] == f.total(StoresOf(s.stores, tp)))
    && (forall id :: id in s.stores && TpOf(id.place) !in w.behind ==> TpOf(id.place) in s.sums)
  }

  ghost predicate Coherent<D, T, S>(f: Tool<D, T, S>, s: Site<D, T, S>, w: Pending) {
    && (forall p :: p in w.dirty ==> WellFormed(p))
    && (forall dk :: dk in s.revisions ==> s.revisions[dk] <= s.issued)
    && (forall k :: k in w.late ==> k.revision.GetOr(0) <= s.issued)
    && (forall k :: k in s.cache ==> EntryOk(f, s, w, k, s.cache[k]))
    && SumsOk(f, s, w)
  }

  // The sums that an object would show if all were computed from the stores now
  function TrueSums<D, T, S>(f: Tool<D, T, S>, s: Site<D, T, S>, c: Context): map<Tp, T> {
    map tp | tp in s.sums.Keys + (set id | id in s.stores :: TpOf(id.place)) && CoversTp(c, tp) :: f.total(StoresOf(s.stores, tp))
  }

  predicate UpToDate(behind: set<Tp>, c: Context) {
    forall tp :: tp in behind ==> !CoversTp(c, tp)
  }

  lemma SumsAreTrue<D, T, S>(f: Tool<D, T, S>, s: Site<D, T, S>, w: Pending, c: Context)
    requires SumsOk(f, s, w) && UpToDate(w.behind, c)
    ensures SumsUnder(s.sums, c) == TrueSums(f, s, c)
  {
    hide StoresOf, CoversTp;
  }

  // A change of a store concerns only the objects above it, and those wait for
  // the update.
  lemma ChangeKeepsEntry<D, T, S>(f: Tool<D, T, S>, s: Site<D, T, S>, w: Pending, id: StoreId, data: Option<D>, k: Key, v: S)
    requires EntryOk(f, s, w, k, v)
    ensures EntryOk(f, Changed(s, id, data), AfterChange(w, id), k, v)
  {
    var s', w', c := Changed(s, id, data), AfterChange(w, id), k.context;
    if !ReadsSums(c, k.property) && Clean(w'.dirty, c) {
      forall p | p in w.dirty ensures !Covers(c, p) {
        assert p in w'.dirty;
      }
      assert id.place in w'.dirty;
      assert Under(s'.stores, c) == Under(s.stores, c);
    }
  }

  function AfterChange(w: Pending, id: StoreId): Pending {
    w.(dirty := w.dirty + multiset{id.place}, behind := w.behind + {TpOf(id.place)})
  }

  lemma ChangeKeepsSums<D, T, S>(f: Tool<D, T, S>, s: Site<D, T, S>, w: Pending, id: StoreId, data: Option<D>)
    requires SumsOk(f, s, w)
    ensures SumsOk(f, Changed(s, id, data), AfterChange(w, id))
  {
    var s' := Changed(s, id, data);
    forall tp | tp != TpOf(id.place) ensures StoresOf(s'.stores, tp) == StoresOf(s.stores, tp) {
    }
  }

  function AfterBump(w: Pending, p: Place): Pending {
    w.(dirty := w.dirty - multiset{p})
  }

  // An update gives every object above the directory a revision that no cache
  // entry carries, and leaves the revisions of all others alone.
  lemma BumpKeepsEntry<D, T, S>(f: Tool<D, T, S>, s: Site<D, T, S>, w: Pending, p: Place, keys: set<string>, k: Key, v: S)
    requires WellFormed(p) && "stats" in keys
    requires EntryOk(f, s, w, k, v)
    ensures EntryOk(f, Bumped(s, {Render(p)}, keys), AfterBump(w, p), k, v)
  {
    hide RevisionDir, ParentPaths, Render, WellFormed, WellFormedContext;
    var s', w', c := Bumped(s, {Render(p)}, keys), AfterBump(w, p), k.context;
    if Tracked(s, c) {
      BumpIsExact(s, p, keys, c);
      if !Covers(c, p) && Clean(w'.dirty, c) {
        forall q | q in w.dirty ensures !Covers(c, q) {
          if q != p {
            assert q in w'.dirty;
          }
        }
      }
    }
  }

  lemma BumpKeepsCoherent<D, T, S>(f: Tool<D, T, S>, s: Site<D, T, S>, w: Pending, p: Place, keys: set<string>)
    requires Coherent(f, s, w) && WellFormed(p) && "stats" in keys
    ensures Coherent(f, Bumped(s, {Render(p)}, keys), AfterBump(w, p))
  {
    hide EntryOk, ParentPaths, Render;
    var s', w' := Bumped(s, {Render(p)}, keys), AfterBump(w, p);
    forall k | k in s'.cache ensures EntryOk(f, s', w', k, s'.cache[k]) {
      BumpKeepsEntry(f, s, w, p, keys, k, s.cache[k]);
    }
  }

  lemma BumpIsExact<D, T, S>(s: Site<D, T, S>, p: Place, keys: set<string>, c: Context)
    requires WellFormed(p) && "stats" in keys && Tracked(s, c)
    ensures Revision(Bumped(s, {Render(p)}, keys), c) == if Covers(c, p) then Some(s.issued + 1) else Revision(s, c)
    ensures forall key :: Lookup(Bumped(s, {Render(p)}, keys).revisions, (RevisionDir(c), key))
                          == if Covers(c, p) && key in keys then Some(s.issued + 1) else Lookup(s.revisions, (RevisionDir(c), key))
  {
    hide RevisionDir, Ancestors, PathsFor, Render;
    InvalidationIsExact(c, p);
    PathsForPlace(p);
    ParentsOfOne(p);
  }

  // The keys whose value reads the sum of a translation project
  function Reading(keys: set<Key>, tp: Tp): set<Key> {
    set k | k in keys && ReadsSums(k.context, k.property) && CoversTp(k.context, tp)
  }

  // `keys` are those that have a value when the sum is renewed. They are late if
  // it becomes another.
  function AfterRefresh(w: Pending, tp: Tp, keys: set<Key>, renewed: bool): Pending {
    w.(behind := w.behind - {tp}, late := w.late + if renewed then Reading(keys, tp) else {})
  }

  ghost predicate Renews<D, T, S>(f: Tool<D, T, S>, s: Site<D, T, S>, tp: Tp) {
    Refreshed(f, s, tp).sums != s.sums
  }

  // Renewing a sum spoils only values computed before from that sum.
  lemma RefreshKeepsEntry<D, T, S>(f: Tool<D, T, S>, s: Site<D, T, S>, w: Pending, tp: Tp, keys: set<Key>, k: Key, v: S)
    requires EntryOk(f, s, w, k, v) && k in keys
    ensures EntryOk(f, Refreshed(f, s, tp), AfterRefresh(w, tp, keys, Renews(f, s, tp)), k, v)
  {
    var s', c := Refreshed(f, s, tp), k.context;
    if ReadsSums(c, k.property) && !CoversTp(c, tp) {
      hide CoversTp;
      assert SumsUnder(s'.sums, c) == SumsUnder(s.sums, c);
    }
  }

  lemma RefreshKeepsSums<D, T, S>(f: Tool<D, T, S>, s: Site<D, T, S>, w: Pending, tp: Tp, keys: set<Key>)
    requires SumsOk(f, s, w)
    ensures SumsOk(f, Refreshed(f, s, tp), AfterRefresh(w, tp, keys, Renews(f, s, tp)))
  {}

  lemma ParentsOfOne(p: Place)
    requires WellFormed(p)
    ensures ParentPaths({Render(p)}) == {"/projects/"} + Ancestors(p)
  {
    NotRoot(p);
    PathsForPlace(p);
    OneParent(Render(p));
    hide *;
  }

  lemma OneParent(d: string)
    requires d != "/"
    ensures ParentPaths({d}) == {"/projects/"} + PathsFor(d)
  {
    hide PathsFor;
    assert d in {d} && d !in {"/"};
  }

  lemma NotRoot(p: Place)
    requires WellFormed(p)
    ensures Render(p) != "/"
  {
    assert |Render(p)| > 1;
  }

  lemma CurrentBounded<D, T, S>(s: Site<D, T, S>, c: Context)
    requires forall dk :: dk in s.revisions ==> s.revisions[dk] <= s.issued
    ensures Revision(s, c).GetOr(0) <= s.issued
  {
    hide RevisionDir;
  }

  // ---- One process ----

  class StatsSite<D, T, S> {
    const tool: Tool<D, T, S>
    const dirs: set<string>
    var stores: map<StoreId, D>
    var sums: map<Tp, T>
    var revisions: map<(string, string), nat>
    var cache: map<Key, S>
    var issued: nat
    ghost var pending: Pending

    ghost function Current(): Site<D, T, S>
      reads this
    {
      State(stores, sums, dirs, revisions, cache, issued)
    }

    ghost predicate Valid()
      reads this
    {
      Coherent(tool, Current(), pending)
    }

    constructor (tool: Tool<D, T, S>, dirs: set<string>)
      ensures Valid() && this.tool == tool && this.dirs == dirs
      ensures Current() == State(map[], map[], dirs, map[], map[], 0) && pending == Pending(multiset{}, {}, {})
    {
      this.tool, this.dirs := tool, dirs;
      stores, sums, revisions, cache, issued := map[], map[], map[], map[], 0;
      pending := Pending(multiset{}, {}, {});
    }

    // persistent_property.__get__ on a tool made for this read
    method Get(c: Context, property: string) returns (v: S)
      requires Valid()
      modifies this`cache
      ensures Valid()
      ensures Tracked(Current(), c) && Settled(pending, CacheKey(Current(), c, property)) ==>
        v == Recomputed(tool, Current(), c, property)
      ensures CacheKey(Current(), c, property) in cache && cache[CacheKey(Current(), c, property)] == v
      ensures cache == old(cache) || cache == old(cache)[CacheKey(Current(), c, property) := v]
    {
      var key := Key(c, Lookup(revisions, (RevisionDir(c), "stats")), property);
      if key in cache {
        assert EntryOk(tool, Current(), pending, key, cache[key]);
        return cache[key];
      }
      v := tool.compute(
        property, c, if ReadsSums(c, property) then OfSums(SumsUnder(sums, c)) else OfStores(Under(stores, c)));
      ghost var s := Current();
      CurrentBounded(s, c);
      cache := cache[key := v];
      forall k | k in cache ensures EntryOk(tool, Current(), pending, k, cache[k]) {
        assert k != key ==> EntryOk(tool, s, pending, k, s.cache[k]);
      }
    }

    // A store's data are saved, or deleted with it.
    method ChangeStore(id: StoreId, data: Option<D>)
      requires Valid() && WellFormed(id.place)
      modifies this`stores, this`pending
      ensures Valid() && Current() == Changed(old(Current()), id, data)
      ensures pending == AfterChange(old(pending), id)
    {
      hide EntryOk, SumsOk;
      ghost var s, was := Current(), pending;
      if data.Some? {
        stores := stores[id := data.value];
      } else {
        stores := stores - {id};
      }
      pending := AfterChange(was, id);
      ChangeKeepsSums(tool, s, was, id, data);
      forall k | k in cache ensures EntryOk(tool, Current(), pending, k, cache[k]) {
        ChangeKeepsEntry(tool, s, was, id, data, k, s.cache[k]);
      }
    }

    // TPDataUpdater.update: the sums of one translation project
    method Refresh(tp: Tp)
      requires Valid()
      modifies this`sums, this`pending
      ensures Valid() && Current() == Refreshed(tool, old(Current()), tp)
      ensures pending == AfterRefresh(old(pending), tp, cache.Keys, Renews(tool, old(Current()), tp))
    {
      CacheBounded();
      hide EntryOk, SumsOk;
      ghost var s, was := Current(), pending;
      sums := sums[tp := tool.total(StoresOf(stores, tp))];
      pending := AfterRefresh(was, tp, cache.Keys, Renews(tool, s, tp));
      RefreshKeepsSums(tool, s, was, tp, cache.Keys);
      forall k | k in cache ensures EntryOk(tool, Current(), pending, k, cache[k]) {
        RefreshKeepsEntry(tool, s, was, tp, cache.Keys, k, s.cache[k]);
      }
    }

    // RevisionUpdater.update for the directory of one changed store
    method Update(p: Place, keys: set<string>)
      requires Valid() && WellFormed(p) && "stats" in keys
      modifies this`revisions, this`issued, this`pending
      ensures Valid() && Current() == Bumped(old(Current()), {Render(p)}, keys)
      ensures pending == AfterBump(old(pending), p)
    {
      BumpKeepsCoherent(tool, Current(), pending, p, keys);
      hide Coherent, ParentPaths, Render;
      UpdatePaths({Render(p)}, keys);
      pending := AfterBump(pending, p);
    }

    // update_tps_and_revisions: revisions are renewed for every changed store, and
    // then the sums of every translation project concerned. With no read between
    // the two no value comes too late.
    method UpdateTpsAndRevisions(changed: seq<StoreId>)
      requires Valid() && AllWellFormed(changed)
      modifies this`revisions, this`issued, this`sums, this`pending
      ensures Valid() && stores == old(stores)
      ensures pending.dirty == old(pending.dirty) - Places(changed)
      ensures pending.behind == old(pending.behind) - Tps(changed)
      ensures sums == old(sums) + map tp | tp in Tps(changed) :: tool.total(StoresOf(stores, tp))
      ensures AllNewer(Current(), changed, old(issued))
      ensures NoLater(Current(), old(pending.late), pending.late)
    {
      hide *;
      ghost var start, was, w := issued, Current(), pending;
      CacheBounded();
      var tps := UpdateRevisions(changed);
      ghost var s := Current();
      RefreshAll(tps);
      NothingLate(s, Current(), changed, start, w, pending, cache.Keys);
      NewerStay(s, Current(), changed, start);
    }

    method UpdateRevisions(changed: seq<StoreId>) returns (tps: set<Tp>)
      requires Valid() && AllWellFormed(changed)
      modifies this`revisions, this`issued, this`pending
      ensures Valid() && tps == Tps(changed)
      ensures pending == old(pending).(dirty := old(pending).dirty - Places(changed))
      ensures AllNewer(Current(), changed, old(issued))
    {
      hide Valid, Tps, Places, AllNewer, AllWellFormed, Bumped, Render, WellFormed, AfterBump;
      ghost var start, was := issued, pending;
      tps := {};
      NoPlaces(Current(), changed, was.dirty, start);
      for i := 0 to |changed|
        invariant Valid() && start <= issued && stores == old(stores) && cache == old(cache) && sums == old(sums)
        invariant tps == Tps(changed[..i])
        invariant pending == was.(dirty := was.dirty - Places(changed[..i]))
        invariant AllNewer(Current(), changed[..i], start)
      {
        ghost var s, w := Current(), pending;
        PlaceIsWellFormed(changed, i);
        Update(changed[i].place, {"stats", "checks"});
        OneMorePlace(changed, i, was.dirty);
        BumpIsNewer(s, changed, i, {"stats", "checks"}, start);
        Settles(w, changed[i].place);
        tps := tps + {TpOf(changed[i].place)};
      }
      assert changed[..|changed|] == changed;
    }

    method RefreshAll(tps: set<Tp>)
      requires Valid()
      modifies this`sums, this`pending
      ensures Valid() && Current() == old(Current()).(sums := sums)
      ensures RefreshedAll(old(pending), pending, tps, cache.Keys)
      ensures sums == old(sums) + map tp | tp in tps :: tool.total(StoresOf(stores, tp))
    {
      hide Valid, AfterRefresh, RefreshedAll, Renews, StoresOf;
      ghost var was := pending;
      var todo := tps;
      NothingRefreshed(was, cache.Keys);
      assert tps - todo == {};
      while todo != {}
        invariant todo <= tps && Valid() && Current() == old(Current()).(sums := sums)
        invariant RefreshedAll(was, pending, tps - todo, cache.Keys)
        invariant sums == old(sums) + map tp | tp in tps - todo :: tool.total(StoresOf(stores, tp))
      {
        var tp :| tp in todo;
        ghost var s, w := Current(), pending;
        Refresh(tp);
        OneMoreSum(tool, stores, old(sums), tps - todo, tp);
        OneMoreRefreshed(tool, s, was, w, tp, tps - todo, cache.Keys, Renews(tool, s, tp));
        assert tps - (todo - {tp}) == (tps - todo) + {tp};
        todo := todo - {tp};
      }
      assert tps - todo == tps;
    }

    lemma CacheBounded()
      requires Valid()
      ensures forall k :: k in cache ==> k.revision.GetOr(0) <= issued
    {
      hide SumsOk, Settled, Recomputed;
      assert forall k :: k in cache ==> EntryOk(tool, Current(), pending, k, cache[k]);
    }

    method UpdatePaths(paths: set<string>, keys: set<string>)
      modifies this`revisions, this`issued
      ensures Current() == Bumped(old(Current()), paths, keys)
    {
      hide ParentPaths;
      var parents := GetParentPaths(paths);
      WriteRevisions(parents * dirs, keys);
    }

    // Existing revisions are updated and missing ones created, all with one
    // new token.
    method WriteRevisions(parents: set<string>, keys: set<string>)
      modifies this`revisions, this`issued
      ensures issued == old(issued) + 1
      ensures revisions == old(revisions) + map dk | dk in Pairs(parents, keys) :: issued
    {
      var existing: set<(string, string)>, missing: set<(string, string)> := {}, {};
      var todo := parents;
      NoPairs(keys);
      assert parents - todo == {};
      while todo != {}
        invariant todo <= parents && revisions == old(revisions) && issued == old(issued)
        invariant existing + missing == Pairs(parents - todo, keys)
        invariant existing <= revisions.Keys && missing !! revisions.Keys
      {
        var parent :| parent in todo;
        var here, there := SplitKeys(parent, keys);
        PairsSum(parents - todo, parent, keys);
        assert parents - (todo - {parent}) == parents - todo + {parent};
        existing, missing, todo := existing + here, missing + there, todo - {parent};
      }
      issued := issued + 1;
      var token := issued;
      WriteBoth(revisions, existing, missing, token);
      assert parents - {} == parents;
      revisions := revisions + (map dk | dk in existing :: token) + (map dk | dk in missing :: token);
    }

    method SplitKeys(parent: string, keys: set<string>)
      returns (existing: set<(string, string)>, missing: set<(string, string)>)
      ensures existing + missing == Pairs({parent}, keys)
      ensures existing <= revisions.Keys && missing !! revisions.Keys
    {
      existing, missing := {}, {};
      var todo := keys;
      while todo != {}
        invariant todo <= keys
        invariant existing + missing == Pairs({parent}, keys - todo)
        invariant existing <= revisions.Keys && missing !! revisions.Keys
      {
        var key :| key in todo;
        assert Pairs({parent}, keys - (todo - {key})) == Pairs({parent}, keys - todo) + {(parent, key)};
        if (parent, key) in revisions {
          existing := existing + {(parent, key)};
        } else {
          missing := missing + {(parent, key)};
        }
        todo := todo - {key};
      }
    }
  }

  function Places(ids: seq<StoreId>): multiset<Place> {
    if ids == [] then multiset{} else Places(ids[..|ids| - 1]) + multiset{ids[|ids| - 1].place}
  }

  function Tps(ids: seq<StoreId>): set<Tp> {
    set i | 0 <= i < |ids| :: TpOf(ids[i].place)
  }

  predicate AllWellFormed(ids: seq<StoreId>) {
    forall i :: 0 <= i < |ids| ==> WellFormed(ids[i].place)
  }

  lemma PlaceIsWellFormed(ids: seq<StoreId>, i: nat)
    requires AllWellFormed(ids) && i < |ids|
    ensures WellFormed(ids[i].place) && "stats" in {"stats", "checks"}
  {
    hide WellFormed;
  }

  predicate AboveSome<D, T, S>(s: Site<D, T, S>, c: Context, ids: seq<StoreId>) {
    Tracked(s, c) && exists i :: 0 <= i < |ids| && Covers(c, ids[i].place)
  }

  // Every object above one of the stores has a revision newer than `start`.
  ghost predicate AllNewer<D, T, S>(s: Site<D, T, S>, ids: seq<StoreId>, start: nat) {
    forall c :: AboveSome(s, c, ids) ==> Revision(s, c).GetOr(0) > start
  }

  lemma NewerStay<D, T, S>(s: Site<D, T, S>, s': Site<D, T, S>, ids: seq<StoreId>, start: nat)
    requires AllNewer(s, ids, start) && s' == s.(sums := s'.sums)
    ensures AllNewer(s', ids, start)
  {
    hide Covers, RevisionDir, WellFormedContext;
    forall c | AboveSome(s', c, ids) ensures Revision(s', c).GetOr(0) > start {
      assert AboveSome(s, c, ids);
    }
  }

  lemma OneMoreSum<D, T, S>(f: Tool<D, T, S>, stores: map<StoreId, D>, sums: map<Tp, T>, done: set<Tp>, tp: Tp)
    ensures (sums + map t | t in done :: f.total(StoresOf(stores, t)))[tp := f.total(StoresOf(stores, tp))]
            == sums + map t | t in done + {tp} :: f.total(StoresOf(stores, t))
  {
    hide StoresOf;
  }

  predicate LateOf(k: Key, keys: set<Key>, tps: set<Tp>) {
    k in keys && ReadsSums(k.context, k.property) && exists tp :: tp in tps && CoversTp(k.context, tp)
  }

  // No key that is current is late and was not before.
  ghost predicate NoLater<D, T, S>(s: Site<D, T, S>, before: set<Key>, late: set<Key>) {
    forall c, property :: Tracked(s, c) && CacheKey(s, c, property) in late ==> CacheKey(s, c, property) in before
  }

  ghost predicate RefreshedAll(before: Pending, after: Pending, tps: set<Tp>, keys: set<Key>) {
    && after.dirty == before.dirty && after.behind == before.behind - tps
    && forall k :: k in after.late ==> k in before.late || LateOf(k, keys, tps)
  }

  lemma NothingRefreshed(w: Pending, keys: set<Key>)
    ensures RefreshedAll(w, w, {}, keys)
  {}

  lemma OneMoreRefreshed<D, T, S>(
    f: Tool<D, T, S>, s: Site<D, T, S>, before: Pending, w: Pending, tp: Tp, tps: set<Tp>, keys: set<Key>, renewed: bool)
    requires RefreshedAll(before, w, tps, keys)
    ensures RefreshedAll(before, AfterRefresh(w, tp, keys, renewed), tps + {tp}, keys)
    ensures Refreshed(f, s, tp) == s.(sums := Refreshed(f, s, tp).sums)
  {
    hide ReadsSums, CoversTp;
    forall k | LateOf(k, keys, tps) ensures LateOf(k, keys, tps + {tp}) {
    }
    forall k | k in Reading(keys, tp) ensures LateOf(k, keys, tps + {tp}) {
      assert tp in tps + {tp};
    }
  }

  lemma Settles(w: Pending, p: Place)
    ensures AfterBump(w, p) == w.(dirty := w.dirty - multiset{p})
  {}

  lemma NoPlaces<D, T, S>(s: Site<D, T, S>, ids: seq<StoreId>, dirty: multiset<Place>, start: nat)
    ensures dirty - Places(ids[..0]) == dirty && Tps(ids[..0]) == {} && AllNewer(s, ids[..0], start)
  {
    hide Tracked, Covers, Revision;
  }

  lemma OneMorePlace(ids: seq<StoreId>, i: nat, dirty: multiset<Place>)
    requires i < |ids|
    ensures dirty - Places(ids[..i + 1]) == dirty - Places(ids[..i]) - multiset{ids[i].place}
    ensures Tps(ids[..i + 1]) == Tps(ids[..i]) + {TpOf(ids[i].place)}
  {
    assert ids[..i + 1][..i] == ids[..i];
    forall tp | tp in Tps(ids[..i]) + {TpOf(ids[i].place)} ensures tp in Tps(ids[..i + 1]) {
      if tp in Tps(ids[..i]) {
        var j :| 0 <= j < i && TpOf(ids[..i][j].place) == tp;
        assert TpOf(ids[..i + 1][j].place) == tp;
      } else {
        assert TpOf(ids[..i + 1][i].place) == tp;
      }
    }
  }

  lemma BumpIsNewer<D, T, S>(s: Site<D, T, S>, ids: seq<StoreId>, i: nat, keys: set<string>, start: nat)
    requires i < |ids| && WellFormed(ids[i].place) && "stats" in keys && start <= s.issued
    requires AllNewer(s, ids[..i], start)
    ensures AllNewer(Bumped(s, {Render(ids[i].place)}, keys), ids[..i + 1], start)
    ensures Bumped(s, {Render(ids[i].place)}, keys).issued == s.issued + 1
    ensures Bumped(s, {Render(ids[i].place)}, keys).stores == s.stores
    ensures Bumped(s, {Render(ids[i].place)}, keys).cache == s.cache
    ensures Bumped(s, {Render(ids[i].place)}, keys).sums == s.sums
  {
    hide Covers, Render, WellFormed, WellFormedContext, RevisionDir, ParentPaths;
    var s' := Bumped(s, {Render(ids[i].place)}, keys);
    forall c | AboveSome(s', c, ids[..i + 1]) ensures Revision(s', c).GetOr(0) > start {
      assert Tracked(s, c);
      BumpIsExact(s, ids[i].place, keys, c);
      hide Bumped, Revision;
      var j :| 0 <= j < |ids[..i + 1]| && Covers(c, ids[..i + 1][j].place);
      if j < i {
        assert Covers(c, ids[..i][j].place);
        assert AboveSome(s, c, ids[..i]);
      }
    }
  }

  // An object that reads one of the sums has a revision newer than any key that
  // had a value.
  lemma NothingLate<D, T, S>(
    s: Site<D, T, S>, s': Site<D, T, S>, ids: seq<StoreId>, start: nat, w: Pending, w': Pending, keys: set<Key>)
    requires s' == s.(sums := s'.sums) && AllNewer(s, ids, start)
    requires forall k :: k in keys ==> k.revision.GetOr(0) <= start
    requires RefreshedAll(w.(dirty := w.dirty - Places(ids)), w', Tps(ids), keys)
    ensures NoLater(s', w.late, w'.late)
    ensures w'.dirty == w.dirty - Places(ids) && w'.behind == w.behind - Tps(ids)
  {
    forall c, property | Tracked(s', c) && CacheKey(s', c, property) in w'.late
      ensures CacheKey(s', c, property) in w.late {
      assert CacheKey(s', c, property) == CacheKey(s, c, property) && Tracked(s, c);
      if LateOf(CacheKey(s, c, property), keys, Tps(ids)) {
        LateIsAbove(s, c, property, keys, ids);
      }
      hide RevisionDir, Tracked, LateOf;
    }
  }

  lemma LateIsAbove<D, T, S>(s: Site<D, T, S>, c: Context, property: string, keys: set<Key>, ids: seq<StoreId>)
    requires Tracked(s, c) && LateOf(CacheKey(s, c, property), keys, Tps(ids))
    ensures AboveSome(s, c, ids)
  {
    var tp :| tp in Tps(ids) && CoversTp(c, tp);
    var i :| 0 <= i < |ids| && TpOf(ids[i].place) == tp;
    SumsCoverStores(c, property, ids[i].place);
    hide Covers, CoversTp, Tracked;
  }

  lemma SumsCoverStores(c: Context, property: string, p: Place)
    requires ReadsSums(c, property)
    ensures CoversTp(c, TpOf(p)) <==> Covers(c, p)
  {}

  // ---- Many processes: any interleaving of the steps ----

  // A read takes its key, then computes, then stores; a change of a store, the
  // update of revisions and the update of sums are separate steps, and anything
  // may come between.
  datatype Reader<S> = Keyed(key: Key) | Computed(key: Key, value: S)

  datatype System<D, T, S> = System(site: Site<D, T, S>, pending: Pending, readers: map<nat, Reader<S>>)

  datatype Event<D> =
    | Start(reader: nat, context: Context, property: string)
    | Compute(reader: nat)
    | Finish(reader: nat)
    | Change(id: StoreId, data: Option<D>)
    | Bump(place: Place)
    | Refresh(tp: Tp)
    | Evict(key: Key)

  const KEYS: set<string> := {"stats", "checks"}

  // The keys that have a value, in the cache or on its way there
  function Valued<D, T, S>(y: System<D, T, S>): set<Key> {
    y.site.cache.Keys + set r | r in y.readers && y.readers[r].Computed? :: y.readers[r].key
  }

  ghost function Next<D, T, S>(f: Tool<D, T, S>, y: System<D, T, S>, e: Event<D>): System<D, T, S> {
    match e
    case Start(r, c, property) =>
      var key := CacheKey(y.site, c, property);
      // a hit returns at once
      if key in y.site.cache then y.(readers := y.readers - {r})
      else y.(readers := y.readers[r := Keyed(key)])
    case Compute(r) =>
      if r in y.readers && y.readers[r].Keyed? then
        var k := y.readers[r].key;
        y.(readers := y.readers[r := Computed(k, Recomputed(f, y.site, k.context, k.property))])
      else y
    case Finish(r) =>
      if r in y.readers && y.readers[r].Computed? then
        y.(site := y.site.(cache := y.site.cache[y.readers[r].key := y.readers[r].value]),
           readers := y.readers - {r})
      else y
    case Change(id, data) => y.(site := Changed(y.site, id, data), pending := AfterChange(y.pending, id))
    case Bump(p) => y.(site := Bumped(y.site, {Render(p)}, KEYS), pending := AfterBump(y.pending, p))
    case Refresh(tp) =>
      y.(site := Refreshed(f, y.site, tp),
         pending := AfterRefresh(y.pending, tp, Valued(y), Renews(f, y.site, tp)))
    case Evict(key) => y.(site := y.site.(cache := y.site.cache - {key}))
  }

  predicate Sensible<D>(e: Event<D>) {
    && (e.Change? ==> WellFormed(e.id.place))
    && (e.Bump? ==> WellFormed(e.place))
  }

  ghost predicate ReaderOk<D, T, S>(f: Tool<D, T, S>, s: Site<D, T, S>, w: Pending, r: Reader<S>) {
    match r
    case Keyed(k) => k.revision.GetOr(0) <= s.issued
    case Computed(k, v) => EntryOk(f, s, w, k, v)
  }

  ghost predicate SystemInv<D, T, S>(f: Tool<D, T, S>, y: System<D, T, S>) {
    Coherent(f, y.site, y.pending) && forall r :: r in y.readers ==> ReaderOk(f, y.site, y.pending, y.readers[r])
  }

  lemma NextKeepsInv<D, T, S>(f: Tool<D, T, S>, y: System<D, T, S>, e: Event<D>)
    requires SystemInv(f, y) && Sensible(e)
    ensures SystemInv(f, Next(f, y, e))
  {
    match e
    case Start(r, c, property) => CurrentBounded(y.site, c);
    case Compute(r) => ComputeKeepsInv(f, y, r);
    case Finish(r) => FinishKeepsInv(f, y, r);
    case Change(id, data) => ChangeKeepsInv(f, y, id, data);
    case Bump(p) => BumpKeepsInv(f, y, p);
    case Refresh(tp) => RefreshKeepsInv(f, y, tp);
    case Evict(key) => EvictKeepsInv(f, y, key);
  }

  lemma ComputeKeepsInv<D, T, S>(f: Tool<D, T, S>, y: System<D, T, S>, r: nat)
    requires SystemInv(f, y)
    ensures SystemInv(f, Next(f, y, Compute(r)))
  {
    if r in y.readers && y.readers[r].Keyed? {
      assert ReaderOk(f, y.site, y.pending, y.readers[r]);
      hide Coherent, Recomputed;
    }
  }

  lemma FinishKeepsInv<D, T, S>(f: Tool<D, T, S>, y: System<D, T, S>, r: nat)
    requires SystemInv(f, y)
    ensures SystemInv(f, Next(f, y, Finish(r)))
  {
    if r in y.readers && y.readers[r].Computed? {
      assert ReaderOk(f, y.site, y.pending, y.readers[r]);
      var y' := Next(f, y, Finish(r));
      hide SumsOk;
      SameSite(f, y.site, y'.site, y.pending);
      hide EntryOk;
    }
  }

  lemma EvictKeepsInv<D, T, S>(f: Tool<D, T, S>, y: System<D, T, S>, key: Key)
    requires SystemInv(f, y)
    ensures SystemInv(f, Next(f, y, Evict(key)))
  {
    SameSite(f, y.site, Next(f, y, Evict(key)).site, y.pending);
    hide EntryOk, SumsOk;
  }

  // Being right does not depend on what else is in the cache.
  lemma SameSite<D, T, S>(f: Tool<D, T, S>, s: Site<D, T, S>, s': Site<D, T, S>, w: Pending)
    requires s' == s.(cache := s'.cache)
    ensures forall k, v :: EntryOk(f, s', w, k, v) <==> EntryOk(f, s, w, k, v)
    ensures SumsOk(f, s', w) <==> SumsOk(f, s, w)
  {
    hide RevisionDir, Settled, WellFormedContext;
  }

  lemma ChangeKeepsInv<D, T, S>(f: Tool<D, T, S>, y: System<D, T, S>, id: StoreId, data: Option<D>)
    requires SystemInv(f, y) && WellFormed(id.place)
    ensures SystemInv(f, Next(f, y, Change(id, data)))
  {
    hide EntryOk, SumsOk;
    var y' := Next(f, y, Change(id, data));
    ChangeKeepsSums(f, y.site, y.pending, id, data);
    forall k | k in y'.site.cache ensures EntryOk(f, y'.site, y'.pending, k, y'.site.cache[k]) {
      ChangeKeepsEntry(f, y.site, y.pending, id, data, k, y.site.cache[k]);
    }
    forall r | r in y.readers && y.readers[r].Computed?
      ensures EntryOk(f, y'.site, y'.pending, y.readers[r].key, y.readers[r].value)
    {
      assert ReaderOk(f, y.site, y.pending, y.readers[r]);
      ChangeKeepsEntry(f, y.site, y.pending, id, data, y.readers[r].key, y.readers[r].value);
    }
  }

  lemma BumpKeepsInv<D, T, S>(f: Tool<D, T, S>, y: System<D, T, S>, p: Place)
    requires SystemInv(f, y) && WellFormed(p)
    ensures SystemInv(f, Next(f, y, Bump(p)))
  {
    hide EntryOk, SumsOk, ParentPaths, Render;
    var y' := Next(f, y, Bump(p));
    BumpKeepsCoherent(f, y.site, y.pending, p, KEYS);
    hide Coherent;
    forall r | r in y.readers && y.readers[r].Computed?
      ensures EntryOk(f, y'.site, y'.pending, y.readers[r].key, y.readers[r].value)
    {
      assert ReaderOk(f, y.site, y.pending, y.readers[r]);
      BumpKeepsEntry(f, y.site, y.pending, p, KEYS, y.readers[r].key, y.readers[r].value);
    }
  }

  lemma RefreshKeepsInv<D, T, S>(f: Tool<D, T, S>, y: System<D, T, S>, tp: Tp)
    requires SystemInv(f, y)
    ensures SystemInv(f, Next(f, y, Refresh(tp)))
  {
    var y', keys := Next(f, y, Refresh(tp)), Valued(y);
    ValuedBounded(f, y);
    hide EntryOk, SumsOk;
    RefreshKeepsSums(f, y.site, y.pending, tp, keys);
    forall k | k in y'.site.cache ensures EntryOk(f, y'.site, y'.pending, k, y'.site.cache[k]) {
      RefreshKeepsEntry(f, y.site, y.pending, tp, keys, k, y.site.cache[k]);
    }
    forall r | r in y.readers && y.readers[r].Computed?
      ensures EntryOk(f, y'.site, y'.pending, y.readers[r].key, y.readers[r].value)
    {
      assert ReaderOk(f, y.site, y.pending, y.readers[r]);
      RefreshKeepsEntry(f, y.site, y.pending, tp, keys, y.readers[r].key, y.readers[r].value);
    }
  }

  lemma ValuedBounded<D, T, S>(f: Tool<D, T, S>, y: System<D, T, S>)
    requires SystemInv(f, y)
    ensures forall k :: k in Valued(y) ==> k.revision.GetOr(0) <= y.site.issued
  {
    hide Settled, Recomputed, SumsOk, RevisionDir, WellFormedContext;
    forall k | k in Valued(y) ensures k.revision.GetOr(0) <= y.site.issued {
      if k in y.site.cache {
        assert EntryOk(f, y.site, y.pending, k, y.site.cache[k]);
      } else {
        var r :| r in y.readers && y.readers[r].Computed? && y.readers[r].key == k;
        assert ReaderOk(f, y.site, y.pending, y.readers[r]);
      }
    }
  }

  ghost predicate Run<D, T, S>(f: Tool<D, T, S>, ys: seq<System<D, T, S>>, es: seq<Event<D>>) {
    && |ys| == |es| + 1
    && SystemInv(f, ys[0])
    && forall i :: 0 <= i < |es| ==> Sensible(es[i]) && ys[i + 1] == Next(f, ys[i], es[i])
  }

  lemma {:induction false} InvOverRuns<D, T, S>(f: Tool<D, T, S>, ys: seq<System<D, T, S>>, es: seq<Event<D>>, i: nat)
    requires Run(f, ys, es) && i < |ys|
    ensures SystemInv(f, ys[i])
  {
    hide SystemInv, Next, Sensible;
    if i > 0 {
      InvOverRuns(f, ys, es, i - 1);
      NextKeepsInv(f, ys[i - 1], es[i - 1]);
    }
  }

  // In every reachable state a read that finds its key in the cache gets what
  // recomputing would give, unless a change of one of the object's own stores
  // still waits for its update, or the value came too late for a sum.
  lemma HitsAreFresh<D, T, S>(
    f: Tool<D, T, S>, ys: seq<System<D, T, S>>, es: seq<Event<D>>, i: nat, c: Context, property: string)
    requires Run(f, ys, es) && i < |ys|
    ensures
      var s, key := ys[i].site, CacheKey(ys[i].site, c, property);
      key in s.cache && Tracked(s, c) && Settled(ys[i].pending, key) ==>
        s.cache[key] == Recomputed(f, s, c, property)
  {
    InvOverRuns(f, ys, es, i);
    var key := CacheKey(ys[i].site, c, property);
    assert key in ys[i].site.cache ==> EntryOk(f, ys[i].site, ys[i].pending, key, ys[i].site.cache[key]);
    hide SumsOk, Settled, Recomputed, RevisionDir;
  }

  // What reads the sums then shows what the stores hold, unless some project's
  // sums are behind.
  lemma HitsAreTrue<D, T, S>(
    f: Tool<D, T, S>, ys: seq<System<D, T, S>>, es: seq<Event<D>>, i: nat, c: Context, property: string)
    requires Run(f, ys, es) && i < |ys| && ReadsSums(c, property)
    requires Tracked(ys[i].site, c) && CacheKey(ys[i].site, c, property) in ys[i].site.cache
    requires CacheKey(ys[i].site, c, property) !in ys[i].pending.late && UpToDate(ys[i].pending.behind, c)
    ensures
      ys[i].site.cache[CacheKey(ys[i].site, c, property)] == f.compute(property, c, OfSums(TrueSums(f, ys[i].site, c)))
  {
    HitsAreFresh(f, ys, es, i, c, property);
    InvOverRuns(f, ys, es, i);
    SumsAreTrue(f, ys[i].site, ys[i].pending, c);
    hide EntryOk, Tracked, TrueSums, SumsOk, RevisionDir;
  }

  // ---- The order of the two updates ----

  // No value comes too late for an object if, since its last new revision, no sum
  // that it reads was renewed: sums first, revisions second.
  lemma {:induction false} SumsFirst<D, T, S>(
    f: Tool<D, T, S>, ys: seq<System<D, T, S>>, es: seq<Event<D>>, j: nat, i: nat, c: Context, property: string)
    requires Run(f, ys, es) && |ys| == |es| + 1 && j < i < |ys| && Tracked(ys[0].site, c)
    requires es[j].Bump? && Covers(c, es[j].place)
    requires forall n :: j < n < i && es[n].Refresh? ==> !CoversTp(c, es[n].tp)
    ensures CacheKey(ys[i].site, c, property) !in ys[i].pending.late && Tracked(ys[i].site, c)
    decreases i
  {
    hide *;
    InvOverRuns(f, ys, es, i - 1);
    DirsStay(f, ys, es, i - 1);
    RunAt(f, ys, es, i - 1);
    SameDirs(ys[0].site, ys[i - 1].site, c);
    if i - 1 > j {
      SumsFirst(f, ys, es, j, i - 1, c, property);
    }
    StaysOnTime(f, ys[i - 1], es[i - 1], c, property);
  }

  lemma RunAt<D, T, S>(f: Tool<D, T, S>, ys: seq<System<D, T, S>>, es: seq<Event<D>>, i: nat)
    requires Run(f, ys, es) && i < |es|
    ensures Sensible(es[i]) && ys[i + 1] == Next(f, ys[i], es[i])
  {
    hide Sensible, Next, SystemInv;
  }

  lemma SameDirs<D, T, S>(s: Site<D, T, S>, s': Site<D, T, S>, c: Context)
    requires s'.dirs == s.dirs && Tracked(s, c)
    ensures Tracked(s', c)
  {}

  lemma {:induction false} DirsStay<D, T, S>(f: Tool<D, T, S>, ys: seq<System<D, T, S>>, es: seq<Event<D>>, i: nat)
    requires Run(f, ys, es) && i < |ys|
    ensures ys[i].site.dirs == ys[0].site.dirs
  {
    hide SystemInv, Next, Sensible;
    if i > 0 {
      DirsStay(f, ys, es, i - 1);
      OneStepKeepsDirs(f, ys[i - 1], es[i - 1]);
    }
  }

  lemma OneStepKeepsDirs<D, T, S>(f: Tool<D, T, S>, y: System<D, T, S>, e: Event<D>)
    ensures Next(f, y, e).site.dirs == y.site.dirs
  {
    hide Recomputed, ParentPaths, Render, RevisionDir;
  }

  lemma StaysOnTime<D, T, S>(f: Tool<D, T, S>, y: System<D, T, S>, e: Event<D>, c: Context, property: string)
    requires SystemInv(f, y) && Sensible(e) && Tracked(y.site, c)
    requires (e.Bump? && Covers(c, e.place)) || CacheKey(y.site, c, property) !in y.pending.late
    requires e.Refresh? ==> !CoversTp(c, e.tp)
    ensures CacheKey(Next(f, y, e).site, c, property) !in Next(f, y, e).pending.late
    ensures Tracked(Next(f, y, e).site, c)
  {
    hide Covers, CoversTp, RevisionDir, WellFormedContext, Render, ParentPaths, Recomputed, EntryOk, SumsOk;
    if e.Bump? {
      BumpIsExact(y.site, e.place, KEYS, c);
      CurrentBounded(y.site, c);
    }
  }

  // A change, and a read between the update of revisions and that of sums
  ghost function ReadBetween<D, T, S>(
    f: Tool<D, T, S>, y: System<D, T, S>, id: StoreId, data: Option<D>, r: nat, c: Context, property: string): System<D, T, S>
  {
    var y2 := Next(f, Next(f, y, Change(id, data)), Bump(id.place));
    var y5 := Next(f, Next(f, Next(f, y2, Start(r, c, property)), Compute(r)), Finish(r));
    Next(f, y5, Refresh(TpOf(id.place)))
  }

  // With revisions first, such a read stores the old sum under the new revision.
  // It stays there when both updates are done, and is right exactly when the
  // renewed sum shows the same.
  lemma RevisionsFirst<D, T, S>(
    f: Tool<D, T, S>, y: System<D, T, S>, id: StoreId, data: Option<D>, r: nat, c: Context, property: string)
    requires SystemInv(f, y) && WellFormed(id.place)
    requires ReadsSums(c, property) && Tracked(y.site, c) && Covers(c, id.place)
    ensures
      var y', tp := ReadBetween(f, y, id, data, r, c, property), TpOf(id.place);
      var key, sum := CacheKey(y'.site, c, property), f.total(StoresOf(Changed(y.site, id, data).stores, tp));
      && y'.pending.dirty == y.pending.dirty && tp !in y'.pending.behind
      && key in y'.site.cache
      && y'.site.cache[key] == f.compute(property, c, OfSums(SumsUnder(y.site.sums, c)))
      && Recomputed(f, y'.site, c, property) == f.compute(property, c, OfSums(SumsUnder(y.site.sums[tp := sum], c)))
  {
    hide SystemInv, Covers, CoversTp, WellFormedContext, RevisionDir, Render, ParentPaths, SumsUnder, StoresOf, Bumped;
    hide CacheKey, Recomputed;
    var y1 := Next(f, y, Change(id, data));
    var y2 := Next(f, y1, Bump(id.place));
    NextKeepsInv(f, y, Change(id, data));
    NoEntryYet(f, y1, id.place, c, property);
    BumpKeepsRest(y1.site, id.place);
    Miss(f, y2, r, c, property);
    var y5 := Next(f, Next(f, Next(f, y2, Start(r, c, property)), Compute(r)), Finish(r));
    hide Next;
    SumRenewed(f, y5, TpOf(id.place), c, property);
    SumsRead(f, y2.site, c, property);
  }

  // The sum of some numbers, by any key
  ghost function Sum<K>(m: map<K, nat>): nat {
    if m == map[] then 0
    else
      var k :| k in m;
      Sum(m - {k}) + m[k]
  }

  lemma SumOfOne<K>(k: K, n: nat)
    ensures Sum(map[k := n]) == n && Sum<K>(map[]) == 0
  {
    var m := map[k := n];
    assert k in m && m != map[];
    assert forall x :: x in m ==> x == k;
    assert m - {k} == map[];
  }

  ghost function WordTool(): Tool<nat, nat, nat> {
    Tool((property, c, seen: Seen<nat, nat>) => if seen.OfSums? then Sum(seen.sums) else Sum(seen.stores), m => Sum(m))
  }

  lemma WordToolSums(c: Context, property: string, sums: map<Tp, nat>, stores: map<StoreId, nat>)
    ensures WordTool().compute(property, c, OfSums(sums)) == Sum(sums) && WordTool().total(stores) == Sum(stores)
    ensures WordTool().compute(property, c, OfStores(stores)) == Sum(stores)
  {}

  // A site with nothing in it
  function NewSite(dirs: set<string>): System<nat, nat, nat> {
    System(State(map[], map[], dirs, map[], map[], 0), Pending(multiset{}, {}, {}), map[])
  }

  // The first store gets some words. A read between the two updates keeps showing
  // none when both are done.
  lemma OldSumIsKept(id: StoreId, n: nat, c: Context, property: string)
    requires WellFormed(id.place) && WellFormedContext(c) && Covers(c, id.place) && ReadsSums(c, property)
    ensures
      var y := NewSite({RevisionDir(c)});
      var y' := ReadBetween(WordTool(), y, id, Some(n), 0, c, property);
      var key := CacheKey(y'.site, c, property);
      && SystemInv(WordTool(), y) && y'.pending.dirty == multiset{} && y'.pending.behind == {}
      && key in y'.site.cache && y'.site.cache[key] == 0 && Recomputed(WordTool(), y'.site, c, property) == n
  {
    hide *;
    var y, tp := NewSite({RevisionDir(c)}), TpOf(id.place);
    NewSiteIs(c, id, n);
    SumsCoverStores(c, property, id.place);
    OneSum(tp, id, n, c);
    WordToolSums(c, property, map[], map[id := n]);
    WordToolSums(c, property, map[tp := n], map[]);
    SumOfOne(id, n);
    SumOfOne(tp, n);
    NoneBehind(WordTool(), y, id, Some(n), 0, c, property);
    RevisionsFirst(WordTool(), y, id, Some(n), 0, c, property);
    assert y.site.sums[tp := n] == map[tp := n] && y.pending.behind - {tp} == {};
    assert WordTool().total(StoresOf(Changed(y.site, id, Some(n)).stores, tp)) == n;
    ghost var y' := ReadBetween(WordTool(), y, id, Some(n), 0, c, property);
    assert y'.pending.dirty == multiset{} && y'.pending.behind == {};
    assert y'.site.cache[CacheKey(y'.site, c, property)] == 0;
    assert Recomputed(WordTool(), y'.site, c, property) == n;
  }

  // What a read between the two updates leaves for each kind of object: the old
  // sum for languages, projects and the project set, and for the checks of a
  // translation project; the new words for all else, which is read from the stores.
  lemma BetweenTheUpdates(id: StoreId, n: nat, c: Context, property: string)
    requires WellFormed(id.place) && WellFormedContext(c) && Covers(c, id.place)
    ensures
      var y' := ReadBetween(WordTool(), NewSite({RevisionDir(c)}), id, Some(n), 0, c, property);
      var key := CacheKey(y'.site, c, property);
      && key in y'.site.cache
      && y'.site.cache[key]
         == (match c
             case Directory(_) => n
             case TranslationProject(_, _) => if property == "all_checks_data" || property == "checks_data" then 0 else n
             case _ => 0)
      && Recomputed(WordTool(), y'.site, c, property) == n
  {
    hide WellFormed, WellFormedContext, Covers, ReadBetween, NewSite, CacheKey, Recomputed, WordTool, RevisionDir;
    if ReadsSums(c, property) {
      OldSumIsKept(id, n, c, property);
    } else {
      NewWordsAreKept(id, n, c, property);
    }
  }

  lemma NewWordsAreKept(id: StoreId, n: nat, c: Context, property: string)
    requires WellFormed(id.place) && WellFormedContext(c) && Covers(c, id.place) && !ReadsSums(c, property)
    ensures
      var y' := ReadBetween(WordTool(), NewSite({RevisionDir(c)}), id, Some(n), 0, c, property);
      var key := CacheKey(y'.site, c, property);
      key in y'.site.cache && y'.site.cache[key] == n && Recomputed(WordTool(), y'.site, c, property) == n
  {
    hide SystemInv, Covers, CoversTp, WellFormedContext, RevisionDir, Render, ParentPaths, SumsUnder, StoresOf, Bumped;
    hide CacheKey, Recomputed, WordTool, Tracked, Sensible, NewSite, WellFormed;
    ghost var f, y := WordTool(), NewSite({RevisionDir(c)});
    NewSiteIs(c, id, n);
    ghost var y1 := Next(f, y, Change(id, Some(n)));
    ghost var y2 := Next(f, y1, Bump(id.place));
    assert Sensible(Event<nat>.Change(id, Some(n))) by { IsSensible(id, n); }
    NextKeepsInv(f, y, Change(id, Some(n)));
    StillTracked(y.site, y1.site, c);
    NoEntryYet(f, y1, id.place, c, property);
    BumpKeepsRest(y1.site, id.place);
    Miss(f, y2, 0, c, property);
    ghost var y5 := Next(f, Next(f, Next(f, y2, Start(0, c, property)), Compute(0)), Finish(0));
    hide Next;
    SumRenewed(f, y5, TpOf(id.place), c, property);
    StoresRead(y2.site, id, n, c, property);
    StoresRead(Next(f, y5, Refresh(TpOf(id.place))).site, id, n, c, property);
  }

  lemma IsSensible(id: StoreId, n: nat)
    requires WellFormed(id.place)
    ensures Sensible(Event<nat>.Change(id, Some(n)))
  {}

  lemma StillTracked<D, T, S>(s: Site<D, T, S>, s': Site<D, T, S>, c: Context)
    requires Tracked(s, c) && s'.dirs == s.dirs
    ensures Tracked(s', c)
  {}

  lemma StoresRead(s: Site<nat, nat, nat>, id: StoreId, n: nat, c: Context, property: string)
    requires !ReadsSums(c, property) && Covers(c, id.place) && s.stores == map[id := n]
    ensures Recomputed(WordTool(), s, c, property) == n
  {
    hide Covers;
    assert Under(s.stores, c) == map[id := n];
    SumOfOne(id, n);
    WordToolSums(c, property, map[], map[id := n]);
    hide WordTool, Under, Sum;
  }

  lemma NewSiteIs(c: Context, id: StoreId, n: nat)
    requires WellFormedContext(c)
    ensures
      var y := NewSite({RevisionDir(c)});
      && SystemInv(WordTool(), y) && Tracked(y.site, c)
      && y.site.sums == map[] && Changed(y.site, id, Some(n)).stores == map[id := n]
      && y.pending.dirty == multiset{} && y.pending.behind == {}
  {
    hide RevisionDir, WellFormedContext, WordTool;
  }

  lemma OneSum(tp: Tp, id: StoreId, n: nat, c: Context)
    requires tp == TpOf(id.place) && CoversTp(c, tp)
    ensures StoresOf<nat>(map[id := n], tp) == map[id := n]
    ensures SumsUnder<nat>(map[tp := n], c) == map[tp := n] && SumsUnder<nat>(map[], c) == map[]
  {
    hide CoversTp;
  }

  // A read shows what there is below the object: of two stores, of which one is
  // below it, the words of that one, after a change those it has then, and none
  // when it is deleted.
  method ReadsAreShown(
    tool: Tool<nat, nat, nat>, id: StoreId, other: StoreId, n: nat, more: nat, m: nat, c: Context, property: string)
    returns (first: nat, second: nat, third: nat)
    requires tool == WordTool() && WellFormed(id.place) && WellFormed(other.place) && WellFormedContext(c)
    requires Covers(c, id.place) && !Covers(c, other.place)
    ensures first == n && second == m && third == 0
  {
    hide Covers, RevisionDir, WellFormed, WellFormedContext, Coherent, Tracked, CacheKey, Places, Tps;
    hide WordTool, Changed, AfterChange;
    var site := new StatsSite<nat, nat, nat>(tool, {RevisionDir(c)});
    TwoChanges({RevisionDir(c)}, id, other, n, more);
    site.ChangeStore(id, Some(n));
    site.ChangeStore(other, Some(more));
    assert AllWellFormed([id, other]) && AllWellFormed([id]);
    first := RenewAndGet(site, [id, other], id, other, Some(n), more, c, property);
    OneChange(site.Current(), site.pending, id, other, Some(n), Some(m), more);
    site.ChangeStore(id, Some(m));
    second := RenewAndGet(site, [id], id, other, Some(m), more, c, property);
    OneChange(site.Current(), site.pending, id, other, Some(m), None, more);
    site.ChangeStore(id, None);
    third := RenewAndGet(site, [id], id, other, None, more, c, property);
  }

  function Both(id: StoreId, data: Option<nat>, other: StoreId, more: nat): map<StoreId, nat> {
    if data.Some? then map[id := data.value, other := more] else map[other := more]
  }

  method RenewAndGet(
    site: StatsSite<nat, nat, nat>, changed: seq<StoreId>,
    id: StoreId, other: StoreId, data: Option<nat>, more: nat, c: Context, property: string) returns (v: nat)
    requires site.Valid() && site.tool == WordTool() && AllWellFormed(changed)
    requires WellFormedContext(c) && site.dirs == {RevisionDir(c)}
    requires Covers(c, id.place) && !Covers(c, other.place)
    requires site.stores == Both(id, data, other, more)
    requires site.pending.dirty == Places(changed) && site.pending.behind == Tps(changed)
    requires id in changed
    requires site.sums.Keys + Tps(changed) == {TpOf(id.place), TpOf(other.place)}
    modifies site
    ensures v == data.GetOr(0) && site.Valid() && site.stores == old(site.stores)
    ensures site.pending.dirty == multiset{} && site.pending.behind == {}
    ensures site.sums.Keys == {TpOf(id.place), TpOf(other.place)}
  {
    hide Covers, RevisionDir, WellFormedContext, Coherent, Recomputed, Settled, CacheKey, Places, Tps, NoLater, AllNewer, WordTool;
    ghost var s, w := site.Current(), site.pending;
    site.UpdateTpsAndRevisions(changed);
    OnTime(site.tool, s, w, site.Current(), site.pending.late, changed, id, c, property);
    OnlyStores(site.tool, site.Current(), site.pending, id, other, data, more, c, property);
    ghost var s' := site.Current();
    v := site.Get(c, property);
    OnlyCache(site.tool, s', site.Current(), c, property);
  }

  lemma OnlyCache<D, T, S>(f: Tool<D, T, S>, s: Site<D, T, S>, s': Site<D, T, S>, c: Context, property: string)
    requires s' == s.(cache := s'.cache)
    ensures Recomputed(f, s', c, property) == Recomputed(f, s, c, property)
    ensures CacheKey(s', c, property) == CacheKey(s, c, property) && (Tracked(s', c) <==> Tracked(s, c))
  {}

  // A new revision is not that of any value that came too late before.
  lemma OnTime<D, T, S>(
    f: Tool<D, T, S>, s: Site<D, T, S>, w: Pending, s': Site<D, T, S>, late: set<Key>,
    changed: seq<StoreId>, id: StoreId, c: Context, property: string)
    requires Coherent(f, s, w) && AllNewer(s', changed, s.issued) && NoLater(s', w.late, late)
    requires id in changed && Covers(c, id.place) && Tracked(s', c)
    ensures CacheKey(s', c, property) !in late
  {
    hide Covers, RevisionDir, WellFormedContext, EntryOk, SumsOk;
    assert AboveSome(s', c, changed);
  }

  lemma TwoChanges(dirs: set<string>, id: StoreId, other: StoreId, n: nat, more: nat)
    requires id != other
    ensures
      var s: Site<nat, nat, nat> := State(map[], map[], dirs, map[], map[], 0);
      var s' := Changed(Changed(s, id, Some(n)), other, Some(more));
      var w := AfterChange(AfterChange(Pending(multiset{}, {}, {}), id), other);
      && s'.stores == Both(id, Some(n), other, more) && s'.sums == map[]
      && w == Pending(Places([id, other]), Tps([id, other]), {})
      && Tps([id, other]) == {TpOf(id.place), TpOf(other.place)}
  {
    var ids := [id, other];
    assert ids[0] == id && ids[1] == other;
    assert ids[..1] == [id] && [id][..0] == [];
    assert Places([id]) == multiset{id.place} && Places(ids) == Places([id]) + multiset{other.place};
    assert Tps(ids) == {TpOf(id.place), TpOf(other.place)};
  }

  lemma OneChange(
    s: Site<nat, nat, nat>, w: Pending, id: StoreId, other: StoreId, before: Option<nat>, after: Option<nat>, more: nat)
    requires id != other && s.stores == Both(id, before, other, more)
    ensures Changed(s, id, after).stores == Both(id, after, other, more)
    ensures Tps([id]) == {TpOf(id.place)}
    ensures w.dirty == multiset{} ==> AfterChange(w, id).dirty == Places([id])
    ensures w.behind == {} ==> AfterChange(w, id).behind == Tps([id])
  {
    assert [id][0] == id && [id][..0] == [];
  }

  lemma OnlyStores(
    tool: Tool<nat, nat, nat>, s: Site<nat, nat, nat>, w: Pending, id: StoreId, other: StoreId, data: Option<nat>,
    more: nat, c: Context, property: string)
    requires tool == WordTool() && Coherent(tool, s, w) && WellFormedContext(c) && s.dirs == {RevisionDir(c)}
    requires Covers(c, id.place) && !Covers(c, other.place)
    requires w.dirty == multiset{} && w.behind == {} && CacheKey(s, c, property) !in w.late
    requires s.stores == Both(id, data, other, more)
    requires s.sums.Keys == {TpOf(id.place), TpOf(other.place)}
    ensures Recomputed(tool, s, c, property) == data.GetOr(0)
    ensures Tracked(s, c) && Settled(w, CacheKey(s, c, property))
  {
    hide RevisionDir, WellFormedContext, EntryOk, SumsOk, WordTool, Covers, CoversTp, Under, SumsUnder, Sum;
    if ReadsSums(c, property) {
      SumsCoverStores(c, property, id.place);
      SumsCoverStores(c, property, other.place);
      SumsAreTrue(tool, s, w, c);
      OnlySum(s.stores, s.sums, id, other, data, more, c);
      WordToolSums(c, property, map[TpOf(id.place) := data.GetOr(0)], map[]);
      SumOfOne(TpOf(id.place), data.GetOr(0));
    } else {
      OnlyUnder(s.stores, id, other, data, more, c);
      WordToolSums(c, property, map[], if data.Some? then map[id := data.value] else map[]);
      SumOfOne(id, data.GetOr(0));
    }
  }

  lemma OnlyUnder(stores: map<StoreId, nat>, id: StoreId, other: StoreId, data: Option<nat>, more: nat, c: Context)
    requires stores == Both(id, data, other, more) && Covers(c, id.place) && !Covers(c, other.place)
    ensures Under(stores, c) == if data.Some? then map[id := data.value] else map[]
  {
    hide Covers;
  }

  lemma OnlySum(
    stores: map<StoreId, nat>, sums: map<Tp, nat>, id: StoreId, other: StoreId, data: Option<nat>, more: nat, c: Context)
    requires stores == Both(id, data, other, more) && sums.Keys == {TpOf(id.place), TpOf(other.place)}
    requires CoversTp(c, TpOf(id.place)) && !CoversTp(c, TpOf(other.place))
    requires SumsUnder(sums, c)
             == map tp | tp in sums.Keys + (set s | s in stores :: TpOf(s.place)) && CoversTp(c, tp) :: WordTool().total(StoresOf(stores, tp))
    ensures SumsUnder(sums, c) == map[TpOf(id.place) := data.GetOr(0)]
  {
    hide CoversTp;
    var one := if data.Some? then map[id := data.value] else map[];
    assert StoresOf(stores, TpOf(id.place)) == one;
    WordToolSums(c, "", map[], one);
    SumOfOne(id, data.GetOr(0));
    hide StoresOf;
  }

  // So the language fr shows none of three words.
  lemma LanguageShowsNone()
    ensures
      var id, c := StoreId(Place("fr", "tutorial", []), "a.po"), Language("fr");
      var y' := ReadBetween(WordTool(), NewSite({RevisionDir(c)}), id, Some(3), 0, c, "children_stats");
      var key := CacheKey(y'.site, c, "children_stats");
      key in y'.site.cache && y'.site.cache[key] == 0 && Recomputed(WordTool(), y'.site, c, "children_stats") == 3
  {
    assert "fr"[0] == 'f' && "projects"[0] == 'p';
    var id, c := StoreId(Place("fr", "tutorial", []), "a.po"), Language("fr");
    assert WellFormed(id.place) && WellFormedContext(c) && Covers(c, id.place) && ReadsSums(c, "children_stats");
    hide *;
    OldSumIsKept(id, 3, c, "children_stats");
  }

  lemma NoneBehind<D, T, S>(
    f: Tool<D, T, S>, y: System<D, T, S>, id: StoreId, data: Option<D>, r: nat, c: Context, property: string)
    ensures ReadBetween(f, y, id, data, r, c, property).pending.behind == y.pending.behind - {TpOf(id.place)}
  {
    hide CacheKey, Recomputed, Bumped, RevisionDir, Refreshed, Changed, Renews, Reading, Valued;
  }

  // ---- A change that is not announced ----

  // What saving a store's data sends: the change, and only if a column changed the
  // updates of revisions and sums
  ghost function Sent<D, T, S>(
    f: Tool<D, T, S>, y: System<D, T, S>, id: StoreId, data: Option<D>, announced: bool): System<D, T, S>
  {
    var y1 := Next(f, y, Change(id, data));
    if announced then Next(f, Next(f, y1, Bump(id.place)), Refresh(TpOf(id.place))) else y1
  }

  // All is settled again exactly when the change was announced.
  lemma SettledIff<D, T, S>(f: Tool<D, T, S>, y: System<D, T, S>, id: StoreId, data: Option<D>, announced: bool)
    ensures Sent(f, y, id, data, announced).pending.dirty == y.pending.dirty <==> announced
    ensures announced ==> TpOf(id.place) !in Sent(f, y, id, data, announced).pending.behind
    ensures !announced ==> TpOf(id.place) in Sent(f, y, id, data, announced).pending.behind
  {
    assert y.pending.dirty + multiset{id.place} - multiset{id.place} == y.pending.dirty;
    assert (y.pending.dirty + multiset{id.place})[id.place] == y.pending.dirty[id.place] + 1;
    hide Bumped, Refreshed, Changed;
  }

  // Unannounced, a value that was right and read from the stores is still served
  // for every object above the store, and is right exactly when the new data show
  // the same.
  lemma UnannouncedIsServed<D, T, S>(
    f: Tool<D, T, S>, y: System<D, T, S>, id: StoreId, data: Option<D>, c: Context, property: string)
    requires SystemInv(f, y) && Tracked(y.site, c) && Covers(c, id.place) && !ReadsSums(c, property)
    requires CacheKey(y.site, c, property) in y.site.cache && Clean(y.pending.dirty, c)
    ensures
      var y' := Sent(f, y, id, data, false);
      var key := CacheKey(y'.site, c, property);
      && key in y'.site.cache && y'.site.cache[key] == f.compute(property, c, OfStores(Under(y.site.stores, c)))
      && Recomputed(f, y'.site, c, property)
         == f.compute(property, c, OfStores(Under(Changed(y.site, id, data).stores, c)))
  {
    var key := CacheKey(y.site, c, property);
    assert EntryOk(f, y.site, y.pending, key, y.site.cache[key]);
    hide SumsOk, Covers, RevisionDir, WellFormedContext, Under;
  }

  lemma SumsRead<D, T, S>(f: Tool<D, T, S>, s: Site<D, T, S>, c: Context, property: string)
    requires ReadsSums(c, property)
    ensures Recomputed(f, s, c, property) == f.compute(property, c, OfSums(SumsUnder(s.sums, c)))
  {}

  // A read that misses, with nothing in between
  lemma Miss<D, T, S>(f: Tool<D, T, S>, y: System<D, T, S>, r: nat, c: Context, property: string)
    requires CacheKey(y.site, c, property) !in y.site.cache
    ensures
      var y' := Next(f, Next(f, Next(f, y, Start(r, c, property)), Compute(r)), Finish(r));
      && y'.site == y.site.(cache := y.site.cache[CacheKey(y.site, c, property) := Recomputed(f, y.site, c, property)])
      && y'.pending == y.pending && CacheKey(y'.site, c, property) == CacheKey(y.site, c, property)
  {
    hide Recomputed, RevisionDir;
    var key := CacheKey(y.site, c, property);
    var y1 := Next(f, y, Start(r, c, property));
    assert y1 == y.(readers := y.readers[r := Keyed(key)]);
    var y2 := Next(f, y1, Compute(r));
    assert y2.readers[r] == Computed(key, Recomputed(f, y.site, c, property)) && y2.site == y.site;
  }

  lemma SumRenewed<D, T, S>(f: Tool<D, T, S>, y: System<D, T, S>, tp: Tp, c: Context, property: string)
    ensures
      var y' := Next(f, y, Refresh(tp));
      && CacheKey(y'.site, c, property) == CacheKey(y.site, c, property) && y'.site.cache == y.site.cache
      && y'.site.stores == y.site.stores
      && y'.site.sums == y.site.sums[tp := f.total(StoresOf(y.site.stores, tp))]
      && y'.pending.dirty == y.pending.dirty && tp !in y'.pending.behind
      && (ReadsSums(c, property) ==>
            Recomputed(f, y'.site, c, property) == f.compute(property, c, OfSums(SumsUnder(y'.site.sums, c))))
  {
    hide RevisionDir, StoresOf, SumsUnder;
  }

  lemma BumpKeepsRest<D, T, S>(s: Site<D, T, S>, p: Place)
    ensures Bumped(s, {Render(p)}, KEYS) == s.(issued := s.issued + 1, revisions := Bumped(s, {Render(p)}, KEYS).revisions)
  {
    hide ParentPaths, Render;
  }

  lemma NoEntryYet<D, T, S>(f: Tool<D, T, S>, y: System<D, T, S>, p: Place, c: Context, property: string)
    requires SystemInv(f, y) && WellFormed(p) && Tracked(y.site, c) && Covers(c, p)
    ensures CacheKey(Next(f, y, Bump(p)).site, c, property) !in Next(f, y, Bump(p)).site.cache
  {
    hide Covers, WellFormedContext, RevisionDir, Render, ParentPaths;
    BumpIsExact(y.site, p, KEYS, c);
    ValuedBounded(f, y);
  }
}
