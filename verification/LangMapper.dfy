// The one-to-one mapping between language codes upstream and in Pootle.

module LangMapper {
  import opened Options

  type Code = string

  datatype Entry = Entry(upstream: Code, pootle: Code)

  // An OrderedDict: no key twice, in order of first insertion
  type Entries = seq<Entry>

  predicate DistinctKeys(d: Entries) {
    forall i, j :: 0 <= i < j < |d| ==> d[i].upstream != d[j].upstream
  }

  predicate Injective(d: Entries) {
    forall i, j :: 0 <= i < j < |d| ==> d[i].pootle != d[j].pootle
  }

  predicate HasKey(d: Entries, k: Code) {
    exists i :: 0 <= i < |d| && d[i].upstream == k
  }

  predicate HasValue(d: Entries, v: Code) {
    exists i :: 0 <= i < |d| && d[i].pootle == v
  }

  // d[k] = v: a new key goes to the end, a known one keeps its place
  function Put(d: Entries, e: Entry): Entries {
    if d == [] then [e]
    else if d[0].upstream == e.upstream then [e] + d[1..]
    else [d[0]] + Put(d[1..], e)
  }

  lemma {:induction false} PutNew(d: Entries, e: Entry)
    requires !HasKey(d, e.upstream)
    ensures Put(d, e) == d + [e]
  {
    if d != [] {
      assert d[0].upstream != e.upstream;
      assert forall i :: 0 <= i < |d[1..]| ==> d[1..][i] == d[i + 1];
      PutNew(d[1..], e);
    }
  }

  lemma {:induction false} PutAt(d: Entries, e: Entry, i: nat)
    requires DistinctKeys(d) && i < |d| && d[i].upstream == e.upstream
    ensures Put(d, e) == d[i := e]
  {
    if i > 0 {
      PutAt(d[1..], e, i - 1);
      assert [d[0]] + d[1..][i - 1 := e] == d[i := e];
    }
  }

  // ---- Merging presets and project entries ----

  // d.update(more)
  function Merge(d: Entries, more: Entries): Entries
    decreases |more|
  {
    if more == [] then d else Put(Merge(d, more[..|more| - 1]), more[|more| - 1])
  }

  // The keys of a list of assignments in order of first use
  function FirstUses(log: Entries): seq<Code> {
    if log == [] then []
    else
      var ks := FirstUses(log[..|log| - 1]);
      if log[|log| - 1].upstream in ks then ks else ks + [log[|log| - 1].upstream]
  }

  // The value last assigned to a key
  function Latest(log: Entries, k: Code): Code
    requires k in FirstUses(log)
  {
    if log[|log| - 1].upstream == k then log[|log| - 1].pootle else Latest(log[..|log| - 1], k)
  }

  // Merging assignments into an empty dictionary orders keys by first use and
  // gives each its latest value.
  lemma {:induction false} MergeOrder(log: Entries)
    ensures var d, ks := Merge([], log), FirstUses(log);
      && |d| == |ks|
      && forall i :: 0 <= i < |d| ==> ks[i] in ks && d[i] == Entry(ks[i], Latest(log, ks[i]))
    ensures DistinctKeys(Merge([], log))
  {
    if log != [] {
      var init, e := log[..|log| - 1], log[|log| - 1];
      MergeOrder(init);
      var d, ks := Merge([], init), FirstUses(init);
      assert forall i :: 0 <= i < |d| ==> d[i].upstream == ks[i];
      if e.upstream in ks {
        var i :| 0 <= i < |ks| && ks[i] == e.upstream;
        PutAt(d, e, i);
      } else {
        assert forall i :: 0 <= i < |d| ==> d[i].upstream in ks;
        PutNew(d, e);
      }
    }
  }

  lemma {:induction false} MergeSum(d: Entries, a: Entries, b: Entries)
    ensures Merge(Merge(d, a), b) == Merge(d, a + b)
  {
    if b == [] {
      assert a + b == a;
    } else {
      MergeSum(d, a, b[..|b| - 1]);
      assert (a + b)[..|a + b| - 1] == a + b[..|b| - 1];
    }
  }

  // ---- Eviction ----

  // The entries whose Pootle code is not used again later
  function Survivors(d: Entries): Entries {
    if d == [] then []
    else if HasValue(d[1..], d[0].pootle) then Survivors(d[1..])
    else [d[0]] + Survivors(d[1..])
  }

  function Without(d: Entries, v: Code): Entries {
    if d == [] then []
    else if d[0].pootle == v then d[1..]
    else [d[0]] + Without(d[1..], v)
  }

  predicate NotAfter(d: Entries, i: nat, p: Code) {
    forall j :: i < j < |d| ==> d[j].pootle != p
  }

  lemma {:induction false} SurvivorsAre(d: Entries, u: Code, p: Code)
    ensures Entry(u, p) in Survivors(d) <==>
      exists i :: 0 <= i < |d| && d[i] == Entry(u, p) && NotAfter(d, i, p)
  {
    if d != [] {
      var rest := d[1..];
      SurvivorsAre(rest, u, p);
      if i :| 0 <= i < |d| && d[i] == Entry(u, p) && NotAfter(d, i, p) {
        if i > 0 {
          assert rest[i - 1] == Entry(u, p) && NotAfter(rest, i - 1, p);
        }
      }
      if i :| 0 <= i < |rest| && rest[i] == Entry(u, p) && NotAfter(rest, i, p) {
        forall j | i + 1 < j < |d| ensures d[j].pootle != p {
          assert rest[j - 1] == d[j];
        }
        assert d[i + 1] == Entry(u, p) && NotAfter(d, i + 1, p);
      }
      if d[0] == Entry(u, p) && !HasValue(rest, p) {
        forall j | 0 < j < |d| ensures d[j].pootle != p {
          assert rest[j - 1] == d[j];
        }
        assert NotAfter(d, 0, p);
      }
    }
  }

  // What survives is one to one, with the keys it had.
  lemma {:induction false} SurvivorsOneToOne(d: Entries)
    requires DistinctKeys(d)
    ensures Injective(Survivors(d)) && DistinctKeys(Survivors(d))
    ensures forall e :: e in Survivors(d) ==> e in d
    ensures forall v :: HasValue(Survivors(d), v) <==> HasValue(d, v)
  {
    if d != [] {
      var rest := d[1..];
      SurvivorsOneToOne(rest);
      forall v ensures HasValue(d, v) <==> d[0].pootle == v || HasValue(rest, v) {
        if i :| 0 <= i < |rest| && rest[i].pootle == v {
          assert d[i + 1].pootle == v;
        }
        if i :| 0 <= i < |d| && d[i].pootle == v {
          assert i > 0 ==> rest[i - 1].pootle == v;
        }
      }
      var s, t := Survivors(rest), [d[0]] + Survivors(rest);
      forall v ensures HasValue(t, v) <==> d[0].pootle == v || HasValue(s, v) {
        if i :| 0 <= i < |s| && s[i].pootle == v {
          assert t[i + 1].pootle == v;
        }
        assert t[0].pootle == d[0].pootle;
      }
      forall i | 0 <= i < |s| ensures s[i].upstream != d[0].upstream {
        assert s[i] in rest;
      }
    }
  }

  // Adding one entry evicts the one with its value and goes to the end.
  lemma {:induction false} SurvivorsMore(d: Entries, e: Entry)
    requires DistinctKeys(d)
    ensures Survivors(d + [e]) == Without(Survivors(d), e.pootle) + [e]
  {
    if d == [] {
      assert d + [e] == [e];
    } else {
      var rest := d[1..];
      SurvivorsMore(rest, e);
      assert (d + [e])[1..] == rest + [e];
      forall v ensures HasValue(rest + [e], v) <==> HasValue(rest, v) || v == e.pootle {
        assert (rest + [e])[|rest|] == e;
        if i :| 0 <= i < |rest| && rest[i].pootle == v {
          assert (rest + [e])[i].pootle == v;
        }
      }
      SurvivorsOneToOne(rest);
      if d[0].pootle == e.pootle && !HasValue(rest, e.pootle) {
        WithoutNone(Survivors(rest), e.pootle);
      }
    }
  }

  lemma {:induction false} WithoutNone(d: Entries, v: Code)
    requires !HasValue(d, v)
    ensures Without(d, v) == d
  {
    if d != [] {
      assert d[0].pootle != v;
      assert forall i :: 0 <= i < |d[1..]| ==> d[1..][i] == d[i + 1];
      WithoutNone(d[1..], v);
    }
  }

  lemma {:induction false} WithoutFirst(d: Entries, v: Code, i: nat)
    requires i < |d| && d[i].pootle == v && forall j :: 0 <= j < i ==> d[j].pootle != v
    ensures Without(d, v) == d[..i] + d[i + 1..]
  {
    if i > 0 {
      WithoutFirst(d[1..], v, i - 1);
    }
  }

  // ---- What the configuration assigns ----

  // The n-th source is a preset that the project names, if it is known, and the
  // last one the project's own entries.
  predicate Uses(presets: map<string, Entries>, names: seq<string>, own: Entries, n: nat, i: nat, e: Entry) {
    if n < |names| then names[n] in presets && i < |presets[names[n]]| && presets[names[n]][i] == e
    else n == |names| && i < |own| && own[i] == e
  }

  predicate Later(n: nat, i: nat, m: nat, j: nat) {
    n < m || (n == m && i < j)
  }

  // The last use of u gives it p.
  ghost predicate Assigns(presets: map<string, Entries>, names: seq<string>, own: Entries, u: Code, p: Code) {
    exists n, i :: Uses(presets, names, own, n, i, Entry(u, p))
      && forall m, j, q :: Uses(presets, names, own, m, j, Entry(u, q)) ==> !Later(n, i, m, j)
  }

  // v is used before u is for the first time.
  ghost predicate UsedFirst(presets: map<string, Entries>, names: seq<string>, own: Entries, v: Code, u: Code) {
    exists n, i, p :: Uses(presets, names, own, n, i, Entry(v, p))
      && forall m, j, q :: Uses(presets, names, own, m, j, Entry(u, q)) ==> Later(n, i, m, j)
  }

  // What the last of the project's own entries for a code says goes, whatever
  // the presets say.
  lemma OwnEntryAssigns(presets: map<string, Entries>, names: seq<string>, own: Entries, i: nat, p: Code)
    requires i < |own| && forall j :: i < j < |own| ==> own[j].upstream != own[i].upstream
    ensures Assigns(presets, names, own, own[i].upstream, p) <==> p == own[i].pootle
  {
    OnlyLastAssigns(presets, names, own, |names|, i, own[i], p);
  }

  // For any other code it is the last known preset that lists it.
  lemma LastPresetAssigns(presets: map<string, Entries>, names: seq<string>, own: Entries, n: nat, i: nat, p: Code)
    requires n < |names| && names[n] in presets && i < |presets[names[n]]|
    requires var e := presets[names[n]][i];
             && (forall j :: i < j < |presets[names[n]]| ==> presets[names[n]][j].upstream != e.upstream)
             && (forall m :: n < m < |names| && names[m] in presets ==> !HasKey(presets[names[m]], e.upstream))
             && !HasKey(own, e.upstream)
    ensures Assigns(presets, names, own, presets[names[n]][i].upstream, p) <==> p == presets[names[n]][i].pootle
  {
    OnlyLastAssigns(presets, names, own, n, i, presets[names[n]][i], p);
  }

  lemma OnlyLastAssigns(presets: map<string, Entries>, names: seq<string>, own: Entries, n: nat, i: nat, e: Entry, p: Code)
    requires Uses(presets, names, own, n, i, e)
    requires forall m, j, q :: Uses(presets, names, own, m, j, Entry(e.upstream, q)) ==> !Later(n, i, m, j)
    ensures Assigns(presets, names, own, e.upstream, p) <==> p == e.pootle
  {
    assert Uses(presets, names, own, n, i, Entry(e.upstream, e.pootle));
    if Assigns(presets, names, own, e.upstream, p) {
      var m, j :| Uses(presets, names, own, m, j, Entry(e.upstream, p))
                  && forall o, k, q :: Uses(presets, names, own, o, k, Entry(e.upstream, q)) ==> !Later(m, j, o, k);
      assert !Later(m, j, n, i) && !Later(n, i, m, j);
    }
  }

  // ---- The same in one list ----

  // Every assignment in order; unknown presets are passed over.
  function PresetLog(presets: map<string, Entries>, names: seq<string>, n: nat): Entries
    requires n <= |names|
  {
    if n == 0 then []
    else PresetLog(presets, names, n - 1) + (if names[n - 1] in presets then presets[names[n - 1]] else [])
  }

  function Log(presets: map<string, Entries>, names: seq<string>, own: Entries): Entries {
    PresetLog(presets, names, |names|) + own
  }

  // Where the n-th source starts in the list
  function Start(presets: map<string, Entries>, names: seq<string>, n: nat): nat
    requires n <= |names|
  {
    |PresetLog(presets, names, n)|
  }

  lemma {:induction false} PrefixOfLog(presets: map<string, Entries>, names: seq<string>, m: nat, n: nat)
    requires m <= n <= |names|
    ensures PresetLog(presets, names, m) <= PresetLog(presets, names, n)
  {
    if m < n {
      PrefixOfLog(presets, names, m, n - 1);
    }
  }

  lemma UseIsLogged(presets: map<string, Entries>, names: seq<string>, own: Entries, n: nat, i: nat, e: Entry)
    requires Uses(presets, names, own, n, i, e)
    ensures n <= |names|
    ensures Start(presets, names, n) + i < |Log(presets, names, own)|
    ensures Log(presets, names, own)[Start(presets, names, n) + i] == e
    ensures n < |names| ==> Start(presets, names, n) + i < Start(presets, names, n + 1)
  {
    if n < |names| {
      PrefixOfLog(presets, names, n + 1, |names|);
    }
  }

  lemma {:induction false} SourceOf(presets: map<string, Entries>, names: seq<string>, n: nat, k: nat)
    returns (m: nat, i: nat)
    requires n <= |names| && k < |PresetLog(presets, names, n)|
    ensures m < n && names[m] in presets && i < |presets[names[m]]|
    ensures k == Start(presets, names, m) + i && presets[names[m]][i] == PresetLog(presets, names, n)[k]
  {
    if k < |PresetLog(presets, names, n - 1)| {
      m, i := SourceOf(presets, names, n - 1, k);
    } else {
      m, i := n - 1, k - |PresetLog(presets, names, n - 1)|;
    }
  }

  lemma LoggedIsUse(presets: map<string, Entries>, names: seq<string>, own: Entries, k: nat) returns (n: nat, i: nat)
    requires k < |Log(presets, names, own)|
    ensures Uses(presets, names, own, n, i, Log(presets, names, own)[k])
    ensures n <= |names| && k == Start(presets, names, n) + i
  {
    var l := PresetLog(presets, names, |names|);
    if k < |l| {
      n, i := SourceOf(presets, names, |names|, k);
    } else {
      n, i := |names|, k - |l|;
    }
  }

  lemma LaterInLog(
    presets: map<string, Entries>, names: seq<string>, own: Entries, n: nat, i: nat, e: Entry, m: nat, j: nat, e': Entry)
    requires Uses(presets, names, own, n, i, e) && Uses(presets, names, own, m, j, e')
    ensures n <= |names| && m <= |names|
    ensures Later(n, i, m, j) <==> Start(presets, names, n) + i < Start(presets, names, m) + j
  {
    UseIsLogged(presets, names, own, n, i, e);
    UseIsLogged(presets, names, own, m, j, e');
    if n < m {
      PrefixOfLog(presets, names, n + 1, m);
    } else if m < n {
      PrefixOfLog(presets, names, m + 1, n);
    }
  }

  ghost predicate LastAt(log: Entries, k: nat, u: Code, p: Code) {
    k < |log| && log[k] == Entry(u, p) && forall l :: k < l < |log| ==> log[l].upstream != u
  }

  ghost predicate Ends(log: Entries, u: Code, p: Code) {
    exists k :: LastAt(log, k, u, p)
  }

  predicate BeforeAll(log: Entries, k: nat, v: Code, u: Code) {
    k < |log| && log[k].upstream == v && forall l :: 0 <= l < |log| && log[l].upstream == u ==> k < l
  }

  ghost predicate Precedes(log: Entries, v: Code, u: Code) {
    exists k :: BeforeAll(log, k, v, u)
  }

  lemma {:induction false} LatestIs(log: Entries, u: Code, p: Code)
    ensures u in FirstUses(log) && Latest(log, u) == p <==> Ends(log, u, p)
    ensures u in FirstUses(log) <==> HasKey(log, u)
  {
    if log != [] {
      var init, e := log[..|log| - 1], log[|log| - 1];
      LatestIs(init, u, p);
      assert log == init + [e];
      if e.upstream == u {
        assert e.pootle == p ==> LastAt(log, |init|, u, p);
      } else {
        if k :| LastAt(init, k, u, p) {
          assert LastAt(log, k, u, p);
        }
        if k :| LastAt(log, k, u, p) {
          assert LastAt(init, k, u, p);
        }
        assert HasKey(init, u) <==> HasKey(log, u);
      }
    }
  }

  lemma {:induction false} FirstUsesOrder(log: Entries, i: nat, j: nat)
    requires i < j < |FirstUses(log)|
    ensures FirstUses(log)[i] != FirstUses(log)[j]
    ensures Precedes(log, FirstUses(log)[i], FirstUses(log)[j])
  {
    var init, e := log[..|log| - 1], log[|log| - 1];
    var ks := FirstUses(init);
    assert log == init + [e];
    if j < |ks| {
      FirstUsesOrder(init, i, j);
      var k :| BeforeAll(init, k, ks[i], ks[j]);
      assert BeforeAll(log, k, ks[i], ks[j]);
    } else {
      LatestIs(init, ks[i], "");
      LatestIs(init, e.upstream, "");
      var k :| 0 <= k < |init| && init[k].upstream == ks[i];
      assert BeforeAll(log, k, ks[i], e.upstream);
    }
  }

  lemma EntryInLog(log: Entries, u: Code, p: Code)
    ensures Entry(u, p) in Survivors(Merge([], log)) <==>
      Ends(log, u, p) && forall v :: v != u && Ends(log, v, p) ==> Precedes(log, v, u)
  {
    hide *;
    var ks := FirstUses(log);
    SurvivingEntry(log, u, p);
    LatestIs(log, u, p);
    if Ends(log, u, p) {
      var i :| 0 <= i < |ks| && ks[i] == u;
      forall j | 0 <= j < |ks| ensures j == i <==> ks[j] == u {
        if j != i {
          FirstUsesOrder(log, if i < j then i else j, if i < j then j else i);
        }
      }
      forall j | 0 <= j < |ks| && j != i ensures Precedes(log, ks[j], u) <==> j < i {
        if j < i {
          FirstUsesOrder(log, j, i);
        } else {
          FirstUsesOrder(log, i, j);
          NotBoth(log, u, ks[j]);
        }
      }
      forall v ensures Ends(log, v, p) <==> exists j :: 0 <= j < |ks| && ks[j] == v && Latest(log, v) == p {
        LatestIs(log, v, p);
      }
    }
  }

  lemma NotBoth(log: Entries, u: Code, v: Code)
    requires Precedes(log, u, v)
    ensures !Precedes(log, v, u)
  {
    var k: nat :| BeforeAll(log, k, u, v);
    forall l: nat ensures !BeforeAll(log, l, v, u) {
      if l < |log| && log[l].upstream == v {
        assert k < l;
      }
    }
  }

  // The one list says the same as the configuration.
  lemma AssignsInLog(presets: map<string, Entries>, names: seq<string>, own: Entries, u: Code, p: Code)
    ensures Assigns(presets, names, own, u, p) <==> Ends(Log(presets, names, own), u, p)
  {
    hide Log, Start;
    var log := Log(presets, names, own);
    if n, i :| Uses(presets, names, own, n, i, Entry(u, p))
               && forall m, j, q :: Uses(presets, names, own, m, j, Entry(u, q)) ==> !Later(n, i, m, j) {
      UseIsLogged(presets, names, own, n, i, Entry(u, p));
      var k := Start(presets, names, n) + i;
      forall l | k < l < |log| ensures log[l].upstream != u {
        var m, j := LoggedIsUse(presets, names, own, l);
        LaterInLog(presets, names, own, n, i, Entry(u, p), m, j, log[l]);
        var q := log[l].pootle;
        assert Uses(presets, names, own, m, j, Entry(log[l].upstream, q));
      }
      assert LastAt(log, k, u, p);
    }
    if Ends(log, u, p) {
      var k: nat :| LastAt(log, k, u, p);
      var n, i := LoggedIsUse(presets, names, own, k);
      forall m, j, q | Uses(presets, names, own, m, j, Entry(u, q)) ensures !Later(n, i, m, j) {
        UseIsLogged(presets, names, own, m, j, Entry(u, q));
        LaterInLog(presets, names, own, n, i, Entry(u, p), m, j, Entry(u, q));
      }
      assert Uses(presets, names, own, n, i, Entry(u, p));
    }
  }

  lemma UsedFirstInLog(presets: map<string, Entries>, names: seq<string>, own: Entries, v: Code, u: Code)
    ensures UsedFirst(presets, names, own, v, u) <==> Precedes(Log(presets, names, own), v, u)
  {
    hide Log, Start;
    var log := Log(presets, names, own);
    if n, i, p :| Uses(presets, names, own, n, i, Entry(v, p))
                  && forall m, j, q :: Uses(presets, names, own, m, j, Entry(u, q)) ==> Later(n, i, m, j) {
      UseIsLogged(presets, names, own, n, i, Entry(v, p));
      var k := Start(presets, names, n) + i;
      forall l | 0 <= l < |log| && log[l].upstream == u ensures k < l {
        var m, j := LoggedIsUse(presets, names, own, l);
        assert Uses(presets, names, own, m, j, Entry(u, log[l].pootle));
        LaterInLog(presets, names, own, n, i, Entry(v, p), m, j, log[l]);
      }
      assert BeforeAll(log, k, v, u);
    }
    if Precedes(log, v, u) {
      var k: nat :| BeforeAll(log, k, v, u);
      var n, i := LoggedIsUse(presets, names, own, k);
      forall m, j, q | Uses(presets, names, own, m, j, Entry(u, q)) ensures Later(n, i, m, j) {
        UseIsLogged(presets, names, own, m, j, Entry(u, q));
        LaterInLog(presets, names, own, n, i, log[k], m, j, Entry(u, q));
      }
      assert Uses(presets, names, own, n, i, Entry(v, log[k].pootle));
    }
  }

  // What the configuration maps u to: the last value assigned to it, unless a
  // code that is used first only later is assigned the same one.
  ghost predicate Configured(presets: map<string, Entries>, names: seq<string>, own: Entries, u: Code, p: Code) {
    && Assigns(presets, names, own, u, p)
    && forall v :: v != u && Assigns(presets, names, own, v, p) ==> UsedFirst(presets, names, own, v, u)
  }

  lemma EntryIsConfigured(presets: map<string, Entries>, names: seq<string>, own: Entries, u: Code, p: Code)
    ensures Entry(u, p) in Survivors(Merge([], Log(presets, names, own))) <==> Configured(presets, names, own, u, p)
  {
    hide Survivors, Merge, Log, Assigns, UsedFirst, Ends, Precedes;
    EntryInLog(Log(presets, names, own), u, p);
    forall v ensures Assigns(presets, names, own, v, p) <==> Ends(Log(presets, names, own), v, p) {
      AssignsInLog(presets, names, own, v, p);
    }
    forall v ensures UsedFirst(presets, names, own, v, u) <==> Precedes(Log(presets, names, own), v, u) {
      UsedFirstInLog(presets, names, own, v, u);
    }
  }

  class ProjectLanguageMapper {
    const sitePresets: map<string, Entries>
    const projectPresets: seq<string>
    const projectMappings: Entries
    var mapping: Entries

    constructor (sitePresets: map<string, Entries>, projectPresets: seq<string>, projectMappings: Entries)
      ensures this.sitePresets == sitePresets && this.projectPresets == projectPresets
      ensures this.projectMappings == projectMappings
    {
      this.sitePresets, this.projectPresets := sitePresets, projectPresets;
      this.projectMappings, mapping := projectMappings, [];
    }

    method MappingsFromPresets() returns (d: Entries)
      ensures d == Merge([], PresetLog(sitePresets, projectPresets, |projectPresets|))
    {
      d := [];
      for i := 0 to |projectPresets|
        invariant d == Merge([], PresetLog(sitePresets, projectPresets, i))
      {
        var name := projectPresets[i];
        if name in sitePresets {
          MergeSum([], PresetLog(sitePresets, projectPresets, i), sitePresets[name]);
          d := Merge(d, sitePresets[name]);
        } else {
          assert PresetLog(sitePresets, projectPresets, i) + [] == PresetLog(sitePresets, projectPresets, i);
        }
      }
    }

    // As it is a one-to-one mapping, an earlier entry with the same value goes.
    method AddLangToMapping(upstream: Code, pootle: Code)
      modifies this`mapping
      ensures mapping == Put(Without(old(mapping), pootle), Entry(upstream, pootle))
    {
      var i := 0;
      while i < |mapping| && mapping[i].pootle != pootle
        invariant i <= |mapping|
        invariant forall j :: 0 <= j < i ==> mapping[j].pootle != pootle
      {
        i := i + 1;
      }
      if i < |mapping| {
        WithoutFirst(mapping, pootle, i);
        mapping := mapping[..i] + mapping[i + 1..];
      } else {
        WithoutNone(mapping, pootle);
      }
      mapping := Put(mapping, Entry(upstream, pootle));
    }

    // At every turn of the loop the mapping is what survives of the entries so
    // far, and one to one. In the end it is as configured.
    method ParseMappings() returns (r: Entries)
      modifies this`mapping
      ensures r == mapping == Survivors(Merge([], Log(sitePresets, projectPresets, projectMappings)))
      ensures Injective(r) && DistinctKeys(r)
      ensures forall u, p :: Entry(u, p) in r <==> Configured(sitePresets, projectPresets, projectMappings, u, p)
    {
      mapping := [];
      var mappings := MappingsFromPresets();
      MergeSum([], PresetLog(sitePresets, projectPresets, |projectPresets|), projectMappings);
      mappings := Merge(mappings, projectMappings);
      MergeOrder(Log(sitePresets, projectPresets, projectMappings));
      hide *;
      NoSurvivors();
      assert mappings[..0] == [];
      for i := 0 to |mappings|
        invariant mapping == Survivors(mappings[..i])
        invariant Injective(mapping) && DistinctKeys(mapping)
      {
        AddLangToMapping(mappings[i].upstream, mappings[i].pootle);
        OneMoreMapping(mappings, i);
      }
      assert mappings[..|mappings|] == mappings;
      forall u, p ensures Entry(u, p) in mapping <==> Configured(sitePresets, projectPresets, projectMappings, u, p) {
        EntryIsConfigured(sitePresets, projectPresets, projectMappings, u, p);
      }
      return mapping;
    }
  }

  lemma NoSurvivors()
    ensures Survivors([]) == [] && Injective([]) && DistinctKeys([])
  {}

  lemma OneMoreMapping(d: Entries, i: nat)
    requires DistinctKeys(d) && i < |d|
    ensures Put(Without(Survivors(d[..i]), d[i].pootle), d[i]) == Survivors(d[..i + 1])
    ensures Injective(Survivors(d[..i + 1])) && DistinctKeys(Survivors(d[..i + 1]))
  {
    FirstKeys(d, i);
    FirstKeys(d, i + 1);
    hide *;
    assert d[..i + 1] == d[..i] + [d[i]];
    SurvivorsOneToOne(d[..i + 1]);
    SurvivorsMore(d[..i], d[i]);
    NewKey(d[..i], d[i]);
  }

  lemma FirstKeys(d: Entries, n: nat)
    requires DistinctKeys(d) && n <= |d|
    ensures DistinctKeys(d[..n])
  {}

  lemma NewKey(d: Entries, e: Entry)
    requires DistinctKeys(d + [e])
    ensures Put(Without(Survivors(d), e.pootle), e) == Without(Survivors(d), e.pootle) + [e]
  {
    forall i | 0 <= i < |d| ensures d[i].upstream != e.upstream {
      assert (d + [e])[i] == d[i] && (d + [e])[|d|] == e;
    }
    assert DistinctKeys(d) by {
      forall i, j | 0 <= i < j < |d| ensures d[i].upstream != d[j].upstream {
        assert (d + [e])[i] == d[i] && (d + [e])[j] == d[j];
      }
    }
    SurvivorsOneToOne(d);
    WithoutSubset(Survivors(d), e.pootle);
    var s := Without(Survivors(d), e.pootle);
    forall i | 0 <= i < |s| ensures s[i].upstream != e.upstream {
      assert s[i] in d;
    }
    PutNew(s, e);
  }

  lemma {:induction false} WithoutSubset(d: Entries, v: Code)
    ensures forall e :: e in Without(d, v) ==> e in d
  {
    if d != [] && d[0].pootle != v {
      WithoutSubset(d[1..], v);
    }
  }

  // Which project entry u -> p ends up in the mapping: the one whose code p no
  // key first used after u has as its latest value. An entry of the project can
  // so lose to a preset it does not mention, although presets are meant to be
  // overridden.
  lemma SurvivingEntry(log: Entries, u: Code, p: Code)
    ensures Entry(u, p) in Survivors(Merge([], log)) <==>
      exists i :: 0 <= i < |FirstUses(log)| && FirstUses(log)[i] == u && Latest(log, u) == p
        && forall j :: i < j < |FirstUses(log)| ==> Latest(log, FirstUses(log)[j]) != p
  {
    var d, ks := Merge([], log), FirstUses(log);
    MergeOrder(log);
    SurvivorsAre(d, u, p);
    if i :| 0 <= i < |d| && d[i] == Entry(u, p) && NotAfter(d, i, p) {
      assert ks[i] == u && forall j :: i < j < |ks| ==> d[j].pootle == Latest(log, ks[j]);
    }
    if i :| 0 <= i < |ks| && ks[i] == u && Latest(log, u) == p
            && forall j :: i < j < |ks| ==> Latest(log, ks[j]) != p {
      assert d[i] == Entry(u, p) && NotAfter(d, i, p);
    }
  }

  // A project maps no to the code that a later preset entry has, and loses it.
  method ProjectEntryCanLose() returns (r: Entries)
    ensures r == [Entry("nb_NO", "nb_no")]
  {
    var preset := [Entry("no", "nb"), Entry("nb_NO", "nb_no")];
    var own := [Entry("no", "nb_no")];
    var mapper := new ProjectLanguageMapper(map["norwegian" := preset], ["norwegian"], own);
    r := mapper.ParseMappings();
    assert mapper.sitePresets["norwegian"] == preset;
    LosingLog(mapper.sitePresets, preset, own);
  }

  lemma LosingLog(presets: map<string, Entries>, preset: Entries, own: Entries)
    requires preset == [Entry("no", "nb"), Entry("nb_NO", "nb_no")] && own == [Entry("no", "nb_no")]
    requires presets == map["norwegian" := preset]
    ensures Survivors(Merge([], Log(presets, ["norwegian"], own))) == [Entry("nb_NO", "nb_no")]
  {
    assert PresetLog(presets, ["norwegian"], 0) == [] && [] + preset == preset;
    assert PresetLog(presets, ["norwegian"], 1) == preset && Log(presets, ["norwegian"], own) == preset + own;
    MergeSum([], preset, own);
    assert preset[..1] == [Entry("no", "nb")] && preset[..1][..0] == [] && own[..0] == [];
    assert Merge([], preset[..1]) == [Entry("no", "nb")];
    assert Merge([], preset) == Put(Merge([], preset[..1]), preset[1]) == preset;
    var d := [Entry("no", "nb_no"), Entry("nb_NO", "nb_no")];
    assert Merge(preset, own) == Put(Merge(preset, []), Entry("no", "nb_no")) == d;
    assert d[1..] == [Entry("nb_NO", "nb_no")] && d[1..][0].pootle == "nb_no";
    assert HasValue(d[1..], "nb_no");
  }

  // Without presets a project's entry is the mapping.
  method ProjectEntryIsUsed(u: Code, p: Code) returns (r: Entries)
    ensures r == [Entry(u, p)]
  {
    var mapper := new ProjectLanguageMapper(map[], [], [Entry(u, p)]);
    r := mapper.ParseMappings();
    OneEntryLog(u, p);
  }

  lemma OneEntryLog(u: Code, p: Code)
    ensures Survivors(Merge([], Log(map[], [], [Entry(u, p)]))) == [Entry(u, p)]
  {
    var own := [Entry(u, p)];
    assert own[..0] == [] && own[1..] == [] && Log(map[], [], own) == own;
    assert Merge([], own) == Put(Merge([], own[..0]), own[0]) == own;
  }

  // ---- Lookup in both directions ----

  function Value(d: Entries, k: Code): Option<Code> {
    if d == [] then None else if d[0].upstream == k then Some(d[0].pootle) else Value(d[1..], k)
  }

  function GetPootleCode(d: Entries, upstream: Code): Option<Code> {
    if Value(d, upstream).Some? then Value(d, upstream)
    else if !HasValue(d, upstream) then Some(upstream)
    else None
  }

  function FirstWith(d: Entries, v: Code): Option<Code> {
    if d == [] then None else if d[0].pootle == v then Some(d[0].upstream) else FirstWith(d[1..], v)
  }

  function GetUpstreamCode(d: Entries, pootle: Code): Option<Code> {
    if FirstWith(d, pootle).Some? then FirstWith(d, pootle)
    else if !HasKey(d, pootle) then Some(pootle)
    else None
  }

  lemma {:induction false} ValueIs(d: Entries, k: Code)
    requires DistinctKeys(d)
    ensures Value(d, k).Some? <==> HasKey(d, k)
    ensures forall v :: Value(d, k) == Some(v) <==> Entry(k, v) in d
  {
    if d != [] {
      ValueIs(d[1..], k);
      assert d == [d[0]] + d[1..];
      if i :| 0 <= i < |d[1..]| && d[1..][i].upstream == k {
        assert d[i + 1].upstream == k;
      }
      if i :| 0 <= i < |d| && d[i].upstream == k {
        assert i > 0 ==> d[1..][i - 1].upstream == k;
      }
    }
  }

  lemma {:induction false} FirstWithIs(d: Entries, v: Code)
    requires Injective(d)
    ensures FirstWith(d, v).Some? <==> HasValue(d, v)
    ensures forall k :: FirstWith(d, v) == Some(k) <==> Entry(k, v) in d
  {
    if d != [] {
      FirstWithIs(d[1..], v);
      assert d == [d[0]] + d[1..];
      if i :| 0 <= i < |d[1..]| && d[1..][i].pootle == v {
        assert d[i + 1].pootle == v;
      }
      if i :| 0 <= i < |d| && d[i].pootle == v {
        assert i > 0 ==> d[1..][i - 1].pootle == v;
      }
    }
  }

  // The two lookups are inverse to each other wherever they are defined, and
  // undefined exactly where a code is taken on one side only.
  lemma CodesAreABijection(d: Entries, u: Code, p: Code)
    requires DistinctKeys(d) && Injective(d)
    ensures GetPootleCode(d, u) == Some(p) <==> GetUpstreamCode(d, p) == Some(u)
    ensures GetPootleCode(d, u).None? <==> HasValue(d, u) && !HasKey(d, u)
    ensures GetUpstreamCode(d, p).None? <==> HasKey(d, p) && !HasValue(d, p)
    ensures Entry(u, p) in d ==> GetPootleCode(d, u) == Some(p)
    ensures !HasKey(d, u) && !HasValue(d, u) ==> GetPootleCode(d, u) == Some(u)
  {
    ValueIs(d, u);
    FirstWithIs(d, p);
    if Value(d, u) == Some(p) {
      var i :| 0 <= i < |d| && d[i] == Entry(u, p);
      assert HasValue(d, p);
    }
    if FirstWith(d, p) == Some(u) {
      var i :| 0 <= i < |d| && d[i] == Entry(u, p);
      assert HasKey(d, u);
    }
  }
}
