/**
 * The dataset provider used by one thread: what it answers, call by call.
 *
 * A call's answers from outside (clock, listing, branch lookup, load) are its parameters, so a run is a
 * sequence of calls.  The class follows the source's methods and fields; `Refresh` and `Get` say what a call does.
 */
module Provider {
  import opened Common
  import opened DatasetIds

  datatype CacheEntry = CacheEntry(tree: Tree, snapshot: string, checkedAt: real)

  /**
   * What the outside answers during one call: when it was made and when refreshing, resolving the id, the lookup and
   * the load were over, the listing (or a failure), whether the callback returns, whether an open succeeds, the branch
   * tip (or a failure), whether a load succeeds.
   */
  datatype Answers = Answers(asked: real, refreshed: real, resolved: real, lookedUp: real, loaded: real,
                             listing: Option<seq<string>>, notifies: bool, opens: bool, tip: Option<string>, loads: bool)

  datatype Ttls = Ttls(cache: real, discovery: real)

  /** The provider's fields; `callbacks` are the name sets passed to `on_repos_changed`. */
  datatype View = View(names: seq<string>, discoveredAt: Option<real>, repos: set<string>,
                       cache: map<string, CacheEntry>, locks: set<string>, callbacks: seq<set<string>>)

  /** What stops a refresh: the callback's exception passes through. */
  datatype RefreshError = CallbackFailed

  const INITIAL := View([], None, {}, map[], {}, [])

  predicate InOrder(a: Answers) {
    a.asked <= a.refreshed <= a.resolved <= a.lookedUp <= a.loaded
  }

  function NameSet(names: seq<string>): set<string> {
    set n | n in names
  }

  predicate ConfigsFresh(v: View, t: Ttls, now: real) {
    v.discoveredAt.Some? && now - v.discoveredAt.value < t.discovery
  }

  predicate Checked(v: View, t: Ttls, id: string, now: real) {
    id in v.cache && now - v.cache[id].checkedAt < t.cache
  }

  function Evicted(v: View, removed: set<string>): View {
    v.(repos := v.repos - removed, cache := v.cache - IdsOf(removed), locks := v.locks - IdsOf(removed))
  }

  function Refresh(v: View, t: Ttls, a: Answers): View {
    if ConfigsFresh(v, t, a.asked) then v
    else if a.listing.None? then v.(discoveredAt := Some(a.refreshed))
    else
      var previous, current := NameSet(v.names), NameSet(a.listing.value);
      Evicted(v, previous - current).(
        names := a.listing.value, discoveredAt := Some(a.refreshed),
        callbacks := if CallbackDue(v, t, a) then v.callbacks + [current] else v.callbacks)
  }

  /** The set of repos has changed, or is listed for the first time. */
  predicate CallbackDue(v: View, t: Ttls, a: Answers) {
    && !ConfigsFresh(v, t, a.asked) && a.listing.Some?
    && (v.discoveredAt.None? || NameSet(v.names) != NameSet(a.listing.value))
  }

  /** The callback is called and raises; the call ends there. */
  predicate CallbackRaises(v: View, t: Ttls, a: Answers) {
    CallbackDue(v, t, a) && !a.notifies
  }

  /** A call reaches the branch lookup: no callback raises, the id resolves, its entry is stale, its repo is or gets opened. */
  predicate LooksUp(v: View, t: Ttls, id: string, a: Answers) {
    var r := Refresh(v, t, a);
    && !CallbackRaises(v, t, a) && Resolve(r.names, id).Some? && !Checked(r, t, id, a.resolved)
    && (Resolve(r.names, id).value.0 in r.repos || a.opens)
  }

  function Get(v: View, t: Ttls, id: string, a: Answers): (View, Outcome) {
    var r := Refresh(v, t, a);
    if CallbackRaises(v, t, a) then (r, Raised)
    else if Resolve(r.names, id).None? then (r, Unknown)
    else if Checked(r, t, id, a.resolved) then (r, Served(r.cache[id].tree))
    else
      var (repo, kind) := Resolve(r.names, id).value;
      var l := r.(locks := r.locks + {id});
      if !LooksUp(v, t, id, a) then (l, Raised)
      else
        var o := l.(repos := l.repos + {repo});
        if id in o.cache && (a.tip.None? || a.tip.value == o.cache[id].snapshot) then
          (o.(cache := o.cache[id := o.cache[id].(checkedAt := a.lookedUp)]), Served(o.cache[id].tree))
        else if a.tip.None? || !a.loads then (o, Raised)
        else
          var tree := Tree(id, repo, kind, a.tip.value);
          (o.(cache := o.cache[id := CacheEntry(tree, a.tip.value, a.loaded)]), Served(tree))
  }

  // ----- The provider as the source writes it -----

  class IcechunkDatasetProvider {
    const ttls: Ttls
    var repoConfigs: seq<string>
    var discoveredAt: Option<real>
    var repos: set<string>
    var cache: map<string, CacheEntry>
    var datasetLocks: set<string>
    var callbacks: seq<set<string>>

    ghost function Fields(): View
      reads this
    {
      View(repoConfigs, discoveredAt, repos, cache, datasetLocks, callbacks)
    }

    constructor (cacheTtlSeconds: real, discoveryTtlSeconds: real)
      ensures Fields() == INITIAL && ttls == Ttls(cacheTtlSeconds, discoveryTtlSeconds)
    {
      ttls := Ttls(cacheTtlSeconds, discoveryTtlSeconds);
      repoConfigs, discoveredAt, repos, cache, datasetLocks, callbacks := [], None, {}, map[], {}, [];
    }

    method Evict(names: set<string>)
      modifies this
      ensures Fields() == Evicted(old(Fields()), names)
    {
      var rest := names;
      while rest != {}
        invariant rest <= names && repos == old(repos) - (names - rest)
        invariant unchanged(`repoConfigs, `discoveredAt, `cache, `datasetLocks, `callbacks)
        decreases rest
      {
        var name :| name in rest;
        repos, rest := repos - {name}, rest - {name};
      }
      rest := names;
      while rest != {}
        invariant rest <= names && repos == old(repos) - names
        invariant cache == old(cache) - IdsOf(names - rest) && datasetLocks == old(datasetLocks) - IdsOf(names - rest)
        invariant unchanged(`repoConfigs, `discoveredAt, `callbacks)
        decreases rest
      {
        var name :| name in rest;
        cache, datasetLocks := cache - {name, DataId(name)}, datasetLocks - {name, DataId(name)};
        assert names - (rest - {name}) == (names - rest) + {name};
        assert IdsOf(names - (rest - {name})) == IdsOf(names - rest) + {name, DataId(name)};
        rest := rest - {name};
      }
      assert names - rest == names;
    }

    method RefreshRepoConfigs(a: Answers) returns (r: Result<seq<string>, RefreshError>)
      modifies this
      ensures Fields() == Refresh(old(Fields()), ttls, a)
      ensures r == if CallbackRaises(old(Fields()), ttls, a) then Err(CallbackFailed) else Ok(repoConfigs)
    {
      if discoveredAt.Some? && a.asked - discoveredAt.value < ttls.discovery {
        return Ok(repoConfigs);
      }
      // The discovery lock is taken here; with one thread the check repeated under it finds the same.
      if a.listing.None? {
        discoveredAt := Some(a.refreshed);
        return Ok(repoConfigs);
      }
      var firstDiscovery := discoveredAt.None?;
      discoveredAt := Some(a.refreshed);
      var previous, current := NameSet(repoConfigs), NameSet(a.listing.value);
      repoConfigs := a.listing.value;
      var added, removed := current - previous, previous - current;
      if removed != {} {
        Evict(removed);
      } else {
        assert IdsOf(removed) == {};
      }
      assert previous != current <==> added != {} || removed != {};
      if firstDiscovery || added != {} || removed != {} {
        callbacks := callbacks + [current];
        if !a.notifies {
          return Err(CallbackFailed);
        }
      }
      return Ok(repoConfigs);
    }

    method CfgForDatasetId(datasetId: string, a: Answers) returns (r: Result<Option<(string, Kind)>, RefreshError>)
      modifies this
      ensures Fields() == Refresh(old(Fields()), ttls, a)
      ensures r == if CallbackRaises(old(Fields()), ttls, a) then Err(CallbackFailed)
                   else Ok(Resolve(repoConfigs, datasetId))
    {
      var refreshed := RefreshRepoConfigs(a);
      if refreshed.Err? {
        return Err(refreshed.error);
      }
      var names := refreshed.value;
      for i := 0 to |names|
        invariant Fields() == Refresh(old(Fields()), ttls, a) && names == repoConfigs
        invariant Resolve(names, datasetId) == Resolve(names[i..], datasetId)
      {
        if datasetId == names[i] {
          return Ok(Some((names[i], Tiles)));
        }
        if datasetId == DataId(names[i]) {
          return Ok(Some((names[i], Data)));
        }
        assert names[i..][1..] == names[i + 1..];
      }
      return Ok(None);
    }

    method GetDatatreeForDataset(datasetId: string, a: Answers) returns (outcome: Outcome)
      modifies this
      ensures (Fields(), outcome) == Get(old(Fields()), ttls, datasetId, a)
    {
      var cfg := CfgForDatasetId(datasetId, a);
      if cfg.Err? {
        return Raised;
      }
      if cfg.value.None? {
        return Unknown;
      }
      var (repo, kind) := cfg.value.value;
      if datasetId in cache && a.resolved - cache[datasetId].checkedAt < ttls.cache {
        return Served(cache[datasetId].tree);
      }
      datasetLocks := datasetLocks + {datasetId};
      var entry := if datasetId in cache then Some(cache[datasetId]) else None;
      // The dataset lock is taken here; with one thread the check repeated under it finds the same.
      if repo !in repos {
        if !a.opens {
          return Raised;
        }
        repos := repos + {repo};
      }
      assert repos + {repo} == repos;
      if a.tip.None? {
        if entry.None? {
          return Raised;
        }
        cache := cache[datasetId := entry.value.(checkedAt := a.lookedUp)];
        return Served(entry.value.tree);
      }
      if entry.Some? && entry.value.snapshot == a.tip.value {
        cache := cache[datasetId := entry.value.(checkedAt := a.lookedUp)];
        return Served(entry.value.tree);
      }
      if !a.loads {
        return Raised;
      }
      entry := Some(CacheEntry(Tree(datasetId, repo, kind, a.tip.value), a.tip.value, a.loaded));
      cache := cache[datasetId := entry.value];
      return Served(entry.value.tree);
    }
  }

  // ----- Runs of calls -----

  /** `repo_names` (no id) or a dataset request. */
  datatype Call = Call(id: Option<string>, answers: Answers)

  function After(v: View, t: Ttls, calls: seq<Call>): View {
    if calls == [] then v else Apply(After(v, t, calls[..|calls| - 1]), t, Last(calls))
  }

  /** What a call gives its caller; a call of `repo_names` gives no tree. */
  function OutcomeOf(v: View, t: Ttls, call: Call): Outcome {
    match call.id
    case None => if CallbackRaises(v, t, call.answers) then Raised else Unknown
    case Some(id) => Get(v, t, id, call.answers).1
  }

  function Apply(v: View, t: Ttls, call: Call): View {
    match call.id
    case None => Refresh(v, t, call.answers)
    case Some(id) => Get(v, t, id, call.answers).0
  }

  // --- What is cached belongs to a configured repo ---

  ghost predicate Belongs(names: seq<string>, id: string) {
    exists n :: n in names && ServedAs(n, id)
  }

  ghost predicate EntryOk(names: seq<string>, id: string, e: CacheEntry) {
    && e.tree == Tree(id, e.tree.repo, if id == e.tree.repo then Tiles else Data, e.snapshot)
    && e.tree.repo in names && ServedAs(e.tree.repo, id)
  }

  ghost predicate Registered(v: View) {
    && v.repos <= NameSet(v.names)
    && (forall id :: id in v.cache ==> EntryOk(v.names, id, v.cache[id]))
    && (forall id :: id in v.locks ==> Belongs(v.names, id))
  }

  lemma RefreshKeepsRegistered(v: View, t: Ttls, a: Answers)
    requires Registered(v)
    ensures Registered(Refresh(v, t, a))
  {
    var r := Refresh(v, t, a);
    forall id | id in r.locks ensures Belongs(r.names, id) {
      assert Belongs(v.names, id);
      var n :| n in v.names && ServedAs(n, id);
      assert n in r.names;
    }
  }

  lemma GetKeepsRegistered(v: View, t: Ttls, id: string, a: Answers)
    requires Registered(v)
    ensures Registered(Get(v, t, id, a).0)
  {
    var r, g := Refresh(v, t, a), Get(v, t, id, a).0;
    RefreshKeepsRegistered(v, t, a);
    ResolveFindsServed(r.names, id);
    assert g.names == r.names && g.locks <= r.locks + {id};
    if g.locks != r.locks {
      assert Belongs(r.names, id);
    }
  }

  /** Every opened repo, cached dataset and dataset lock belongs to a configured repo, after any run. */
  lemma {:induction false} EverythingIsRegistered(t: Ttls, calls: seq<Call>)
    ensures Registered(After(INITIAL, t, calls))
  {
    if calls != [] {
      var v, call := After(INITIAL, t, calls[..|calls| - 1]), Last(calls);
      EverythingIsRegistered(t, calls[..|calls| - 1]);
      match call.id
      case None => RefreshKeepsRegistered(v, t, call.answers);
      case Some(id) => GetKeepsRegistered(v, t, id, call.answers);
    }
  }

  // --- Callbacks ---

  /** The outcomes of the listings a run attempted: the names found, or a failure. */
  function Attempts(v: View, t: Ttls, calls: seq<Call>): seq<Option<set<string>>> {
    if calls == [] then []
    else
      var before, a := After(v, t, calls[..|calls| - 1]), Last(calls).answers;
      Attempts(v, t, calls[..|calls| - 1]) +
      if ConfigsFresh(before, t, a.asked) then []
      else [if a.listing.None? then None else Some(NameSet(a.listing.value))]
  }

  function CurrentNames(attempts: seq<Option<set<string>>>): set<string> {
    if attempts == [] then {}
    else if Last(attempts).Some? then Last(attempts).value
    else CurrentNames(attempts[..|attempts| - 1])
  }

  /** The name sets that differ from the set before them (at first none); the very first listing always reports. */
  function Changes(attempts: seq<Option<set<string>>>): seq<set<string>> {
    if attempts == [] then []
    else
      var before := attempts[..|attempts| - 1];
      if Last(attempts).Some? && (before == [] || Last(attempts).value != CurrentNames(before))
      then Changes(before) + [Last(attempts).value]
      else Changes(before)
  }

  /** The callbacks, the names and the first-discovery flag are what the attempted listings say. */
  ghost predicate Reported(v: View, attempts: seq<Option<set<string>>>) {
    && v.callbacks == Changes(attempts) && NameSet(v.names) == CurrentNames(attempts)
    && (v.discoveredAt.None? <==> attempts == [])
  }

  lemma RefreshReports(v: View, t: Ttls, a: Answers, attempts: seq<Option<set<string>>>)
    requires Reported(v, attempts)
    ensures Reported(Refresh(v, t, a),
                     attempts + if ConfigsFresh(v, t, a.asked) then []
                                else [if a.listing.None? then None else Some(NameSet(a.listing.value))])
  {
    if ConfigsFresh(v, t, a.asked) {
      assert attempts + [] == attempts;
    } else {
      var attempt := if a.listing.None? then None else Some(NameSet(a.listing.value));
      assert (attempts + [attempt])[..|attempts|] == attempts;
    }
  }

  lemma GetReportsAsRefresh(v: View, t: Ttls, id: string, a: Answers)
    ensures var g, r := Get(v, t, id, a).0, Refresh(v, t, a);
            g.callbacks == r.callbacks && g.names == r.names && g.discoveredAt == r.discoveredAt
  {
  }

  /** `on_repos_changed` is called once per change of the repo set, and a failed listing changes nothing. */
  lemma {:induction false} CallbacksAreTheChanges(t: Ttls, calls: seq<Call>)
    ensures Reported(After(INITIAL, t, calls), Attempts(INITIAL, t, calls))
  {
    if calls != [] {
      var before, call := calls[..|calls| - 1], Last(calls);
      var v := After(INITIAL, t, before);
      CallbacksAreTheChanges(t, before);
      RefreshReports(v, t, call.answers, Attempts(INITIAL, t, before));
      if call.id.Some? { GetReportsAsRefresh(v, t, call.id.value, call.answers); }
    }
  }

  /** No callback repeats the one before it, and the last one is the current set. */
  lemma {:induction false} ChangesNeverRepeat(attempts: seq<Option<set<string>>>)
    ensures forall i :: 0 < i < |Changes(attempts)| ==> Changes(attempts)[i - 1] != Changes(attempts)[i]
    ensures if Changes(attempts) == [] then CurrentNames(attempts) == {}
            else Last(Changes(attempts)) == CurrentNames(attempts)
  {
    if attempts != [] {
      ChangesNeverRepeat(attempts[..|attempts| - 1]);
    }
  }

  // --- Freshness ---

  /** Calls follow each other in time, before `now`, and no listing finds a name that ends in `_data`. */
  ghost predicate Orderly(calls: seq<Call>, now: real) {
    && (forall i :: 0 <= i < |calls| ==>
          && InOrder(calls[i].answers) && calls[i].answers.loaded <= now
          && (calls[i].answers.listing.Some? ==> Unambiguous(calls[i].answers.listing.value)))
    && (forall i, j :: 0 <= i < j < |calls| ==> calls[i].answers.loaded <= calls[j].answers.asked)
  }

  /** Nothing is stamped in the future, and only unambiguous names are configured. */
  ghost predicate Settled(v: View, now: real) {
    && (v.discoveredAt.Some? ==> v.discoveredAt.value <= now)
    && (forall id :: id in v.cache ==> v.cache[id].checkedAt <= now)
    && Unambiguous(v.names)
  }

  lemma CallSettles(v: View, t: Ttls, call: Call)
    requires Settled(v, call.answers.asked) && InOrder(call.answers)
    requires call.answers.listing.Some? ==> Unambiguous(call.answers.listing.value)
    ensures Settled(Refresh(v, t, call.answers), call.answers.refreshed)
    ensures Settled(Apply(v, t, call), call.answers.loaded)
  {
  }

  lemma {:induction false} RunsSettle(t: Ttls, calls: seq<Call>, now: real)
    requires Orderly(calls, now)
    ensures Settled(After(INITIAL, t, calls), now)
  {
    if calls != [] {
      RunsSettle(t, calls[..|calls| - 1], Last(calls).answers.asked);
      CallSettles(After(INITIAL, t, calls[..|calls| - 1]), t, Last(calls));
    }
  }

  /** With both TTLs 0, whatever failed before, a call without failures is: list, resolve, look up the tip, load it. */
  lemma ListLookUpLoad(calls: seq<Call>, id: string, a: Answers)
    requires Orderly(calls, a.asked) && InOrder(a)
    requires a.listing.Some? && Unambiguous(a.listing.value) && a.notifies && a.opens && a.tip.Some? && a.loads
    ensures Get(After(INITIAL, Ttls(0.0, 0.0), calls), Ttls(0.0, 0.0), id, a).1 ==
            if Owner(id) in a.listing.value then Served(Tree(id, Owner(id), KindOf(id), a.tip.value)) else Unknown
  {
    var t := Ttls(0.0, 0.0);
    var v := After(INITIAL, t, calls);
    RunsSettle(t, calls, a.asked);
    CallSettles(v, t, Call(None, a));
    EverythingIsRegistered(t, calls);
    RefreshKeepsRegistered(v, t, a);
    ResolveIsOwner(a.listing.value, id);
    var r := Refresh(v, t, a);
    assert r.names == a.listing.value;
    if id in r.cache {
      OwnerOfServed(r.cache[id].tree.repo, id);
    }
  }

  /** The tree a call loads and caches for a dataset, if it does. */
  function LoadedBy(v: View, t: Ttls, call: Call, id: string): Option<Tree> {
    var a, r := call.answers, Refresh(v, t, call.answers);
    if call.id == Some(id) && LooksUp(v, t, id, a) && a.tip.Some? && a.loads &&
       !(id in r.cache && r.cache[id].snapshot == a.tip.value)
    then Some(Tree(id, Resolve(r.names, id).value.0, Resolve(r.names, id).value.1, a.tip.value))
    else None
  }

  /** When a call stamps a dataset checked, if it does: after its load, or right after a lookup that needs none. */
  function CheckedBy(v: View, t: Ttls, call: Call, id: string): Option<real> {
    var a, r := call.answers, Refresh(v, t, call.answers);
    if call.id != Some(id) || !LooksUp(v, t, id, a) then None
    else if id in r.cache && (a.tip.None? || a.tip.value == r.cache[id].snapshot) then Some(a.lookedUp)
    else if a.tip.Some? && a.loads then Some(a.loaded)
    else None
  }

  function LastLoad(v: View, t: Ttls, calls: seq<Call>, id: string): Option<Tree> {
    if calls == [] then None
    else
      var before := calls[..|calls| - 1];
      var loaded := LoadedBy(After(v, t, before), t, Last(calls), id);
      if loaded.Some? then loaded else LastLoad(v, t, before, id)
  }

  function LastCheck(v: View, t: Ttls, calls: seq<Call>, id: string): Option<real> {
    if calls == [] then None
    else
      var before := calls[..|calls| - 1];
      var checked := CheckedBy(After(v, t, before), t, Last(calls), id);
      if checked.Some? then checked else LastCheck(v, t, before, id)
  }

  lemma EntryAfterCall(v: View, t: Ttls, call: Call, id: string)
    requires id in Apply(v, t, call).cache
    ensures var e, loaded, checked := Apply(v, t, call).cache[id], LoadedBy(v, t, call, id), CheckedBy(v, t, call, id);
            && (if loaded.Some? then e.tree == loaded.value else id in v.cache && e.tree == v.cache[id].tree)
            && (if checked.Some? then e.checkedAt == checked.value else id in v.cache && e.checkedAt == v.cache[id].checkedAt)
  {
  }

  /** The cache holds the last tree successfully loaded, stamped by the last lookup; failures change neither. */
  lemma {:induction false} CacheIsLastLoad(t: Ttls, calls: seq<Call>, id: string)
    requires id in After(INITIAL, t, calls).cache
    ensures var e := After(INITIAL, t, calls).cache[id];
            LastLoad(INITIAL, t, calls, id) == Some(e.tree) && LastCheck(INITIAL, t, calls, id) == Some(e.checkedAt)
  {
    if calls != [] {
      var before := calls[..|calls| - 1];
      EntryAfterCall(After(INITIAL, t, before), t, Last(calls), id);
      if id in After(INITIAL, t, before).cache { CacheIsLastLoad(t, before, id); }
    }
  }

  /**
   * Every tree returned is the last one loaded for its id, and the lookup that vouches for it was made by this call
   * or stamped less than the TTL before it, even while lookups fail.
   */
  lemma ServedIsFresh(t: Ttls, calls: seq<Call>, id: string, a: Answers)
    requires Get(After(INITIAL, t, calls), t, id, a).1.Served?
    ensures var v := After(INITIAL, t, calls);
            && LastLoad(INITIAL, t, calls + [Call(Some(id), a)], id) == Some(Get(v, t, id, a).1.tree)
            && (LooksUp(v, t, id, a) ||
                (LastCheck(INITIAL, t, calls, id).Some? && a.resolved - LastCheck(INITIAL, t, calls, id).value < t.cache))
  {
    var run := calls + [Call(Some(id), a)];
    assert run[..|run| - 1] == calls;
    CacheIsLastLoad(t, run, id);
    var v := After(INITIAL, t, calls);
    if !LooksUp(v, t, id, a) {
      CacheIsLastLoad(t, calls, id);
    }
  }
}
