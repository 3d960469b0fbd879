/**
 * The dataset provider as an interleaving machine: any number of threads, each a program counter
 * over atomic steps, share the configs, the opened repos, the cache and four kinds of lock.
 *
 * A step reads or writes one shared field (or takes one lock); steps taken while holding the only
 * lock that guards a field are merged with the release of that lock.  The environment advances the
 * clock, moves branch tips, and decides whether listing, the callback, opening, looking up and loading succeed.
 */
module ProviderThreads {
  import opened Common
  import opened DatasetIds

  type Tid = nat

  /** `_CacheEntry`; `pos` is a history variable: where in the repo's tips the lookup found the snapshot. */
  datatype Entry = Entry(tree: Tree, snapshot: string, checkedAt: real, pos: nat)

  datatype Pc =
    // _refresh_repo_configs
    | CheckFresh
    | AwaitDiscovery
    | RecheckFresh
    | ListRepos
    | ReplaceConfigs(names: seq<string>, first: bool)
    | AwaitRepos(removed: set<string>)
    | PopRepos(removed: set<string>, rest: set<string>)
    | AwaitCache(removed: set<string>)
    | PopEntry(ids: set<string>)
    | PopLock(id: string, ids: set<string>)
    | Notify(due: bool)
    | ReturnLocked
    | ReadConfigs
    // get_datatree_for_dataset
    | FastGet
    | FastCheck(hit: nat)
    | AwaitCacheForLock
    | SetDefault
    | AwaitDataset(lock: nat)
    | SlowGet(lock: nat)
    | SlowCheck(lock: nat, entry: Option<nat>)
    | OpenCheck(lock: nat, entry: Option<nat>)
    | AwaitOpen(lock: nat, entry: Option<nat>)
    | OpenRecheck(lock: nat, entry: Option<nat>)
    | GetRepo(lock: nat, entry: Option<nat>)
    | LookUp(lock: nat, entry: Option<nat>)
    | Stamp(lock: nat, hit: nat)
    | Load(lock: nat, entry: Option<nat>, tip: string, pos: nat)
    | Store(lock: nat, made: nat)
    | Release(lock: nat, outcome: Outcome)
    | Done(outcome: Outcome)

  /** A thread serving one dataset id, or only listing the repos (`repo_names`). */
  datatype Thread = Thread(request: Option<string>, pc: Pc)

  /** Facts about the past that no step of the program reads. */
  datatype History = History(
    evicted: set<string>,             // repos whose eviction has ever begun
    generation: map<string, nat>,     // per id: how often its lock was popped
    loads: map<string, seq<nat>>,     // per id: tip positions loaded, in order
    openings: multiset<string>,       // repos opened
    closings: multiset<string>)       // opened repos dropped

  /** The provider's own fields, and the entry and lock objects they refer to. */
  datatype Fields = Fields(
    configs: seq<string>,
    discoveredAt: Option<real>,
    repos: set<string>,
    cache: map<string, nat>,
    locks: map<string, nat>,
    callbacks: seq<set<string>>,        // what `on_repos_changed` has been called with
    entries: seq<Entry>,                // every entry object ever created
    lockObjects: seq<(string, nat)>)    // every lock object: its id and the id's generation

  /** Who holds `_discovery_lock`, `_lock`, `_cache_lock` and each per-dataset lock object. */
  datatype Held = Held(discovery: Option<Tid>, mutex: Option<Tid>, cacheMutex: Option<Tid>, owners: map<nat, Tid>)

  /** The clock, the two TTLs, and every branch tip each repo has had. */
  datatype World = World(now: real, cacheTtl: real, discoveryTtl: real, tips: map<string, seq<string>>)

  datatype State = State(data: Fields, held: Held, threads: map<Tid, Thread>, world: World, history: History)

  /** What the environment decides for one step of a thread. */
  datatype Choice = Choice(ok: bool, names: seq<string>, pick: string)

  datatype Action =
    | Tick(elapsed: real)
    | MoveTip(repo: string, snapshot: string)
    | Spawn(t: Tid, request: Option<string>)
    | Run(t: Tid, choice: Choice)

  // ----- The program -----

  function Initial(cacheTtl: real, discoveryTtl: real): State {
    State(Fields([], None, {}, map[], map[], [], [], []), Held(None, None, None, map[]), map[],
          World(0.0, cacheTtl, discoveryTtl, map[]), History({}, map[], map[], multiset{}, multiset{}))
  }

  function Tips(w: World, repo: string): seq<string> {
    if repo in w.tips then w.tips[repo] else []
  }

  function Generation(h: History, id: string): nat {
    if id in h.generation then h.generation[id] else 0
  }

  function Loads(h: History, id: string): seq<nat> {
    if id in h.loads then h.loads[id] else []
  }

  function Cached(d: Fields, id: string): Option<nat> {
    if id in d.cache then Some(d.cache[id]) else None
  }

  predicate ConfigsFresh(d: Fields, w: World) {
    d.discoveredAt.Some? && w.now - d.discoveredAt.value < w.discoveryTtl
  }

  predicate Checked(e: Entry, w: World) {
    w.now - e.checkedAt < w.cacheTtl
  }

  // The regions of the four `with` statements

  predicate HoldsDiscovery(pc: Pc) {
    pc.RecheckFresh? || pc.ListRepos? || pc.ReplaceConfigs? || pc.AwaitRepos? || pc.PopRepos? ||
    pc.AwaitCache? || pc.PopEntry? || pc.PopLock? || pc.Notify? || pc.ReturnLocked?
  }

  predicate HoldsMutex(pc: Pc) {
    pc.PopRepos? || pc.OpenRecheck?
  }

  predicate HoldsCacheMutex(pc: Pc) {
    pc.PopEntry? || pc.PopLock? || pc.SetDefault?
  }

  predicate InCriticalSection(pc: Pc) {
    HasEntry(pc) || pc.SlowGet? || pc.Stamp? || pc.Store? || pc.Release?
  }

  /** In the critical section with the local variable `entry` set. */
  predicate HasEntry(pc: Pc) {
    pc.SlowCheck? || pc.OpenCheck? || pc.AwaitOpen? || pc.OpenRecheck? || pc.GetRepo? || pc.LookUp? || pc.Load?
  }

  predicate RefersToLock(pc: Pc) {
    pc.AwaitDataset? || InCriticalSection(pc)
  }

  /** In `_refresh_repo_configs` or about to read its result. */
  predicate Refreshing(pc: Pc) {
    HoldsDiscovery(pc) || pc.CheckFresh? || pc.AwaitDiscovery? || pc.ReadConfigs?
  }

  /** The steps only a thread with a dataset id takes. */
  predicate Serving(pc: Pc) {
    pc.FastGet? || pc.FastCheck? || pc.AwaitCacheForLock? || pc.SetDefault? || RefersToLock(pc)
  }

  /** What a listing can return: no name that ends in `_data`. */
  predicate NamesOk(names: seq<string>) {
    forall n :: n in names ==> !EndsWith(n, DATA_SUFFIX)
  }

  /** A thread's references are to objects that exist, and only threads with an id serve one. */
  predicate RefersProperly(d: Fields, th: Thread) {
    && (Serving(th.pc) ==> th.request.Some?)
    && (th.pc.FastCheck? || th.pc.Stamp? ==> th.pc.hit < |d.entries|)
    && (HasEntry(th.pc) && th.pc.entry.Some? ==> th.pc.entry.value < |d.entries|)
    && (th.pc.Store? ==> th.pc.made < |d.entries|)
  }

  /** A thread can run unless it is done or waits for a lock that is held. */
  predicate CanRun(s: State, th: Thread, c: Choice) {
    RefersProperly(s.data, th) &&
    match th.pc
    case Done(_) => false
    case AwaitDiscovery => s.held.discovery.None?
    case AwaitRepos(_) => s.held.mutex.None?
    case AwaitOpen(_, _) => s.held.mutex.None?
    case AwaitCache(_) => s.held.cacheMutex.None?
    case AwaitCacheForLock => s.held.cacheMutex.None?
    case AwaitDataset(l) => l !in s.held.owners
    case ListRepos => c.ok ==> NamesOk(c.names)
    case PopRepos(_, rest) => rest != {} ==> c.pick in rest
    case PopEntry(ids) => ids != {} ==> c.pick in ids
    case LookUp(_, _) => c.ok ==> Tips(s.world, Owner(th.request.value)) != []
    case _ => true
  }

  predicate Enabled(s: State, a: Action) {
    match a
    case Tick(elapsed) => elapsed >= 0.0
    case MoveTip(_, _) => true
    case Spawn(t, _) => t !in s.threads
    case Run(t, c) => t in s.threads && CanRun(s, s.threads[t], c)
  }

  function Step(s: State, a: Action): State
    requires Enabled(s, a)
  {
    match a
    case Tick(elapsed) => s.(world := s.world.(now := s.world.now + elapsed))
    case MoveTip(repo, snapshot) =>
      s.(world := s.world.(tips := s.world.tips[repo := Tips(s.world, repo) + [snapshot]]))
    case Spawn(t, request) => s.(threads := s.threads[t := Thread(request, CheckFresh)])
    case Run(t, c) =>
      var th := s.threads[t];
      var pc := if Refreshing(th.pc) then RefreshPc(s, th, c) else ServePc(s, th, c);
      State(if Refreshing(th.pc) then RefreshData(s, th.pc, c) else ServeData(s, th, c),
            Transfer(s.held, t, th.pc, pc),
            s.threads[t := th.(pc := pc)],
            s.world,
            NextHistory(s, th, c))
  }

  /** Locks change hands exactly when a thread enters or leaves their region. */
  function Transfer(h: Held, t: Tid, from: Pc, to: Pc): Held {
    Held(Take(h.discovery, t, HoldsDiscovery(from), HoldsDiscovery(to)),
         Take(h.mutex, t, HoldsMutex(from), HoldsMutex(to)),
         Take(h.cacheMutex, t, HoldsCacheMutex(from), HoldsCacheMutex(to)),
         if InCriticalSection(to) then h.owners[to.lock := t]
         else if InCriticalSection(from) then h.owners - {from.lock}
         else h.owners)
  }

  function Take(holder: Option<Tid>, t: Tid, before: bool, after: bool): Option<Tid> {
    if after then Some(t) else if before then None else holder
  }

  /** Where `return self._repo_configs` and the lookup in it lead. */
  function AfterConfigs(d: Fields, request: Option<string>): Pc {
    match request
    case None => Done(Unknown)
    case Some(id) => if Resolve(d.configs, id).None? then Done(Unknown) else FastGet
  }

  function Removed(d: Fields, names: seq<string>): set<string> {
    (set n | n in d.configs) - (set n | n in names)
  }

  /** Repos that are gone are evicted; then the callback is due, as it is on the first listing and for new repos. */
  function AfterReplacing(d: Fields, names: seq<string>, first: bool): Pc {
    if Removed(d, names) != {} then AwaitRepos(Removed(d, names))
    else Notify(first || (exists n :: n in names && n !in d.configs))
  }

  /** Control flow of `_refresh_repo_configs` and `_evict`. */
  function RefreshPc(s: State, th: Thread, c: Choice): Pc
    requires CanRun(s, th, c) && Refreshing(th.pc)
  {
    match th.pc
    case CheckFresh => if ConfigsFresh(s.data, s.world) then ReadConfigs else AwaitDiscovery
    case AwaitDiscovery => RecheckFresh
    case RecheckFresh => if ConfigsFresh(s.data, s.world) then ReturnLocked else ListRepos
    case ListRepos => if c.ok then ReplaceConfigs(c.names, s.data.discoveredAt.None?) else ReturnLocked
    case ReplaceConfigs(names, first) => AfterReplacing(s.data, names, first)
    case AwaitRepos(removed) => PopRepos(removed, removed)
    case PopRepos(removed, rest) => if rest == {} then AwaitCache(removed) else PopRepos(removed, rest - {c.pick})
    case AwaitCache(removed) => PopEntry(IdsOf(removed))
    case PopEntry(ids) => if ids == {} then Notify(true) else PopLock(c.pick, ids - {c.pick})
    case PopLock(_, ids) => PopEntry(ids)
    case Notify(due) => if due && !c.ok then Done(Raised) else ReadConfigs
    case ReturnLocked => AfterConfigs(s.data, th.request)
    case ReadConfigs => AfterConfigs(s.data, th.request)
  }

  /** The writes of `_refresh_repo_configs` and `_evict`; the stamp comes before the new list. */
  function RefreshData(s: State, pc: Pc, c: Choice): Fields {
    match pc
    case ListRepos => s.data.(discoveredAt := Some(s.world.now))
    case ReplaceConfigs(names, _) => s.data.(configs := names)
    case PopRepos(_, rest) => if rest == {} then s.data else s.data.(repos := s.data.repos - {c.pick})
    case PopEntry(ids) => if ids == {} then s.data else s.data.(cache := s.data.cache - {c.pick})
    case PopLock(id, _) => s.data.(locks := s.data.locks - {id})
    case Notify(due) => if due then s.data.(callbacks := s.data.callbacks + [set n | n in s.data.configs]) else s.data
    case _ => s.data
  }

  /** Control flow of `get_datatree_for_dataset`, `_dataset_lock` and `_open_repo`. */
  function ServePc(s: State, th: Thread, c: Choice): Pc
    requires CanRun(s, th, c) && Serving(th.pc)
  {
    var d, id, repo := s.data, th.request.value, Owner(th.request.value);
    match th.pc
    case FastGet => if id in d.cache then FastCheck(d.cache[id]) else AwaitCacheForLock
    case FastCheck(e) => if Checked(d.entries[e], s.world) then Done(Served(d.entries[e].tree)) else AwaitCacheForLock
    case AwaitCacheForLock => SetDefault
    case SetDefault => AwaitDataset(if id in d.locks then d.locks[id] else |d.lockObjects|)
    case AwaitDataset(l) => SlowGet(l)
    case SlowGet(l) => SlowCheck(l, Cached(d, id))
    case SlowCheck(l, e) =>
      if e.Some? && Checked(d.entries[e.value], s.world) then Release(l, Served(d.entries[e.value].tree))
      else OpenCheck(l, e)
    case OpenCheck(l, e) => if repo in d.repos then GetRepo(l, e) else AwaitOpen(l, e)
    case AwaitOpen(l, e) => OpenRecheck(l, e)
    case OpenRecheck(l, e) => if repo in d.repos || c.ok then GetRepo(l, e) else Release(l, Raised)
    case GetRepo(l, e) => if repo in d.repos then LookUp(l, e) else Release(l, Raised)
    case LookUp(l, e) =>
      if !c.ok then if e.Some? then Stamp(l, e.value) else Release(l, Raised)
      else if e.Some? && d.entries[e.value].snapshot == Last(Tips(s.world, repo)) then Stamp(l, e.value)
      else Load(l, e, Last(Tips(s.world, repo)), |Tips(s.world, repo)| - 1)
    case Stamp(l, e) => Release(l, Served(d.entries[e].tree))
    case Load(l, _, _, _) => if c.ok then Store(l, |d.entries|) else Release(l, Raised)
    case Store(l, e) => Release(l, Served(d.entries[e].tree))
    case Release(_, outcome) => Done(outcome)
  }

  /** The writes of `get_datatree_for_dataset`, `_dataset_lock` and `_open_repo`. */
  function ServeData(s: State, th: Thread, c: Choice): Fields
    requires CanRun(s, th, c) && Serving(th.pc)
  {
    var d, id := s.data, th.request.value;
    match th.pc
    case SetDefault =>
      if id in d.locks then d
      else d.(locks := d.locks[id := |d.lockObjects|], lockObjects := d.lockObjects + [(id, Generation(s.history, id))])
    case OpenRecheck(_, _) => if c.ok then d.(repos := d.repos + {Owner(id)}) else d
    case Stamp(_, e) => d.(entries := d.entries[e := d.entries[e].(checkedAt := s.world.now)])
    case Load(_, _, tip, pos) =>
      if c.ok then d.(entries := d.entries + [Entry(Tree(id, Owner(id), KindOf(id), tip), tip, s.world.now, pos)]) else d
    case Store(_, e) => d.(cache := d.cache[id := e])
    case _ => d
  }

  function NextHistory(s: State, th: Thread, c: Choice): History
    requires CanRun(s, th, c)
  {
    var h := s.history;
    match th.pc
    case ReplaceConfigs(names, _) => h.(evicted := h.evicted + Removed(s.data, names))
    case PopRepos(_, rest) =>
      if rest != {} && c.pick in s.data.repos then h.(closings := h.closings + multiset{c.pick}) else h
    case PopLock(id, _) => h.(generation := h.generation[id := Generation(h, id) + 1])
    case OpenRecheck(_, _) =>
      var repo := Owner(th.request.value);
      if repo !in s.data.repos && c.ok then h.(openings := h.openings + multiset{repo}) else h
    case Load(_, _, _, pos) =>
      if c.ok then h.(loads := h.loads[th.request.value := Loads(h, th.request.value) + [pos]]) else h
    case _ => h
  }
}
