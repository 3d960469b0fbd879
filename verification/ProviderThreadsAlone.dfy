/**
 * A thread whose steps no other thread interrupts does what the provider of one thread does in one call, however the
 * clock and the branch tips move meanwhile.
 */
module ProviderThreadsAlone {
  import opened Common
  import opened DatasetIds
  import opened ProviderThreads
  import opened ProviderThreadsSafety
  import opened ProviderThreadsRuns
  import Provider

  function EntryView(e: Entry): Provider.CacheEntry {
    Provider.CacheEntry(e.tree, e.snapshot, e.checkedAt)
  }

  /** The fields as one thread sees them: entries and locks by value. */
  function Seen(d: Fields): Provider.View {
    Provider.View(d.configs, d.discoveredAt, d.repos,
                  map id | id in d.cache && d.cache[id] < |d.entries| :: EntryView(d.entries[d.cache[id]]),
                  d.locks.Keys, d.callbacks)
  }

  function TtlsOf(w: World): Provider.Ttls {
    Provider.Ttls(w.cacheTtl, w.discoveryTtl)
  }

  /** The answers of a call before anything has been asked. */
  function NoAnswers(now: real): Provider.Answers {
    Provider.Answers(now, now, now, now, now, None, true, false, None, false)
  }

  /** The answers so far are in order, not from the future, and possible. */
  ghost predicate AnswersOk(w: World, q: Option<string>, a: Provider.Answers) {
    && Provider.InOrder(a) && a.loaded <= w.now
    && (a.listing.Some? ==> NamesOk(a.listing.value))
    && (a.tip.Some? ==> q.Some? && a.tip.value in Tips(w, Owner(q.value)))
  }

  // ----- What one thread has done of its call, by program counter -----

  function RemovedIn(v: Provider.View, a: Provider.Answers): set<string>
    requires a.listing.Some?
  {
    Provider.NameSet(v.names) - Provider.NameSet(a.listing.value)
  }

  function Relisted(v: Provider.View, a: Provider.Answers): Provider.View
    requires a.listing.Some?
  {
    v.(names := a.listing.value, discoveredAt := Some(a.refreshed))
  }

  /** The configs were stale and have been replaced; the repos in `repos` and the ids in `cached` and `locks` are gone. */
  predicate Evicting(v: Provider.View, t: Provider.Ttls, a: Provider.Answers, seen: Provider.View,
                     repos: set<string>, cached: set<string>, locks: set<string>) {
    && !Provider.ConfigsFresh(v, t, a.asked) && a.listing.Some? && RemovedIn(v, a) != {}
    && seen == Relisted(v, a).(repos := v.repos - repos, cache := v.cache - cached, locks := v.locks - locks)
  }

  predicate RefreshedBy(v: Provider.View, t: Provider.Ttls, a: Provider.Answers, seen: Provider.View, pc: Pc) {
    match pc
    case CheckFresh => seen == v
    case AwaitDiscovery => seen == v && !Provider.ConfigsFresh(v, t, a.asked)
    case RecheckFresh => seen == v && !Provider.ConfigsFresh(v, t, a.asked)
    case ListRepos => seen == v && !Provider.ConfigsFresh(v, t, a.asked)
    case ReplaceConfigs(names, first) =>
      && !Provider.ConfigsFresh(v, t, a.asked) && a.listing == Some(names) && first == v.discoveredAt.None?
      && seen == v.(discoveredAt := Some(a.refreshed))
    case AwaitRepos(removed) => Evicting(v, t, a, seen, {}, {}, {}) && removed == RemovedIn(v, a)
    case PopRepos(removed, rest) =>
      Evicting(v, t, a, seen, removed - rest, {}, {}) && removed == RemovedIn(v, a) && rest <= removed
    case AwaitCache(removed) => Evicting(v, t, a, seen, removed, {}, {}) && removed == RemovedIn(v, a)
    case PopEntry(ids) =>
      a.listing.Some? && var all := IdsOf(RemovedIn(v, a));
      Evicting(v, t, a, seen, RemovedIn(v, a), all - ids, all - ids) && ids <= all
    case PopLock(id, ids) =>
      a.listing.Some? && var all := IdsOf(RemovedIn(v, a));
      Evicting(v, t, a, seen, RemovedIn(v, a), all - ids, all - ids - {id}) && ids <= all && id in all && id !in ids
    case Notify(due) =>
      seen == Provider.Refresh(v, t, a).(callbacks := v.callbacks) && due == Provider.CallbackDue(v, t, a)
    case _ => seen == Provider.Refresh(v, t, a) && !Provider.CallbackRaises(v, t, a)
  }

  /** Refreshed and resolved. */
  predicate Found(v: Provider.View, t: Provider.Ttls, id: string, a: Provider.Answers) {
    !Provider.CallbackRaises(v, t, a) && Resolve(Provider.Refresh(v, t, a).names, id) == Some((Owner(id), KindOf(id)))
  }

  /** Refreshed, resolved, and not found fresh in the cache. */
  predicate Missed(v: Provider.View, t: Provider.Ttls, id: string, a: Provider.Answers) {
    Found(v, t, id, a) && !Provider.Checked(Provider.Refresh(v, t, a), t, id, a.resolved)
  }

  /** What a thread sees after refreshing, and after registering the dataset's lock and opening its repo. */
  function Registered(v: Provider.View, t: Provider.Ttls, id: string, a: Provider.Answers): Provider.View {
    var r := Provider.Refresh(v, t, a);
    r.(locks := r.locks + {id})
  }

  function Opened(v: Provider.View, t: Provider.Ttls, id: string, a: Provider.Answers): Provider.View {
    var l := Registered(v, t, id, a);
    l.(repos := l.repos + {Owner(id)})
  }

  predicate LookingUp(v: Provider.View, t: Provider.Ttls, id: string, a: Provider.Answers, d: Fields, e: Option<nat>) {
    && Missed(v, t, id, a) && Provider.LooksUp(v, t, id, a)
    && Seen(d) == Opened(v, t, id, a) && e == Cached(d, id)
  }

  predicate ServedBy(v: Provider.View, t: Provider.Ttls, id: string, a: Provider.Answers, d: Fields, pc: Pc) {
    var r := Provider.Refresh(v, t, a);
    match pc
    case FastGet => Seen(d) == r && Found(v, t, id, a)
    case FastCheck(hit) => Seen(d) == r && Found(v, t, id, a) && Cached(d, id) == Some(hit)
    case AwaitCacheForLock => Seen(d) == r && Missed(v, t, id, a)
    case SetDefault => Seen(d) == r && Missed(v, t, id, a)
    case AwaitDataset(_) => Seen(d) == Registered(v, t, id, a) && Missed(v, t, id, a)
    case SlowGet(_) => Seen(d) == Registered(v, t, id, a) && Missed(v, t, id, a)
    case SlowCheck(_, e) => Seen(d) == Registered(v, t, id, a) && Missed(v, t, id, a) && e == Cached(d, id)
    case OpenCheck(_, e) => Seen(d) == Registered(v, t, id, a) && Missed(v, t, id, a) && e == Cached(d, id)
    case AwaitOpen(_, e) =>
      Seen(d) == Registered(v, t, id, a) && Missed(v, t, id, a) && e == Cached(d, id) && Owner(id) !in d.repos
    case OpenRecheck(_, e) =>
      Seen(d) == Registered(v, t, id, a) && Missed(v, t, id, a) && e == Cached(d, id) && Owner(id) !in d.repos
    case GetRepo(_, e) => LookingUp(v, t, id, a, d, e)
    case LookUp(_, e) => LookingUp(v, t, id, a, d, e)
    case Stamp(_, hit) =>
      && LookingUp(v, t, id, a, d, Some(hit)) && hit < |d.entries|
      && (a.tip.None? || a.tip.value == d.entries[hit].snapshot)
    case Load(_, e, tip, _) =>
      && LookingUp(v, t, id, a, d, e) && a.tip == Some(tip)
      && (e.Some? ==> e.value < |d.entries| && d.entries[e.value].snapshot != tip)
    case Store(_, made) =>
      && LookingUp(v, t, id, a, d, Cached(d, id)) && a.tip.Some? && a.loads && made < |d.entries|
      && EntryView(d.entries[made]) ==
         Provider.CacheEntry(Tree(id, Owner(id), KindOf(id), a.tip.value), a.tip.value, a.loaded)
      && (id in d.cache ==> d.cache[id] < |d.entries| && d.entries[d.cache[id]].snapshot != a.tip.value)
    case Release(_, outcome) => Answered(v, t, Some(id), a, d, outcome)
    case _ => false
  }

  /** The call is over: fields and outcome are those of the sequential provider. */
  predicate Answered(v: Provider.View, t: Provider.Ttls, q: Option<string>, a: Provider.Answers, d: Fields,
                     outcome: Outcome) {
    Seen(d) == Provider.Apply(v, t, Provider.Call(q, a)) && outcome == Provider.OutcomeOf(v, t, Provider.Call(q, a))
  }

  predicate Follows(v: Provider.View, t: Provider.Ttls, q: Option<string>, a: Provider.Answers, d: Fields, pc: Pc) {
    if Refreshing(pc) then RefreshedBy(v, t, a, Seen(d), pc)
    else if pc.Done? then Answered(v, t, q, a, d, pc.outcome)
    else q.Some? && ServedBy(v, t, q.value, a, d, pc)
  }

  // ----- Each step follows the call -----

  /** What a step of the thread adds to the answers: a moment, and what the environment decided. */
  function Extended(s: State, th: Thread, c: Choice, a: Provider.Answers): Provider.Answers
    requires CanRun(s, th, c)
  {
    var now := s.world.now;
    match th.pc
    case CheckFresh => a.(asked := now, refreshed := now, resolved := now, lookedUp := now, loaded := now)
    case ListRepos =>
      a.(refreshed := now, resolved := now, lookedUp := now, loaded := now,
         listing := if c.ok then Some(c.names) else None)
    case Notify(_) => a.(notifies := c.ok)
    case FastCheck(_) => a.(resolved := now, lookedUp := now, loaded := now)
    case OpenRecheck(_, _) => a.(opens := c.ok)
    case LookUp(_, _) => a.(tip := if c.ok then Some(Last(Tips(s.world, Owner(th.request.value)))) else None)
    case Stamp(_, _) => a.(lookedUp := now, loaded := now)
    case Load(_, _, _, _) => a.(loaded := now, loads := c.ok)
    case _ => a
  }

  lemma ExtendedOk(s: State, th: Thread, c: Choice, a: Provider.Answers)
    requires CanRun(s, th, c) && AnswersOk(s.world, th.request, a)
    ensures AnswersOk(s.world, th.request, Extended(s, th, c, a))
    ensures a.asked <= Extended(s, th, c, a).asked
  {
  }

  ghost predicate CacheOk(d: Fields) {
    forall id :: id in d.cache ==> EntryFor(d, d.cache[id], id)
  }

  // ----- The writes, as one thread sees them -----

  lemma SeenWithoutEntry(d: Fields, id: string)
    ensures Seen(d.(cache := d.cache - {id})) == Seen(d).(cache := Seen(d).cache - {id})
  {
  }

  lemma SeenWithoutLock(d: Fields, id: string)
    ensures Seen(d.(locks := d.locks - {id})) == Seen(d).(locks := Seen(d).locks - {id})
  {
  }

  lemma SeenStamped(d: Fields, id: string, e: nat, now: real)
    requires CacheOk(d) && Cached(d, id) == Some(e)
    ensures e < |d.entries|
    ensures Seen(d.(entries := d.entries[e := d.entries[e].(checkedAt := now)])) ==
            Seen(d).(cache := Seen(d).cache[id := EntryView(d.entries[e]).(checkedAt := now)])
  {
  }

  lemma SeenWithNewEntry(d: Fields, e: Entry)
    requires CacheOk(d)
    ensures Seen(d.(entries := d.entries + [e])) == Seen(d)
  {
  }

  lemma SeenStored(d: Fields, id: string, e: nat)
    requires e < |d.entries|
    ensures Seen(d.(cache := d.cache[id := e])) == Seen(d).(cache := Seen(d).cache[id := EntryView(d.entries[e])])
  {
  }

  lemma ListingFollows(v: Provider.View, s: State, th: Thread, c: Choice, a: Provider.Answers)
    requires th.pc.CheckFresh? || th.pc.AwaitDiscovery? || th.pc.RecheckFresh? || th.pc.ListRepos?
    requires AnswersOk(s.world, th.request, a)
    requires CanRun(s, th, c) && RefreshedBy(v, TtlsOf(s.world), a, Seen(s.data), th.pc)
    ensures Follows(v, TtlsOf(s.world), th.request, Extended(s, th, c, a), RefreshData(s, th.pc, c), RefreshPc(s, th, c))
  {
  }

  lemma NothingRemoved(previous: seq<string>, current: seq<string>)
    requires (set n | n in previous) - (set n | n in current) == {}
    ensures (exists n :: n in current && n !in previous) <==> Provider.NameSet(previous) != Provider.NameSet(current)
  {
    if Provider.NameSet(previous) == Provider.NameSet(current) {
      forall n | n in current ensures n in previous { assert n in Provider.NameSet(previous); }
    } else {
      assert Provider.NameSet(previous) - Provider.NameSet(current) == {};
      assert Provider.NameSet(current) - Provider.NameSet(previous) != {};
      var n :| n in Provider.NameSet(current) - Provider.NameSet(previous);
      assert n in current && n !in previous;
    }
  }

  lemma ReplacingFollows(v: Provider.View, s: State, th: Thread, c: Choice, a: Provider.Answers)
    requires th.pc.ReplaceConfigs?
    requires CanRun(s, th, c) && RefreshedBy(v, TtlsOf(s.world), a, Seen(s.data), th.pc)
    ensures Follows(v, TtlsOf(s.world), th.request, Extended(s, th, c, a), RefreshData(s, th.pc, c), RefreshPc(s, th, c))
  {
    if Removed(s.data, th.pc.names) == {} { NothingRemoved(s.data.configs, th.pc.names); }
  }

  lemma NotifyFollows(v: Provider.View, s: State, th: Thread, c: Choice, a: Provider.Answers)
    requires th.pc.Notify?
    requires CanRun(s, th, c) && RefreshedBy(v, TtlsOf(s.world), a, Seen(s.data), th.pc)
    ensures Follows(v, TtlsOf(s.world), th.request, Extended(s, th, c, a), RefreshData(s, th.pc, c), RefreshPc(s, th, c))
  {
  }

  lemma PoppingReposFollows(v: Provider.View, s: State, th: Thread, c: Choice, a: Provider.Answers)
    requires th.pc.AwaitRepos? || th.pc.PopRepos? || th.pc.AwaitCache?
    requires CanRun(s, th, c) && RefreshedBy(v, TtlsOf(s.world), a, Seen(s.data), th.pc)
    ensures Follows(v, TtlsOf(s.world), th.request, Extended(s, th, c, a), RefreshData(s, th.pc, c), RefreshPc(s, th, c))
  {
  }

  lemma PoppingEntryFollows(v: Provider.View, s: State, th: Thread, c: Choice, a: Provider.Answers)
    requires th.pc.PopEntry? && th.pc.ids != {}
    requires CanRun(s, th, c) && RefreshedBy(v, TtlsOf(s.world), a, Seen(s.data), th.pc)
    ensures Follows(v, TtlsOf(s.world), th.request, Extended(s, th, c, a), RefreshData(s, th.pc, c), RefreshPc(s, th, c))
  {
    SeenWithoutEntry(s.data, c.pick);
  }

  lemma PoppingEndFollows(v: Provider.View, s: State, th: Thread, c: Choice, a: Provider.Answers)
    requires th.pc.PopEntry? && th.pc.ids == {}
    requires CanRun(s, th, c) && RefreshedBy(v, TtlsOf(s.world), a, Seen(s.data), th.pc)
    ensures Follows(v, TtlsOf(s.world), th.request, Extended(s, th, c, a), RefreshData(s, th.pc, c), RefreshPc(s, th, c))
  {
  }

  lemma PoppingLockFollows(v: Provider.View, s: State, th: Thread, c: Choice, a: Provider.Answers)
    requires th.pc.PopLock?
    requires CanRun(s, th, c) && RefreshedBy(v, TtlsOf(s.world), a, Seen(s.data), th.pc)
    ensures Follows(v, TtlsOf(s.world), th.request, Extended(s, th, c, a), RefreshData(s, th.pc, c), RefreshPc(s, th, c))
  {
    SeenWithoutLock(s.data, th.pc.id);
  }

  lemma ConfigsRead(v: Provider.View, s: State, th: Thread, c: Choice, a: Provider.Answers)
    requires CanRun(s, th, c) && (th.pc.ReadConfigs? || th.pc.ReturnLocked?)
    requires NamesOk(s.data.configs) && RefreshedBy(v, TtlsOf(s.world), a, Seen(s.data), th.pc)
    ensures Follows(v, TtlsOf(s.world), th.request, Extended(s, th, c, a), RefreshData(s, th.pc, c), RefreshPc(s, th, c))
  {
    if th.request.Some? { ResolveIsOwner(s.data.configs, th.request.value); }
  }

  lemma FastFollows(v: Provider.View, s: State, th: Thread, c: Choice, a: Provider.Answers)
    requires th.pc.FastGet? || th.pc.FastCheck?
    requires CanRun(s, th, c) && CacheOk(s.data)
    requires th.request.Some? && ServedBy(v, TtlsOf(s.world), th.request.value, a, s.data, th.pc)
    ensures Follows(v, TtlsOf(s.world), th.request, Extended(s, th, c, a), ServeData(s, th, c), ServePc(s, th, c))
  {
  }

  lemma LockingFollows(v: Provider.View, s: State, th: Thread, c: Choice, a: Provider.Answers)
    requires th.pc.AwaitCacheForLock? || th.pc.SetDefault? || th.pc.AwaitDataset? || th.pc.SlowGet?
    requires CanRun(s, th, c) && CacheOk(s.data)
    requires th.request.Some? && ServedBy(v, TtlsOf(s.world), th.request.value, a, s.data, th.pc)
    ensures Follows(v, TtlsOf(s.world), th.request, Extended(s, th, c, a), ServeData(s, th, c), ServePc(s, th, c))
  {
  }

  lemma OpeningFollows(v: Provider.View, s: State, th: Thread, c: Choice, a: Provider.Answers)
    requires th.pc.SlowCheck? || th.pc.OpenCheck? || th.pc.AwaitOpen?
    requires AnswersOk(s.world, th.request, a)
    requires CanRun(s, th, c) && CacheOk(s.data)
    requires th.request.Some? && ServedBy(v, TtlsOf(s.world), th.request.value, a, s.data, th.pc)
    ensures Follows(v, TtlsOf(s.world), th.request, Extended(s, th, c, a), ServeData(s, th, c), ServePc(s, th, c))
  {
  }

  lemma OpenedFollows(v: Provider.View, s: State, th: Thread, c: Choice, a: Provider.Answers)
    requires th.pc.OpenRecheck? || th.pc.GetRepo?
    requires CanRun(s, th, c) && CacheOk(s.data)
    requires th.request.Some? && ServedBy(v, TtlsOf(s.world), th.request.value, a, s.data, th.pc)
    ensures Follows(v, TtlsOf(s.world), th.request, Extended(s, th, c, a), ServeData(s, th, c), ServePc(s, th, c))
  {
  }

  /** Looking up depends only on what was answered before. */
  lemma StillLookingUp(v: Provider.View, t: Provider.Ttls, id: string, a: Provider.Answers, d: Fields, e: Option<nat>,
                       a': Provider.Answers)
    requires LookingUp(v, t, id, a, d, e)
    requires a' == a.(lookedUp := a'.lookedUp, loaded := a'.loaded, tip := a'.tip, loads := a'.loads)
    ensures LookingUp(v, t, id, a', d, e)
  {
  }

  /** What the call gives once its thread is looking up the tip. */
  lemma GetWhenLookingUp(v: Provider.View, t: Provider.Ttls, id: string, a: Provider.Answers, d: Fields, e: Option<nat>)
    requires LookingUp(v, t, id, a, d, e) && CacheOk(d)
    ensures var (g, outcome) := Provider.Get(v, t, id, a);
            if e.Some? && (a.tip.None? || a.tip.value == d.entries[e.value].snapshot) then
              && g ==
                 Seen(d).(cache := Seen(d).cache[id := EntryView(d.entries[e.value]).(checkedAt := a.lookedUp)])
              && outcome == Served(d.entries[e.value].tree)
            else if a.tip.None? || !a.loads then g == Seen(d) && outcome == Raised
            else
              var tree := Tree(id, Owner(id), KindOf(id), a.tip.value);
              && g == Seen(d).(cache := Seen(d).cache[id := Provider.CacheEntry(tree, a.tip.value, a.loaded)])
              && outcome == Served(tree)
  {
    assert id in d.cache ==> id in Seen(d).cache && Seen(d).cache[id] == EntryView(d.entries[d.cache[id]]);
  }

  lemma LookUpFollows(v: Provider.View, s: State, th: Thread, c: Choice, a: Provider.Answers)
    requires th.pc.LookUp?
    requires CanRun(s, th, c) && CacheOk(s.data)
    requires th.request.Some? && ServedBy(v, TtlsOf(s.world), th.request.value, a, s.data, th.pc)
    ensures Follows(v, TtlsOf(s.world), th.request, Extended(s, th, c, a), ServeData(s, th, c), ServePc(s, th, c))
  {
    var id, a', ttls := th.request.value, Extended(s, th, c, a), TtlsOf(s.world);
    StillLookingUp(v, ttls, id, a, s.data, th.pc.entry, a');
    if !c.ok && th.pc.entry.None? { GetWhenLookingUp(v, ttls, id, a', s.data, None); }
  }

  lemma StampFollows(v: Provider.View, s: State, th: Thread, c: Choice, a: Provider.Answers)
    requires th.pc.Stamp?
    requires CanRun(s, th, c) && CacheOk(s.data)
    requires th.request.Some? && ServedBy(v, TtlsOf(s.world), th.request.value, a, s.data, th.pc)
    ensures Follows(v, TtlsOf(s.world), th.request, Extended(s, th, c, a), ServeData(s, th, c), ServePc(s, th, c))
  {
    var id, a', ttls := th.request.value, Extended(s, th, c, a), TtlsOf(s.world);
    StillLookingUp(v, ttls, id, a, s.data, Some(th.pc.hit), a');
    GetWhenLookingUp(v, ttls, id, a', s.data, Some(th.pc.hit));
    SeenStamped(s.data, id, th.pc.hit, s.world.now);
  }

  lemma LoadFollows(v: Provider.View, s: State, th: Thread, c: Choice, a: Provider.Answers)
    requires th.pc.Load? && c.ok
    requires CanRun(s, th, c) && CacheOk(s.data)
    requires th.request.Some? && ServedBy(v, TtlsOf(s.world), th.request.value, a, s.data, th.pc)
    ensures Follows(v, TtlsOf(s.world), th.request, Extended(s, th, c, a), ServeData(s, th, c), ServePc(s, th, c))
  {
    var id, a', ttls := th.request.value, Extended(s, th, c, a), TtlsOf(s.world);
    StillLookingUp(v, ttls, id, a, s.data, th.pc.entry, a');
    SeenWithNewEntry(s.data, Entry(Tree(id, Owner(id), KindOf(id), th.pc.tip), th.pc.tip, s.world.now, th.pc.pos));
  }

  lemma FailedLoadFollows(v: Provider.View, s: State, th: Thread, c: Choice, a: Provider.Answers)
    requires th.pc.Load? && !c.ok
    requires CanRun(s, th, c) && CacheOk(s.data)
    requires th.request.Some? && ServedBy(v, TtlsOf(s.world), th.request.value, a, s.data, th.pc)
    ensures Follows(v, TtlsOf(s.world), th.request, Extended(s, th, c, a), ServeData(s, th, c), ServePc(s, th, c))
  {
    var id, a', ttls := th.request.value, Extended(s, th, c, a), TtlsOf(s.world);
    StillLookingUp(v, ttls, id, a, s.data, th.pc.entry, a');
    GetWhenLookingUp(v, ttls, id, a', s.data, th.pc.entry);
  }

  lemma StoreFollows(v: Provider.View, s: State, th: Thread, c: Choice, a: Provider.Answers)
    requires th.pc.Store? || th.pc.Release?
    requires CanRun(s, th, c) && CacheOk(s.data)
    requires th.request.Some? && ServedBy(v, TtlsOf(s.world), th.request.value, a, s.data, th.pc)
    ensures Follows(v, TtlsOf(s.world), th.request, Extended(s, th, c, a), ServeData(s, th, c), ServePc(s, th, c))
  {
    if th.pc.Store? {
      GetWhenLookingUp(v, TtlsOf(s.world), th.request.value, a, s.data, Cached(s.data, th.request.value));
      SeenStored(s.data, th.request.value, th.pc.made);
    }
  }

  lemma EvictionFollows(v: Provider.View, s: State, th: Thread, c: Choice, a: Provider.Answers)
    requires th.pc.AwaitRepos? || th.pc.PopRepos? || th.pc.AwaitCache? || th.pc.PopEntry? || th.pc.PopLock?
    requires CanRun(s, th, c) && RefreshedBy(v, TtlsOf(s.world), a, Seen(s.data), th.pc)
    ensures Follows(v, TtlsOf(s.world), th.request, Extended(s, th, c, a), RefreshData(s, th.pc, c), RefreshPc(s, th, c))
  {
    if th.pc.PopEntry? {
      if th.pc.ids != {} { PoppingEntryFollows(v, s, th, c, a); } else { PoppingEndFollows(v, s, th, c, a); }
    } else if th.pc.PopLock? {
      PoppingLockFollows(v, s, th, c, a);
    } else {
      PoppingReposFollows(v, s, th, c, a);
    }
  }

  lemma RefreshFollows(v: Provider.View, s: State, th: Thread, c: Choice, a: Provider.Answers)
    requires CanRun(s, th, c) && Refreshing(th.pc)
    requires NamesOk(s.data.configs) && AnswersOk(s.world, th.request, a)
    requires RefreshedBy(v, TtlsOf(s.world), a, Seen(s.data), th.pc)
    ensures Follows(v, TtlsOf(s.world), th.request, Extended(s, th, c, a), RefreshData(s, th.pc, c), RefreshPc(s, th, c))
  {
    if th.pc.ReadConfigs? || th.pc.ReturnLocked? {
      ConfigsRead(v, s, th, c, a);
    } else if th.pc.ReplaceConfigs? {
      ReplacingFollows(v, s, th, c, a);
    } else if th.pc.Notify? {
      NotifyFollows(v, s, th, c, a);
    } else if th.pc.CheckFresh? || th.pc.AwaitDiscovery? || th.pc.RecheckFresh? || th.pc.ListRepos? {
      ListingFollows(v, s, th, c, a);
    } else {
      EvictionFollows(v, s, th, c, a);
    }
  }

  lemma LookingUpFollows(v: Provider.View, s: State, th: Thread, c: Choice, a: Provider.Answers)
    requires th.pc.LookUp? || th.pc.Stamp? || th.pc.Load? || th.pc.Store? || th.pc.Release?
    requires CanRun(s, th, c) && CacheOk(s.data)
    requires th.request.Some? && ServedBy(v, TtlsOf(s.world), th.request.value, a, s.data, th.pc)
    ensures Follows(v, TtlsOf(s.world), th.request, Extended(s, th, c, a), ServeData(s, th, c), ServePc(s, th, c))
  {
    if th.pc.LookUp? {
      LookUpFollows(v, s, th, c, a);
    } else if th.pc.Stamp? {
      StampFollows(v, s, th, c, a);
    } else if th.pc.Load? {
      if c.ok { LoadFollows(v, s, th, c, a); } else { FailedLoadFollows(v, s, th, c, a); }
    } else {
      StoreFollows(v, s, th, c, a);
    }
  }

  lemma ServeFollows(v: Provider.View, s: State, th: Thread, c: Choice, a: Provider.Answers)
    requires CanRun(s, th, c) && Serving(th.pc) && CacheOk(s.data) && AnswersOk(s.world, th.request, a)
    requires ServedBy(v, TtlsOf(s.world), th.request.value, a, s.data, th.pc)
    ensures Follows(v, TtlsOf(s.world), th.request, Extended(s, th, c, a), ServeData(s, th, c), ServePc(s, th, c))
  {
    if th.pc.FastGet? || th.pc.FastCheck? {
      FastFollows(v, s, th, c, a);
    } else if th.pc.AwaitCacheForLock? || th.pc.SetDefault? || th.pc.AwaitDataset? || th.pc.SlowGet? {
      LockingFollows(v, s, th, c, a);
    } else if th.pc.SlowCheck? || th.pc.OpenCheck? || th.pc.AwaitOpen? {
      OpeningFollows(v, s, th, c, a);
    } else if th.pc.OpenRecheck? || th.pc.GetRepo? {
      OpenedFollows(v, s, th, c, a);
    } else {
      LookingUpFollows(v, s, th, c, a);
    }
  }

  // ----- Runs -----

  /** Thread `t` is in a call that began where the fields were `v`, with the answers so far. */
  ghost predicate InCall(v: Provider.View, s: State, t: Tid, q: Option<string>, a: Provider.Answers) {
    && RefsOk(s) && EvictionsOk(s) && t in s.threads && s.threads[t].request == q
    && AnswersOk(s.world, q, a) && Follows(v, TtlsOf(s.world), q, a, s.data, s.threads[t].pc)
  }

  /** An action of the environment, or of thread `t`. */
  predicate Undisturbed(t: Tid, action: Action) {
    action.Run? ==> action.t == t
  }

  predicate Alone(t: Tid, run: seq<Action>) {
    forall i :: 0 <= i < |run| ==> Undisturbed(t, run[i])
  }

  lemma StepFollows(v: Provider.View, s: State, t: Tid, q: Option<string>, a: Provider.Answers, action: Action)
    returns (a': Provider.Answers)
    requires InCall(v, s, t, q, a) && Enabled(s, action) && Undisturbed(t, action)
    ensures InCall(v, Step(s, action), t, q, a') && a.asked <= a'.asked
  {
    a' := a;
    RefsOkStep(s, action);
    EvictionsOkStep(s, action);
    if action.Run? {
      var th, c := s.threads[t], action.choice;
      a' := Extended(s, th, c, a);
      ExtendedOk(s, th, c, a);
      if Refreshing(th.pc) { RefreshFollows(v, s, th, c, a); } else { ServeFollows(v, s, th, c, a); }
    }
  }

  lemma {:induction false} RunFollows(v: Provider.View, s: State, t: Tid, q: Option<string>, a: Provider.Answers,
                                      run: seq<Action>)
    returns (a': Provider.Answers)
    requires InCall(v, s, t, q, a) && Runs(s, run) && Alone(t, run)
    ensures InCall(v, After(s, run), t, q, a') && a.asked <= a'.asked
    decreases |run|
  {
    a' := a;
    if run != [] {
      a' := StepFollows(v, s, t, q, a, run[0]);
      a' := RunFollows(v, Step(s, run[0]), t, q, a', run[1..]);
    }
  }

  /**
   * From any safe state, a thread that starts and finishes without another thread taking a step between leaves the
   * fields, and has the outcome, of one call of the sequential provider, for answers the environment gave meanwhile.
   */
  lemma RunAloneIsCall(s: State, t: Tid, q: Option<string>, run: seq<Action>, outcome: Outcome)
    returns (a: Provider.Answers)
    requires Safe(s) && t !in s.threads
    requires var begun := Step(s, Spawn(t, q));
             && Runs(begun, run) && Alone(t, run)
             && t in After(begun, run).threads && After(begun, run).threads[t].pc == Done(outcome)
    ensures var end, v, ttls := After(Step(s, Spawn(t, q)), run), Seen(s.data), TtlsOf(s.world);
            && AnswersOk(end.world, q, a) && s.world.now <= a.asked
            && Seen(end.data) == Provider.Apply(v, ttls, Provider.Call(q, a))
            && outcome == Provider.OutcomeOf(v, ttls, Provider.Call(q, a))
  {
    var begun := Step(s, Spawn(t, q));
    CallBegins(s, t, q);
    a := RunFollows(Seen(s.data), begun, t, q, NoAnswers(s.world.now), run);
    TtlsStay(begun, run);
  }

  lemma CallBegins(s: State, t: Tid, q: Option<string>)
    requires Safe(s) && t !in s.threads
    ensures InCall(Seen(s.data), Step(s, Spawn(t, q)), t, q, NoAnswers(s.world.now))
  {
    RefsOkStep(s, Spawn(t, q));
    EvictionsOkStep(s, Spawn(t, q));
  }

  lemma {:induction false} TtlsStay(s: State, run: seq<Action>)
    requires Runs(s, run)
    ensures TtlsOf(After(s, run).world) == TtlsOf(s.world)
    decreases |run|
  {
    if run != [] { TtlsStay(Step(s, run[0]), run[1..]); }
  }
}
