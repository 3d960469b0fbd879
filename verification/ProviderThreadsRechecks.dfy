/** What the locks of the provider's threads are for: one thread at a time, and checks that are repeated under them. */
module ProviderThreadsRechecks {
  import opened Common
  import opened DatasetIds
  import opened ProviderThreads
  import opened ProviderThreadsSafety
  import opened ProviderThreadsRuns

  /** In every reachable state at most one thread lists or evicts, pops or opens repos, and pops or makes dataset locks. */
  lemma LocksExclude(cacheTtl: real, discoveryTtl: real, run: seq<Action>, t: Tid, u: Tid)
    requires Runs(Initial(cacheTtl, discoveryTtl), run)
    requires var s := After(Initial(cacheTtl, discoveryTtl), run); t in s.threads && u in s.threads && t != u
    ensures var s := After(Initial(cacheTtl, discoveryTtl), run);
            var a, b := s.threads[t].pc, s.threads[u].pc;
            && !((a.ListRepos? || a.ReplaceConfigs? || a.PopRepos? || a.PopEntry? || a.PopLock? || a.Notify?) &&
                 (b.ListRepos? || b.ReplaceConfigs? || b.PopRepos? || b.PopEntry? || b.PopLock? || b.Notify?))
            && !((a.PopRepos? || a.OpenRecheck?) && (b.PopRepos? || b.OpenRecheck?))
            && !((a.PopEntry? || a.PopLock? || a.SetDefault?) && (b.PopEntry? || b.PopLock? || b.SetDefault?))
  {
    InitialIsSafe(cacheTtl, discoveryTtl);
    EveryRunIsSafe(Initial(cacheTtl, discoveryTtl), run);
  }

  /** Past the check under the dataset's lock, up to the lookup. */
  predicate PastCheck(pc: Pc) {
    pc.OpenCheck? || pc.AwaitOpen? || pc.OpenRecheck? || pc.GetRepo? || pc.LookUp?
  }

  predicate FoundStale(d: Fields, w: World, th: Thread) {
    PastCheck(th.pc) && th.pc.entry.Some? ==>
      th.pc.entry.value < |d.entries| && w.now - d.entries[th.pc.entry.value].checkedAt >= w.cacheTtl
  }

  /** Whoever is past that check for a dataset that is not evicted has found its entry stale, and nobody stamped it since. */
  ghost predicate AllFoundStale(s: State) {
    forall t :: t in s.threads && s.threads[t].request.Some? && Owner(s.threads[t].request.value) !in s.history.evicted ==>
      FoundStale(s.data, s.world, s.threads[t])
  }

  lemma OwnCheck(s: State, th: Thread, c: Choice)
    requires CanRun(s, th, c) && FoundStale(s.data, s.world, th)
    ensures Serving(th.pc) ==> FoundStale(ServeData(s, th, c), s.world, th.(pc := ServePc(s, th, c)))
    ensures Refreshing(th.pc) ==> FoundStale(RefreshData(s, th.pc, c), s.world, th.(pc := RefreshPc(s, th, c)))
  {
  }

  lemma WhoStampsEntries(s: State, th: Thread, c: Choice, e: nat)
    requires CanRun(s, th, c) && e < |s.data.entries|
    requires Serving(th.pc) && th.pc.Stamp? ==> th.pc.hit != e
    ensures Serving(th.pc) ==> e < |ServeData(s, th, c).entries| && ServeData(s, th, c).entries[e] == s.data.entries[e]
    ensures RefreshData(s, th.pc, c).entries == s.data.entries
  {
  }

  lemma OthersCheck(s: State, a: Action, u: Tid)
    requires Sound(s) && Enabled(s, a) && a.Run? && u in s.threads && u != a.t && FoundStale(s.data, s.world, s.threads[u])
    requires s.threads[u].request.Some? && Owner(s.threads[u].request.value) !in s.history.evicted
    ensures FoundStale(Step(s, a).data, Step(s, a).world, s.threads[u])
  {
    var th, other := s.threads[a.t], s.threads[u];
    if PastCheck(other.pc) && other.pc.entry.Some? {
      if th.pc.Stamp? { StampsAnother(s, a.t, u); }
      EntryStays(s, a, other.pc.entry.value);
    }
  }

  lemma EntryStays(s: State, a: Action, e: nat)
    requires Enabled(s, a) && a.Run? && e < |s.data.entries|
    requires s.threads[a.t].pc.Stamp? ==> s.threads[a.t].pc.hit != e
    ensures e < |Step(s, a).data.entries| && Step(s, a).data.entries[e] == s.data.entries[e]
    ensures Step(s, a).world == s.world
  {
    WhoStampsEntries(s, s.threads[a.t], a.choice, e);
  }

  /** Two threads at entries of a dataset that is not evicted are at different ones: they cannot both be inside. */
  lemma StampsAnother(s: State, t: Tid, u: Tid)
    requires Sound(s) && t in s.threads && u in s.threads && t != u
    requires s.threads[t].pc.Stamp? && PastCheck(s.threads[u].pc) && s.threads[u].pc.entry.Some?
    requires s.threads[u].request.Some? && Owner(s.threads[u].request.value) !in s.history.evicted
    ensures s.threads[t].pc.hit != s.threads[u].pc.entry.value
  {
    assert ThreadOk(s.data, s.world, s.threads[t]) && ThreadOk(s.data, s.world, s.threads[u]);
    if s.threads[t].request == s.threads[u].request {
      InsideHoldsTheLock(s, t, s.threads[u].request.value);
      InsideHoldsTheLock(s, u, s.threads[u].request.value);
    }
  }

  lemma AllFoundStaleStep(s: State, a: Action)
    requires Sound(s) && AllFoundStale(s) && Enabled(s, a)
    ensures AllFoundStale(Step(s, a))
  {
    var s' := Step(s, a);
    EvictionsOkStep(s, a);
    if a.Run? {
      var th := s.threads[a.t];
      forall u | u in s'.threads && s'.threads[u].request.Some? && Owner(s'.threads[u].request.value) !in s'.history.evicted
        ensures FoundStale(s'.data, s'.world, s'.threads[u])
      {
        assert s'.threads[u].request == s.threads[u].request;
        if u == a.t { OwnCheck(s, th, a.choice); } else { OthersCheck(s, a, u); }
      }
    }
  }

  lemma {:induction false} RunsFindStale(s: State, run: seq<Action>)
    requires Safe(s) && AllFoundStale(s) && Runs(s, run)
    ensures AllFoundStale(After(s, run))
    decreases |run|
  {
    if run != [] {
      SafeStep(s, run[0]);
      AllFoundStaleStep(s, run[0]);
      RunsFindStale(Step(s, run[0]), run[1..]);
    }
  }

  /**
   * In every reachable state, a thread that is about to look the tip up for a dataset that is not evicted finds nothing
   * cached for it, or an entry stamped at least the TTL ago: a thread that waited while another looked the tip up, with
   * or without success, or loaded, serves what is cached.
   */
  lemma LooksUpOnlyStale(cacheTtl: real, discoveryTtl: real, run: seq<Action>, t: Tid, id: string)
    requires Runs(Initial(cacheTtl, discoveryTtl), run)
    requires var s := After(Initial(cacheTtl, discoveryTtl), run);
             t in s.threads && s.threads[t].request == Some(id) && s.threads[t].pc.LookUp? && Owner(id) !in s.history.evicted
    ensures var s := After(Initial(cacheTtl, discoveryTtl), run);
            s.threads[t].pc.entry == (if id in s.data.cache then Some(s.data.cache[id]) else None) &&
            (id in s.data.cache ==>
               s.data.cache[id] < |s.data.entries| && s.world.now - s.data.entries[s.data.cache[id]].checkedAt >= cacheTtl)
  {
    InitialIsSafe(cacheTtl, discoveryTtl);
    EveryRunIsSafe(Initial(cacheTtl, discoveryTtl), run);
    RunsFindStale(Initial(cacheTtl, discoveryTtl), run);
    var s := After(Initial(cacheTtl, discoveryTtl), run);
    assert ForwardThread(s.data, s.history, s.threads[t]) && FoundStale(s.data, s.world, s.threads[t]);
    CacheTtlStays(Initial(cacheTtl, discoveryTtl), run);
  }

  lemma {:induction false} CacheTtlStays(s: State, run: seq<Action>)
    requires Runs(s, run)
    ensures After(s, run).world.cacheTtl == s.world.cacheTtl
    decreases |run|
  {
    if run != [] { CacheTtlStays(Step(s, run[0]), run[1..]); }
  }
}
