/** The provider's threads never deadlock, every step is progress, and any state can be run to completion. */
module ProviderThreadsProgress {
  import opened DatasetIds
  import opened ProviderThreads
  import opened ProviderThreadsSafety
  import opened ProviderThreadsRuns

  /** Waiting for a lock that some thread holds. */
  predicate Blocked(held: Held, pc: Pc) {
    match pc
    case AwaitDiscovery => held.discovery.Some?
    case AwaitRepos(_) => held.mutex.Some?
    case AwaitOpen(_, _) => held.mutex.Some?
    case AwaitCache(_) => held.cacheMutex.Some?
    case AwaitCacheForLock => held.cacheMutex.Some?
    case AwaitDataset(l) => l in held.owners
    case _ => false
  }

  /** Only waiting for a held lock can stop a thread, whatever the environment answers. */
  lemma OnlyLocksBlock(s: State, th: Thread, ok: bool, names: seq<string>) returns (c: Choice)
    requires ThreadOk(s.data, s.world, th) && !th.pc.Done? && !Blocked(s.held, th.pc) && NamesOk(names)
    requires th.pc.LookUp? && ok ==> Tips(s.world, Owner(th.request.value)) != []
    ensures c.ok == ok && c.names == names && CanRun(s, th, c)
  {
    c := Choice(ok, names, "");
    if th.pc.PopRepos? && th.pc.rest != {} {
      var n :| n in th.pc.rest;
      c := c.(pick := n);
    } else if th.pc.PopEntry? && th.pc.ids != {} {
      var id :| id in th.pc.ids;
      c := c.(pick := id);
    }
  }

  /** Whoever holds `_lock` or `_cache_lock` waits for nothing. */
  lemma LeafLocksAreReleased(held: Held, threads: map<Tid, Thread>, t: Tid) returns (u: Tid)
    requires LocksHeld(held, threads) && t in threads
    requires Blocked(held, threads[t].pc) && !threads[t].pc.AwaitDiscovery? && !threads[t].pc.AwaitDataset?
    ensures u in threads && !threads[u].pc.Done? && !Blocked(held, threads[u].pc)
  {
    u := if threads[t].pc.AwaitRepos? || threads[t].pc.AwaitOpen? then held.mutex.value else held.cacheMutex.value;
  }

  /** Whoever holds the discovery lock or a dataset's lock waits at most for `_lock` or `_cache_lock`. */
  lemma OuterHolder(held: Held, threads: map<Tid, Thread>, t: Tid) returns (u: Tid)
    requires LocksHeld(held, threads) && t in threads
    requires Blocked(held, threads[t].pc) && (threads[t].pc.AwaitDiscovery? || threads[t].pc.AwaitDataset?)
    ensures u in threads && !threads[u].pc.Done? && !threads[u].pc.AwaitDiscovery? && !threads[u].pc.AwaitDataset?
  {
    u := if threads[t].pc.AwaitDiscovery? then held.discovery.value else held.owners[threads[t].pc.lock];
  }

  /**
   * Locks are taken in rank order (discovery and per-dataset locks before `_lock` and `_cache_lock`), so from any
   * unfinished thread a chain of holders leads to one that can run.
   */
  lemma NoDeadlock(s: State, waiting: Tid) returns (t: Tid)
    requires Safe(s) && waiting in s.threads && !s.threads[waiting].pc.Done?
    ensures t in s.threads && !s.threads[t].pc.Done? && !Blocked(s.held, s.threads[t].pc)
  {
    t := waiting;
    if Blocked(s.held, s.threads[t].pc) && (s.threads[t].pc.AwaitDiscovery? || s.threads[t].pc.AwaitDataset?) {
      t := OuterHolder(s.held, s.threads, t);
    }
    if Blocked(s.held, s.threads[t].pc) {
      t := LeafLocksAreReleased(s.held, s.threads, t);
    }
  }

  // ----- Progress -----

  /** How far a thread is from done; only the loops of `_evict` stay at one stage. */
  function Stage(pc: Pc): nat {
    match pc
    case CheckFresh => 30
    case AwaitDiscovery => 29
    case RecheckFresh => 28
    case ListRepos => 27
    case ReplaceConfigs(_, _) => 26
    case AwaitRepos(_) => 25
    case PopRepos(_, _) => 24
    case AwaitCache(_) => 23
    case PopEntry(_) => 22
    case PopLock(_, _) => 22
    case Notify(_) => 21
    case ReturnLocked => 20
    case ReadConfigs => 19
    case FastGet => 18
    case FastCheck(_) => 17
    case AwaitCacheForLock => 16
    case SetDefault => 15
    case AwaitDataset(_) => 14
    case SlowGet(_) => 13
    case SlowCheck(_, _) => 12
    case OpenCheck(_, _) => 11
    case AwaitOpen(_, _) => 10
    case OpenRecheck(_, _) => 9
    case GetRepo(_, _) => 8
    case LookUp(_, _) => 7
    case Load(_, _, _, _) => 6
    case Store(_, _) => 5
    case Stamp(_, _) => 4
    case Release(_, _) => 3
    case Done(_) => 0
  }

  function Remaining(pc: Pc): nat {
    match pc
    case PopRepos(_, rest) => |rest|
    case PopEntry(ids) => 2 * |ids|
    case PopLock(_, ids) => 2 * |ids| + 1
    case _ => 0
  }

  lemma RefreshIsProgress(s: State, th: Thread, c: Choice)
    requires CanRun(s, th, c) && Refreshing(th.pc)
    ensures Stage(RefreshPc(s, th, c)) < Stage(th.pc) ||
            (Stage(RefreshPc(s, th, c)) == Stage(th.pc) && Remaining(RefreshPc(s, th, c)) < Remaining(th.pc))
  {
  }

  lemma ServeIsProgress(s: State, th: Thread, c: Choice)
    requires CanRun(s, th, c) && Serving(th.pc)
    ensures Stage(ServePc(s, th, c)) < Stage(th.pc)
  {
  }

  /** The sum of a measure over all threads. */
  ghost function Total(threads: map<Tid, Thread>, measure: Pc -> nat): nat {
    if threads == map[] then 0
    else
      var t :| t in threads;
      measure(threads[t].pc) + Total(threads - {t}, measure)
  }

  lemma {:induction false} TotalSplits(threads: map<Tid, Thread>, measure: Pc -> nat, t: Tid)
    requires t in threads
    ensures Total(threads, measure) == measure(threads[t].pc) + Total(threads - {t}, measure)
  {
    var u :| u in threads && Total(threads, measure) == measure(threads[u].pc) + Total(threads - {u}, measure);
    if u != t {
      TotalSplits(threads - {u}, measure, t);
      TotalSplits(threads - {t}, measure, u);
      assert threads - {u} - {t} == threads - {t} - {u};
    }
  }

  lemma TotalMoves(threads: map<Tid, Thread>, measure: Pc -> nat, t: Tid, th: Thread)
    requires t in threads
    ensures Total(threads[t := th], measure) + measure(threads[t].pc) == Total(threads, measure) + measure(th.pc)
  {
    TotalSplits(threads, measure, t);
    TotalSplits(threads[t := th], measure, t);
    assert threads[t := th] - {t} == threads - {t};
  }

  /** Every step of any thread lowers the work left, so no schedule of finitely many threads runs forever. */
  lemma EveryStepIsProgress(s: State, a: Action)
    requires Enabled(s, a) && a.Run?
    ensures Total(Step(s, a).threads, Stage) < Total(s.threads, Stage) ||
            (Total(Step(s, a).threads, Stage) == Total(s.threads, Stage) &&
             Total(Step(s, a).threads, Remaining) < Total(s.threads, Remaining))
  {
    var th := s.threads[a.t];
    var th' := Step(s, a).threads[a.t];
    if Refreshing(th.pc) { RefreshIsProgress(s, th, a.choice); } else { ServeIsProgress(s, th, a.choice); }
    TotalMoves(s.threads, Stage, a.t, th');
    TotalMoves(s.threads, Remaining, a.t, th');
  }

  ghost predicate AllDone(s: State) {
    forall t :: t in s.threads ==> s.threads[t].pc.Done?
  }

  /** From every safe state the threads alone can run until all of them are done, even if every call out fails. */
  lemma {:induction false} CanFinish(s: State) returns (run: seq<Action>)
    requires Safe(s)
    ensures Runs(s, run) && AllDone(After(s, run))
    ensures forall a :: a in run ==> a.Run? && !a.choice.ok
    decreases Total(s.threads, Stage), Total(s.threads, Remaining)
  {
    if AllDone(s) {
      run := [];
    } else {
      var waiting :| waiting in s.threads && !s.threads[waiting].pc.Done?;
      var t := NoDeadlock(s, waiting);
      assert ThreadOk(s.data, s.world, s.threads[t]);
      var c := OnlyLocksBlock(s, s.threads[t], false, []);
      var a := Run(t, c);
      EveryStepIsProgress(s, a);
      SafeStep(s, a);
      var rest := CanFinish(Step(s, a));
      run := [a] + rest;
      assert run[1..] == rest;
    }
  }
}
