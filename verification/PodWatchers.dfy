/** The pod watcher: watch, and on the end of a stream or a failure reconnect and
    resynchronise, until cancelled. */
module PodWatchers {
  import opened Backoff
  import opened CacheWrites
  import opened Common
  import opened Health
  import opened PodCaches
  import opened PodTable
  import opened Watcher

  datatype WatchEvent =
    | Applied(host: Host, pod: Pod)
    | InitApplied(host: Host, pod: Pod)
    | Deleted(pod: Pod)
    | Init
    | InitDone

  /** One round of the loop: the events of one stream, whether it ended cleanly, the clock
      reading for the jitter, and the pod list fetched afterwards, if fetching it worked. */
  datatype Attempt = Attempt(
    events: seq<WatchEvent>,
    endedCleanly: bool,
    nanos: nat,
    resyncHost: Host,
    listed: Option<seq<Pod>>)

  function EventOps(event: WatchEvent): seq<CacheOp> {
    match event
    case Applied(host, pod) => ApplyOps(host, pod)
    case InitApplied(host, pod) => ApplyOps(host, pod)
    case Deleted(pod) => DeleteOps(pod)
    case Init => []
    case InitDone => []
  }

  function StreamOps(events: seq<WatchEvent>): seq<CacheOp> {
    if events == [] then [] else StreamOps(events[..|events| - 1]) + EventOps(events[|events| - 1])
  }

  function AttemptOps(a: Attempt): seq<CacheOp> {
    StreamOps(a.events) + match a.listed case Some(pods) => ResyncOps(a.resyncHost, pods) case None => []
  }

  /** The cache operations of a whole run of the watcher. */
  function RunOps(attempts: seq<Attempt>): seq<CacheOp> {
    if attempts == [] then [] else RunOps(attempts[..|attempts| - 1]) + AttemptOps(attempts[|attempts| - 1])
  }

  /** How many attempts at the end of `attempts` failed in a row. */
  function FailuresInARow(attempts: seq<Attempt>): nat {
    if attempts == [] || attempts[|attempts| - 1].endedCleanly then 0
    else FailuresInARow(attempts[..|attempts| - 1]) + 1
  }

  /** The delays of a run: none after a clean end, otherwise set by the failures directly
      before. */
  function Delays(min: nat, max: nat, attempts: seq<Attempt>): (delays: seq<Option<nat>>)
    ensures |delays| == |attempts|
  {
    if attempts == [] then [] else
      var before, last := attempts[..|attempts| - 1], attempts[|attempts| - 1];
      Delays(min, max, before)
      + [if last.endedCleanly then None else Some(Wait(Base(min, max, FailuresInARow(before)), last.nanos))]
  }

  /** Whether the watcher counts as connected after a run, given whether it did before. A failed
      stream disconnects it; the end of an initial list or a resync connects it. */
  predicate Connected(before: bool, attempts: seq<Attempt>) {
    if attempts == [] then before else
      var was, last := Connected(before, attempts[..|attempts| - 1]), attempts[|attempts| - 1];
      last.listed.Some? || (last.endedCleanly && (was || InitDone in last.events))
  }

  /** An attempt that connects the watcher: it fetched the pod list, or its stream finished an
      initial list and ended cleanly. */
  predicate Connects(a: Attempt) { a.listed.Some? || (a.endedCleanly && InitDone in a.events) }

  /** Connected by attempt `i`, or before the first one, and not disconnected since. */
  predicate ConnectedSince(before: bool, attempts: seq<Attempt>, i: nat) {
    && i <= |attempts|
    && (if i == 0 then before else Connects(attempts[i - 1]))
    && forall j | i <= j < |attempts| :: attempts[j].endedCleanly || attempts[j].listed.Some?
  }

  /** The watcher counts as connected after a run exactly when some attempt connected it, or it
      was before, and no stream has failed without a successful listing since. */
  lemma {:induction false} ConnectedIff(before: bool, attempts: seq<Attempt>)
    ensures Connected(before, attempts) <==> exists i: nat :: ConnectedSince(before, attempts, i)
  {
    if attempts == [] {
      assert ConnectedSince(before, attempts, 0) <==> before;
    } else {
      var n := |attempts| - 1;
      ConnectedIff(before, attempts[..n]);
      assert ConnectedSince(before, attempts, n + 1) <==> Connects(attempts[n]);
      forall i: nat | i <= n
        ensures ConnectedSince(before, attempts, i) <==>
                ConnectedSince(before, attempts[..n], i) && (attempts[n].endedCleanly || attempts[n].listed.Some?)
      {
        assert i > 0 ==> attempts[..n][i - 1] == attempts[i - 1];
        assert forall j | i <= j < n :: attempts[..n][j] == attempts[j];
      }
    }
  }

  /** What one more attempt adds to the operations, the failures and the delays. */
  lemma OneMoreAttempt(maxEntries: nat, c: Cache, min: nat, max: nat, attempts: seq<Attempt>, n: nat)
    requires n < |attempts|
    ensures ApplyAll(maxEntries, c, RunOps(attempts[..n + 1]))
            == ApplyAll(maxEntries, ApplyAll(maxEntries, c, RunOps(attempts[..n])), AttemptOps(attempts[n]))
    ensures var a, backoff := attempts[n], Base(min, max, FailuresInARow(attempts[..n]));
            && Base(min, max, FailuresInARow(attempts[..n + 1])) == (if a.endedCleanly then min else Min(backoff * 2, max))
            && Delays(min, max, attempts[..n + 1])
               == Delays(min, max, attempts[..n]) + [if a.endedCleanly then None else Some(Wait(backoff, a.nanos))]
  {
    assert attempts[..n + 1][..n] == attempts[..n];
    BaseDoubles(min, max, FailuresInARow(attempts[..n]));
    ApplyAllAppend(maxEntries, c, RunOps(attempts[..n]), AttemptOps(attempts[n]));
  }

  class PodWatcher {
    const cache: PodCache
    const health: HealthState
    const backoffMin: nat
    const backoffMax: nat

    constructor (cache: PodCache, health: HealthState, backoffMin: nat, backoffMax: nat)
      ensures this.cache == cache && this.health == health
      ensures this.backoffMin == backoffMin && this.backoffMax == backoffMax
    {
      this.cache, this.health := cache, health;
      this.backoffMin, this.backoffMax := backoffMin, backoffMax;
    }

    method HandlePodApply(host: Host, pod: Pod)
      modifies cache, cache.health`podCacheAtCapacity, cache.health`podCacheEvictions
      ensures cache.Contents() == ApplyAll(cache.maxEntries, old(cache.Contents()), ApplyOps(host, pod))
    {
      var podUid := OrElse(pod.uid, "");
      if podUid == "" {
        return;
      }
      if pod.status.None? {
        return;
      }
      ghost var before := cache.Contents();
      if PodIp(pod).Some? {
        cache.InsertByIp(MetadataOf(pod, "", ""));
        ApplyOne(cache.maxEntries, before, CacheOp.InsertByIp(MetadataOf(pod, "", "")));
      }
      HandleContainers(host, pod, OrElse(pod.status.value.containers, []));
      ApplyAllAppend(cache.maxEntries, before, IpOps(pod),
                     ContainerOps(host, pod, OrElse(pod.status.value.containers, [])));
    }

    method HandleContainers(host: Host, pod: Pod, containers: seq<ContainerStatus>)
      modifies cache, cache.health`podCacheAtCapacity, cache.health`podCacheEvictions
      ensures cache.Contents() == ApplyAll(cache.maxEntries, old(cache.Contents()), ContainerOps(host, pod, containers))
    {
      ghost var before := cache.Contents();
      for i := 0 to |containers|
        invariant cache.Contents() == ApplyAll(cache.maxEntries, before, ContainerOps(host, pod, containers[..i]))
      {
        assert containers[..i + 1][..i] == containers[..i];
        var cs := containers[i];
        ghost var soFar := cache.Contents();
        ApplyAllAppend(cache.maxEntries, before, ContainerOps(host, pod, containers[..i]), ContainerOp(host, pod, cs));
        if cs.containerId.None? {
          continue;
        }
        var cgroup := host.Resolve(PodUid(pod), cs.containerId.value);
        if cgroup.Some? {
          cache.Insert(cgroup.value, MetadataOf(pod, cs.name, cs.containerId.value));
          ApplyOne(cache.maxEntries, soFar, CacheOp.Insert(cgroup.value, MetadataOf(pod, cs.name, cs.containerId.value)));
        }
      }
      assert containers[..|containers|] == containers;
    }

    method HandlePodDelete(pod: Pod)
      modifies cache, cache.health`podCacheAtCapacity
      ensures cache.Contents() == ApplyAll(cache.maxEntries, old(cache.Contents()), DeleteOps(pod))
    {
      var podUid := OrElse(pod.uid, "");
      if podUid != "" {
        cache.RemovePod(podUid);
        ApplyOne(cache.maxEntries, old(cache.Contents()), CacheOp.RemovePod(podUid));
      }
    }

    method ResyncAll(host: Host, listed: Option<seq<Pod>>)
      modifies cache, cache.health`podCacheAtCapacity, cache.health`podCacheEvictions, health`k8sWatcherConnected
      ensures cache.Contents() == ApplyAll(cache.maxEntries, old(cache.Contents()),
                                           match listed case Some(pods) => ResyncOps(host, pods) case None => [])
      ensures health.k8sWatcherConnected == (listed.Some? || old(health.k8sWatcherConnected))
    {
      if listed.None? {
        return;
      }
      var pods := listed.value;
      ghost var before := cache.Contents();
      for i := 0 to |pods|
        invariant cache.Contents() == ApplyAll(cache.maxEntries, before, ResyncOps(host, pods[..i]))
        invariant health.k8sWatcherConnected == old(health.k8sWatcherConnected)
      {
        assert pods[..i + 1][..i] == pods[..i];
        ApplyAllAppend(cache.maxEntries, before, ResyncOps(host, pods[..i]), ApplyOps(host, pods[i]));
        HandlePodApply(host, pods[i]);
      }
      assert pods[..|pods|] == pods;
      health.SetK8sWatcherConnected(true);
    }

    method HandleEvent(event: WatchEvent)
      modifies cache, cache.health`podCacheAtCapacity, cache.health`podCacheEvictions, health`k8sWatcherConnected
      ensures cache.Contents() == ApplyAll(cache.maxEntries, old(cache.Contents()), EventOps(event))
      ensures health.k8sWatcherConnected == (old(health.k8sWatcherConnected) || event == InitDone)
    {
      match event {
        case Applied(host, pod) => HandlePodApply(host, pod);
        case InitApplied(host, pod) => HandlePodApply(host, pod);
        case Deleted(pod) => HandlePodDelete(pod);
        case Init =>
        case InitDone => health.SetK8sWatcherConnected(true);
      }
    }

    method WatchPods(events: seq<WatchEvent>)
      modifies cache, cache.health`podCacheAtCapacity, cache.health`podCacheEvictions, health`k8sWatcherConnected
      ensures cache.Contents() == ApplyAll(cache.maxEntries, old(cache.Contents()), StreamOps(events))
      ensures health.k8sWatcherConnected == (old(health.k8sWatcherConnected) || InitDone in events)
    {
      ghost var before := cache.Contents();
      for i := 0 to |events|
        invariant cache.Contents() == ApplyAll(cache.maxEntries, before, StreamOps(events[..i]))
        invariant health.k8sWatcherConnected == (old(health.k8sWatcherConnected) || InitDone in events[..i])
      {
        assert events[..i + 1][..i] == events[..i];
        ApplyAllAppend(cache.maxEntries, before, StreamOps(events[..i]), EventOps(events[i]));
        HandleEvent(events[i]);
      }
      assert events[..|events|] == events;
    }

    /** One round of the loop: the delay taken, and the backoff for the next failure. */
    method RunAttempt(a: Attempt, backoff: nat) returns (delay: Option<nat>, next: nat)
      modifies cache, cache.health`podCacheAtCapacity, cache.health`podCacheEvictions, health`k8sWatcherConnected
      ensures cache.Contents() == ApplyAll(cache.maxEntries, old(cache.Contents()), AttemptOps(a))
      ensures delay == if a.endedCleanly then None else Some(Wait(backoff, a.nanos))
      ensures next == if a.endedCleanly then backoffMin else Min(backoff * 2, backoffMax)
      ensures health.k8sWatcherConnected ==
              (a.listed.Some? || (a.endedCleanly && (old(health.k8sWatcherConnected) || InitDone in a.events)))
    {
      ghost var before := cache.Contents();
      WatchPods(a.events);
      if a.endedCleanly {
        delay, next := None, backoffMin;
      } else {
        health.SetK8sWatcherConnected(false);
        delay, next := Some(Wait(backoff, a.nanos)), Min(backoff * 2, backoffMax);
      }
      ResyncAll(a.resyncHost, a.listed);
      ApplyAllAppend(cache.maxEntries, before, StreamOps(a.events),
                     match a.listed case Some(pods) => ResyncOps(a.resyncHost, pods) case None => []);
    }

    /** Runs through `attempts`, the last of which ends with cancellation. `delays` holds, for
        each attempt, how long the watcher slept after it. */
    method Run(attempts: seq<Attempt>) returns (delays: seq<Option<nat>>)
      modifies cache, cache.health`podCacheAtCapacity, cache.health`podCacheEvictions, health`k8sWatcherConnected
      ensures cache.Contents() == ApplyAll(cache.maxEntries, old(cache.Contents()), RunOps(attempts))
      ensures delays == Delays(backoffMin, backoffMax, attempts)
      ensures health.k8sWatcherConnected == Connected(old(health.k8sWatcherConnected), attempts)
    {
      delays := [];
      var backoff := backoffMin;
      ghost var before := cache.Contents();
      for n := 0 to |attempts|
        invariant cache.Contents() == ApplyAll(cache.maxEntries, before, RunOps(attempts[..n]))
        invariant backoff == Base(backoffMin, backoffMax, FailuresInARow(attempts[..n]))
        invariant delays == Delays(backoffMin, backoffMax, attempts[..n])
        invariant health.k8sWatcherConnected == Connected(old(health.k8sWatcherConnected), attempts[..n])
      {
        OneMoreAttempt(cache.maxEntries, before, backoffMin, backoffMax, attempts, n);
        assert attempts[..n + 1][..n] == attempts[..n];
        var delay, next := RunAttempt(attempts[n], backoff);
        delays, backoff := delays + [delay], next;
      }
      assert attempts[..|attempts|] == attempts;
    }
  }

  lemma {:induction false} DelayAt(min: nat, max: nat, attempts: seq<Attempt>, i: nat)
    requires i < |attempts|
    ensures Delays(min, max, attempts)[i] ==
            if attempts[i].endedCleanly then None
            else Some(Wait(Base(min, max, FailuresInARow(attempts[..i])), attempts[i].nanos))
  {
    if i < |attempts| - 1 {
      DelayAt(min, max, attempts[..|attempts| - 1], i);
      assert attempts[..|attempts| - 1][..i] == attempts[..i];
    }
  }

  /** Every delay lies between the capped doubling of the minimum, counted in failures since
      the last clean end, and five quarters of it. */
  lemma DelaysFollowFailures(min: nat, max: nat, attempts: seq<Attempt>, i: nat)
    requires i < |attempts| && min <= max
    ensures var base := Min(min * Pow2(FailuresInARow(attempts[..i])), max);
            match Delays(min, max, attempts)[i]
            case None => attempts[i].endedCleanly
            case Some(delay) => !attempts[i].endedCleanly && base <= delay && 4 * delay <= 5 * base
  {
    var k := FailuresInARow(attempts[..i]);
    BaseIsCapped(min, max);
    DelayAt(min, max, attempts, i);
    assert Base(min, max, k) == Min(min * Pow2(k), max);
    WaitWithinQuarter(Base(min, max, k), attempts[i].nanos);
  }
}
