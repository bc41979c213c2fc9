/** What whole runs of the watcher do to the cache: a deleted pod is forgotten until it is
    applied or listed again, and an applied pod keeps its address until the pod is deleted or
    another pod claims that address. */
module WatcherRuns {
  import opened Backoff
  import opened CacheWrites
  import opened Common
  import opened PodTable
  import opened PodWatchers
  import opened Watcher

  // ---------- The operations of a run around one of its events ----------

  function ListedOps(a: Attempt): seq<CacheOp> {
    match a.listed
    case Some(pods) => ResyncOps(a.resyncHost, pods)
    case None => []
  }

  lemma StreamOpsNext(events: seq<WatchEvent>, last: WatchEvent)
    ensures StreamOps(events + [last]) == StreamOps(events) + EventOps(last)
  {
    assert (events + [last])[..|events|] == events;
  }

  lemma StreamOpsAppendOne(a: seq<WatchEvent>, rest: seq<WatchEvent>, last: WatchEvent)
    requires StreamOps(a + rest) == StreamOps(a) + StreamOps(rest)
    ensures StreamOps(a + (rest + [last])) == StreamOps(a) + StreamOps(rest + [last])
  {
    ConcatAssociates(a, rest, [last]);
    StreamOpsNext(a + rest, last);
    StreamOpsNext(rest, last);
    ConcatAssociates(StreamOps(a), StreamOps(rest), EventOps(last));
  }

  lemma {:induction false} StreamOpsAppend(a: seq<WatchEvent>, b: seq<WatchEvent>)
    ensures StreamOps(a + b) == StreamOps(a) + StreamOps(b)
  {
    if b == [] {
      assert a + b == a;
    } else {
      var rest, last := b[..|b| - 1], b[|b| - 1];
      assert b == rest + [last];
      StreamOpsAppend(a, rest);
      StreamOpsAppendOne(a, rest, last);
    }
  }

  lemma StreamOpsAround(before: seq<WatchEvent>, e: WatchEvent, after: seq<WatchEvent>)
    ensures StreamOps(before + [e] + after) == StreamOps(before) + EventOps(e) + StreamOps(after)
  {
    StreamOpsAppend(before + [e], after);
    StreamOpsNext(before, e);
  }

  lemma RunOpsNext(attempts: seq<Attempt>, last: Attempt)
    ensures RunOps(attempts + [last]) == RunOps(attempts) + AttemptOps(last)
  {
    assert (attempts + [last])[..|attempts|] == attempts;
  }

  lemma RunOpsAppendOne(a: seq<Attempt>, rest: seq<Attempt>, last: Attempt)
    requires RunOps(a + rest) == RunOps(a) + RunOps(rest)
    ensures RunOps(a + (rest + [last])) == RunOps(a) + RunOps(rest + [last])
  {
    ConcatAssociates(a, rest, [last]);
    RunOpsNext(a + rest, last);
    RunOpsNext(rest, last);
    ConcatAssociates(RunOps(a), RunOps(rest), AttemptOps(last));
  }

  lemma {:induction false} RunOpsAppend(a: seq<Attempt>, b: seq<Attempt>)
    ensures RunOps(a + b) == RunOps(a) + RunOps(b)
  {
    if b == [] {
      assert a + b == a;
    } else {
      var rest, last := b[..|b| - 1], b[|b| - 1];
      assert b == rest + [last];
      RunOpsAppend(a, rest);
      RunOpsAppendOne(a, rest, last);
    }
  }

  lemma RunOpsAround(before: seq<Attempt>, a: Attempt, after: seq<Attempt>)
    ensures RunOps(before + [a] + after) == RunOps(before) + AttemptOps(a) + RunOps(after)
  {
    RunOpsAppend(before + [a], after);
    RunOpsNext(before, a);
  }

  /** One event of a run: the attempts before the one it arrives in, that attempt, the events
      before and after it there, and the attempts that follow. */
  datatype Moment = Moment(
    before: seq<Attempt>,
    attempt: Attempt,
    earlier: seq<WatchEvent>,
    event: WatchEvent,
    later: seq<WatchEvent>,
    after: seq<Attempt>)
  {
    predicate Valid() { attempt.events == earlier + [event] + later }

    function Attempts(): seq<Attempt> { before + [attempt] + after }

    /** The cache just before the event. */
    function CacheThen(max: nat, c: Cache): Cache { ApplyAll(max, c, RunOps(before) + StreamOps(earlier)) }

    /** What is done to the cache after the event. */
    function LaterOps(): seq<CacheOp> { StreamOps(later) + ListedOps(attempt) + RunOps(after) }
  }

  lemma SeqAround(b: seq<CacheOp>, x: seq<CacheOp>, e: seq<CacheOp>, y: seq<CacheOp>, z: seq<CacheOp>, w: seq<CacheOp>)
    ensures b + (x + e + y + z) + w == (b + x) + e + (y + z + w)
  {
  }

  lemma RunAround(max: nat, c: Cache, m: Moment)
    requires m.Valid()
    ensures ApplyAll(max, c, RunOps(m.Attempts()))
            == ApplyAll(max, ApplyAll(max, m.CacheThen(max, c), EventOps(m.event)), m.LaterOps())
  {
    var b, x, e, y := RunOps(m.before), StreamOps(m.earlier), EventOps(m.event), StreamOps(m.later);
    var z, w := ListedOps(m.attempt), RunOps(m.after);
    RunOpsAround(m.before, m.attempt, m.after);
    StreamOpsAround(m.earlier, m.event, m.later);
    SeqAround(b, x, e, y, z, w);
    ApplyAllAppend(max, c, b + x + e, y + z + w);
    ApplyAllAppend(max, c, b + x, e);
  }

  // ---------- Deleted pods ----------

  /** The event tells of a pod with this uid. */
  predicate Brings(e: WatchEvent, uid: string) { (e.Applied? || e.InitApplied?) && e.pod.uid == Some(uid) }

  predicate Lists(a: Attempt, uid: string) { a.listed.Some? && exists p | p in a.listed.value :: p.uid == Some(uid) }

  predicate BringsBack(a: Attempt, uid: string) { (exists e | e in a.events :: Brings(e, uid)) || Lists(a, uid) }

  ghost predicate InsertsNone(ops: seq<CacheOp>, uid: string) { forall op | op in ops :: op.IsInsert() ==> op.md.podUid != uid }

  lemma ApplyInsertsNone(host: Host, pod: Pod, uid: string)
    requires uid != "" && pod.uid != Some(uid)
    ensures InsertsNone(ApplyOps(host, pod), uid)
  {
    ApplyOpsInsert(host, pod);
  }

  lemma {:induction false} StreamInsertsNone(events: seq<WatchEvent>, uid: string)
    requires uid != "" && forall e | e in events :: !Brings(e, uid)
    ensures InsertsNone(StreamOps(events), uid)
  {
    if events != [] {
      var last := events[|events| - 1];
      assert last in events;
      StreamInsertsNone(events[..|events| - 1], uid);
      if last.Applied? || last.InitApplied? {
        ApplyInsertsNone(last.host, last.pod, uid);
      }
    }
  }

  lemma {:induction false} ResyncInsertsNone(host: Host, pods: seq<Pod>, uid: string)
    requires uid != "" && forall p | p in pods :: p.uid != Some(uid)
    ensures InsertsNone(ResyncOps(host, pods), uid)
  {
    if pods != [] {
      var last := pods[|pods| - 1];
      assert last in pods;
      ResyncInsertsNone(host, pods[..|pods| - 1], uid);
      ApplyInsertsNone(host, last, uid);
    }
  }

  lemma ListedInsertsNone(a: Attempt, uid: string)
    requires uid != "" && !Lists(a, uid)
    ensures InsertsNone(ListedOps(a), uid)
  {
    if a.listed.Some? {
      ResyncInsertsNone(a.resyncHost, a.listed.value, uid);
    }
  }

  lemma {:induction false} RunInsertsNone(attempts: seq<Attempt>, uid: string)
    requires uid != "" && forall a | a in attempts :: !BringsBack(a, uid)
    ensures InsertsNone(RunOps(attempts), uid)
  {
    if attempts != [] {
      var last := attempts[|attempts| - 1];
      assert last in attempts;
      RunInsertsNone(attempts[..|attempts| - 1], uid);
      StreamInsertsNone(last.events, uid);
      ListedInsertsNone(last, uid);
    }
  }

  /** However a run went before, once a pod's deletion is reported neither index mentions the
      pod, through all later events, reconnects and resyncs, until the pod is applied or listed
      again. */
  lemma DeletedPodIsForgotten(max: nat, c: Cache, m: Moment, uid: string)
    requires m.Valid() && m.event.Deleted? && m.event.pod.uid == Some(uid) && uid != ""
    requires forall e | e in m.later :: !Brings(e, uid)
    requires !Lists(m.attempt, uid)
    requires forall a | a in m.after :: !BringsBack(a, uid)
    ensures !Mentions(ApplyAll(max, c, RunOps(m.Attempts())), uid)
  {
    RunAround(max, c, m);
    ApplyOne(max, m.CacheThen(max, c), RemovePod(uid));
    StreamInsertsNone(m.later, uid);
    ListedInsertsNone(m.attempt, uid);
    RunInsertsNone(m.after, uid);
    RemovedPodIsForgotten(max, m.CacheThen(max, c), uid, m.LaterOps());
  }

  // ---------- Applied pods ----------

  /** The two pods go by the same namespace, name and uid. */
  predicate SameNames(a: Pod, b: Pod) {
    OrElse(a.namespace, "default") == OrElse(b.namespace, "default") && OrElse(a.name, "unknown") == OrElse(b.name, "unknown")
    && a.uid == b.uid
  }

  /** Applying `p` does not give the address to a pod of another name. */
  predicate SparesAddress(p: Pod, pod: Pod, ip: u32) { PodIp(p) == Some(ip) ==> IsNameless(p) || SameNames(p, pod) }

  /** The event neither deletes the pod nor gives its address to another. */
  predicate Spares(e: WatchEvent, pod: Pod, ip: u32) {
    match e
    case Applied(_, p) => SparesAddress(p, pod, ip)
    case InitApplied(_, p) => SparesAddress(p, pod, ip)
    case Deleted(p) => p.uid != pod.uid
    case Init => true
    case InitDone => true
  }

  predicate ListSpares(a: Attempt, pod: Pod, ip: u32) {
    a.listed.Some? ==> forall p | p in a.listed.value :: SparesAddress(p, pod, ip)
  }

  predicate AttemptSpares(a: Attempt, pod: Pod, ip: u32) {
    (forall e | e in a.events :: Spares(e, pod, ip)) && ListSpares(a, pod, ip)
  }

  ghost predicate NoneTakes(ops: seq<CacheOp>, pod: Pod, ip: u32) {
    forall op | op in ops :: !Takes(op, ip, OrElse(pod.namespace, "default"), OrElse(pod.name, "unknown"), PodUid(pod))
  }

  lemma ApplyTakesNone(host: Host, p: Pod, pod: Pod, ip: u32)
    requires SparesAddress(p, pod, ip)
    ensures NoneTakes(ApplyOps(host, p), pod, ip)
  {
    ApplyOpsInsert(host, p);
  }

  lemma {:induction false} StreamTakesNone(events: seq<WatchEvent>, pod: Pod, ip: u32)
    requires !IsNameless(pod) && forall e | e in events :: Spares(e, pod, ip)
    ensures NoneTakes(StreamOps(events), pod, ip)
  {
    if events != [] {
      var last := events[|events| - 1];
      assert last in events;
      StreamTakesNone(events[..|events| - 1], pod, ip);
      if last.Applied? || last.InitApplied? {
        ApplyTakesNone(last.host, last.pod, pod, ip);
      }
    }
  }

  lemma {:induction false} ResyncTakesNone(host: Host, pods: seq<Pod>, pod: Pod, ip: u32)
    requires forall p | p in pods :: SparesAddress(p, pod, ip)
    ensures NoneTakes(ResyncOps(host, pods), pod, ip)
  {
    if pods != [] {
      var last := pods[|pods| - 1];
      assert last in pods;
      ResyncTakesNone(host, pods[..|pods| - 1], pod, ip);
      ApplyTakesNone(host, last, pod, ip);
    }
  }

  lemma ListedTakesNone(a: Attempt, pod: Pod, ip: u32)
    requires ListSpares(a, pod, ip)
    ensures NoneTakes(ListedOps(a), pod, ip)
  {
    if a.listed.Some? {
      ResyncTakesNone(a.resyncHost, a.listed.value, pod, ip);
    }
  }

  lemma {:induction false} RunTakesNone(attempts: seq<Attempt>, pod: Pod, ip: u32)
    requires !IsNameless(pod) && forall a | a in attempts :: AttemptSpares(a, pod, ip)
    ensures NoneTakes(RunOps(attempts), pod, ip)
  {
    if attempts != [] {
      var last := attempts[|attempts| - 1];
      assert last in attempts;
      RunTakesNone(attempts[..|attempts| - 1], pod, ip);
      StreamTakesNone(last.events, pod, ip);
      ListedTakesNone(last, pod, ip);
    }
  }

  /** However a run went before, once a pod is applied at an address the index accepts, that
      address names the pod through all later events, reconnects and resyncs, until the pod is
      deleted or another pod is applied or listed there. */
  lemma AppliedPodStaysNamed(max: nat, c: Cache, m: Moment, ip: u32)
    requires m.Valid() && (m.event.Applied? || m.event.InitApplied?)
    requires !IsNameless(m.event.pod) && PodIp(m.event.pod) == Some(ip)
    requires var index := m.CacheThen(max, c).byIp; ip in index || |index| < max
    requires forall e | e in m.later :: Spares(e, m.event.pod, ip)
    requires ListSpares(m.attempt, m.event.pod, ip)
    requires forall a | a in m.after :: AttemptSpares(a, m.event.pod, ip)
    ensures var index := ApplyAll(max, c, RunOps(m.Attempts())).byIp;
            ip in index && IsAbout(index[ip], m.event.pod)
  {
    var pod := m.event.pod;
    RunAround(max, c, m);
    AppliedPodIsNamed(max, m.CacheThen(max, c), m.event.host, pod, ip);
    StreamTakesNone(m.later, pod, ip);
    ListedTakesNone(m.attempt, pod, ip);
    RunTakesNone(m.after, pod, ip);
    NamesUntilTaken(max, ApplyAll(max, m.CacheThen(max, c), EventOps(m.event)), ip, OrElse(pod.namespace, "default"),
                    OrElse(pod.name, "unknown"), PodUid(pod), m.LaterOps());
  }

  // ---------- The last listing ----------

  /** A run whose last attempt fetched the pod list ends with that list in force: an address
      that listed pods claim is about the last of them to claim it, if the index holds it. */
  lemma ListedPodIsNamed(max: nat, c: Cache, before: seq<Attempt>, last: Attempt, i: nat, ip: u32)
    requires last.listed.Some? && i < |last.listed.value|
    requires !IsNameless(last.listed.value[i]) && PodIp(last.listed.value[i]) == Some(ip)
    requires forall j | i < j < |last.listed.value| ::
               IsNameless(last.listed.value[j]) || PodIp(last.listed.value[j]) != Some(ip)
    ensures var index := ApplyAll(max, c, RunOps(before + [last])).byIp;
            ip in index ==> IsAbout(index[ip], last.listed.value[i])
  {
    RunOpsNext(before, last);
    ApplyAllAppend(max, c, RunOps(before), AttemptOps(last));
    ApplyAllAppend(max, ApplyAll(max, c, RunOps(before)), StreamOps(last.events), ListedOps(last));
    LastListedIsNamed(max, ApplyAll(max, ApplyAll(max, c, RunOps(before)), StreamOps(last.events)), last.resyncHost,
                      last.listed.value, i, ip);
  }

  // ---------- Failures in a row ----------

  /** The number of failures in a row is what it says: so many attempts at the end failed, and
      the one before them, if any, ended cleanly. */
  lemma {:induction false} FailuresAreInARow(attempts: seq<Attempt>, k: nat)
    ensures FailuresInARow(attempts) == k <==>
            && k <= |attempts|
            && (forall i | |attempts| - k <= i < |attempts| :: !attempts[i].endedCleanly)
            && (k < |attempts| ==> attempts[|attempts| - k - 1].endedCleanly)
  {
    if attempts != [] && !attempts[|attempts| - 1].endedCleanly && k > 0 {
      var prefix := attempts[..|attempts| - 1];
      FailuresAreInARow(prefix, k - 1);
      assert forall i | 0 <= i < |prefix| :: prefix[i] == attempts[i];
    }
  }

  /** The delays of a run, told forwards: the first base is the minimum, a clean end goes back
      to it, a failure doubles it up to the maximum; and each delay taken lies between its base
      and five quarters of that. */
  lemma DelaysDouble(min: nat, max: nat, attempts: seq<Attempt>) returns (bases: seq<nat>)
    ensures |bases| == |attempts| == |Delays(min, max, attempts)|
    ensures attempts != [] ==> bases[0] == min
    ensures forall i | 0 <= i < |attempts| - 1 ::
              bases[i + 1] == if attempts[i].endedCleanly then min else Min(2 * bases[i], max)
    ensures forall i | 0 <= i < |attempts| ::
              match Delays(min, max, attempts)[i]
              case None => attempts[i].endedCleanly
              case Some(delay) => !attempts[i].endedCleanly && bases[i] <= delay && 4 * delay <= 5 * bases[i]
  {
    bases := seq(|attempts|, i requires 0 <= i < |attempts| => Base(min, max, FailuresInARow(attempts[..i])));
    forall i | 0 <= i < |attempts| - 1
      ensures bases[i + 1] == if attempts[i].endedCleanly then min else Min(2 * bases[i], max)
    {
      assert attempts[..i + 1][..i] == attempts[..i];
      BaseDoubles(min, max, FailuresInARow(attempts[..i]));
    }
    forall i | 0 <= i < |attempts|
      ensures match Delays(min, max, attempts)[i]
              case None => attempts[i].endedCleanly
              case Some(delay) => !attempts[i].endedCleanly && bases[i] <= delay && 4 * delay <= 5 * bases[i]
    {
      DelayAt(min, max, attempts, i);
      WaitWithinQuarter(bases[i], attempts[i].nanos);
    }
  }
}
