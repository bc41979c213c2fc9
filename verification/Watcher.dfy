/** What the pod watcher does to the cache for each pod it is told about, and what follows:
    resynchronising twice is resynchronising once, and a late delete of an old pod does not
    disturb the new owner of its address. */
module Watcher {
  import opened CacheWrites
  import opened Cgroup
  import opened Common
  import opened Ipv4
  import opened PodTable

  datatype ContainerStatus = ContainerStatus(name: string, containerId: Option<string>)

  datatype PodStatus = PodStatus(podIp: Option<string>, containers: Option<seq<ContainerStatus>>)

  datatype Pod = Pod(
    namespace: Option<string>,
    name: Option<string>,
    uid: Option<string>,
    status: Option<PodStatus>)

  function OrElse<T>(o: Option<T>, default: T): T {
    match o
    case Some(v) => v
    case None => default
  }

  function PodUid(pod: Pod): string { OrElse(pod.uid, "") }

  /** The address a pod claims: its status text, if it parses. */
  function PodIp(pod: Pod): Option<u32> {
    match pod.status
    case None => None
    case Some(status) => (match status.podIp case None => None case Some(text) => ParseIpv4(text))
  }

  function MetadataOf(pod: Pod, containerName: string, containerId: string): PodMetadata {
    PodMetadata(OrElse(pod.namespace, "default"), OrElse(pod.name, "unknown"), PodUid(pod),
                containerName, containerId, PodIp(pod))
  }

  /** `md` is about this pod, under the names the API gives it, or the defaults for a missing
      namespace or name. */
  predicate IsAbout(md: PodMetadata, pod: Pod) {
    && md.namespace == (match pod.namespace case Some(n) => n case None => "default")
    && md.podName == (match pod.name case Some(n) => n case None => "unknown")
    && pod.uid == Some(md.podUid)
  }

  /** `md` is about this container of this pod. */
  predicate IsEntryOf(md: PodMetadata, pod: Pod, cs: ContainerStatus) {
    IsAbout(md, pod) && md.podIp == PodIp(pod) && md.containerName == cs.name && Some(md.containerId) == cs.containerId
  }

  /** The cluster as the watcher sees it: the cgroup resolver over the current file system. */
  datatype Host = Host(resolver: CgroupResolver, fs: Node) {
    function Resolve(uid: string, containerId: string): Option<u64> {
      resolver.Resolve(fs, uid, containerId)
    }
  }

  function ContainerOp(host: Host, pod: Pod, cs: ContainerStatus): seq<CacheOp> {
    match cs.containerId
    case None => []
    case Some(id) =>
      match host.Resolve(PodUid(pod), id)
      case None => []
      case Some(cgroup) => [Insert(cgroup, MetadataOf(pod, cs.name, id))]
  }

  function ContainerOps(host: Host, pod: Pod, containers: seq<ContainerStatus>): seq<CacheOp> {
    if containers == [] then [] else
      ContainerOps(host, pod, containers[..|containers| - 1])
      + ContainerOp(host, pod, containers[|containers| - 1])
  }

  function IpOps(pod: Pod): seq<CacheOp> {
    if PodIp(pod).Some? then [InsertByIp(MetadataOf(pod, "", ""))] else []
  }

  /** The cache operations of `handle_pod_apply`. */
  function ApplyOps(host: Host, pod: Pod): seq<CacheOp> {
    if PodUid(pod) == "" || pod.status.None? then []
    else IpOps(pod) + ContainerOps(host, pod, OrElse(pod.status.value.containers, []))
  }

  /** The cache operations of `handle_pod_delete`. */
  function DeleteOps(pod: Pod): seq<CacheOp> {
    if PodUid(pod) == "" then [] else [RemovePod(PodUid(pod))]
  }

  /** The cache operations of one pass over a pod list. */
  function ResyncOps(host: Host, pods: seq<Pod>): seq<CacheOp> {
    if pods == [] then [] else ResyncOps(host, pods[..|pods| - 1]) + ApplyOps(host, pods[|pods| - 1])
  }

  // ---------- Every operation of an apply is an insert for that pod ----------

  ghost predicate InsertsFor(pod: Pod, ops: seq<CacheOp>) {
    forall op | op in ops ::
      && op.IsInsert()
      && op.md == MetadataOf(pod, op.md.containerName, op.md.containerId)
  }

  lemma {:induction false} ContainerOpsInsert(host: Host, pod: Pod, containers: seq<ContainerStatus>)
    ensures InsertsFor(pod, ContainerOps(host, pod, containers))
  {
    if containers != [] {
      ContainerOpsInsert(host, pod, containers[..|containers| - 1]);
    }
  }

  lemma ApplyOpsInsert(host: Host, pod: Pod)
    ensures InsertsFor(pod, ApplyOps(host, pod))
  {
    if PodUid(pod) != "" && pod.status.Some? {
      ContainerOpsInsert(host, pod, OrElse(pod.status.value.containers, []));
    }
  }

  lemma {:induction false} ResyncOpsInsert(host: Host, pods: seq<Pod>)
    ensures OnlyInserts(ResyncOps(host, pods))
  {
    if pods != [] {
      ResyncOpsInsert(host, pods[..|pods| - 1]);
      ApplyOpsInsert(host, pods[|pods| - 1]);
    }
  }

  /** Resynchronising with the same pod list again leaves both indexes as they are, from any
      cache state, whatever addresses repeat and wherever the index filled up. */
  lemma ResyncIsIdempotent(max: nat, c: Cache, host: Host, pods: seq<Pod>)
    ensures var once := ApplyAll(max, c, ResyncOps(host, pods));
            var twice := ApplyAll(max, once, ResyncOps(host, pods));
            twice.byIp == once.byIp && twice.byCgroup == once.byCgroup
  {
    ResyncOpsInsert(host, pods);
    InsertsAreIdempotent(max, c, ResyncOps(host, pods));
  }

  // ---------- Containers ----------

  /** The cgroup found for the container `cs` of the pod. */
  function FoundAt(host: Host, pod: Pod, cs: ContainerStatus): Option<u64> {
    match cs.containerId
    case None => None
    case Some(id) => host.resolver.Resolve(host.fs, PodUid(pod), id)
  }

  predicate LivesIn(host: Host, pod: Pod, cs: ContainerStatus, cgroup: u64) { FoundAt(host, pod, cs) == Some(cgroup) }

  /** The cgroups found for the containers, in their order. */
  function Found(host: Host, pod: Pod, containers: seq<ContainerStatus>): (found: seq<Option<u64>>)
    ensures |found| == |containers|
    ensures forall i | 0 <= i < |containers| :: found[i] == FoundAt(host, pod, containers[i])
  {
    seq(|containers|, i requires 0 <= i < |containers| => FoundAt(host, pod, containers[i]))
  }

  /** The entries the containers of a pod would get. */
  function Entries(pod: Pod, containers: seq<ContainerStatus>): (entries: seq<PodMetadata>)
    ensures |entries| == |containers|
    ensures forall i | 0 <= i < |entries| :: entries[i].podIp == PodIp(pod)
    ensures forall i | 0 <= i < |entries| ::
              containers[i].containerId.Some? && pod.uid.Some? ==> IsEntryOf(entries[i], pod, containers[i])
  {
    seq(|containers|, i requires 0 <= i < |containers| =>
        MetadataOf(pod, containers[i].name, OrElse(containers[i].containerId, "")))
  }

  lemma {:induction false} ContainerOpsAreInserts(host: Host, pod: Pod, containers: seq<ContainerStatus>, n: nat)
    requires n <= |containers|
    ensures ContainerOps(host, pod, containers[..n])
            == InsertsFrom(Entries(pod, containers), Found(host, pod, containers), n)
  {
    if n > 0 {
      assert containers[..n][..n - 1] == containers[..n - 1];
      ContainerOpsAreInserts(host, pod, containers, n - 1);
    }
  }

  lemma FoundHasId(host: Host, pod: Pod, containers: seq<ContainerStatus>, i: nat)
    requires i < |containers| && Found(host, pod, containers)[i].Some?
    ensures containers[i].containerId.Some?
  {
  }

  /** `md` is about the last of the containers that lives in `cgroup`. */
  ghost predicate IsOfLastIn(host: Host, pod: Pod, containers: seq<ContainerStatus>, cgroup: u64, md: PodMetadata) {
    exists i: nat :: IsLastIn(Found(host, pod, containers), |containers|, i, cgroup) && IsEntryOf(md, pod, containers[i])
  }

  /** The cgroups written for a pod are those its containers live in, each with the last of the
      containers living there. */
  lemma ContainersWrite(host: Host, pod: Pod, containers: seq<ContainerStatus>, cgroup: u64)
    requires pod.uid.Some?
    ensures var writes := CgroupWrites(ContainerOps(host, pod, containers));
            && (cgroup in writes <==> exists i :: 0 <= i < |containers| && LivesIn(host, pod, containers[i], cgroup))
            && (cgroup in writes ==> IsOfLastIn(host, pod, containers, cgroup, writes[cgroup]))
  {
    var entries, found, n := Entries(pod, containers), Found(host, pod, containers), |containers|;
    assert containers[..n] == containers;
    ContainerOpsAreInserts(host, pod, containers, n);
    InsertsWriteLast(entries, found, n, cgroup);
    var writes := CgroupWrites(InsertsFrom(entries, found, n));
    if cgroup in writes {
      var i: nat :| IsLastIn(found, n, i, cgroup) && writes[cgroup] == entries[i];
      FoundHasId(host, pod, containers, i);
      assert LivesIn(host, pod, containers[i], cgroup);
    } else {
      forall i | 0 <= i < n ensures !LivesIn(host, pod, containers[i], cgroup) {
        assert found[i] != Some(cgroup);
      }
    }
  }

  lemma IpOpsWriteNoCgroup(pod: Pod, ops: seq<CacheOp>)
    ensures CgroupWrites(IpOps(pod) + ops) == CgroupWrites(ops)
  {
    CgroupWritesAppend(IpOps(pod), ops);
    assert CgroupWrites(IpOps(pod)) == map[];
    assert map[] + CgroupWrites(ops) == CgroupWrites(ops);
  }

  /** After a pod is applied, the cgroup of each of its containers is mapped to that pod and
      to the last of its containers living there; every other cgroup is mapped as before. */
  lemma AppliedContainersAreMapped(max: nat, c: Cache, host: Host, pod: Pod, cgroup: u64)
    requires pod.uid.Some? && pod.uid.value != "" && pod.status.Some?
    ensures var containers := OrElse(pod.status.value.containers, []);
            var index := ApplyAll(max, c, ApplyOps(host, pod)).byCgroup;
            if exists i :: 0 <= i < |containers| && LivesIn(host, pod, containers[i], cgroup) then
              cgroup in index && IsOfLastIn(host, pod, containers, cgroup, index[cgroup])
            else (cgroup in index <==> cgroup in c.byCgroup) && (cgroup in index ==> index[cgroup] == c.byCgroup[cgroup])
  {
    var containers := OrElse(pod.status.value.containers, []);
    ApplyOpsInsert(host, pod);
    InsertsWriteCgroups(max, c, ApplyOps(host, pod));
    ContainersWrite(host, pod, containers, cgroup);
    IpOpsWriteNoCgroup(pod, ContainerOps(host, pod, containers));
  }

  // ---------- Apply and delete commute under address reuse ----------

  lemma {:induction false} OnePodWrites(pod: Pod, ops: seq<CacheOp>)
    requires InsertsFor(pod, ops)
    ensures forall ip | ip in IpWrites(ops) ::
              && PodIp(pod) == Some(ip)
              && IpWrites(ops)[ip] == MetadataOf(pod, IpWrites(ops)[ip].containerName, IpWrites(ops)[ip].containerId)
    ensures forall k | k in CgroupWrites(ops) :: CgroupWrites(ops)[k].podUid == PodUid(pod)
    ensures PodIp(pod).Some? && ops != [] ==> PodIp(pod).value in IpWrites(ops)
  {
    if ops != [] {
      assert ops[|ops| - 1] in ops;
      OnePodWrites(pod, ops[..|ops| - 1]);
    }
  }

  lemma {:induction false} RefusedPod(max: nat, c: Cache, pod: Pod, ops: seq<CacheOp>)
    requires InsertsFor(pod, ops) && (PodIp(pod).Some? ==> !Accepts(max, c, PodIp(pod).value))
    ensures ApplyAll(max, c, ops).byIp == c.byIp
  {
    if ops != [] {
      assert ops[|ops| - 1] in ops;
      RefusedPod(max, c, pod, ops[..|ops| - 1]);
    }
  }

  lemma {:induction false} AcceptedPod(max: nat, c: Cache, pod: Pod, ops: seq<CacheOp>)
    requires InsertsFor(pod, ops) && PodIp(pod).Some? && Accepts(max, c, PodIp(pod).value)
    ensures ApplyAll(max, c, ops).byIp == c.byIp + IpWrites(ops)
  {
    if ops == [] {
      assert c.byIp + map[] == c.byIp;
    } else {
      var prefix := ops[..|ops| - 1];
      assert ops[|ops| - 1] in ops;
      AcceptedPod(max, c, pod, prefix);
      OnePodWrites(pod, prefix);
      StillAccepts(max, c, ApplyAll(max, c, prefix), PodIp(pod).value, IpWrites(prefix));
      OverlayUpdate(c.byIp, IpWrites(prefix), PodIp(pod).value, ops[|ops| - 1].md);
    }
  }

  /** The pod is one the watcher would put into the IP index. */
  predicate ClaimsAddress(pod: Pod) {
    PodUid(pod) != "" && PodIp(pod).Some?
  }

  /** The address writes of an apply: the pod's own address, or none. */
  lemma ApplyWrites(host: Host, pod: Pod)
    ensures IpWrites(ApplyOps(host, pod)).Keys == if ClaimsAddress(pod) then {PodIp(pod).value} else {}
    ensures forall ip | ip in IpWrites(ApplyOps(host, pod)) ::
              var md := IpWrites(ApplyOps(host, pod))[ip];
              md == MetadataOf(pod, md.containerName, md.containerId)
  {
    ApplyOpsInsert(host, pod);
    OnePodWrites(pod, ApplyOps(host, pod));
  }

  /** Applying a pod writes its address if there is room for it, and nothing otherwise. */
  lemma ApplyByIp(max: nat, c: Cache, host: Host, pod: Pod)
    ensures ApplyAll(max, c, ApplyOps(host, pod)).byIp ==
            if ClaimsAddress(pod) && Accepts(max, c, PodIp(pod).value) then c.byIp + IpWrites(ApplyOps(host, pod))
            else c.byIp
  {
    var ops := ApplyOps(host, pod);
    ApplyOpsInsert(host, pod);
    if ClaimsAddress(pod) && Accepts(max, c, PodIp(pod).value) {
      AcceptedPod(max, c, pod, ops);
    } else if ClaimsAddress(pod) || PodIp(pod).None? {
      RefusedPod(max, c, pod, ops);
    }
  }

  /** A pod the watcher ignores: without a uid, or with an empty one. */
  predicate IsNameless(pod: Pod) { pod.uid == None || pod.uid == Some("") }

  lemma IgnoredPods(max: nat, c: Cache, host: Host, pod: Pod)
    ensures IsNameless(pod) || pod.status == None ==> ApplyAll(max, c, ApplyOps(host, pod)) == c
    ensures IsNameless(pod) ==> ApplyAll(max, c, DeleteOps(pod)) == c
  {
  }

  /** `md` is about the last of the containers whose cgroup was found. */
  ghost predicate IsOfLastFound(host: Host, pod: Pod, containers: seq<ContainerStatus>, md: PodMetadata) {
    exists i: nat :: IsLastFound(Found(host, pod, containers), |containers|, i) && IsEntryOf(md, pod, containers[i])
  }

  /** `md` shows the last container that was found, or no container if none was. */
  ghost predicate ShowsContainer(host: Host, pod: Pod, md: PodMetadata) {
    var containers := if pod.status.Some? then OrElse(pod.status.value.containers, []) else [];
    || IsOfLastFound(host, pod, containers, md)
    || ((forall cs | cs in containers :: FoundAt(host, pod, cs).None?) && md.containerName == "" && md.containerId == "")
  }

  /** What the containers offer for the pod's address. */
  lemma ContainersOffer(host: Host, pod: Pod, containers: seq<ContainerStatus>, ip: u32)
    requires pod.uid.Some? && PodIp(pod) == Some(ip)
    ensures var writes := IpWrites(ContainerOps(host, pod, containers));
            if ip in writes then IsOfLastFound(host, pod, containers, writes[ip])
            else forall cs | cs in containers :: FoundAt(host, pod, cs).None?
  {
    var entries, found, n := Entries(pod, containers), Found(host, pod, containers), |containers|;
    assert containers[..n] == containers;
    ContainerOpsAreInserts(host, pod, containers, n);
    InsertsOfferLast(entries, found, n, ip);
    var writes := IpWrites(InsertsFrom(entries, found, n));
    if ip in writes {
      var i: nat :| IsLastFound(found, n, i) && writes[ip] == entries[i];
      FoundHasId(host, pod, containers, i);
    } else {
      forall cs | cs in containers ensures FoundAt(host, pod, cs).None? {
        var i :| 0 <= i < n && containers[i] == cs;
        assert found[i].None?;
      }
    }
  }

  lemma AddressWrites(host: Host, pod: Pod, ip: u32)
    requires !IsNameless(pod) && PodIp(pod) == Some(ip)
    ensures var offered := IpWrites(ContainerOps(host, pod, OrElse(pod.status.value.containers, [])));
            && ip in IpWrites(ApplyOps(host, pod))
            && IpWrites(ApplyOps(host, pod))[ip] == if ip in offered then offered[ip] else MetadataOf(pod, "", "")
  {
    IpWritesAppend(IpOps(pod), ContainerOps(host, pod, OrElse(pod.status.value.containers, [])));
    assert IpOps(pod)[..0] == [];
    assert IpWrites(IpOps(pod)) == map[ip := MetadataOf(pod, "", "")];
  }

  lemma AddressShowsContainer(host: Host, pod: Pod, ip: u32)
    requires !IsNameless(pod) && PodIp(pod) == Some(ip)
    ensures ip in IpWrites(ApplyOps(host, pod)) && ShowsContainer(host, pod, IpWrites(ApplyOps(host, pod))[ip])
  {
    ContainersOffer(host, pod, OrElse(pod.status.value.containers, []), ip);
    AddressWrites(host, pod, ip);
  }

  /** Applying a pod with an address: the entry there is about that pod afterwards, in place of
      any other; all other addresses are as before. Only a new address on a full index is
      refused, and then no address changes. */
  lemma AppliedPodIsNamed(max: nat, c: Cache, host: Host, pod: Pod, ip: u32)
    requires !IsNameless(pod) && PodIp(pod) == Some(ip)
    ensures var after := ApplyAll(max, c, ApplyOps(host, pod)).byIp;
            if ip in c.byIp || |c.byIp| < max then
              && ip in after && IsAbout(after[ip], pod) && after[ip].podIp == Some(ip) && ShowsContainer(host, pod, after[ip])
              && forall other | other != ip :: PodTable.Lookup(after, other) == PodTable.Lookup(c.byIp, other)
            else after == c.byIp
  {
    ApplyByIp(max, c, host, pod);
    PodWrites(host, pod);
    AddressShowsContainer(host, pod, ip);
    if ip in c.byIp || |c.byIp| < max {
      OverlayOne(c.byIp, IpWrites(ApplyOps(host, pod)), ip);
    }
  }

  /** The address an apply writes, if any, gets an entry about that pod. */
  lemma PodWrites(host: Host, pod: Pod)
    ensures var writes := IpWrites(ApplyOps(host, pod));
            && writes.Keys == (if ClaimsAddress(pod) then {PodIp(pod).value} else {})
            && forall ip | ip in writes :: IsAbout(writes[ip], pod) && writes[ip].podIp == Some(ip)
  {
    ApplyWrites(host, pod);
  }

  /** The delete frees a slot the apply needs: the only case in which the order matters. */
  ghost predicate DeleteMakesRoom(max: nat, c: Cache, applied: Pod, deleted: Pod) {
    && ClaimsAddress(applied) && !Accepts(max, c, PodIp(applied).value)
    && PodUid(deleted) != ""
    && exists ip :: ip in c.byIp && c.byIp[ip].podUid == PodUid(deleted)
  }

  lemma ApplyDeleteCgroups(max: nat, c: Cache, host: Host, applied: Pod, deleted: Pod)
    requires PodUid(applied) != PodUid(deleted)
    ensures ApplyAll(max, ApplyAll(max, c, ApplyOps(host, applied)), DeleteOps(deleted)).byCgroup
            == ApplyAll(max, ApplyAll(max, c, DeleteOps(deleted)), ApplyOps(host, applied)).byCgroup
  {
    var ops, uid := ApplyOps(host, applied), PodUid(deleted);
    ApplyOpsInsert(host, applied);
    OnePodWrites(applied, ops);
    InsertsWriteCgroups(max, c, ops);
    InsertsWriteCgroups(max, ApplyAll(max, c, DeleteOps(deleted)), ops);
    if uid != "" {
      ApplyOne(max, c, RemovePod(uid));
      ApplyOne(max, ApplyAll(max, c, ops), RemovePod(uid));
      DropOverlay(c.byCgroup, CgroupWrites(ops), uid);
    }
  }

  /** The address part for a pod that claims none: neither order touches the apply's entries. */
  lemma UnclaimedCommutes(max: nat, c: Cache, host: Host, applied: Pod, uid: string)
    requires !ClaimsAddress(applied)
    ensures Apply(max, ApplyAll(max, c, ApplyOps(host, applied)), RemovePod(uid)).byIp
            == ApplyAll(max, Apply(max, c, RemovePod(uid)), ApplyOps(host, applied)).byIp
  {
    ApplyByIp(max, c, host, applied);
    ApplyByIp(max, Apply(max, c, RemovePod(uid)), host, applied);
  }

  /** The address part for a pod whose address was accepted before: it is accepted after the
      delete as well, and the delete does not touch it. */
  lemma AcceptedCommutes(max: nat, c: Cache, host: Host, applied: Pod, uid: string)
    requires ClaimsAddress(applied) && PodUid(applied) != uid && |c.byIp| <= max
    requires Accepts(max, c, PodIp(applied).value)
    ensures Apply(max, ApplyAll(max, c, ApplyOps(host, applied)), RemovePod(uid)).byIp
            == ApplyAll(max, Apply(max, c, RemovePod(uid)), ApplyOps(host, applied)).byIp
  {
    var c' := Apply(max, c, RemovePod(uid));
    ApplyByIp(max, c, host, applied);
    ApplyByIp(max, c', host, applied);
    ApplyWrites(host, applied);
    AcceptsAfterDrop(max, c, c', PodIp(applied).value, uid);
    DropOverlay(c.byIp, IpWrites(ApplyOps(host, applied)), uid);
  }

  /** The address part for a pod that was refused: the orders agree exactly when the delete
      does not make room. */
  lemma RefusedCommutesIff(max: nat, c: Cache, host: Host, applied: Pod, uid: string)
    requires ClaimsAddress(applied) && PodUid(applied) != uid && |c.byIp| <= max
    requires !Accepts(max, c, PodIp(applied).value)
    ensures Apply(max, ApplyAll(max, c, ApplyOps(host, applied)), RemovePod(uid)).byIp
            == ApplyAll(max, Apply(max, c, RemovePod(uid)), ApplyOps(host, applied)).byIp
            <==> !exists ip :: ip in c.byIp && c.byIp[ip].podUid == uid
  {
    var c', ip := Apply(max, c, RemovePod(uid)), PodIp(applied).value;
    ApplyByIp(max, c, host, applied);
    ApplyByIp(max, c', host, applied);
    AcceptsAfterDrop(max, c, c', ip, uid);
    if Accepts(max, c', ip) {
      ApplyWrites(host, applied);
      assert ip in c'.byIp + IpWrites(ApplyOps(host, applied)) && ip !in Drop(c.byIp, uid);
    }
  }

  /** Applying one pod and deleting another gives the same cgroup index in either order, and
      the same IP index exactly when the apply does not depend on the slot the delete frees.
      In particular a late delete never takes the address from its new owner. */
  lemma ApplyAndDeleteCommute(max: nat, c: Cache, host: Host, applied: Pod, deleted: Pod)
    requires PodUid(applied) != PodUid(deleted) && |c.byIp| <= max
    ensures var deletedLast := ApplyAll(max, ApplyAll(max, c, ApplyOps(host, applied)), DeleteOps(deleted));
            var deletedFirst := ApplyAll(max, ApplyAll(max, c, DeleteOps(deleted)), ApplyOps(host, applied));
            && deletedLast.byCgroup == deletedFirst.byCgroup
            && (deletedLast.byIp == deletedFirst.byIp <==> !DeleteMakesRoom(max, c, applied, deleted))
  {
    var uid := PodUid(deleted);
    ApplyDeleteCgroups(max, c, host, applied, deleted);
    if uid != "" {
      ApplyOne(max, c, RemovePod(uid));
      ApplyOne(max, ApplyAll(max, c, ApplyOps(host, applied)), RemovePod(uid));
      if !ClaimsAddress(applied) {
        UnclaimedCommutes(max, c, host, applied, uid);
      } else if Accepts(max, c, PodIp(applied).value) {
        AcceptedCommutes(max, c, host, applied, uid);
      } else {
        RefusedCommutesIff(max, c, host, applied, uid);
      }
    }
  }

  // ---------- What a resync does to a pod whose deletion was missed ----------

  /** Some pod of the list claims `ip`. */
  ghost predicate ListClaims(pods: seq<Pod>, ip: u32) {
    exists p | p in pods :: ClaimsAddress(p) && PodIp(p).value == ip
  }

  /** Some pod of the list has a container that lives in `cgroup`. */
  ghost predicate ListLivesIn(host: Host, pods: seq<Pod>, cgroup: u64) {
    exists p | p in pods :: PodLivesIn(host, p, cgroup)
  }

  ghost predicate PodLivesIn(host: Host, pod: Pod, cgroup: u64) {
    && PodUid(pod) != "" && pod.status.Some?
    && exists cs | cs in OrElse(pod.status.value.containers, []) :: LivesIn(host, pod, cs, cgroup)
  }

  lemma ApplyWritesCgroup(host: Host, pod: Pod, cgroup: u64)
    ensures cgroup in CgroupWrites(ApplyOps(host, pod)) <==> PodLivesIn(host, pod, cgroup)
  {
    if PodUid(pod) != "" && pod.status.Some? {
      var containers := OrElse(pod.status.value.containers, []);
      IpOpsWriteNoCgroup(pod, ContainerOps(host, pod, containers));
      ContainersWrite(host, pod, containers, cgroup);
      if i :| 0 <= i < |containers| && LivesIn(host, pod, containers[i], cgroup) {
        assert containers[i] in containers;
      }
    }
  }

  lemma {:induction false} ResyncClaims(host: Host, pods: seq<Pod>, ip: u32)
    ensures ip in IpWrites(ResyncOps(host, pods)) <==> ListClaims(pods, ip)
    ensures ip in IpWrites(ResyncOps(host, pods)) ==> exists p | p in pods :: PodUid(p) == IpWrites(ResyncOps(host, pods))[ip].podUid
  {
    if pods != [] {
      var prefix, last := pods[..|pods| - 1], pods[|pods| - 1];
      ResyncClaims(host, prefix, ip);
      IpWritesAppend(ResyncOps(host, prefix), ApplyOps(host, last));
      ApplyWrites(host, last);
      assert pods == prefix + [last];
    }
  }

  /** What one more pod of the list writes to the cgroup index. */
  lemma ResyncWritesNext(host: Host, pods: seq<Pod>, last: Pod, cgroup: u64)
    ensures CgroupWrites(ResyncOps(host, pods + [last])) == CgroupWrites(ResyncOps(host, pods)) + CgroupWrites(ApplyOps(host, last))
    ensures cgroup in CgroupWrites(ApplyOps(host, last)) <==> PodLivesIn(host, last, cgroup)
    ensures cgroup in CgroupWrites(ApplyOps(host, last)) ==> CgroupWrites(ApplyOps(host, last))[cgroup].podUid == PodUid(last)
  {
    assert (pods + [last])[..|pods|] == pods;
    CgroupWritesAppend(ResyncOps(host, pods), ApplyOps(host, last));
    ApplyWritesCgroup(host, last, cgroup);
    ApplyOpsInsert(host, last);
    OnePodWrites(last, ApplyOps(host, last));
  }

  lemma {:induction false} ResyncWritesCgroups(host: Host, pods: seq<Pod>, cgroup: u64)
    ensures cgroup in CgroupWrites(ResyncOps(host, pods)) <==> ListLivesIn(host, pods, cgroup)
    ensures cgroup in CgroupWrites(ResyncOps(host, pods)) ==>
              exists p | p in pods :: PodUid(p) == CgroupWrites(ResyncOps(host, pods))[cgroup].podUid
  {
    if pods != [] {
      var prefix, last := pods[..|pods| - 1], pods[|pods| - 1];
      ResyncWritesCgroups(host, prefix, cgroup);
      assert pods == prefix + [last];
      ResyncWritesNext(host, prefix, last, cgroup);
    }
  }

  /** What the pods of a list write, one by one. */
  function ListWrites(host: Host, pods: seq<Pod>): (writes: seq<IpIndex>)
    ensures |writes| == |pods|
    ensures forall i | 0 <= i < |pods| :: writes[i] == IpWrites(ApplyOps(host, pods[i]))
  {
    seq(|pods|, i requires 0 <= i < |pods| => IpWrites(ApplyOps(host, pods[i])))
  }

  lemma {:induction false} ResyncMerges(host: Host, pods: seq<Pod>, n: nat)
    requires n <= |pods|
    ensures IpWrites(ResyncOps(host, pods[..n])) == Merged(ListWrites(host, pods), n)
  {
    if n > 0 {
      assert pods[..n][..n - 1] == pods[..n - 1];
      ResyncMerges(host, pods, n - 1);
      IpWritesAppend(ResyncOps(host, pods[..n - 1]), ApplyOps(host, pods[n - 1]));
    }
  }

  lemma LastListedWrites(host: Host, pods: seq<Pod>, i: nat, ip: u32)
    requires i < |pods| && ClaimsAddress(pods[i]) && PodIp(pods[i]) == Some(ip)
    requires forall j | i < j < |pods| :: !(ClaimsAddress(pods[j]) && PodIp(pods[j]) == Some(ip))
    ensures ip in IpWrites(ResyncOps(host, pods)) && IsAbout(IpWrites(ResyncOps(host, pods))[ip], pods[i])
  {
    assert pods[..|pods|] == pods;
    ResyncMerges(host, pods, |pods|);
    PodWrites(host, pods[i]);
    forall j | i < j < |pods| ensures ip !in ListWrites(host, pods)[j] {
      PodWrites(host, pods[j]);
    }
    MergedLast(ListWrites(host, pods), |pods|, i, ip);
  }

  /** No pod of the list is the pod `uid`: it was deleted and nobody said so. */
  ghost predicate NotListed(pods: seq<Pod>, uid: string) { forall p | p in pods :: PodUid(p) != uid }

  /** A resync drops no entry. An address of a pod that is no longer listed goes on naming
      that pod, with the very entry it had, exactly when no listed pod claims the address. */
  lemma StaleAddressSurvives(max: nat, c: Cache, host: Host, pods: seq<Pod>, uid: string, ip: u32)
    requires NotListed(pods, uid)
    ensures var after := ApplyAll(max, c, ResyncOps(host, pods)).byIp;
            && (ip in c.byIp ==> ip in after)
            && (ip in after && after[ip].podUid == uid
                <==> ip in c.byIp && c.byIp[ip].podUid == uid && !ListClaims(pods, ip))
            && (ip in c.byIp && !ListClaims(pods, ip) ==> after[ip] == c.byIp[ip])
  {
    ResyncOpsInsert(host, pods);
    ResyncClaims(host, pods, ip);
    if ip in c.byIp {
      InsertsRewrite(max, c, ResyncOps(host, pods), ip);
    } else if ip in ApplyAll(max, c, ResyncOps(host, pods)).byIp {
      InsertsAdd(max, c, ResyncOps(host, pods), ip);
    }
  }

  /** The same for the cgroups: exactly when no container of a listed pod lives there. */
  lemma StaleCgroupSurvives(max: nat, c: Cache, host: Host, pods: seq<Pod>, uid: string, cgroup: u64)
    requires NotListed(pods, uid)
    ensures var after := ApplyAll(max, c, ResyncOps(host, pods)).byCgroup;
            && (cgroup in c.byCgroup ==> cgroup in after)
            && (cgroup in after && after[cgroup].podUid == uid
                <==> cgroup in c.byCgroup && c.byCgroup[cgroup].podUid == uid && !ListLivesIn(host, pods, cgroup))
            && (cgroup in c.byCgroup && !ListLivesIn(host, pods, cgroup) ==> after[cgroup] == c.byCgroup[cgroup])
  {
    ResyncOpsInsert(host, pods);
    ResyncWritesCgroups(host, pods, cgroup);
    InsertsWriteCgroups(max, c, ResyncOps(host, pods));
  }

  /** After a resync, an address that listed pods claim is about the last of them to claim it,
      if the index holds it at all. */
  lemma LastListedIsNamed(max: nat, c: Cache, host: Host, pods: seq<Pod>, i: nat, ip: u32)
    requires i < |pods| && !IsNameless(pods[i]) && PodIp(pods[i]) == Some(ip)
    requires forall j | i < j < |pods| :: IsNameless(pods[j]) || PodIp(pods[j]) != Some(ip)
    ensures var after := ApplyAll(max, c, ResyncOps(host, pods)).byIp;
            && (ip in c.byIp ==> ip in after)
            && (ip in after ==> IsAbout(after[ip], pods[i]))
  {
    ResyncOpsInsert(host, pods);
    LastListedWrites(host, pods, i, ip);
    if ip in c.byIp {
      InsertsRewrite(max, c, ResyncOps(host, pods), ip);
    } else if ip in ApplyAll(max, c, ResyncOps(host, pods)).byIp {
      InsertsAdd(max, c, ResyncOps(host, pods), ip);
    }
  }

  /** A pod whose deletion was missed is still mentioned after a resync exactly when one of its
      addresses or cgroups was taken by none of the listed pods. */
  lemma StalePodSurvivesResync(max: nat, c: Cache, host: Host, pods: seq<Pod>, uid: string)
    requires NotListed(pods, uid)
    ensures Mentions(ApplyAll(max, c, ResyncOps(host, pods)), uid) <==>
            || (exists ip | ip in c.byIp :: c.byIp[ip].podUid == uid && !ListClaims(pods, ip))
            || (exists cgroup | cgroup in c.byCgroup ::
                  c.byCgroup[cgroup].podUid == uid && !ListLivesIn(host, pods, cgroup))
  {
    var after := ApplyAll(max, c, ResyncOps(host, pods));
    forall ip ensures ip in after.byIp && after.byIp[ip].podUid == uid
                      <==> ip in c.byIp && c.byIp[ip].podUid == uid && !ListClaims(pods, ip)
    {
      StaleAddressSurvives(max, c, host, pods, uid, ip);
    }
    forall cgroup ensures cgroup in after.byCgroup && after.byCgroup[cgroup].podUid == uid
                          <==> cgroup in c.byCgroup && c.byCgroup[cgroup].podUid == uid && !ListLivesIn(host, pods, cgroup)
    {
      StaleCgroupSurvives(max, c, host, pods, uid, cgroup);
    }
  }
}
