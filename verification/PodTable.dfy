/** The pod cache as a function on values, and what every history of cache operations
    keeps. The IP index is bounded and refuses new addresses when full; the reference it is
    measured against is the owner of an address in an unbounded world. */
module PodTable {
  import opened Common
  import opened MapSums

  datatype PodMetadata = PodMetadata(
    namespace: string,
    podName: string,
    podUid: string,
    containerName: string,
    containerId: string,
    podIp: Option<u32>)

  type IpIndex = map<u32, PodMetadata>
  type CgroupIndex = map<u64, PodMetadata>

  /** `atCapacity` and `refused` are the health flag and counter the cache drives. */
  datatype Cache = Cache(byCgroup: CgroupIndex, byIp: IpIndex, atCapacity: bool, refused: nat)

  const EMPTY: Cache := Cache(map[], map[], false, 0)

  datatype CacheOp =
    | InsertByIp(md: PodMetadata)
    | Insert(cgroup: u64, md: PodMetadata)
    | Remove(cgroup: u64)
    | RemovePod(uid: string)
  {
    predicate IsInsert() { InsertByIp? || Insert? }

    /** This operation claims `ip` for a pod. */
    predicate Claims(ip: u32) { IsInsert() && md.podIp == Some(ip) }
  }

  function Lookup(index: IpIndex, ip: u32): Option<PodMetadata> {
    if ip in index then Some(index[ip]) else None
  }

  predicate Accepts(max: nat, c: Cache, ip: u32) { ip in c.byIp || |c.byIp| < max }

  function Claim(max: nat, c: Cache, md: PodMetadata): Cache {
    match md.podIp
    case None => c
    case Some(ip) =>
      if Accepts(max, c, ip) then c.(byIp := c.byIp[ip := md])
      else c.(atCapacity := true, refused := c.refused + 1)
  }

  function Drop<K>(m: map<K, PodMetadata>, uid: string): map<K, PodMetadata> {
    map k | k in m && m[k].podUid != uid :: m[k]
  }

  function Apply(max: nat, c: Cache, op: CacheOp): Cache {
    match op
    case InsertByIp(md) => Claim(max, c, md)
    case Insert(cgroup, md) => Claim(max, c, md).(byCgroup := c.byCgroup[cgroup := md])
    case Remove(cgroup) => c.(byCgroup := c.byCgroup - {cgroup})
    case RemovePod(uid) =>
      var byIp := Drop(c.byIp, uid);
      c.(byCgroup := Drop(c.byCgroup, uid), byIp := byIp, atCapacity := c.atCapacity && |byIp| >= max)
  }

  function ApplyAll(max: nat, c: Cache, ops: seq<CacheOp>): Cache {
    if ops == [] then c else Apply(max, ApplyAll(max, c, ops[..|ops| - 1]), ops[|ops| - 1])
  }

  lemma {:induction false} ApplyAllAppend(max: nat, c: Cache, a: seq<CacheOp>, b: seq<CacheOp>)
    ensures ApplyAll(max, c, a + b) == ApplyAll(max, ApplyAll(max, c, a), b)
  {
    if b == [] {
      assert a + b == a;
    } else {
      ApplyAllAppend(max, c, a, b[..|b| - 1]);
      assert (a + b)[..|a + b| - 1] == a + b[..|b| - 1];
    }
  }

  lemma SubmapSize<K>(m: map<K, PodMetadata>, d: map<K, PodMetadata>)
    requires d.Keys <= m.Keys
    ensures |d| <= |m|
    ensures |d| == |m| ==> d.Keys == m.Keys
  {
    assert |m.Keys - d.Keys| == |m.Keys| - |d.Keys|;
  }

  lemma DropSize<K>(m: map<K, PodMetadata>, uid: string)
    ensures |Drop(m, uid)| <= |m|
    ensures |Drop(m, uid)| == |m| <==> forall k | k in m :: m[k].podUid != uid
    ensures (forall k | k in m :: m[k].podUid != uid) ==> Drop(m, uid) == m
  {
    SubmapSize(m, Drop(m, uid));
    if |Drop(m, uid)| == |m| {
      forall k | k in m ensures m[k].podUid != uid {
        assert k in Drop(m, uid).Keys;
      }
    }
    if forall k | k in m :: m[k].podUid != uid {
      assert Drop(m, uid) == m;
    }
  }

  // ---------- State invariant ----------

  ghost predicate Valid(max: nat, c: Cache) {
    && |c.byIp| <= max
    && (c.atCapacity ==> |c.byIp| == max)
    && forall ip | ip in c.byIp :: c.byIp[ip].podIp == Some(ip)
  }

  lemma ApplyKeepsValid(max: nat, c: Cache, op: CacheOp)
    requires Valid(max, c)
    ensures Valid(max, Apply(max, c, op))
  {
    if op.IsInsert() && op.md.podIp.Some? {
      CardinalityUpdate(c.byIp, op.md.podIp.value, op.md);
    } else if op.RemovePod? {
      DropSize(c.byIp, op.uid);
    }
  }

  /** In every reachable state the IP index is within its bound and each entry sits at its own
      address; the at-capacity flag means the index is exactly full. */
  lemma {:induction false} CacheIsValid(max: nat, ops: seq<CacheOp>)
    ensures var c := ApplyAll(max, EMPTY, ops);
            && |c.byIp| <= max
            && (c.atCapacity ==> |c.byIp| == max)
            && forall ip | ip in c.byIp :: c.byIp[ip].podIp == Some(ip)
  {
    if ops != [] {
      CacheIsValid(max, ops[..|ops| - 1]);
      ApplyKeepsValid(max, ApplyAll(max, EMPTY, ops[..|ops| - 1]), ops[|ops| - 1]);
    }
  }

  // ---------- The unbounded reference ----------

  /** Operation `i` is the last claim of `ip`, and the claiming pod was not removed since. */
  ghost predicate OwnsSince(ops: seq<CacheOp>, i: nat, ip: u32) {
    && i < |ops| && ops[i].Claims(ip)
    && (forall j | i < j < |ops| :: !ops[j].Claims(ip))
    && (forall j | i < j < |ops| :: ops[j] != RemovePod(ops[i].md.podUid))
  }

  /** The pod `md` owns `ip` after this history, with no bound on the number of addresses. */
  ghost predicate Owns(ops: seq<CacheOp>, ip: u32, md: PodMetadata) {
    exists i: nat :: OwnsSince(ops, i, ip) && ops[i].md == md
  }

  function NextOwners(m: IpIndex, op: CacheOp): IpIndex {
    match op
    case InsertByIp(md) => if md.podIp.Some? then m[md.podIp.value := md] else m
    case Insert(_, md) => if md.podIp.Some? then m[md.podIp.value := md] else m
    case Remove(_) => m
    case RemovePod(uid) => Drop(m, uid)
  }

  /** The same reference, computed operation by operation. */
  function Owners(ops: seq<CacheOp>): IpIndex {
    if ops == [] then map[] else NextOwners(Owners(ops[..|ops| - 1]), ops[|ops| - 1])
  }

  lemma OwnsSinceEarlier(ops: seq<CacheOp>, i: nat, ip: u32)
    requires ops != [] && i < |ops| - 1
    ensures OwnsSince(ops, i, ip) <==>
            && OwnsSince(ops[..|ops| - 1], i, ip)
            && !ops[|ops| - 1].Claims(ip)
            && ops[|ops| - 1] != RemovePod(ops[i].md.podUid)
  {
    var prefix := ops[..|ops| - 1];
    assert prefix[i] == ops[i];
    if OwnsSince(ops, i, ip) {
      assert forall j | i < j < |prefix| :: prefix[j] == ops[j];
    }
    if OwnsSince(prefix, i, ip) {
      assert forall j | i < j < |prefix| :: ops[j] == prefix[j];
    }
  }

  /** The operation-by-operation reference is the declarative one. */
  lemma {:induction false} OwnersAreOwners(ops: seq<CacheOp>, ip: u32, md: PodMetadata)
    ensures ip in Owners(ops) && Owners(ops)[ip] == md <==> Owns(ops, ip, md)
  {
    if ops != [] {
      var n := |ops| - 1;
      var prefix, last := ops[..n], ops[n];
      OwnersAreOwners(prefix, ip, md);
      if last.Claims(ip) {
        assert OwnsSince(ops, n, ip);
        assert forall i: nat | OwnsSince(ops, i, ip) :: i == n;
      } else {
        forall i: nat | i < n
          ensures OwnsSince(ops, i, ip) <==> OwnsSince(prefix, i, ip) && last != RemovePod(ops[i].md.podUid)
        {
          OwnsSinceEarlier(ops, i, ip);
        }
        if Owns(prefix, ip, md) && last != RemovePod(md.podUid) {
          var i: nat :| OwnsSince(prefix, i, ip) && prefix[i].md == md;
          assert OwnsSince(ops, i, ip) && ops[i].md == md;
        }
        if Owns(ops, ip, md) {
          var i: nat :| OwnsSince(ops, i, ip) && ops[i].md == md;
          assert i != n;
          assert OwnsSince(prefix, i, ip) && prefix[i].md == md;
        }
      }
    }
  }

  /** Every entry of `a` is an entry of `b`. */
  ghost predicate Within(a: IpIndex, b: IpIndex) {
    forall ip | ip in a :: ip in b && a[ip] == b[ip]
  }

  lemma SubsetSize<T>(a: set<T>, b: set<T>)
    requires a <= b
    ensures |a| <= |b|
  {
    assert |b - a| == |b| - |a|;
  }

  /** The bounded index against the unbounded one: no wrong entry, and no more missing
      addresses than refusals. */
  ghost predicate Approximates(c: Cache, owners: IpIndex) {
    Within(c.byIp, owners) && |owners.Keys - c.byIp.Keys| <= c.refused
  }

  lemma AcceptedClaimApproximates(c: Cache, owners: IpIndex, c': Cache, ip: u32, md: PodMetadata)
    requires Approximates(c, owners)
    requires c'.byIp == c.byIp[ip := md] && c'.refused == c.refused
    ensures Approximates(c', owners[ip := md])
  {
    SubsetSize(owners[ip := md].Keys - c'.byIp.Keys, owners.Keys - c.byIp.Keys);
  }

  lemma RefusedClaimApproximates(c: Cache, owners: IpIndex, c': Cache, ip: u32, md: PodMetadata)
    requires Approximates(c, owners) && ip !in c.byIp
    requires c'.byIp == c.byIp && c'.refused == c.refused + 1
    ensures Approximates(c', owners[ip := md])
  {
    OneMoreMissing(owners.Keys, c.byIp.Keys, ip);
    assert owners[ip := md].Keys == owners.Keys + {ip};
  }

  lemma OneMoreMissing<T>(owned: set<T>, held: set<T>, x: T)
    ensures |owned + {x} - held| <= |owned - held| + 1
  {
    SubsetSize(owned + {x} - held, (owned - held) + {x});
  }

  lemma DropApproximates(c: Cache, owners: IpIndex, c': Cache, uid: string)
    requires Approximates(c, owners)
    requires c'.byIp == Drop(c.byIp, uid) && c'.refused == c.refused
    ensures Approximates(c', Drop(owners, uid))
  {
    SubsetSize(Drop(owners, uid).Keys - c'.byIp.Keys, owners.Keys - c.byIp.Keys);
  }

  lemma StepApproximates(max: nat, c: Cache, owners: IpIndex, op: CacheOp)
    requires Approximates(c, owners)
    ensures Approximates(Apply(max, c, op), NextOwners(owners, op))
  {
    if op.IsInsert() && op.md.podIp.Some? {
      if Accepts(max, c, op.md.podIp.value) {
        AcceptedClaimApproximates(c, owners, Apply(max, c, op), op.md.podIp.value, op.md);
      } else {
        RefusedClaimApproximates(c, owners, Apply(max, c, op), op.md.podIp.value, op.md);
      }
    } else if op.RemovePod? {
      DropApproximates(c, owners, Apply(max, c, op), op.uid);
    }
  }

  lemma {:induction false} IndexApproximatesOwners(max: nat, ops: seq<CacheOp>)
    ensures Approximates(ApplyAll(max, EMPTY, ops), Owners(ops))
  {
    if ops != [] {
      IndexApproximatesOwners(max, ops[..|ops| - 1]);
      StepApproximates(max, ApplyAll(max, EMPTY, ops[..|ops| - 1]), Owners(ops[..|ops| - 1]), ops[|ops| - 1]);
    }
  }

  /** A lookup that succeeds names the pod that owns the address; it can fail for an owned
      address only if some claim was refused, and at most that many owned addresses fail. */
  lemma LookupsAreSound(max: nat, ops: seq<CacheOp>, ip: u32, md: PodMetadata)
    ensures var c := ApplyAll(max, EMPTY, ops);
            && (ip in c.byIp && c.byIp[ip] == md ==> Owns(ops, ip, md))
            && (c.refused == 0 ==> Owns(ops, ip, md) ==> ip in c.byIp && c.byIp[ip] == md)
            && |Owners(ops).Keys - c.byIp.Keys| <= c.refused
  {
    IndexApproximatesOwners(max, ops);
    OwnersAreOwners(ops, ip, md);
    var c := ApplyAll(max, EMPTY, ops);
    if c.refused == 0 {
      assert Owners(ops).Keys - c.byIp.Keys == {};
      assert ip in Owners(ops) ==> ip in c.byIp;
    }
  }

  // ---------- Refusals and the flag they raise ----------

  /** Operation `i` claims a new address when the index is full. */
  ghost predicate RefusedAt(max: nat, ops: seq<CacheOp>, i: nat) {
    && i < |ops| && ops[i].IsInsert() && ops[i].md.podIp.Some?
    && var byIp := ApplyAll(max, EMPTY, ops[..i]).byIp;
       ops[i].md.podIp.value !in byIp && |byIp| >= max
  }

  /** Operation `j` removes a pod and leaves room in the index. */
  ghost predicate RoomAt(max: nat, ops: seq<CacheOp>, j: nat) {
    j < |ops| && ops[j].RemovePod? && |ApplyAll(max, EMPTY, ops[..j + 1]).byIp| < max
  }

  ghost predicate RefusedLastly(max: nat, ops: seq<CacheOp>, i: nat) {
    RefusedAt(max, ops, i) && forall j | i < j < |ops| :: !RoomAt(max, ops, j)
  }

  lemma EarlierAlike(max: nat, ops: seq<CacheOp>, op: CacheOp, i: nat)
    requires i < |ops|
    ensures RefusedAt(max, ops + [op], i) <==> RefusedAt(max, ops, i)
    ensures RoomAt(max, ops + [op], i) <==> RoomAt(max, ops, i)
  {
    assert (ops + [op])[..i] == ops[..i] && (ops + [op])[..i + 1] == ops[..i + 1];
  }

  lemma LatestByState(max: nat, ops: seq<CacheOp>, op: CacheOp)
    ensures var c, n := ApplyAll(max, EMPTY, ops), |ops|;
            && (RefusedAt(max, ops + [op], n) <==> op.IsInsert() && op.md.podIp.Some? && !Accepts(max, c, op.md.podIp.value))
            && (RoomAt(max, ops + [op], n) <==> op.RemovePod? && |Apply(max, c, op).byIp| < max)
            && ApplyAll(max, EMPTY, ops + [op]) == Apply(max, c, op)
  {
    assert (ops + [op])[..|ops|] == ops && (ops + [op])[..|ops| + 1] == ops + [op];
  }

  lemma RefusedLastlyNext(max: nat, ops: seq<CacheOp>, op: CacheOp)
    ensures (exists i: nat :: RefusedLastly(max, ops + [op], i)) <==>
            || RefusedAt(max, ops + [op], |ops|)
            || (!RoomAt(max, ops + [op], |ops|) && exists i: nat :: RefusedLastly(max, ops, i))
  {
    forall i: nat | i < |ops|
      ensures RefusedLastly(max, ops + [op], i) <==> RefusedLastly(max, ops, i) && !RoomAt(max, ops + [op], |ops|)
    {
      EarlierAlike(max, ops, op, i);
      forall j: nat | i < j < |ops| ensures RoomAt(max, ops + [op], j) <==> RoomAt(max, ops, j) {
        EarlierAlike(max, ops, op, j);
      }
    }
    assert RefusedAt(max, ops + [op], |ops|) ==> RefusedLastly(max, ops + [op], |ops|);
  }

  /** The at-capacity flag is up exactly when some claim was refused and no pod removal has
      left room since. */
  lemma {:induction false} FlagMeansRefused(max: nat, ops: seq<CacheOp>)
    ensures ApplyAll(max, EMPTY, ops).atCapacity <==> exists i: nat :: RefusedLastly(max, ops, i)
  {
    if ops != [] {
      var prefix, last := ops[..|ops| - 1], ops[|ops| - 1];
      assert ops == prefix + [last];
      FlagMeansRefused(max, prefix);
      RefusedLastlyNext(max, prefix, last);
      LatestByState(max, prefix, last);
    }
  }

  ghost function Refusals(max: nat, ops: seq<CacheOp>): set<nat> {
    set i: nat | i < |ops| && RefusedAt(max, ops, i)
  }

  lemma RefusalsNext(max: nat, ops: seq<CacheOp>, op: CacheOp)
    ensures |Refusals(max, ops + [op])| == |Refusals(max, ops)| + if RefusedAt(max, ops + [op], |ops|) then 1 else 0
  {
    forall i: nat | i < |ops| ensures RefusedAt(max, ops + [op], i) <==> RefusedAt(max, ops, i) {
      EarlierAlike(max, ops, op, i);
    }
    assert Refusals(max, ops + [op]) == Refusals(max, ops) + if RefusedAt(max, ops + [op], |ops|) then {|ops|} else {};
  }

  /** The refusal counter is the number of refused claims. */
  lemma {:induction false} RefusalsAreCounted(max: nat, ops: seq<CacheOp>)
    ensures ApplyAll(max, EMPTY, ops).refused == |Refusals(max, ops)|
  {
    if ops == [] {
      assert Refusals(max, ops) == {};
    } else {
      var prefix, last := ops[..|ops| - 1], ops[|ops| - 1];
      assert ops == prefix + [last];
      RefusalsAreCounted(max, prefix);
      LatestByState(max, prefix, last);
      RefusalsNext(max, prefix, last);
    }
  }

  // ---------- The cgroup index ----------

  /** Operation `i` is the last to insert or remove `cgroup`, it inserted, and its pod was not
      removed since. */
  ghost predicate LivesSince(ops: seq<CacheOp>, i: nat, cgroup: u64) {
    && i < |ops| && ops[i].Insert? && ops[i].cgroup == cgroup
    && forall j | i < j < |ops| :: !Ends(ops[j], cgroup, ops[i].md.podUid)
  }

  /** `op` replaces or removes an entry of `cgroup` that names this pod. */
  predicate Ends(op: CacheOp, cgroup: u64, uid: string) {
    || (op.Insert? && op.cgroup == cgroup) || op == Remove(cgroup) || op == RemovePod(uid)
  }

  lemma LivesSinceNext(ops: seq<CacheOp>, op: CacheOp, i: nat, cgroup: u64)
    requires i < |ops|
    ensures LivesSince(ops + [op], i, cgroup) <==> LivesSince(ops, i, cgroup) && !Ends(op, cgroup, (ops + [op])[i].md.podUid)
    ensures LivesSince(ops + [op], i, cgroup) ==> (ops + [op])[i] == ops[i]
  {
    var all := ops + [op];
    assert all[i] == ops[i] && all[|ops|] == op;
    if LivesSince(all, i, cgroup) {
      assert forall j | i < j < |ops| :: ops[j] == all[j];
    }
    if LivesSince(ops, i, cgroup) {
      assert forall j | i < j < |ops| :: all[j] == ops[j];
    }
  }

  ghost predicate LivesAs(ops: seq<CacheOp>, i: nat, cgroup: u64, md: PodMetadata) {
    LivesSince(ops, i, cgroup) && ops[i].md == md
  }

  lemma LivesAsNext(ops: seq<CacheOp>, op: CacheOp, cgroup: u64, md: PodMetadata)
    ensures (exists i: nat :: LivesAs(ops + [op], i, cgroup, md)) <==>
            || op == CacheOp.Insert(cgroup, md)
            || (!Ends(op, cgroup, md.podUid) && exists i: nat :: LivesAs(ops, i, cgroup, md))
  {
    var all := ops + [op];
    forall i: nat | i < |ops|
      ensures LivesAs(all, i, cgroup, md) <==> LivesAs(ops, i, cgroup, md) && !Ends(op, cgroup, md.podUid)
    {
      LivesSinceNext(ops, op, i, cgroup);
      assert all[i] == ops[i];
    }
    assert LivesAs(all, |ops|, cgroup, md) <==> op == CacheOp.Insert(cgroup, md);
  }

  /** After every history the cgroup index, which has no bound, holds exactly what was last
      inserted and not removed since. */
  lemma {:induction false} CgroupsFollowHistory(max: nat, ops: seq<CacheOp>, cgroup: u64, md: PodMetadata)
    ensures var index := ApplyAll(max, EMPTY, ops).byCgroup;
            cgroup in index && index[cgroup] == md <==> exists i: nat :: LivesAs(ops, i, cgroup, md)
  {
    if ops != [] {
      var prefix, last := ops[..|ops| - 1], ops[|ops| - 1];
      assert ops == prefix + [last];
      CgroupsFollowHistory(max, prefix, cgroup, md);
      LivesAsNext(prefix, last, cgroup, md);
    }
  }

  // ---------- How long an entry stays ----------

  /** The entry at `ip` names this pod. */
  predicate Names(index: IpIndex, ip: u32, namespace: string, podName: string, uid: string) {
    ip in index && index[ip].namespace == namespace && index[ip].podName == podName && index[ip].podUid == uid
  }

  /** An operation that takes `ip` from this pod: removing the pod, or claiming the address
      under another name. */
  predicate Takes(op: CacheOp, ip: u32, namespace: string, podName: string, uid: string) {
    || op == RemovePod(uid)
    || (op.Claims(ip) && (op.md.namespace != namespace || op.md.podName != podName || op.md.podUid != uid))
  }

  lemma {:induction false} NamesUntilTaken(max: nat, c: Cache, ip: u32, namespace: string, podName: string, uid: string,
                                           later: seq<CacheOp>)
    requires Names(c.byIp, ip, namespace, podName, uid)
    requires forall op | op in later :: !Takes(op, ip, namespace, podName, uid)
    ensures Names(ApplyAll(max, c, later).byIp, ip, namespace, podName, uid)
  {
    if later != [] {
      assert later[|later| - 1] in later;
      NamesUntilTaken(max, c, ip, namespace, podName, uid, later[..|later| - 1]);
    }
  }

  // ---------- Removal ----------

  ghost predicate Mentions(c: Cache, uid: string) {
    || (exists k :: k in c.byCgroup && c.byCgroup[k].podUid == uid)
    || (exists ip :: ip in c.byIp && c.byIp[ip].podUid == uid)
  }

  lemma ApplyMentions(max: nat, c: Cache, uid: string, op: CacheOp)
    requires !Mentions(c, uid) && (op.IsInsert() ==> op.md.podUid != uid)
    ensures !Mentions(Apply(max, c, op), uid)
  {
  }

  /** Once removed, a pod is in neither index until it is inserted again. */
  lemma {:induction false} RemovedPodIsForgotten(max: nat, c: Cache, uid: string, later: seq<CacheOp>)
    requires forall op | op in later :: op.IsInsert() ==> op.md.podUid != uid
    ensures !Mentions(ApplyAll(max, Apply(max, c, RemovePod(uid)), later), uid)
  {
    if later != [] {
      var prefix := later[..|later| - 1];
      RemovedPodIsForgotten(max, c, uid, prefix);
      ApplyMentions(max, ApplyAll(max, Apply(max, c, RemovePod(uid)), prefix), uid, later[|later| - 1]);
    }
  }
}
