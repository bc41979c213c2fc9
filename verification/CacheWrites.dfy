/** What a list of inserts amounts to, whatever pods they come from: the last metadata written at
    each cgroup and offered for each address. */
module CacheWrites {
  import opened Common
  import opened MapSums
  import opened PodTable

  ghost predicate OnlyInserts(ops: seq<CacheOp>) { forall op | op in ops :: op.IsInsert() }

  /** The last metadata inserted at each cgroup. */
  function CgroupWrites(ops: seq<CacheOp>): CgroupIndex {
    if ops == [] then map[] else
      var before, last := CgroupWrites(ops[..|ops| - 1]), ops[|ops| - 1];
      if last.Insert? then before[last.cgroup := last.md] else before
  }

  /** The last metadata offered for each address. */
  function IpWrites(ops: seq<CacheOp>): IpIndex {
    if ops == [] then map[] else
      var before, last := IpWrites(ops[..|ops| - 1]), ops[|ops| - 1];
      if last.IsInsert() && last.md.podIp.Some? then before[last.md.podIp.value := last.md] else before
  }

  /** `m` with the entries it has replaced from `g`. */
  function Overwrite(m: IpIndex, g: IpIndex): IpIndex {
    map ip | ip in m :: if ip in g then g[ip] else m[ip]
  }

  /** No offer of `ops` meets a free slot: each address is present or the index is full. */
  ghost predicate Settled(max: nat, c: Cache, ops: seq<CacheOp>) {
    forall ip | ip in IpWrites(ops) :: ip in c.byIp || |c.byIp| >= max
  }

  lemma {:induction false} InsertsWriteCgroups(max: nat, c: Cache, ops: seq<CacheOp>)
    requires OnlyInserts(ops)
    ensures ApplyAll(max, c, ops).byCgroup == c.byCgroup + CgroupWrites(ops)
  {
    if ops != [] {
      var prefix := ops[..|ops| - 1];
      assert ops[|ops| - 1] in ops;
      InsertsWriteCgroups(max, c, prefix);
    }
  }

  lemma ClaimSize(max: nat, c: Cache, md: PodMetadata)
    ensures c.byIp.Keys <= Claim(max, c, md).byIp.Keys && |c.byIp| <= |Claim(max, c, md).byIp|
  {
    if md.podIp.Some? {
      CardinalityUpdate(c.byIp, md.podIp.value, md);
    }
  }

  lemma OverwriteStep(max: nat, c: Cache, c': Cache, g: IpIndex, md: PodMetadata)
    requires c'.byIp == Overwrite(c.byIp, g) && md.podIp.Some?
    requires md.podIp.value in c.byIp || |c.byIp| >= max
    ensures Claim(max, c', md).byIp == Overwrite(c.byIp, g[md.podIp.value := md])
  {
    assert c'.byIp.Keys == c.byIp.Keys;
    assert |c'.byIp| == |c'.byIp.Keys| == |c.byIp|;
  }

  /** On a settled index, inserts only rewrite entries that are there. */
  lemma {:induction false} SettledInsertsOverwrite(max: nat, c: Cache, ops: seq<CacheOp>)
    requires OnlyInserts(ops) && Settled(max, c, ops)
    ensures ApplyAll(max, c, ops).byIp == Overwrite(c.byIp, IpWrites(ops))
  {
    if ops == [] {
      assert Overwrite(c.byIp, map[]) == c.byIp;
    } else {
      var prefix, last := ops[..|ops| - 1], ops[|ops| - 1];
      assert last in ops;
      SettledInsertsOverwrite(max, c, prefix);
      if last.md.podIp.Some? {
        assert last.md.podIp.value in IpWrites(ops);
        OverwriteStep(max, c, ApplyAll(max, c, prefix), IpWrites(prefix), last.md);
      }
    }
  }

  /** After a list of inserts the index is settled for that very list, and whatever the list
      offered and the index holds, it holds as the list last wrote it. */
  ghost predicate Absorbed(max: nat, c: Cache, ops: seq<CacheOp>) {
    && Settled(max, c, ops)
    && forall ip | ip in IpWrites(ops) && ip in c.byIp :: c.byIp[ip] == IpWrites(ops)[ip]
  }

  lemma AbsorbStep(max: nat, c: Cache, ops: seq<CacheOp>)
    requires ops != [] && ops[|ops| - 1].IsInsert() && Absorbed(max, c, ops[..|ops| - 1])
    ensures Absorbed(max, Apply(max, c, ops[|ops| - 1]), ops)
  {
    ClaimSize(max, c, ops[|ops| - 1].md);
  }

  lemma {:induction false} InsertsAreAbsorbed(max: nat, c: Cache, ops: seq<CacheOp>)
    requires OnlyInserts(ops)
    ensures Absorbed(max, ApplyAll(max, c, ops), ops)
  {
    if ops != [] {
      assert ops[|ops| - 1] in ops;
      InsertsAreAbsorbed(max, c, ops[..|ops| - 1]);
      AbsorbStep(max, ApplyAll(max, c, ops[..|ops| - 1]), ops);
    }
  }

  lemma InsertsAreIdempotent(max: nat, c: Cache, ops: seq<CacheOp>)
    requires OnlyInserts(ops)
    ensures var once := ApplyAll(max, c, ops);
            var twice := ApplyAll(max, once, ops);
            twice.byIp == once.byIp && twice.byCgroup == once.byCgroup
  {
    var once := ApplyAll(max, c, ops);
    InsertsAreAbsorbed(max, c, ops);
    SettledInsertsOverwrite(max, once, ops);
    assert Overwrite(once.byIp, IpWrites(ops)) == once.byIp;
    InsertsWriteCgroups(max, c, ops);
    InsertsWriteCgroups(max, once, ops);
  }

  lemma {:induction false} CgroupWritesAppend(a: seq<CacheOp>, b: seq<CacheOp>)
    ensures CgroupWrites(a + b) == CgroupWrites(a) + CgroupWrites(b)
  {
    if b == [] {
      assert a + b == a;
    } else {
      CgroupWritesAppend(a, b[..|b| - 1]);
      assert (a + b)[..|a + b| - 1] == a + b[..|b| - 1];
    }
  }

  lemma {:induction false} IpWritesAppend(a: seq<CacheOp>, b: seq<CacheOp>)
    ensures IpWrites(a + b) == IpWrites(a) + IpWrites(b)
  {
    if b == [] {
      assert a + b == a;
    } else {
      IpWritesAppend(a, b[..|b| - 1]);
      assert (a + b)[..|a + b| - 1] == a + b[..|b| - 1];
    }
  }

  lemma OneMoreInsert(ops: seq<CacheOp>, cgroup: u64, md: PodMetadata)
    ensures CgroupWrites(ops + [CacheOp.Insert(cgroup, md)]) == CgroupWrites(ops)[cgroup := md]
    ensures IpWrites(ops + [CacheOp.Insert(cgroup, md)])
            == if md.podIp.Some? then IpWrites(ops)[md.podIp.value := md] else IpWrites(ops)
  {
    assert (ops + [CacheOp.Insert(cgroup, md)])[..|ops|] == ops;
  }

  lemma StillAccepts(max: nat, c: Cache, c': Cache, ip: u32, writes: IpIndex)
    requires Accepts(max, c, ip) && c'.byIp == c.byIp + writes
    requires forall k | k in writes :: k == ip
    ensures Accepts(max, c', ip)
  {
    if ip !in writes {
      assert writes == map[];
      assert c'.byIp == c.byIp;
    }
  }

  lemma OverlayUpdate(m: IpIndex, g: IpIndex, ip: u32, md: PodMetadata)
    ensures (m + g)[ip := md] == m + g[ip := md]
  {
  }

  lemma OverlayOne(m: IpIndex, g: IpIndex, ip: u32)
    requires g.Keys == {ip}
    ensures ip in m + g && (m + g)[ip] == g[ip]
    ensures forall other | other != ip :: PodTable.Lookup(m + g, other) == PodTable.Lookup(m, other)
  {
  }

  lemma DropOverlay<K>(m: map<K, PodMetadata>, g: map<K, PodMetadata>, uid: string)
    requires forall k | k in g :: g[k].podUid != uid
    ensures Drop(m + g, uid) == Drop(m, uid) + g
  {
  }

  lemma ApplyOne(max: nat, c: Cache, op: CacheOp)
    ensures ApplyAll(max, c, [op]) == Apply(max, c, op)
  {
    assert [op][..0] == [];
  }

  lemma AcceptsAfterDrop(max: nat, c: Cache, c': Cache, ip: u32, uid: string)
    requires |c.byIp| <= max && c'.byIp == Drop(c.byIp, uid)
    ensures Accepts(max, c', ip) <==> Accepts(max, c, ip) || exists k :: k in c.byIp && c.byIp[k].podUid == uid
  {
    DropSize(c.byIp, uid);
  }

  /** An address that is present holds the last metadata offered for it, or what it held. */
  lemma {:induction false} InsertsRewrite(max: nat, c: Cache, ops: seq<CacheOp>, ip: u32)
    requires OnlyInserts(ops) && ip in c.byIp
    ensures ip in ApplyAll(max, c, ops).byIp
    ensures ApplyAll(max, c, ops).byIp[ip] == if ip in IpWrites(ops) then IpWrites(ops)[ip] else c.byIp[ip]
  {
    if ops != [] {
      assert ops[|ops| - 1] in ops;
      InsertsRewrite(max, c, ops[..|ops| - 1], ip);
    }
  }

  /** An address that was not there holds what the list offered. */
  lemma {:induction false} InsertsAdd(max: nat, c: Cache, ops: seq<CacheOp>, ip: u32)
    requires OnlyInserts(ops) && ip !in c.byIp && ip in ApplyAll(max, c, ops).byIp
    ensures ip in IpWrites(ops) && ApplyAll(max, c, ops).byIp[ip] == IpWrites(ops)[ip]
  {
    if ops != [] {
      var prefix, last := ops[..|ops| - 1], ops[|ops| - 1];
      assert last in ops;
      if ip in ApplyAll(max, c, prefix).byIp {
        InsertsAdd(max, c, prefix, ip);
      }
    }
  }

  // ---------- Inserts for a list of containers ----------

  /** The inserts for the first `n` entries, given the cgroups found for them. */
  function InsertsFrom(entries: seq<PodMetadata>, found: seq<Option<u64>>, n: nat): seq<CacheOp>
    requires n <= |entries| == |found|
  {
    if n == 0 then [] else
      InsertsFrom(entries, found, n - 1)
      + match found[n - 1]
        case None => []
        case Some(cgroup) => [CacheOp.Insert(cgroup, entries[n - 1])]
  }

  lemma InsertsFromNext(entries: seq<PodMetadata>, found: seq<Option<u64>>, n: nat)
    requires n < |entries| == |found|
    ensures var before, after := InsertsFrom(entries, found, n), InsertsFrom(entries, found, n + 1);
            && CgroupWrites(after) == (match found[n]
                                       case None => CgroupWrites(before)
                                       case Some(cgroup) => CgroupWrites(before)[cgroup := entries[n]])
            && IpWrites(after) == (if found[n].Some? && entries[n].podIp.Some?
                                   then IpWrites(before)[entries[n].podIp.value := entries[n]]
                                   else IpWrites(before))
  {
    var before := InsertsFrom(entries, found, n);
    match found[n]
    case None => assert before + [] == before;
    case Some(cgroup) => OneMoreInsert(before, cgroup, entries[n]);
  }

  /** Position `i` is the last of the first `n` found in `cgroup`. */
  ghost predicate IsLastIn(found: seq<Option<u64>>, n: nat, i: nat, cgroup: u64) {
    && i < n <= |found| && found[i] == Some(cgroup)
    && forall j | i < j < n :: found[j] != Some(cgroup)
  }

  /** `md` is the entry of the last of the first `n` found in `cgroup`. */
  ghost predicate IsEntryOfLastIn(entries: seq<PodMetadata>, found: seq<Option<u64>>, n: nat, cgroup: u64, md: PodMetadata) {
    |entries| == |found| && exists i: nat :: IsLastIn(found, n, i, cgroup) && md == entries[i]
  }

  lemma LastInStays(entries: seq<PodMetadata>, found: seq<Option<u64>>, n: nat, cgroup: u64, md: PodMetadata)
    requires 0 < n <= |found| && found[n - 1] != Some(cgroup)
    requires IsEntryOfLastIn(entries, found, n - 1, cgroup, md)
    ensures IsEntryOfLastIn(entries, found, n, cgroup, md)
  {
    var i: nat :| IsLastIn(found, n - 1, i, cgroup) && md == entries[i];
    assert IsLastIn(found, n, i, cgroup);
  }

  /** What the first `n` entries write at a cgroup. */
  lemma {:induction false} InsertsWriteLast(entries: seq<PodMetadata>, found: seq<Option<u64>>, n: nat, cgroup: u64)
    requires n <= |entries| == |found|
    ensures var writes := CgroupWrites(InsertsFrom(entries, found, n));
            if cgroup in writes then IsEntryOfLastIn(entries, found, n, cgroup, writes[cgroup])
            else forall i | 0 <= i < n :: found[i] != Some(cgroup)
  {
    if n > 0 {
      var before := CgroupWrites(InsertsFrom(entries, found, n - 1));
      InsertsWriteLast(entries, found, n - 1, cgroup);
      InsertsFromNext(entries, found, n - 1);
      if found[n - 1] == Some(cgroup) {
        assert IsLastIn(found, n, n - 1, cgroup);
      } else if cgroup in before {
        LastInStays(entries, found, n, cgroup, before[cgroup]);
      }
    }
  }

  /** Position `i` is the last of the first `n` found anywhere. */
  ghost predicate IsLastFound(found: seq<Option<u64>>, n: nat, i: nat) {
    i < n <= |found| && found[i].Some? && forall j | i < j < n :: found[j].None?
  }

  /** `md` is the entry of the last of the first `n` found anywhere. */
  ghost predicate IsEntryOfLastFound(entries: seq<PodMetadata>, found: seq<Option<u64>>, n: nat, md: PodMetadata) {
    |entries| == |found| && exists i: nat :: IsLastFound(found, n, i) && md == entries[i]
  }

  lemma LastFoundStays(entries: seq<PodMetadata>, found: seq<Option<u64>>, n: nat, md: PodMetadata)
    requires 0 < n <= |found| && found[n - 1].None?
    requires IsEntryOfLastFound(entries, found, n - 1, md)
    ensures IsEntryOfLastFound(entries, found, n, md)
  {
    var i: nat :| IsLastFound(found, n - 1, i) && md == entries[i];
    assert IsLastFound(found, n, i);
  }

  /** What the first `n` entries, all at one address, write there. */
  lemma {:induction false} InsertsOfferLast(entries: seq<PodMetadata>, found: seq<Option<u64>>, n: nat, ip: u32)
    requires n <= |entries| == |found| && forall i | 0 <= i < |entries| :: entries[i].podIp == Some(ip)
    ensures var writes := IpWrites(InsertsFrom(entries, found, n));
            if ip in writes then IsEntryOfLastFound(entries, found, n, writes[ip])
            else forall i | 0 <= i < n :: found[i].None?
  {
    if n > 0 {
      var before := IpWrites(InsertsFrom(entries, found, n - 1));
      InsertsOfferLast(entries, found, n - 1, ip);
      InsertsFromNext(entries, found, n - 1);
      if found[n - 1].Some? {
        assert IsLastFound(found, n, n - 1);
      } else if ip in before {
        LastFoundStays(entries, found, n, before[ip]);
      }
    }
  }

  // ---------- Several lists one after the other ----------

  /** The writes of the first `n` lists together, later ones over earlier ones. */
  function Merged(writes: seq<IpIndex>, n: nat): IpIndex
    requires n <= |writes|
  {
    if n == 0 then map[] else Merged(writes, n - 1) + writes[n - 1]
  }

  lemma {:induction false} MergedLast(writes: seq<IpIndex>, n: nat, i: nat, ip: u32)
    requires i < n <= |writes| && ip in writes[i]
    requires forall j | i < j < n :: ip !in writes[j]
    ensures ip in Merged(writes, n) && Merged(writes, n)[ip] == writes[i][ip]
  {
    if i < n - 1 {
      MergedLast(writes, n - 1, i, ip);
    }
  }
}
