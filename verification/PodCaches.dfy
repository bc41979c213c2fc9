/** The pod cache, updated in place, proved to follow PodTable operation by operation. */
module PodCaches {
  import opened Common
  import opened Health
  import opened PodTable

  class PodCache {
    var byCgroup: CgroupIndex
    var byIp: IpIndex
    const maxEntries: nat
    const health: HealthState

    ghost function Contents(): Cache
      reads this, health
    {
      Cache(byCgroup, byIp, health.podCacheAtCapacity, health.podCacheEvictions)
    }

    constructor (maxEntries: nat, health: HealthState)
      ensures this.maxEntries == maxEntries && this.health == health
      ensures byCgroup == map[] && byIp == map[]
    {
      this.maxEntries, this.health := maxEntries, health;
      byCgroup, byIp := map[], map[];
    }

    method Insert(cgroup: u64, metadata: PodMetadata)
      modifies this, health`podCacheAtCapacity, health`podCacheEvictions
      ensures Contents() == Apply(maxEntries, old(Contents()), CacheOp.Insert(cgroup, metadata))
    {
      if metadata.podIp.Some? {
        InsertIp(metadata.podIp.value, metadata);
      }
      byCgroup := byCgroup[cgroup := metadata];
    }

    method InsertByIp(metadata: PodMetadata)
      modifies this, health`podCacheAtCapacity, health`podCacheEvictions
      ensures Contents() == Apply(maxEntries, old(Contents()), CacheOp.InsertByIp(metadata))
    {
      if metadata.podIp.Some? {
        InsertIp(metadata.podIp.value, metadata);
      }
    }

    method InsertIp(ip: u32, metadata: PodMetadata)
      requires metadata.podIp == Some(ip)
      modifies this`byIp, health`podCacheAtCapacity, health`podCacheEvictions
      ensures Contents() == Claim(maxEntries, old(Contents()), metadata)
    {
      if ip in byIp {
        byIp := byIp[ip := metadata];
        return;
      }
      if |byIp| >= maxEntries {
        health.SetPodCacheAtCapacity(true);
        health.IncPodCacheEvictions();
        return;
      }
      byIp := byIp[ip := metadata];
    }

    function Get(cgroup: u64): Option<PodMetadata>
      reads this
    {
      if cgroup in byCgroup then Some(byCgroup[cgroup]) else None
    }

    function GetByIp(ip: u32): Option<PodMetadata>
      reads this
    {
      Lookup(byIp, ip)
    }

    method Remove(cgroup: u64) returns (removed: Option<PodMetadata>)
      modifies this`byCgroup
      ensures Contents() == Apply(maxEntries, old(Contents()), CacheOp.Remove(cgroup))
      ensures removed == if cgroup in old(byCgroup) then Some(old(byCgroup)[cgroup]) else None
    {
      removed := Get(cgroup);
      byCgroup := byCgroup - {cgroup};
    }

    method RemovePod(podUid: string)
      modifies this, health`podCacheAtCapacity
      ensures Contents() == Apply(maxEntries, old(Contents()), CacheOp.RemovePod(podUid))
    {
      byCgroup := map k | k in byCgroup && byCgroup[k].podUid != podUid :: byCgroup[k];
      byIp := map k | k in byIp && byIp[k].podUid != podUid :: byIp[k];
      if |byIp| < maxEntries {
        health.SetPodCacheAtCapacity(false);
      }
    }
  }
}
