/** The shared health record: flags and counters that the flow table and the pod cache
    drive and the status endpoints read. */
module Health {

  class HealthState {
    var probesAttached: bool
    var k8sWatcherConnected: bool
    var flowTableAtCapacity: bool
    var podCacheAtCapacity: bool
    var flowEvictions: nat
    var podCacheEvictions: nat

    constructor ()
      ensures !probesAttached && !k8sWatcherConnected
      ensures !flowTableAtCapacity && !podCacheAtCapacity
      ensures flowEvictions == 0 && podCacheEvictions == 0
    {
      probesAttached, k8sWatcherConnected := false, false;
      flowTableAtCapacity, podCacheAtCapacity := false, false;
      flowEvictions, podCacheEvictions := 0, 0;
    }

    predicate IsHealthy()
      reads this
    {
      probesAttached && !flowTableAtCapacity
    }

    method SetK8sWatcherConnected(val: bool)
      modifies this`k8sWatcherConnected
      ensures k8sWatcherConnected == val
    {
      k8sWatcherConnected := val;
    }

    method SetFlowTableAtCapacity(val: bool)
      modifies this`flowTableAtCapacity
      ensures flowTableAtCapacity == val
    {
      flowTableAtCapacity := val;
    }

    method SetPodCacheAtCapacity(val: bool)
      modifies this`podCacheAtCapacity
      ensures podCacheAtCapacity == val
    {
      podCacheAtCapacity := val;
    }

    method IncFlowEvictions(count: nat)
      modifies this`flowEvictions
      ensures flowEvictions == old(flowEvictions) + count
    {
      flowEvictions := flowEvictions + count;
    }

    method IncPodCacheEvictions()
      modifies this`podCacheEvictions
      ensures podCacheEvictions == old(podCacheEvictions) + 1
    {
      podCacheEvictions := podCacheEvictions + 1;
    }
  }
}
