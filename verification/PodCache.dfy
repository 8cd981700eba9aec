/**
 pkg/k8s/pod/converter.go, getAggregateResources of controllers/core/pod_controller.go and PodHasENIRequest of
 pkg/utils/helper.go: what the controller decides on the slimmed pods of its cache is what it would decide on the
 full ones.
 */
module PodCache {
  import opened Collections
  import opened GoMath

  const VPC_RESOURCE_PREFIX := "vpc.amazonaws.com/"
  const RESOURCE_NAME_POD_ENI := "vpc.amazonaws.com/pod-eni"

  /** A resource quantity, as far as AsInt64 sees it: a number, or not convertible. */
  type Quantity = Option<int>
  type ResourceList = map<string, Quantity>

  datatype Container = Container(name: string, requests: ResourceList, limits: ResourceList)

  /** A pod; `other` stands for everything the controller never looks at. */
  datatype Pod = Pod(
    name: string,
    namespace: string,
    uid: string,
    deletionTimestamp: Option<int>,
    annotations: map<string, string>,
    containers: seq<Container>,
    serviceAccountName: string,
    nodeName: string,
    phase: string,
    other: string)

  predicate IsVPC(name: string) {
    VPC_RESOURCE_PREFIX <= name
  }

  /** The entries whose key carries the VPC prefix. */
  function OnlyVPC<V>(m: map<string, V>): map<string, V> {
    map k | k in m && IsVPC(k) :: m[k]
  }

  // ------------------------------------------------------------------ the converter

  /** The loops over annotations and over one container's requests: keep the entries with the VPC prefix. */
  method FilterVPC<V>(m: map<string, V>) returns (kept: map<string, V>)
    ensures kept == OnlyVPC(m)
  {
    kept := map[];
    var keys := m.Keys;
    while keys != {}
      invariant keys <= m.Keys
      invariant kept == map k | k in m && k !in keys && IsVPC(k) :: m[k]
      decreases keys
    {
      var k :| k in keys;
      keys := keys - {k};
      if VPC_RESOURCE_PREFIX <= k {
        kept := kept[k := m[k]];
      }
    }
  }

  function StripContainer(c: Container): Container {
    Container("", OnlyVPC(c.requests), map[])
  }

  /** Containers that request a VPC resource, reduced to those requests. */
  function StripContainers(cs: seq<Container>): seq<Container> {
    if cs == [] then []
    else
      var last := StripContainer(cs[|cs| - 1]);
      StripContainers(cs[..|cs| - 1]) + if last.requests == map[] then [] else [last]
  }

  method GetContainersWithVPCLimits(containers: seq<Container>) returns (stripped: seq<Container>)
    ensures stripped == StripContainers(containers)
  {
    stripped := [];
    for i := 0 to |containers|
      invariant stripped == StripContainers(containers[..i])
    {
      assert containers[..i + 1][..i] == containers[..i];
      var requests := FilterVPC(containers[i].requests);
      if requests != map[] {
        stripped := stripped + [Container("", requests, map[])];
      }
    }
    assert containers[..|containers|] == containers;
  }

  function Strip(pod: Pod): Pod {
    Pod(pod.name, pod.namespace, pod.uid, pod.deletionTimestamp, OnlyVPC(pod.annotations),
        StripContainers(pod.containers),
        pod.serviceAccountName, pod.nodeName, pod.phase, "")
  }

  method StripDownPod(pod: Pod) returns (stripped: Pod)
    ensures stripped == Strip(pod)
    ensures stripped.uid == pod.uid && stripped.nodeName == pod.nodeName && stripped.phase == pod.phase
    ensures stripped.name == pod.name && stripped.namespace == pod.namespace
  {
    var annotations := FilterVPC(pod.annotations);
    var containers := GetContainersWithVPCLimits(pod.containers);
    stripped := Pod(pod.name, pod.namespace, pod.uid, pod.deletionTimestamp, annotations, containers,
                    pod.serviceAccountName, pod.nodeName, pod.phase, "");
  }

  // ------------------------------------------------------------------ decisions on a pod

  /** A container contributes to a resource when it requests a convertible quantity of it. */
  predicate Contributes(c: Container, resource: string) {
    resource in c.requests && c.requests[resource].Some?
  }

  /** The exact total requested of one resource. */
  function Requested(cs: seq<Container>, resource: string): int {
    if cs == [] then 0
    else
      var last := cs[|cs| - 1];
      Requested(cs[..|cs| - 1], resource) + if Contributes(last, resource) then last.requests[resource].value else 0
  }

  predicate AnyContributes(cs: seq<Container>, resource: string) {
    exists i :: 0 <= i < |cs| && Contributes(cs[i], resource)
  }

  /** The aggregate over some containers: one entry per contributing resource, summed with 64-bit wrap-around. */
  ghost predicate Aggregates(m: map<string, int>, cs: seq<Container>) {
    forall r :: (r in m <==> AnyContributes(cs, r)) && (r in m ==> m[r] == Wrap64(Requested(cs, r)))
  }

  method GetAggregateResources(pod: Pod) returns (aggregate: map<string, int>)
    ensures Aggregates(aggregate, pod.containers)
  {
    hide Wrap64;
    var cs := pod.containers;
    aggregate := map[];
    for i := 0 to |cs|
      invariant Aggregates(aggregate, cs[..i])
    {
      aggregate := AddContainer(cs, i, aggregate);
    }
    assert cs[..|cs|] == cs;
  }

  /** The inner loop over the requests of one container, in arbitrary order. */
  method AddContainer(cs: seq<Container>, i: nat, before: map<string, int>) returns (aggregate: map<string, int>)
    requires i < |cs| && Aggregates(before, cs[..i])
    ensures Aggregates(aggregate, cs[..i + 1])
  {
    hide Wrap64, AnyContributes, Requested;
    var requests := cs[i].requests;
    aggregate := before;
    var keys := requests.Keys;
    while keys != {}
      invariant keys <= requests.Keys
      invariant forall r :: r in aggregate <==> r in before || (r !in keys && Contributes(cs[i], r))
      invariant forall r :: r in aggregate ==>
        aggregate[r] == if r !in keys && Contributes(cs[i], r)
                        then Wrap64((if r in before then before[r] else 0) + requests[r].value)
                        else before[r]
      decreases keys
    {
      var k :| k in keys;
      keys := keys - {k};
      if requests[k].Some? {
        var resCount := if k in aggregate then aggregate[k] else 0;
        aggregate := aggregate[k := Wrap64(resCount + requests[k].value)];
      }
    }
    forall r
      ensures r in aggregate <==> AnyContributes(cs[..i + 1], r)
      ensures r in aggregate ==> aggregate[r] == Wrap64(Requested(cs[..i + 1], r))
    {
      NextContainer(cs, i, r);
    }
  }

  lemma NextContainer(cs: seq<Container>, i: nat, r: string)
    requires i < |cs|
    ensures AnyContributes(cs[..i + 1], r) <==> AnyContributes(cs[..i], r) || Contributes(cs[i], r)
    ensures Requested(cs[..i + 1], r) == Requested(cs[..i], r)
            + if Contributes(cs[i], r) then cs[i].requests[r].value else 0
    ensures Contributes(cs[i], r) ==>
              Wrap64(Wrap64(Requested(cs[..i], r)) + cs[i].requests[r].value) == Wrap64(Requested(cs[..i + 1], r))
    ensures !AnyContributes(cs[..i], r) ==> Requested(cs[..i], r) == 0 && Wrap64(0) == 0
  {
    hide Wrap64;
    assert cs[..i + 1][..i] == cs[..i];
    forall j | 0 <= j < i ensures cs[..i + 1][j] == cs[..i][j] {}
    assert cs[..i + 1][i] == cs[i];
    if AnyContributes(cs[..i], r) {
      var j :| 0 <= j < i && Contributes(cs[..i][j], r);
      assert Contributes(cs[..i + 1][j], r);
    }
    if Contributes(cs[i], r) {
      assert Contributes(cs[..i + 1][i], r);
      WrapAdd(Requested(cs[..i], r), cs[i].requests[r].value);
    }
    if !AnyContributes(cs[..i], r) {
      NoneRequested(cs[..i], r);
      WrapAdd(0, 0);
    }
  }

  lemma {:induction false} NoneRequested(cs: seq<Container>, r: string)
    requires !AnyContributes(cs, r)
    ensures Requested(cs, r) == 0
  {
    if cs != [] {
      var init := cs[..|cs| - 1];
      forall j | 0 <= j < |init| ensures !Contributes(init[j], r) {
        assert !Contributes(cs[j], r);
      }
      NoneRequested(init, r);
    }
  }

  /** Some container requests the resource, convertible or not. */
  ghost predicate AnyRequests(cs: seq<Container>, resource: string) {
    exists i :: 0 <= i < |cs| && resource in cs[i].requests
  }

  method PodHasENIRequest(pod: Option<Pod>) returns (has: bool)
    ensures has <==> pod.Some? && AnyRequests(pod.value.containers, RESOURCE_NAME_POD_ENI)
  {
    if pod.None? {
      return false;
    }
    var containers := pod.value.containers;
    for i := 0 to |containers|
      invariant forall j :: 0 <= j < i ==> RESOURCE_NAME_POD_ENI !in containers[j].requests
    {
      if RESOURCE_NAME_POD_ENI in containers[i].requests {
        return true;
      }
    }
    return false;
  }

  /** What the aggregate is made of: an entry for each convertible request, summed over the containers. */
  lemma AggregateIs(m: map<string, int>, cs: seq<Container>, c: Container, resource: string)
    requires Aggregates(m, cs + [c])
    ensures var all := cs + [c];
            resource in m
            <==> exists i :: 0 <= i < |all| && resource in all[i].requests && all[i].requests[resource].Some?
    ensures Requested([], resource) == 0
    ensures Requested(cs + [c], resource)
            == Requested(cs, resource)
               + if resource in c.requests && c.requests[resource].Some? then c.requests[resource].value else 0
    ensures resource in m ==> m[resource] == Wrap64(Requested(cs + [c], resource))
  {
    hide Wrap64;
    var all := cs + [c];
    assert all[..|cs|] == cs && all[|cs|] == c;
    if i :| 0 <= i < |all| && resource in all[i].requests && all[i].requests[resource].Some? {
      assert Contributes(all[i], resource);
    }
    if AnyContributes(all, resource) {
      var i :| 0 <= i < |all| && Contributes(all[i], resource);
      assert resource in all[i].requests;
    }
  }

  // ------------------------------------------------------------------ agreement

  /** Stripping keeps who the pod is, where it runs and what it may do, and exactly its VPC annotations. */
  lemma StripKeepsIdentity(pod: Pod)
    ensures var cached := Strip(pod);
            && cached.name == pod.name && cached.namespace == pod.namespace && cached.uid == pod.uid
            && cached.deletionTimestamp == pod.deletionTimestamp
            && cached.serviceAccountName == pod.serviceAccountName
            && cached.nodeName == pod.nodeName && cached.phase == pod.phase
    ensures forall key :: "vpc.amazonaws.com/" <= key ==>
                            && (key in Strip(pod).annotations <==> key in pod.annotations)
                            && (key in pod.annotations ==> Strip(pod).annotations[key] == pod.annotations[key])
    ensures forall key :: key in Strip(pod).annotations ==> "vpc.amazonaws.com/" <= key
  {
    hide StripContainers;
  }

  /** A cached container holds nothing but requests of VPC resources, and at least one. */
  lemma {:induction false} StrippedContainers(cs: seq<Container>, i: nat)
    requires i < |StripContainers(cs)|
    ensures var c := StripContainers(cs)[i];
            && c.name == "" && c.limits == map[] && c.requests != map[]
            && forall r :: r in c.requests ==> "vpc.amazonaws.com/" <= r
  {
    if i < |StripContainers(cs[..|cs| - 1])| {
      StrippedContainers(cs[..|cs| - 1], i);
    }
  }

  /** What a handler takes from the pod of an event: whom to serve, on which node, and the annotated address. */
  datatype EventPod = EventPod(uid: string, nodeName: string, annotation: Option<string>, completed: bool)

  function EventPodOf(pod: Pod, resourceName: string): EventPod {
    EventPod(pod.uid, pod.nodeName,
             if resourceName in pod.annotations then Some(pod.annotations[resourceName]) else None,
             pod.phase == "Succeeded" || pod.phase == "Failed")
  }

  /** The handlers of VPC resources do the same with the cached pod as with the full one. */
  lemma CacheKeepsEvents(pod: Pod, resourceName: string)
    requires "vpc.amazonaws.com/" <= resourceName
    ensures EventPodOf(Strip(pod), resourceName) == EventPodOf(pod, resourceName)
  {
    hide Strip;
    StripKeepsIdentity(pod);
  }

  lemma OnlyVPCTwice<V>(m: map<string, V>)
    ensures OnlyVPC(OnlyVPC(m)) == OnlyVPC(m)
  {
  }

  /**
   Stripping keeps, for every VPC resource, which containers request it and how much, up to containers without VPC
   requests.
   */
  lemma {:induction false} StripAgrees(cs: seq<Container>, r: string)
    requires IsVPC(r)
    ensures Requested(StripContainers(cs), r) == Requested(cs, r)
    ensures AnyContributes(StripContainers(cs), r) <==> AnyContributes(cs, r)
    ensures AnyRequests(StripContainers(cs), r) <==> AnyRequests(cs, r)
  {
    if cs != [] {
      var init, last := cs[..|cs| - 1], cs[|cs| - 1];
      StripAgrees(init, r);
      var stripped := StripContainer(last);
      StripKeepsRequest(last, r);
      AppendAgrees(init, last, r);
      assert cs == init + [last];
      hide AnyContributes, AnyRequests, Requested, StripContainer;
      var front := StripContainers(init);
      if stripped.requests == map[] {
        assert StripContainers(cs) == front + [] == front;
      } else {
        AppendAgrees(front, stripped, r);
      }
    }
  }

  lemma StripKeepsRequest(c: Container, r: string)
    requires IsVPC(r)
    ensures r in StripContainer(c).requests <==> r in c.requests
    ensures r in c.requests ==> StripContainer(c).requests[r] == c.requests[r]
  {
  }

  lemma AppendAgrees(cs: seq<Container>, c: Container, r: string)
    ensures Requested(cs + [c], r) == Requested(cs, r) + if Contributes(c, r) then c.requests[r].value else 0
    ensures AnyContributes(cs + [c], r) <==> AnyContributes(cs, r) || Contributes(c, r)
    ensures AnyRequests(cs + [c], r) <==> AnyRequests(cs, r) || r in c.requests
  {
    var all := cs + [c];
    assert all[..|cs|] == cs && all[|cs|] == c;
    assert forall i :: 0 <= i < |cs| ==> all[i] == cs[i];
    if AnyContributes(cs, r) {
      var i :| 0 <= i < |cs| && Contributes(cs[i], r);
      assert Contributes(all[i], r);
    }
    if AnyRequests(cs, r) {
      var i :| 0 <= i < |cs| && r in cs[i].requests;
      assert r in all[i].requests;
    }
    if Contributes(c, r) {
      assert Contributes(all[|cs|], r);
    }
  }

  /** For every pod: the aggregate of the cached pod is that of the full pod on VPC resources, and has nothing else. */
  lemma CacheAggregatesAgree(pod: Pod, full: map<string, int>, cached: map<string, int>)
    requires Aggregates(full, pod.containers) && Aggregates(cached, Strip(pod).containers)
    ensures cached == OnlyVPC(full)
  {
    hide Wrap64;
    var cs := StripContainers(pod.containers);
    forall r | IsVPC(r) ensures (r in cached <==> r in full) && (r in full ==> cached[r] == full[r]) {
      StripAgrees(pod.containers, r);
    }
    forall r | r in cached ensures IsVPC(r) {
      assert AnyContributes(cs, r);
      var i :| 0 <= i < |cs| && Contributes(cs[i], r);
      StrippedIsVPC(pod.containers, i, r);
    }
    assert forall r :: r in cached <==> r in OnlyVPC(full);
  }

  lemma {:induction false} StrippedIsVPC(cs: seq<Container>, i: nat, r: string)
    requires i < |StripContainers(cs)| && r in StripContainers(cs)[i].requests
    ensures IsVPC(r)
  {
    if i < |StripContainers(cs[..|cs| - 1])| {
      StrippedIsVPC(cs[..|cs| - 1], i, r);
    }
  }

  /** For every pod the test for a branch-interface request has the same answer on the cached pod. */
  lemma CacheENIAgrees(pod: Pod)
    ensures AnyRequests(Strip(pod).containers, RESOURCE_NAME_POD_ENI)
            <==> AnyRequests(pod.containers, RESOURCE_NAME_POD_ENI)
  {
    StripAgrees(pod.containers, RESOURCE_NAME_POD_ENI);
  }

  lemma {:induction false} StripContainersTwice(cs: seq<Container>)
    ensures StripContainers(StripContainers(cs)) == StripContainers(cs)
  {
    if cs != [] {
      StripContainersTwice(cs[..|cs| - 1]);
      var front, last := StripContainers(cs[..|cs| - 1]), StripContainer(cs[|cs| - 1]);
      OnlyVPCTwice(cs[|cs| - 1].requests);
      assert StripContainer(last) == last;
      if last.requests == map[] {
        assert StripContainers(cs) == front + [] == front;
      } else {
        assert (front + [last])[..|front|] == front;
      }
    }
  }

  /** Pods are stripped once when listed and again when processed: the second time changes nothing. */
  lemma StripIsIdempotent(pod: Pod)
    ensures Strip(Strip(pod)) == Strip(pod)
  {
    OnlyVPCTwice(pod.annotations);
    StripContainersTwice(pod.containers);
  }
}
