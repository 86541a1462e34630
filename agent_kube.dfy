/** The Kubernetes special agent's aggregation of container resources and its
    pod filters: requests and limits summed over the containers that specify
    them, with the unspecified and zeroed ones counted, and pods selected by
    namespace, phase or cron job. */
module KubeAgent {
  import opened Wrappers
  import opened Strings
  import opened Collections

  datatype Phase = PENDING | RUNNING | SUCCEEDED | FAILED | UNKNOWN

  /** `ResourcesRequirements`: a memory and a cpu amount, each optional. */
  datatype Requirements = Requirements(memory: Option<real>, cpu: Option<real>)

  datatype ContainerResources = ContainerResources(limits: Requirements, requests: Requirements)

  datatype ContainerSpec = ContainerSpec(name: string, resources: ContainerResources)

  datatype MetaData = MetaData(name: string, namespace: string)

  datatype Pod = Pod(uid: string, metadata: MetaData, phase: Phase, containers: seq<ContainerSpec>)

  datatype CronJob = CronJob(podUids: seq<string>)

  /** The `request_type` argument: `"memory"` or `"cpu"`. */
  datatype ResourceType = Memory | Cpu

  /** `section.Resources`. */
  datatype Resources = Resources(
    request: real,
    limit: real,
    countUnspecifiedRequests: nat,
    countUnspecifiedLimits: nat,
    countZeroedLimits: nat,
    countTotal: nat)

  const NoResources := Resources(0.0, 0.0, 0, 0, 0, 0)

  function Amount(r: Requirements, t: ResourceType): Option<real>
  {
    match t
    case Memory => r.memory
    case Cpu => r.cpu
  }

  /** The sum of the specified amounts. */
  function SumSpecified(values: seq<Option<real>>): real
  {
    if |values| == 0 then 0.0
    else (if values[0].Some? then values[0].value else 0.0) + SumSpecified(values[1..])
  }

  /** How many amounts are unspecified. */
  function CountUnspecified(values: seq<Option<real>>): (n: nat)
    ensures n <= |values|
  {
    if |values| == 0 then 0
    else (if values[0].None? then 1 else 0) + CountUnspecified(values[1..])
  }

  /** How many amounts are specified as zero. */
  function CountZeroed(values: seq<Option<real>>): (n: nat)
    ensures n <= |values|
  {
    if |values| == 0 then 0
    else (if values[0] == Some(0.0) then 1 else 0) + CountZeroed(values[1..])
  }

  function Requests(t: ResourceType, specs: seq<ContainerSpec>): seq<Option<real>>
  {
    seq(|specs|, i requires 0 <= i < |specs| => Amount(specs[i].resources.requests, t))
  }

  function Limits(t: ResourceType, specs: seq<ContainerSpec>): seq<Option<real>>
  {
    seq(|specs|, i requires 0 <= i < |specs| => Amount(specs[i].resources.limits, t))
  }

  /** `aggregate_resources`: sums requests and limits over the containers
      that specify them and counts the rest. */
  function AggregateResources(t: ResourceType, specs: seq<ContainerSpec>): (r: Resources)
    ensures r.countTotal == |specs|
    ensures r.countUnspecifiedRequests <= |specs|
    ensures r.countUnspecifiedLimits + r.countZeroedLimits <= |specs|
  {
    var limits := Limits(t, specs);
    ZeroedAreSpecified(limits);
    Resources(
      SumSpecified(Requests(t, specs)),
      SumSpecified(limits),
      CountUnspecified(Requests(t, specs)),
      CountUnspecified(limits),
      CountZeroed(limits),
      |specs|)
  }

  /** An amount is unspecified or zero, never both. */
  lemma {:induction false} ZeroedAreSpecified(values: seq<Option<real>>)
    ensures CountUnspecified(values) + CountZeroed(values) <= |values|
  {
    if |values| > 0 {
      ZeroedAreSpecified(values[1..]);
    }
  }

  /** Two aggregates of disjoint container lists, combined. */
  function Combine(a: Resources, b: Resources): Resources
  {
    Resources(
      a.request + b.request,
      a.limit + b.limit,
      a.countUnspecifiedRequests + b.countUnspecifiedRequests,
      a.countUnspecifiedLimits + b.countUnspecifiedLimits,
      a.countZeroedLimits + b.countZeroedLimits,
      a.countTotal + b.countTotal)
  }

  lemma {:induction false} TalliesConcat(a: seq<Option<real>>, b: seq<Option<real>>)
    ensures SumSpecified(a + b) == SumSpecified(a) + SumSpecified(b)
    ensures CountUnspecified(a + b) == CountUnspecified(a) + CountUnspecified(b)
    ensures CountZeroed(a + b) == CountZeroed(a) + CountZeroed(b)
  {
    if |a| == 0 {
      assert a + b == b;
    } else {
      assert (a + b)[1..] == a[1..] + b;
      TalliesConcat(a[1..], b);
    }
  }

  /** Aggregating a concatenation combines the aggregates of the parts. */
  lemma AggregateConcat(t: ResourceType, a: seq<ContainerSpec>, b: seq<ContainerSpec>)
    ensures AggregateResources(t, a + b) == Combine(AggregateResources(t, a), AggregateResources(t, b))
  {
    assert Requests(t, a + b) == Requests(t, a) + Requests(t, b);
    assert Limits(t, a + b) == Limits(t, a) + Limits(t, b);
    TalliesConcat(Requests(t, a), Requests(t, b));
    TalliesConcat(Limits(t, a), Limits(t, b));
  }

  /** No containers, nothing requested and nothing counted. */
  lemma AggregateEmpty(t: ResourceType)
    ensures AggregateResources(t, []) == NoResources
  {
  }

  /** One container that specifies both amounts, neither limit zero. */
  lemma AggregateOne(t: ResourceType, c: ContainerSpec, request: real, limit: real)
    requires Amount(c.resources.requests, t) == Some(request)
    requires Amount(c.resources.limits, t) == Some(limit) && limit != 0.0
    ensures AggregateResources(t, [c]) == Resources(request, limit, 0, 0, 0, 1)
  {
    assert Requests(t, [c]) == [Some(request)] && [Some(request)][1..] == [];
    assert Limits(t, [c]) == [Some(limit)] && [Some(limit)][1..] == [];
    assert SumSpecified([Some(request)]) == request;
    assert SumSpecified([Some(limit)]) == limit;
  }

  const OneMiB: real := 1048576.0

  /** The tests' `container_spec` helper with its defaults: 1 cpu and 1 MiB
      requested, 2 cpu and 2 MiB as limits. */
  function TestContainer(requestCpu: Option<real>, limitCpu: Option<real>, requestMemory: Option<real>, limitMemory: Option<real>): ContainerSpec
  {
    ContainerSpec("", ContainerResources(Requirements(limitMemory, limitCpu), Requirements(requestMemory, requestCpu)))
  }

  /** The request test: of three containers, one leaves the cpu request
      unspecified; the request is the sum of the other two and the one is
      counted. */
  lemma AggregateUnspecifiedRequest()
    ensures AggregateResources(Cpu, [TestContainer(None, Some(2.0), Some(OneMiB), Some(2.0 * OneMiB)),
                                     TestContainer(Some(1.0), Some(2.0), Some(OneMiB), Some(2.0 * OneMiB)),
                                     TestContainer(Some(1.0), Some(2.0), Some(OneMiB), Some(2.0 * OneMiB))]).request == 2.0
    ensures AggregateResources(Cpu, [TestContainer(None, Some(2.0), Some(OneMiB), Some(2.0 * OneMiB)),
                                     TestContainer(Some(1.0), Some(2.0), Some(OneMiB), Some(2.0 * OneMiB)),
                                     TestContainer(Some(1.0), Some(2.0), Some(OneMiB), Some(2.0 * OneMiB))]).countUnspecifiedRequests == 1
  {
    var specs := [TestContainer(None, Some(2.0), Some(OneMiB), Some(2.0 * OneMiB)),
                  TestContainer(Some(1.0), Some(2.0), Some(OneMiB), Some(2.0 * OneMiB)),
                  TestContainer(Some(1.0), Some(2.0), Some(OneMiB), Some(2.0 * OneMiB))];
    var values: seq<Option<real>> := [None, Some(1.0), Some(1.0)];
    assert Requests(Cpu, specs) == values;
    assert values[1..] == [Some(1.0), Some(1.0)] && values[1..][1..] == [Some(1.0)] && |values[1..][1..][1..]| == 0;
  }

  /** The limit test: the same with the cpu limit. */
  lemma AggregateUnspecifiedLimit()
    ensures AggregateResources(Cpu, [TestContainer(Some(1.0), None, Some(OneMiB), Some(2.0 * OneMiB)),
                                     TestContainer(Some(1.0), Some(1.0), Some(OneMiB), Some(2.0 * OneMiB)),
                                     TestContainer(Some(1.0), Some(1.0), Some(OneMiB), Some(2.0 * OneMiB))]).limit == 2.0
    ensures AggregateResources(Cpu, [TestContainer(Some(1.0), None, Some(OneMiB), Some(2.0 * OneMiB)),
                                     TestContainer(Some(1.0), Some(1.0), Some(OneMiB), Some(2.0 * OneMiB)),
                                     TestContainer(Some(1.0), Some(1.0), Some(OneMiB), Some(2.0 * OneMiB))]).countUnspecifiedLimits == 1
  {
    var specs := [TestContainer(Some(1.0), None, Some(OneMiB), Some(2.0 * OneMiB)),
                  TestContainer(Some(1.0), Some(1.0), Some(OneMiB), Some(2.0 * OneMiB)),
                  TestContainer(Some(1.0), Some(1.0), Some(OneMiB), Some(2.0 * OneMiB))];
    var values: seq<Option<real>> := [None, Some(1.0), Some(1.0)];
    assert Limits(Cpu, specs) == values;
    assert values[1..] == [Some(1.0), Some(1.0)] && values[1..][1..] == [Some(1.0)] && |values[1..][1..][1..]| == 0;
  }

  /** The zeroed-limit test: two zero memory limits are counted twice. */
  lemma AggregateZeroedLimits()
    ensures AggregateResources(Memory, [TestContainer(Some(1.0), Some(2.0), Some(OneMiB), Some(0.0)),
                                        TestContainer(Some(1.0), Some(2.0), Some(OneMiB), Some(0.0))]).countZeroedLimits == 2
  {
    var specs := [TestContainer(Some(1.0), Some(2.0), Some(OneMiB), Some(0.0)),
                  TestContainer(Some(1.0), Some(2.0), Some(OneMiB), Some(0.0))];
    var values: seq<Option<real>> := [Some(0.0), Some(0.0)];
    assert Limits(Memory, specs) == values;
    assert values[1..] == [Some(0.0)] && |values[1..][1..]| == 0;
  }

  function Replicate<T>(x: T, n: nat): (r: seq<T>)
    ensures |r| == n && forall i :: 0 <= i < n ==> r[i] == x
  {
    if n == 0 then [] else [x] + Replicate(x, n - 1)
  }

  /** `n` copies of a fully specified container: `n` times its request and
      its limit, `n` containers and nothing unspecified or zeroed. */
  lemma {:induction false} AggregateReplicated(t: ResourceType, c: ContainerSpec, request: real, limit: real, n: nat)
    requires Amount(c.resources.requests, t) == Some(request)
    requires Amount(c.resources.limits, t) == Some(limit) && limit != 0.0
    ensures AggregateResources(t, Replicate(c, n)) == Resources(n as real * request, n as real * limit, 0, 0, 0, n)
  {
    if n == 0 {
      AggregateEmpty(t);
    } else {
      AggregateReplicated(t, c, request, limit, n - 1);
      AggregateOne(t, c, request, limit);
      AggregateConcat(t, [c], Replicate(c, n - 1));
    }
  }

  /** The containers of all pods, pod by pod. */
  function ContainersOf(pods: seq<Pod>): (r: seq<ContainerSpec>)
    ensures forall c :: c in r <==> exists p :: p in pods && c in p.containers
  {
    if |pods| == 0 then []
    else
      var rest := ContainersOf(pods[1..]);
      assert forall p :: p in pods[1..] ==> p in pods;
      assert forall p :: p in pods ==> p == pods[0] || p in pods[1..];
      pods[0].containers + rest
  }

  /** `_collect_memory_resources_from_api_pods` and
      `_collect_cpu_resources_from_api_pods`. */
  function CollectResources(t: ResourceType, pods: seq<Pod>): (r: Resources)
    ensures r == AggregateResources(t, ContainersOf(pods))
    ensures |pods| == 0 ==> r == NoResources
  {
    AggregateResources(t, ContainersOf(pods))
  }

  lemma {:induction false} ContainersOfReplicated(p: Pod, n: nat)
    ensures ContainersOf(Replicate(p, n)) == FlattenReplicated(p.containers, n)
  {
    if n > 0 {
      assert Replicate(p, n)[1..] == Replicate(p, n - 1);
      ContainersOfReplicated(p, n - 1);
    }
  }

  function FlattenReplicated(cs: seq<ContainerSpec>, n: nat): seq<ContainerSpec>
  {
    if n == 0 then [] else cs + FlattenReplicated(cs, n - 1)
  }

  /** `n` pods with the same single fully specified container, as in the
      workload tests: the aggregate is `n` times the container's amounts. */
  lemma CollectReplicated(t: ResourceType, p: Pod, request: real, limit: real, n: nat)
    requires |p.containers| == 1
    requires Amount(p.containers[0].resources.requests, t) == Some(request)
    requires Amount(p.containers[0].resources.limits, t) == Some(limit) && limit != 0.0
    ensures CollectResources(t, Replicate(p, n)) == Resources(n as real * request, n as real * limit, 0, 0, 0, n)
  {
    ContainersOfReplicated(p, n);
    SingleFlatten(p.containers[0], n);
    assert [p.containers[0]] == p.containers;
    AggregateReplicated(t, p.containers[0], request, limit, n);
  }

  lemma {:induction false} SingleFlatten(c: ContainerSpec, n: nat)
    ensures FlattenReplicated([c], n) == Replicate(c, n)
  {
    if n > 0 {
      SingleFlatten(c, n - 1);
    }
  }

  /** `pod_name`: the name, or `<namespace>_<name>`. */
  function PodName(pod: Pod, prependNamespace: bool): (r: string)
    ensures !prependNamespace ==> r == pod.metadata.name
    ensures prependNamespace ==> |r| == |pod.metadata.namespace| + 1 + |pod.metadata.name|
  {
    if prependNamespace then pod.metadata.namespace + "_" + pod.metadata.name else pod.metadata.name
  }

  /** A namespace cannot contain `_` (it is a DNS label), so splitting a
      namespaced pod name at `_` gives back the namespace, and joining the
      rest gives back the name. */
  lemma PodNameSplits(pod: Pod)
    requires '_' !in pod.metadata.namespace
    ensures Split(PodName(pod, true), '_')[0] == pod.metadata.namespace
    ensures Join("_", Split(PodName(pod, true), '_')[1..]) == pod.metadata.name
  {
    var ns, name := pod.metadata.namespace, pod.metadata.name;
    assert PodName(pod, true) == ns + ['_'] + name;
    SplitAtFirst(ns, '_', name);
    assert Split(PodName(pod, true), '_')[1..] == Split(name, '_');
    JoinSplit(name, '_');
  }

  /** `filter_pods_by_namespace`. */
  function FilterPodsByNamespace(pods: seq<Pod>, namespace: string): (r: seq<Pod>)
    ensures forall p :: p in r <==> p in pods && p.metadata.namespace == namespace
  {
    Filter(pods, (p: Pod) => p.metadata.namespace == namespace)
  }

  /** `filter_pods_by_cron_job`: the pods the cron job lists by uid. */
  function FilterPodsByCronJob(pods: seq<Pod>, job: CronJob): (r: seq<Pod>)
    ensures forall p :: p in r <==> p in pods && p.uid in job.podUids
  {
    Filter(pods, (p: Pod) => p.uid in job.podUids)
  }

  /** `filter_pods_by_phase`. */
  function FilterPodsByPhase(pods: seq<Pod>, phase: Phase): (r: seq<Pod>)
    ensures forall p :: p in r <==> p in pods && p.phase == phase
  {
    Filter(pods, (p: Pod) => p.phase == phase)
  }

  /** The namespace and cron-job filter tests: of two pods, only the one
      in namespace `one`, respectively only the one the cron job lists. */
  lemma FilterTests(one: Pod, two: Pod)
    requires one.metadata.namespace == "one" && two.metadata.namespace == "two"
    requires one.uid == "in_cron_job" && two.uid == "not_in_cron_job"
    ensures FilterPodsByNamespace([one, two], "one") == [one]
    ensures FilterPodsByCronJob([one, two], CronJob(["in_cron_job"])) == [one]
  {
    var pods := [one, two];
    assert pods[1..] == [two] && |pods[1..][1..]| == 0;
    assert two.metadata.namespace != "one" by {
      assert two.metadata.namespace[1] != "one"[1];
    }
    assert two.uid !in ["in_cron_job"] by {
      assert two.uid[0] != "in_cron_job"[0];
    }
    var inNamespace := (p: Pod) => p.metadata.namespace == "one";
    assert Filter(pods, inNamespace) == [one] + Filter([two], inNamespace);
    assert Filter([two], inNamespace) == Filter([], inNamespace);
    var inJob := (p: Pod) => p.uid in CronJob(["in_cron_job"]).podUids;
    assert Filter(pods, inJob) == [one] + Filter([two], inJob);
    assert Filter([two], inJob) == Filter([], inJob);
  }

  /** The `pod_name` test. */
  lemma PodNameTest(pod: Pod)
    requires pod.metadata == MetaData("name", "namespace")
    ensures PodName(pod, false) == "name"
    ensures PodName(pod, true) == "namespace_name"
  {
  }

  /** Filtering keeps the order of the kept pods and splits over
      concatenation; a pod list whose pods all match is kept whole. */
  lemma {:induction false} FilterKeepsAll(pods: seq<Pod>, keep: Pod -> bool)
    requires forall i :: 0 <= i < |pods| ==> keep(pods[i])
    ensures Filter(pods, keep) == pods
  {
    if |pods| > 0 {
      FilterKeepsAll(pods[1..], keep);
      assert [pods[0]] + pods[1..] == pods;
    }
  }

  /** Filtering by namespace keeps the matching pods in order: the pods of
      a concatenation are those of each part. */
  lemma NamespaceFilterConcat(a: seq<Pod>, b: seq<Pod>, namespace: string)
    ensures FilterPodsByNamespace(a + b, namespace) == FilterPodsByNamespace(a, namespace) + FilterPodsByNamespace(b, namespace)
  {
    FilterConcat(a, b, (p: Pod) => p.metadata.namespace == namespace);
  }

  /** Among pods of pairwise different phases, filtering by a phase that
      occurs keeps exactly the one pod of that phase. */
  lemma {:induction false} PhaseFilterDistinct(pods: seq<Pod>, i: nat)
    requires i < |pods|
    requires forall j, k :: 0 <= j < k < |pods| ==> pods[j].phase != pods[k].phase
    ensures FilterPodsByPhase(pods, pods[i].phase) == [pods[i]]
  {
    var phase := pods[i].phase;
    var keep := (p: Pod) => p.phase == phase;
    assert pods == pods[..i] + [pods[i]] + pods[i + 1..];
    FilterConcat(pods[..i] + [pods[i]], pods[i + 1..], keep);
    FilterConcat(pods[..i], [pods[i]], keep);
    NoneMatch(pods[..i], keep);
    NoneMatch(pods[i + 1..], keep);
    assert [pods[i]][1..] == [];
  }

  lemma {:induction false} NoneMatch(pods: seq<Pod>, keep: Pod -> bool)
    requires forall j :: 0 <= j < |pods| ==> !keep(pods[j])
    ensures Filter(pods, keep) == []
  {
    if |pods| > 0 {
      NoneMatch(pods[1..], keep);
    }
  }

  /** `section.PodResources`: the names of the pods in each phase. */
  datatype PodResources = PodResources(
    pending: seq<string>,
    running: seq<string>,
    succeeded: seq<string>,
    failed: seq<string>,
    unknown: seq<string>)

  function Names(pods: seq<Pod>): seq<string>
  {
    seq(|pods|, i requires 0 <= i < |pods| => PodName(pods[i], false))
  }

  /** `_pod_resources_from_api_pods`: each pod's name under its phase, in
      the order of the pods. */
  function PodResourcesFromPods(pods: seq<Pod>): (r: PodResources)
    ensures |r.pending| + |r.running| + |r.succeeded| + |r.failed| + |r.unknown| == |pods|
  {
    PhasesPartition(pods);
    PodResources(
      Names(FilterPodsByPhase(pods, PENDING)),
      Names(FilterPodsByPhase(pods, RUNNING)),
      Names(FilterPodsByPhase(pods, SUCCEEDED)),
      Names(FilterPodsByPhase(pods, FAILED)),
      Names(FilterPodsByPhase(pods, UNKNOWN)))
  }

  /** Every pod lands under exactly one phase. */
  lemma {:induction false} PhasesPartition(pods: seq<Pod>)
    ensures |FilterPodsByPhase(pods, PENDING)| + |FilterPodsByPhase(pods, RUNNING)| +
            |FilterPodsByPhase(pods, SUCCEEDED)| + |FilterPodsByPhase(pods, FAILED)| +
            |FilterPodsByPhase(pods, UNKNOWN)| == |pods|
  {
    if |pods| > 0 {
      PhasesPartition(pods[1..]);
    }
  }

  /** When every pod is running, `running` lists all their names in order
      and the other phases are empty. */
  lemma AllRunning(pods: seq<Pod>)
    requires forall i :: 0 <= i < |pods| ==> pods[i].phase == RUNNING
    ensures PodResourcesFromPods(pods) == PodResources([], Names(pods), [], [], [])
  {
    FilterKeepsAll(pods, (p: Pod) => p.phase == RUNNING);
    NoneMatch(pods, (p: Pod) => p.phase == PENDING);
    NoneMatch(pods, (p: Pod) => p.phase == SUCCEEDED);
    NoneMatch(pods, (p: Pod) => p.phase == FAILED);
    NoneMatch(pods, (p: Pod) => p.phase == UNKNOWN);
  }
}
