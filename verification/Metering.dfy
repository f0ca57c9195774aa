/**
 Usage metering: CollectUsage of kubeop-operator/internal/metrics/metricsserver.go groups pod
 metrics into one sample per app, and the first half of Reconcile in
 kubeop-operator/controllers/usagewriter_controller.go adds samples up by tenant, project and app.
 */
module Metering {
  import opened Wrappers
  import opened Text
  import opened UsageSums
  import opened Enumerations
  import opened ObjectLabels

  datatype Container = Container(cpu: Option<int>, memory: Option<int>)
  datatype Pod = Pod(namespace: string, labels: Labels, containers: seq<Container>)
  datatype Namespace = Namespace(labels: Labels, pods: seq<Pod>)

  datatype Sample = Sample(tenant: string, projectNamespace: string, project: string, appNamespace: string,
                           app: string, usage: Usage)

  function FirstNonEmpty(a: string, b: string): string {
    if TrimSpace(a) != "" then a else if TrimSpace(b) != "" then b else ""
  }

  // ---------------------------------------------------------------- pods

  function ContainerUsage(c: Container): Usage {
    Usage(if c.cpu.Some? then c.cpu.value else 0, if c.memory.Some? then c.memory.value else 0, 0, 0, 0)
  }

  function PodUsage(containers: seq<Container>): Usage {
    if containers == [] then ZERO
    else Plus(PodUsage(containers[..|containers| - 1]), ContainerUsage(containers[|containers| - 1]))
  }

  /** The cpu and the memory that containers report, added up. */
  function CpuReported(containers: seq<Container>): int {
    if containers == [] then 0
    else (match containers[0].cpu case None => 0 case Some(v) => v) + CpuReported(containers[1..])
  }

  function MemoryReported(containers: seq<Container>): int {
    if containers == [] then 0
    else (match containers[0].memory case None => 0 case Some(v) => v) + MemoryReported(containers[1..])
  }

  lemma {:induction false} ReportedAppend(cs: seq<Container>, c: Container)
    ensures CpuReported(cs + [c]) == CpuReported(cs) + CpuReported([c])
    ensures MemoryReported(cs + [c]) == MemoryReported(cs) + MemoryReported([c])
  {
    if cs == [] {
      assert cs + [c] == [c];
    } else {
      ReportedAppend(cs[1..], c);
      assert (cs + [c])[1..] == cs[1..] + [c];
    }
  }

  /** A pod's usage is what its containers report, and nothing on the other meters. */
  lemma {:induction false} PodUsageIsReported(cs: seq<Container>)
    ensures PodUsage(cs) == Usage(CpuReported(cs), MemoryReported(cs), 0, 0, 0)
  {
    if cs != [] {
      var init, c := cs[..|cs| - 1], cs[|cs| - 1];
      PodUsageIsReported(init);
      ReportedAppend(init, c);
      assert cs == init + [c];
      assert [c][1..] == [];
    }
  }

  /** What is metered of a pod: the labels that apply to it and its usage. */
  datatype Entry = Entry(namespace: string, tenant: string, project: string, app: string, usage: Usage)

  function EntryOf(ns: Labels, pod: Pod): Entry {
    Entry(pod.namespace, FirstNonEmpty(Label(pod.labels, TENANT), Label(ns, TENANT)),
          FirstNonEmpty(Label(pod.labels, PROJECT), Label(ns, PROJECT)),
          Label(pod.labels, APP), PodUsage(pod.containers))
  }

  /** A pod's own tenant and project labels go before its namespace's, which stand in for blank ones. */
  lemma LabelsThatApply(ns: Labels, pod: Pod)
    ensures var own, e := pod.labels, EntryOf(ns, pod);
            && e.namespace == pod.namespace && e.app == Label(own, "paas.kubeop.io/app")
            && (TrimSpace(Label(own, "paas.kubeop.io/tenant")) != "" ==>
                  e.tenant == Label(own, "paas.kubeop.io/tenant"))
            && (TrimSpace(Label(own, "paas.kubeop.io/tenant")) == "" ==>
                  TrimSpace(e.tenant) == TrimSpace(Label(ns, "paas.kubeop.io/tenant")))
            && (TrimSpace(Label(own, "paas.kubeop.io/project")) != "" ==>
                  e.project == Label(own, "paas.kubeop.io/project"))
            && (TrimSpace(Label(own, "paas.kubeop.io/project")) == "" ==>
                  TrimSpace(e.project) == TrimSpace(Label(ns, "paas.kubeop.io/project")))
  {
    assert TrimSpace("") == "";
  }

  predicate FullyLabelled(e: Entry) {
    TrimSpace(e.tenant) != "" && TrimSpace(e.project) != "" && TrimSpace(e.app) != ""
  }

  function PodEntries(ns: Labels, pods: seq<Pod>): seq<Entry> {
    if pods == [] then []
    else
      var e := EntryOf(ns, pods[|pods| - 1]);
      PodEntries(ns, pods[..|pods| - 1]) + if FullyLabelled(e) then [e] else []
  }

  /** The fully labelled pods of all namespaces, in the order they are read. */
  function Entries(namespaces: seq<Namespace>): seq<Entry> {
    if namespaces == [] then []
    else
      var last := namespaces[|namespaces| - 1];
      Entries(namespaces[..|namespaces| - 1]) + PodEntries(last.labels, last.pods)
  }

  function KeyOf(e: Entry): string { e.namespace + "/" + e.app }
  function UsageOf(e: Entry): Usage { e.usage }

  /** A sample that takes its labels from a pod. */
  function NamedAfter(e: Entry, u: Usage): Sample { Sample(e.tenant, e.namespace, e.project, e.namespace, e.app, u) }

  /** One pod added to the sample of its app; the first pod of an app names the sample. */
  function Absorb(samples: map<string, Sample>, e: Entry): map<string, Sample> {
    var k := KeyOf(e);
    if k in samples then samples[k := samples[k].(usage := Plus(samples[k].usage, e.usage))]
    else samples[k := NamedAfter(e, Plus(ZERO, e.usage))]
  }

  function Collect(es: seq<Entry>): map<string, Sample> {
    if es == [] then map[] else Absorb(Collect(es[..|es| - 1]), es[|es| - 1])
  }

  function SamplesOf(m: map<string, Sample>, order: seq<string>): seq<Sample>
    requires forall k :: k in order ==> k in m
  {
    if order == [] then [] else SamplesOf(m, order[..|order| - 1]) + [m[order[|order| - 1]]]
  }

  lemma CollectAppend(es: seq<Entry>, e: Entry)
    ensures Collect(es + [e]) == Absorb(Collect(es), e)
  {
    assert (es + [e])[..|es|] == es;
  }

  /**
   The samples hold what the fully labelled pods add up to. They come in any order, since a
   map is iterated.
   */
  method CollectUsage(namespaces: seq<Namespace>) returns (out: seq<Sample>, ghost order: seq<string>)
    ensures Enumerates(order, Collect(Entries(namespaces)).Keys)
    ensures out == SamplesOf(Collect(Entries(namespaces)), order)
    ensures forall s :: s in out <==> s in Collect(Entries(namespaces)).Values
  {
    var samples: map<string, Sample> := map[];
    for i := 0 to |namespaces|
      invariant samples == Collect(Entries(namespaces[..i]))
    {
      samples := CollectNamespace(samples, Entries(namespaces[..i]), namespaces[i]);
      assert namespaces[..i + 1][..i] == namespaces[..i];
    }
    assert namespaces[..|namespaces|] == namespaces;
    out, order := ListSamples(samples);
  }

  /** The loop over the pods of one namespace. */
  method CollectNamespace(before: map<string, Sample>, ghost seen: seq<Entry>, ns: Namespace)
    returns (samples: map<string, Sample>)
    requires before == Collect(seen)
    ensures samples == Collect(seen + PodEntries(ns.labels, ns.pods))
  {
    samples := before;
    assert seen + [] == seen;
    for j := 0 to |ns.pods|
      invariant samples == Collect(seen + PodEntries(ns.labels, ns.pods[..j]))
    {
      samples := AddPod(samples, ns.labels, ns.pods[j]);
      PodEntriesStep(seen, ns.labels, ns.pods, j);
    }
    assert ns.pods[..|ns.pods|] == ns.pods;
  }

  lemma PodEntriesStep(seen: seq<Entry>, labels: Labels, pods: seq<Pod>, j: nat)
    requires j < |pods|
    ensures var e, m := EntryOf(labels, pods[j]), Collect(seen + PodEntries(labels, pods[..j]));
            Collect(seen + PodEntries(labels, pods[..j + 1])) == if FullyLabelled(e) then Absorb(m, e) else m
  {
    var done, e := PodEntries(labels, pods[..j]), EntryOf(labels, pods[j]);
    assert pods[..j + 1][..j] == pods[..j];
    assert PodEntries(labels, pods[..j + 1]) == done + if FullyLabelled(e) then [e] else [];
    if FullyLabelled(e) {
      assert seen + (done + [e]) == (seen + done) + [e];
      CollectAppend(seen + done, e);
    } else {
      assert done + [] == done;
    }
  }

  method AddPod(samples: map<string, Sample>, labels: Labels, pod: Pod) returns (out: map<string, Sample>)
    ensures out == if FullyLabelled(EntryOf(labels, pod)) then Absorb(samples, EntryOf(labels, pod)) else samples
  {
    out := samples;
    var tenant := FirstNonEmpty(Label(pod.labels, TENANT), Label(labels, TENANT));
    var project := FirstNonEmpty(Label(pod.labels, PROJECT), Label(labels, PROJECT));
    var app := Label(pod.labels, APP);
    if TrimSpace(tenant) == "" || TrimSpace(project) == "" || TrimSpace(app) == "" {
      return;
    }
    out := AddLabelledPod(samples, EntryOf(labels, pod), pod, tenant, project, app);
  }

  /** Find or start the sample of the pod's app, then add the containers to it. */
  method AddLabelledPod(samples: map<string, Sample>, ghost e: Entry, pod: Pod, tenant: string, project: string,
                        app: string)
    returns (out: map<string, Sample>)
    requires e == Entry(pod.namespace, tenant, project, app, PodUsage(pod.containers))
    ensures out == Absorb(samples, e)
  {
    var key := pod.namespace + "/" + app;
    var sample := Sample(tenant, pod.namespace, project, pod.namespace, app, ZERO);
    if key in samples {
      sample := samples[key];
    }
    var usage := AddContainers(sample.usage, pod.containers);
    out := samples[key := sample.(usage := usage)];
    AbsorbIs(samples, e, sample, usage);
  }

  lemma AbsorbIs(samples: map<string, Sample>, e: Entry, sample: Sample, usage: Usage)
    requires sample == if KeyOf(e) in samples then samples[KeyOf(e)] else NamedAfter(e, ZERO)
    requires usage == Plus(sample.usage, e.usage)
    ensures samples[KeyOf(e) := sample.(usage := usage)] == Absorb(samples, e)
  {
  }

  method AddContainers(start: Usage, containers: seq<Container>) returns (u: Usage)
    ensures u == Plus(start, PodUsage(containers))
    ensures u.cpu == start.cpu + CpuReported(containers) && u.memory == start.memory + MemoryReported(containers)
    ensures u.storage == start.storage && u.egress == start.egress && u.lbHours == start.lbHours
  {
    u := start;
    PlusLaws(start, ZERO, ZERO);
    for i := 0 to |containers|
      invariant u == Plus(start, PodUsage(containers[..i]))
    {
      var c := containers[i];
      ghost var before := PodUsage(containers[..i]);
      assert containers[..i + 1][..i] == containers[..i];
      assert PodUsage(containers[..i + 1]) == Plus(before, ContainerUsage(c));
      PlusLaws(start, before, ContainerUsage(c));
      if c.cpu.Some? {
        u := u.(cpu := u.cpu + c.cpu.value);
      }
      if c.memory.Some? {
        u := u.(memory := u.memory + c.memory.value);
      }
      assert u == Plus(Plus(start, before), ContainerUsage(c));
    }
    assert containers[..|containers|] == containers;
    PodUsageIsReported(containers);
  }

  method ListSamples(samples: map<string, Sample>) returns (out: seq<Sample>, ghost order: seq<string>)
    ensures Enumerates(order, samples.Keys)
    ensures out == SamplesOf(samples, order)
    ensures forall s :: s in out <==> s in samples.Values
  {
    out, order := [], [];
    var todo := samples.Keys;
    while todo != {}
      invariant todo <= samples.Keys
      invariant Enumerates(order, samples.Keys - todo)
      invariant out == SamplesOf(samples, order)
      decreases todo
    {
      var k :| k in todo;
      todo := todo - {k};
      out := out + [samples[k]];
      assert (order + [k])[..|order|] == order;
      order := order + [k];
    }
    SamplesAreValues(samples, order);
  }

  lemma {:induction false} SamplesMember(m: map<string, Sample>, order: seq<string>, s: Sample)
    requires forall k :: k in order ==> k in m
    ensures s in SamplesOf(m, order) <==> exists k :: k in order && m[k] == s
  {
    if order != [] {
      var init, last := order[..|order| - 1], order[|order| - 1];
      SamplesMember(m, init, s);
      assert order == init + [last];
    }
  }

  lemma SamplesAreValues(m: map<string, Sample>, order: seq<string>)
    requires Enumerates(order, m.Keys)
    ensures forall s :: s in SamplesOf(m, order) <==> s in m.Values
  {
    forall s ensures s in SamplesOf(m, order) <==> s in m.Values {
      SamplesMember(m, order, s);
      if k :| k in m && m[k] == s {
        assert k in order;
      }
    }
  }

  // ---------------------------------------------------------------- what a sample holds

  ghost predicate HasKey(es: seq<Entry>, k: string) { exists i :: 0 <= i < |es| && KeyOf(es[i]) == k }

  /** The first pod of a group, which names its sample. */
  ghost function First(es: seq<Entry>, k: string): Entry
    requires HasKey(es, k)
  {
    if HasKey(es[..|es| - 1], k) then First(es[..|es| - 1], k) else es[|es| - 1]
  }

  function WithKey(k: string): Entry -> bool { e => KeyOf(e) == k }

  lemma HasKeyAppend(es: seq<Entry>, e: Entry, k: string)
    ensures HasKey(es + [e], k) <==> HasKey(es, k) || KeyOf(e) == k
  {
    var more := es + [e];
    assert more[|es|] == e;
    if i :| 0 <= i < |es| && KeyOf(es[i]) == k {
      assert KeyOf(more[i]) == k;
    }
  }

  /** A sample has the labels of the first pod of its app and the usage of all of them. */
  lemma {:induction false} CollectExact(es: seq<Entry>, k: string)
    ensures k in Collect(es) <==> HasKey(es, k)
    ensures k in Collect(es) ==>
      var s, f := Collect(es)[k], First(es, k);
      && s == NamedAfter(f, s.usage)
      && KeyOf(f) == k && f in es
      && forall meter :: Read(s.usage, meter) == SumIf(es, WithKey(k), UsageOf, meter)
    decreases |es|
  {
    if es != [] {
      var rest, e := es[..|es| - 1], es[|es| - 1];
      assert es == rest + [e];
      CollectExact(rest, k);
      HasKeyAppend(rest, e, k);
      forall meter
        ensures SumIf(es, WithKey(k), UsageOf, meter) ==
                SumIf(rest, WithKey(k), UsageOf, meter) + if KeyOf(e) == k then Read(e.usage, meter) else 0
      {
        SumIfAppend(rest, e, WithKey(k), UsageOf, meter);
      }
      if !HasKey(rest, k) {
        forall meter ensures SumIf(rest, WithKey(k), UsageOf, meter) == 0 {
          SumIfNone(rest, WithKey(k), UsageOf, meter);
        }
      }
    }
  }

  // ---------------------------------------------------------------- aggregation

  function NamespaceKey(ns: string, name: string): string {
    if TrimSpace(ns) == "" then name else ns + "/" + name
  }

  /** Names without a slash, as Kubernetes has them, get one key for each namespace and name. */
  lemma NamespaceKeysTellApart(ns: string, name: string, other: string, name': string)
    requires TrimSpace(ns) != "" && TrimSpace(other) != "" && '/' !in name && '/' !in name'
    ensures NamespaceKey(ns, name) == NamespaceKey(other, name') <==> ns == other && name == name'
    ensures NamespaceKey(" ", name) == NamespaceKey("", name) == name
  {
    TrimShape(" ", IsSpace);
    SlashTellsApart(ns, name, other, name');
  }

  lemma SlashTellsApart(ns: string, name: string, other: string, name': string)
    requires '/' !in name && '/' !in name'
    ensures ns + "/" + name == other + "/" + name' <==> ns == other && name == name'
  {
    var k, k' := ns + "/" + name, other + "/" + name';
    if k == k' {
      assert k[|ns|] == '/' && k'[|other|] == '/';
      assert forall i :: |ns| < i < |k| ==> k[i] == name[i - |ns| - 1];
      assert forall i :: |other| < i < |k'| ==> k'[i] == name'[i - |other| - 1];
      assert k[..|ns|] == ns && k'[..|other|] == other && k[|ns| + 1..] == name && k'[|other| + 1..] == name';
    }
  }

  /** Two pods go into one sample if and only if they have the same namespace and app. */
  lemma PodsShareSampleIff(a: Entry, b: Entry)
    requires '/' !in a.app && '/' !in b.app
    ensures KeyOf(a) == KeyOf(b) <==> a.namespace == b.namespace && a.app == b.app
  {
    SlashTellsApart(a.namespace, a.app, b.namespace, b.app);
  }

  /** Samples with a blank tenant, project or app are skipped. */
  predicate Counted(s: Sample) {
    TrimSpace(s.tenant) != "" && TrimSpace(s.project) != "" && TrimSpace(s.app) != ""
  }

  function TenantKey(s: Sample): string { TrimSpace(s.tenant) }
  function ProjectKey(s: Sample): string { NamespaceKey(s.projectNamespace, TrimSpace(s.project)) }
  function AppKey(s: Sample): string { NamespaceKey(s.appNamespace, TrimSpace(s.app)) }
  function SampleUsage(s: Sample): Usage { s.usage }

  /** Two samples go into one total if and only if they have the same tenant, project or app. */
  lemma SamplesShareTotalIff(a: Sample, b: Sample)
    requires TrimSpace(a.projectNamespace) != "" && TrimSpace(b.projectNamespace) != ""
    requires TrimSpace(a.appNamespace) != "" && TrimSpace(b.appNamespace) != ""
    requires '/' !in TrimSpace(a.project) + TrimSpace(a.app) && '/' !in TrimSpace(b.project) + TrimSpace(b.app)
    ensures TenantKey(a) == TenantKey(b) <==> TrimSpace(a.tenant) == TrimSpace(b.tenant)
    ensures ProjectKey(a) == ProjectKey(b) <==>
            a.projectNamespace == b.projectNamespace && TrimSpace(a.project) == TrimSpace(b.project)
    ensures AppKey(a) == AppKey(b) <==> a.appNamespace == b.appNamespace && TrimSpace(a.app) == TrimSpace(b.app)
  {
    NamespaceKeysTellApart(a.projectNamespace, TrimSpace(a.project), b.projectNamespace, TrimSpace(b.project));
    NamespaceKeysTellApart(a.appNamespace, TrimSpace(a.app), b.appNamespace, TrimSpace(b.app));
  }

  /** usageAccumulator.add: meters that read zero are left alone. */
  function Accumulate(a: Usage, u: Usage): (r: Usage)
    ensures r == Plus(a, u)
  {
    Usage(if u.cpu != 0 then a.cpu + u.cpu else a.cpu,
          if u.memory != 0 then a.memory + u.memory else a.memory,
          if u.storage != 0 then a.storage + u.storage else a.storage,
          if u.egress != 0 then a.egress + u.egress else a.egress,
          if u.lbHours != 0 then a.lbHours + u.lbHours else a.lbHours)
  }

  /** The totals have exactly the tenants, projects and apps of the counted samples, each with its samples' usage. */
  method Aggregate(samples: seq<Sample>)
    returns (tenants: map<string, Usage>, projects: map<string, Usage>, apps: map<string, Usage>)
    ensures Groups(tenants, samples, Counted, TenantKey, SampleUsage)
    ensures Groups(projects, samples, Counted, ProjectKey, SampleUsage)
    ensures Groups(apps, samples, Counted, AppKey, SampleUsage)
  {
    tenants, projects, apps := map[], map[], map[];
    for i := 0 to |samples|
      invariant Groups(tenants, samples[..i], Counted, TenantKey, SampleUsage)
      invariant Groups(projects, samples[..i], Counted, ProjectKey, SampleUsage)
      invariant Groups(apps, samples[..i], Counted, AppKey, SampleUsage)
    {
      var s := samples[i];
      assert samples[..i + 1] == samples[..i] + [s];
      GroupsStep(tenants, samples[..i], s, Counted, TenantKey, SampleUsage);
      GroupsStep(projects, samples[..i], s, Counted, ProjectKey, SampleUsage);
      GroupsStep(apps, samples[..i], s, Counted, AppKey, SampleUsage);
      var tenant, project, app := TrimSpace(s.tenant), TrimSpace(s.project), TrimSpace(s.app);
      if tenant == "" || project == "" || app == "" {
        continue;
      }
      tenants := tenants[tenant := Accumulate(Get(tenants, tenant), s.usage)];
      var projectKey := NamespaceKey(s.projectNamespace, project);
      projects := projects[projectKey := Accumulate(Get(projects, projectKey), s.usage)];
      var appKey := NamespaceKey(s.appNamespace, app);
      apps := apps[appKey := Accumulate(Get(apps, appKey), s.usage)];
    }
    assert samples[..|samples|] == samples;
  }

  /** Whatever the samples, tenants, projects and apps add up to the same: the counted samples. */
  lemma TotalsConserveSamples(samples: seq<Sample>, tenants: map<string, Usage>, projects: map<string, Usage>,
                              apps: map<string, Usage>, ts: seq<string>, ps: seq<string>, xs: seq<string>, meter: Meter)
    requires Groups(tenants, samples, Counted, TenantKey, SampleUsage) && Enumerates(ts, tenants.Keys)
    requires Groups(projects, samples, Counted, ProjectKey, SampleUsage) && Enumerates(ps, projects.Keys)
    requires Groups(apps, samples, Counted, AppKey, SampleUsage) && Enumerates(xs, apps.Keys)
    ensures Total(tenants, ts, meter) == Total(projects, ps, meter) == Total(apps, xs, meter) ==
      SumIf(samples, Counted, SampleUsage, meter)
  {
    GroupsConserve(tenants, samples, Counted, TenantKey, SampleUsage, ts, meter);
    GroupsConserve(projects, samples, Counted, ProjectKey, SampleUsage, ps, meter);
    GroupsConserve(apps, samples, Counted, AppKey, SampleUsage, xs, meter);
  }

  // ---------------------------------------------------------------- from pods to totals

  /** Pods whose app is listed and whose sample `p` selects. */
  function Through(m: map<string, Sample>, order: seq<string>, p: Sample -> bool): Entry -> bool {
    e => KeyOf(e) in order && KeyOf(e) in m && p(m[KeyOf(e)])
  }

  /** Summing samples is summing the pods behind them. */
  lemma {:induction false} SamplesAddUpPods(es: seq<Entry>, order: seq<string>, p: Sample -> bool, meter: Meter)
    requires forall i, j :: 0 <= i < j < |order| ==> order[i] != order[j]
    requires forall k :: k in order ==> k in Collect(es)
    ensures SumIf(SamplesOf(Collect(es), order), p, SampleUsage, meter) ==
      SumIf(es, Through(Collect(es), order, p), UsageOf, meter)
    decreases |order|
  {
    var m := Collect(es);
    if order == [] {
      SumIfNone(es, Through(m, order, p), UsageOf, meter);
    } else {
      var rest, k := order[..|order| - 1], order[|order| - 1];
      SamplesAddUpPods(es, rest, p, meter);
      SumIfAppend(SamplesOf(m, rest), m[k], p, SampleUsage, meter);
      CollectExact(es, k);
      if p(m[k]) {
        SumIfSplit(es, Through(m, rest, p), WithKey(k), Through(m, order, p), UsageOf, meter);
      } else {
        SumIfCongruent(es, Through(m, rest, p), Through(m, order, p), UsageOf, meter);
      }
    }
  }

  ghost predicate AllLabelled(es: seq<Entry>) { forall i :: 0 <= i < |es| ==> FullyLabelled(es[i]) }

  lemma {:induction false} PodEntriesLabelled(ns: Labels, pods: seq<Pod>)
    ensures AllLabelled(PodEntries(ns, pods))
  {
    if pods != [] {
      PodEntriesLabelled(ns, pods[..|pods| - 1]);
    }
  }

  lemma {:induction false} EntriesLabelled(namespaces: seq<Namespace>)
    ensures AllLabelled(Entries(namespaces))
  {
    if namespaces != [] {
      EntriesLabelled(namespaces[..|namespaces| - 1]);
      var last := namespaces[|namespaces| - 1];
      PodEntriesLabelled(last.labels, last.pods);
    }
  }

  /** What a pod is billed to by rights: its tenant, its project, its app. */
  function TenantOf(e: Entry): string { TrimSpace(e.tenant) }
  function ProjectOf(e: Entry): string { NamespaceKey(e.namespace, TrimSpace(e.project)) }
  function AppOf(e: Entry): string { NamespaceKey(e.namespace, TrimSpace(e.app)) }

  /** `key` reads off a sample what `owner` says of the pod that named it. */
  ghost predicate ReadsOwner(key: Sample -> string, owner: Entry -> string) {
    forall e: Entry, u: Usage :: key(NamedAfter(e, u)) == owner(e)
  }

  lemma KeysReadOwners()
    ensures ReadsOwner(TenantKey, TenantOf) && ReadsOwner(ProjectKey, ProjectOf) && ReadsOwner(AppKey, AppOf)
  {
  }

  /** Who a pod's usage is billed to: the owner of the first pod of its app. */
  ghost function BilledOwner(es: seq<Entry>, owner: Entry -> string, e: Entry): string {
    if HasKey(es, KeyOf(e)) then owner(First(es, KeyOf(e))) else ""
  }

  ghost function BilledTo(es: seq<Entry>, owner: Entry -> string, t: string): Entry -> bool {
    e => BilledOwner(es, owner, e) == t
  }

  function OwnedBy(owner: Entry -> string, t: string): Entry -> bool { e => owner(e) == t }

  /** A sample is counted and bears the owner of the first pod of its app. */
  lemma SampleOwner(es: seq<Entry>, i: nat, key: Sample -> string, owner: Entry -> string)
    requires AllLabelled(es) && i < |es| && ReadsOwner(key, owner)
    ensures KeyOf(es[i]) in Collect(es)
    ensures var s := Collect(es)[KeyOf(es[i])]; Counted(s) && key(s) == BilledOwner(es, owner, es[i])
  {
    assert HasKey(es, KeyOf(es[i]));
    CollectExact(es, KeyOf(es[i]));
  }

  /**
   From pods to totals by tenant, project or app: each total is the usage of exactly the pods
   whose app was first seen with that owner.
   */
  lemma TotalIsBilledUsage(es: seq<Entry>, order: seq<string>, totals: map<string, Usage>, key: Sample -> string,
                           owner: Entry -> string, t: string, meter: Meter)
    requires AllLabelled(es) && Enumerates(order, Collect(es).Keys) && ReadsOwner(key, owner)
    requires Groups(totals, SamplesOf(Collect(es), order), Counted, key, SampleUsage)
    ensures Read(Get(totals, t), meter) == SumIf(es, BilledTo(es, owner, t), UsageOf, meter)
  {
    var m, samples := Collect(es), SamplesOf(Collect(es), order);
    var p := InGroup(Counted, key, t);
    if t !in totals {
      forall i | 0 <= i < |samples| ensures !p(samples[i]) {
        assert !HasGroup(samples, Counted, key, t);
      }
      SumIfNone(samples, p, SampleUsage, meter);
    }
    SamplesAddUpPods(es, order, p, meter);
    forall i | 0 <= i < |es| ensures Through(m, order, p)(es[i]) == BilledTo(es, owner, t)(es[i]) {
      SampleOwner(es, i, key, owner);
    }
    SumIfCongruent(es, Through(m, order, p), BilledTo(es, owner, t), UsageOf, meter);
  }

  predicate Everything(e: Entry) { true }

  /** Conservation from containers to totals: however they are keyed, they add up to all fully labelled pods. */
  lemma TotalsConservePods(namespaces: seq<Namespace>, order: seq<string>, totals: map<string, Usage>,
                           key: Sample -> string, ts: seq<string>, meter: Meter)
    requires Enumerates(order, Collect(Entries(namespaces)).Keys)
    requires Groups(totals, SamplesOf(Collect(Entries(namespaces)), order), Counted, key, SampleUsage)
    requires Enumerates(ts, totals.Keys)
    ensures Total(totals, ts, meter) == SumIf(Entries(namespaces), Everything, UsageOf, meter)
  {
    var es := Entries(namespaces);
    var m := Collect(es);
    EntriesLabelled(namespaces);
    KeysReadOwners();
    GroupsConserve(totals, SamplesOf(m, order), Counted, key, SampleUsage, ts, meter);
    SamplesAddUpPods(es, order, Counted, meter);
    forall i | 0 <= i < |es| ensures Through(m, order, Counted)(es[i]) == Everything(es[i]) {
      SampleOwner(es, i, TenantKey, TenantOf);
    }
    SumIfCongruent(es, Through(m, order, Counted), Everything, UsageOf, meter);
  }

  /** A pod counts when a tenant, a project and an app can be told, from its own labels or its namespace's. */
  predicate Metered(ns: Labels, pod: Pod) {
    var own := pod.labels;
    && (TrimSpace(Label(own, "paas.kubeop.io/tenant")) != "" || TrimSpace(Label(ns, "paas.kubeop.io/tenant")) != "")
    && (TrimSpace(Label(own, "paas.kubeop.io/project")) != "" || TrimSpace(Label(ns, "paas.kubeop.io/project")) != "")
    && TrimSpace(Label(own, "paas.kubeop.io/app")) != ""
  }

  /** What the containers of the metered pods report, over all namespaces. */
  function CpuOfPods(ns: Labels, pods: seq<Pod>): int {
    if pods == [] then 0
    else
      var pod := pods[|pods| - 1];
      CpuOfPods(ns, pods[..|pods| - 1]) + if Metered(ns, pod) then CpuReported(pod.containers) else 0
  }

  function MemoryOfPods(ns: Labels, pods: seq<Pod>): int {
    if pods == [] then 0
    else
      var pod := pods[|pods| - 1];
      MemoryOfPods(ns, pods[..|pods| - 1]) + if Metered(ns, pod) then MemoryReported(pod.containers) else 0
  }

  function CpuOfAll(namespaces: seq<Namespace>): int {
    if namespaces == [] then 0
    else
      var last := namespaces[|namespaces| - 1];
      CpuOfAll(namespaces[..|namespaces| - 1]) + CpuOfPods(last.labels, last.pods)
  }

  function MemoryOfAll(namespaces: seq<Namespace>): int {
    if namespaces == [] then 0
    else
      var last := namespaces[|namespaces| - 1];
      MemoryOfAll(namespaces[..|namespaces| - 1]) + MemoryOfPods(last.labels, last.pods)
  }

  lemma MeteredIsLabelled(ns: Labels, pod: Pod)
    ensures FullyLabelled(EntryOf(ns, pod)) <==> Metered(ns, pod)
    ensures UsageOf(EntryOf(ns, pod)) == Usage(CpuReported(pod.containers), MemoryReported(pod.containers), 0, 0, 0)
  {
    LabelsThatApply(ns, pod);
    PodUsageIsReported(pod.containers);
  }

  lemma {:induction false} PodsAddUp(ns: Labels, pods: seq<Pod>)
    ensures SumIf(PodEntries(ns, pods), Everything, UsageOf, Cpu) == CpuOfPods(ns, pods)
    ensures SumIf(PodEntries(ns, pods), Everything, UsageOf, Memory) == MemoryOfPods(ns, pods)
  {
    if pods != [] {
      var init, pod := pods[..|pods| - 1], pods[|pods| - 1];
      PodsAddUp(ns, init);
      MeteredIsLabelled(ns, pod);
      EntryAddsUp(PodEntries(ns, init), EntryOf(ns, pod), Metered(ns, pod), CpuReported(pod.containers),
                  MemoryReported(pod.containers));
    }
  }

  lemma EntryAddsUp(es: seq<Entry>, e: Entry, counts: bool, cpu: int, memory: int)
    requires UsageOf(e) == Usage(cpu, memory, 0, 0, 0)
    ensures var more := es + if counts then [e] else [];
            && SumIf(more, Everything, UsageOf, Cpu) ==
               SumIf(es, Everything, UsageOf, Cpu) + (if counts then cpu else 0)
            && SumIf(more, Everything, UsageOf, Memory) ==
               SumIf(es, Everything, UsageOf, Memory) + (if counts then memory else 0)
  {
    SumIfAppend(es, e, Everything, UsageOf, Cpu);
    SumIfAppend(es, e, Everything, UsageOf, Memory);
    assert es + [] == es;
  }

  lemma {:induction false} SumOfBoth(a: seq<Entry>, b: seq<Entry>, meter: Meter)
    ensures SumIf(a + b, Everything, UsageOf, meter) ==
            SumIf(a, Everything, UsageOf, meter) + SumIf(b, Everything, UsageOf, meter)
    decreases |b|
  {
    if b == [] {
      assert a + b == a;
    } else {
      var init, last := b[..|b| - 1], b[|b| - 1];
      SumOfBoth(a, init, meter);
      assert a + b == (a + init) + [last] && b == init + [last];
      SumIfAppend(a + init, last, Everything, UsageOf, meter);
      SumIfAppend(init, last, Everything, UsageOf, meter);
    }
  }

  lemma {:induction false} NamespacesAddUp(namespaces: seq<Namespace>)
    ensures SumIf(Entries(namespaces), Everything, UsageOf, Cpu) == CpuOfAll(namespaces)
    ensures SumIf(Entries(namespaces), Everything, UsageOf, Memory) == MemoryOfAll(namespaces)
  {
    if namespaces != [] {
      var init, last := namespaces[..|namespaces| - 1], namespaces[|namespaces| - 1];
      NamespacesAddUp(init);
      PodsAddUp(last.labels, last.pods);
      SumOfBoth(Entries(init), PodEntries(last.labels, last.pods), Cpu);
      SumOfBoth(Entries(init), PodEntries(last.labels, last.pods), Memory);
    }
  }

  /** From container reports to totals: by tenant, project or app they add up to what the metered pods report. */
  lemma TotalsConserveReports(namespaces: seq<Namespace>, order: seq<string>, totals: map<string, Usage>,
                              key: Sample -> string, ts: seq<string>)
    requires Enumerates(order, Collect(Entries(namespaces)).Keys)
    requires Groups(totals, SamplesOf(Collect(Entries(namespaces)), order), Counted, key, SampleUsage)
    requires Enumerates(ts, totals.Keys)
    ensures Total(totals, ts, Cpu) == CpuOfAll(namespaces) && Total(totals, ts, Memory) == MemoryOfAll(namespaces)
  {
    TotalsConservePods(namespaces, order, totals, key, ts, Cpu);
    TotalsConservePods(namespaces, order, totals, key, ts, Memory);
    NamespacesAddUp(namespaces);
  }

  // ---------------------------------------------------------------- when owners are billed what they use

  /** Pods of one app agree on their owner. */
  ghost predicate AppsAgree(es: seq<Entry>, owner: Entry -> string) {
    forall i, j :: 0 <= i < |es| && 0 <= j < |es| && KeyOf(es[i]) == KeyOf(es[j]) ==> owner(es[i]) == owner(es[j])
  }

  /** The same pods with other usage. */
  function Reweigh(es: seq<Entry>, us: seq<Usage>): (r: seq<Entry>)
    requires |us| == |es|
    ensures |r| == |es| && forall i :: 0 <= i < |es| ==> r[i] == es[i].(usage := us[i])
  {
    seq(|es|, i requires 0 <= i < |es| => es[i].(usage := us[i]))
  }

  /** The owner is told by the labels alone. */
  ghost predicate ByLabels(owner: Entry -> string) { forall e: Entry, u :: owner(e.(usage := u)) == owner(e) }

  /** Every owner's total is the usage of its own pods. */
  ghost predicate BilledFairly(es: seq<Entry>, owner: Entry -> string) {
    forall t, meter :: SumIf(es, BilledTo(es, owner, t), UsageOf, meter) == SumIf(es, OwnedBy(owner, t), UsageOf, meter)
  }

  lemma {:induction false} FirstIsMember(es: seq<Entry>, k: string)
    requires HasKey(es, k)
    ensures exists i :: 0 <= i < |es| && es[i] == First(es, k) && KeyOf(es[i]) == k
    decreases |es|
  {
    var n := |es| - 1;
    if HasKey(es[..n], k) {
      FirstIsMember(es[..n], k);
      var i :| 0 <= i < n && es[..n][i] == First(es[..n], k) && KeyOf(es[..n][i]) == k;
      assert es[i] == es[..n][i];
    }
  }

  lemma AgreementIsFair(es: seq<Entry>, owner: Entry -> string)
    requires AppsAgree(es, owner)
    ensures BilledFairly(es, owner)
  {
    forall t, meter
      ensures SumIf(es, BilledTo(es, owner, t), UsageOf, meter) == SumIf(es, OwnedBy(owner, t), UsageOf, meter)
    {
      forall i | 0 <= i < |es| ensures BilledTo(es, owner, t)(es[i]) == OwnedBy(owner, t)(es[i]) {
        assert HasKey(es, KeyOf(es[i]));
        FirstIsMember(es, KeyOf(es[i]));
      }
      SumIfCongruent(es, BilledTo(es, owner, t), OwnedBy(owner, t), UsageOf, meter);
    }
  }

  lemma {:induction false} SumOfOne(es: seq<Entry>, p: Entry -> bool, i: nat)
    requires i < |es| && es[i].usage.cpu == 1
    requires forall j :: 0 <= j < |es| && j != i ==> es[j].usage == ZERO
    ensures SumIf(es, p, UsageOf, Cpu) == if p(es[i]) then 1 else 0
    decreases |es|
  {
    var n := |es| - 1;
    if i == n {
      SumOfZeros(es[..n], p);
    } else {
      SumOfOne(es[..n], p, i);
    }
  }

  lemma {:induction false} SumOfZeros(es: seq<Entry>, p: Entry -> bool)
    requires forall j :: 0 <= j < |es| ==> es[j].usage == ZERO
    ensures SumIf(es, p, UsageOf, Cpu) == 0
  {
    if es != [] {
      SumOfZeros(es[..|es| - 1], p);
    }
  }

  /**
   Owners are billed the usage of their own pods, whatever that usage is, if and only if the pods
   of every app agree on their owner.
   */
  lemma BilledFairlyIff(es: seq<Entry>, owner: Entry -> string)
    requires ByLabels(owner)
    ensures (forall us: seq<Usage> | |us| == |es| :: BilledFairly(Reweigh(es, us), owner)) <==> AppsAgree(es, owner)
  {
    if AppsAgree(es, owner) {
      forall us: seq<Usage> | |us| == |es| ensures BilledFairly(Reweigh(es, us), owner) {
        ReweighKeepsAgreement(es, us, owner);
        AgreementIsFair(Reweigh(es, us), owner);
      }
    } else {
      var i, j :| 0 <= i < |es| && 0 <= j < |es| && KeyOf(es[i]) == KeyOf(es[j]) && owner(es[i]) != owner(es[j]);
      var x := if BilledOwner(es, owner, es[i]) != owner(es[i]) then i else j;
      MisbilledPod(es, owner, x);
    }
  }

  /** For tenants and for projects. */
  lemma TenantsAndProjectsFairlyIff(es: seq<Entry>)
    ensures (forall us: seq<Usage> | |us| == |es| :: BilledFairly(Reweigh(es, us), TenantOf)) <==>
      AppsAgree(es, TenantOf)
    ensures (forall us: seq<Usage> | |us| == |es| :: BilledFairly(Reweigh(es, us), ProjectOf)) <==>
      AppsAgree(es, ProjectOf)
  {
    BilledFairlyIff(es, TenantOf);
    BilledFairlyIff(es, ProjectOf);
  }

  lemma ReweighKeepsAgreement(es: seq<Entry>, us: seq<Usage>, owner: Entry -> string)
    requires |us| == |es| && ByLabels(owner) && AppsAgree(es, owner)
    ensures AppsAgree(Reweigh(es, us), owner)
  {
    var r := Reweigh(es, us);
    assert forall i :: 0 <= i < |es| ==> owner(r[i]) == owner(es[i].(usage := us[i])) && KeyOf(r[i]) == KeyOf(es[i]);
  }

  /** When only one pod used anything and it is billed elsewhere, its owner's total is wrong. */
  lemma OneMisbilled(r: seq<Entry>, owner: Entry -> string, x: nat)
    requires x < |r| && BilledOwner(r, owner, r[x]) != owner(r[x])
    requires forall i :: 0 <= i < |r| ==> UsageOf(r[i]) == if i == x then ZERO.(cpu := 1) else ZERO
    ensures !BilledFairly(r, owner)
  {
    var t := owner(r[x]);
    SumOfOne(r, BilledTo(r, owner, t), x);
    SumOfOne(r, OwnedBy(owner, t), x);
    assert SumIf(r, BilledTo(r, owner, t), UsageOf, Cpu) != SumIf(r, OwnedBy(owner, t), UsageOf, Cpu);
  }

  lemma MisbilledPod(es: seq<Entry>, owner: Entry -> string, x: nat)
    requires x < |es| && ByLabels(owner) && BilledOwner(es, owner, es[x]) != owner(es[x])
    ensures exists us: seq<Usage> :: |us| == |es| && !BilledFairly(Reweigh(es, us), owner)
  {
    var us := seq(|es|, n => if n == x then ZERO.(cpu := 1) else ZERO);
    var r := Reweigh(es, us);
    ReweighKeepsBilling(es, us, owner, x);
    assert owner(r[x]) == owner(es[x].(usage := us[x]));
    OneMisbilled(r, owner, x);
  }

  lemma ReweighKeepsBilling(es: seq<Entry>, us: seq<Usage>, owner: Entry -> string, x: nat)
    requires |us| == |es| && x < |es| && ByLabels(owner)
    ensures BilledOwner(Reweigh(es, us), owner, Reweigh(es, us)[x]) == BilledOwner(es, owner, es[x])
  {
    var r := Reweigh(es, us);
    assert HasKey(es, KeyOf(es[x])) && HasKey(r, KeyOf(r[x]));
    FirstOfReweighed(es, us, KeyOf(es[x]));
    var f, g := First(es, KeyOf(es[x])), First(r, KeyOf(es[x]));
    assert owner(f.(usage := g.usage)) == owner(f);
  }

  lemma {:induction false} FirstOfReweighed(es: seq<Entry>, us: seq<Usage>, k: string)
    requires |us| == |es|
    ensures HasKey(Reweigh(es, us), k) <==> HasKey(es, k)
    ensures HasKey(es, k) ==> First(Reweigh(es, us), k) == First(es, k).(usage := First(Reweigh(es, us), k).usage)
    decreases |es|
  {
    var r := Reweigh(es, us);
    if i :| 0 <= i < |es| && KeyOf(es[i]) == k {
      assert KeyOf(r[i]) == k;
    }
    if i :| 0 <= i < |r| && KeyOf(r[i]) == k {
      assert KeyOf(es[i]) == k;
    }
    if es != [] {
      var n := |es| - 1;
      assert r[..n] == Reweigh(es[..n], us[..n]);
      FirstOfReweighed(es[..n], us[..n], k);
    }
  }

  // ---------------------------------------------------------------- two pods that disagree

  const POD_OF_A := Pod("ns", map[TENANT := "a", PROJECT := "p", APP := "web"], [Container(Some(3), None)])
  const POD_OF_B := Pod("ns", map[TENANT := "b", PROJECT := "p", APP := "web"], [Container(Some(5), None)])
  const SHARED_APP := [Namespace(map[], [POD_OF_A, POD_OF_B])]

  const ENTRY_OF_A := Entry("ns", "a", "p", "web", Usage(3, 0, 0, 0, 0))
  const ENTRY_OF_B := Entry("ns", "b", "p", "web", Usage(5, 0, 0, 0, 0))

  lemma SharedAppEntries()
    ensures Entries(SHARED_APP) == [ENTRY_OF_A, ENTRY_OF_B]
  {
    PodsAreMetered();
    TwoPods(map[], POD_OF_A, POD_OF_B);
    OneNamespace(Namespace(map[], [POD_OF_A, POD_OF_B]));
  }

  lemma OneNamespace(ns: Namespace)
    ensures Entries([ns]) == PodEntries(ns.labels, ns.pods)
  {
    assert [ns][..0] == [] && Entries([]) == [];
    assert [] + PodEntries(ns.labels, ns.pods) == PodEntries(ns.labels, ns.pods);
  }

  lemma PodsAreMetered()
    ensures EntryOf(map[], POD_OF_A) == ENTRY_OF_A && EntryOf(map[], POD_OF_B) == ENTRY_OF_B
    ensures FullyLabelled(ENTRY_OF_A) && FullyLabelled(ENTRY_OF_B)
  {
    TrimShape("a", IsSpace);
    TrimShape("b", IsSpace);
    TrimShape("p", IsSpace);
    TrimShape("web", IsSpace);
    OneContainer(Container(Some(3), None));
    OneContainer(Container(Some(5), None));
  }

  lemma TwoPods(ns: Labels, a: Pod, b: Pod)
    requires FullyLabelled(EntryOf(ns, a)) && FullyLabelled(EntryOf(ns, b))
    ensures PodEntries(ns, [a, b]) == [EntryOf(ns, a), EntryOf(ns, b)]
  {
    assert [a, b][..1] == [a] && [a][..0] == [];
    assert PodEntries(ns, [a]) == [EntryOf(ns, a)];
  }

  lemma OneContainer(c: Container)
    ensures PodUsage([c]) == ContainerUsage(c)
  {
    assert [c][..0] == [];
  }

  /** Two pods of one app in one namespace with different tenants: the second tenant's usage goes to the first. */
  lemma SecondTenantRidesFree(order: seq<string>, tenants: map<string, Usage>)
    requires Enumerates(order, Collect(Entries(SHARED_APP)).Keys)
    requires Groups(tenants, SamplesOf(Collect(Entries(SHARED_APP)), order), Counted, TenantKey, SampleUsage)
    ensures Get(tenants, "a").cpu == 8 && Get(tenants, "b").cpu == 0
  {
    SharedAppEntries();
    EntriesLabelled(SHARED_APP);
    TwoTenants();
    TwoOfOneApp(Entries(SHARED_APP), order, tenants, "a");
    TwoOfOneApp(Entries(SHARED_APP), order, tenants, "b");
  }

  lemma TwoTenants()
    ensures TenantOf(ENTRY_OF_A) == "a" && KeyOf(ENTRY_OF_A) == KeyOf(ENTRY_OF_B)
  {
    TrimShape("a", IsSpace);
  }

  /** Of two pods of one app, the first one's tenant is billed for both and any other for none. */
  lemma TwoOfOneApp(es: seq<Entry>, order: seq<string>, tenants: map<string, Usage>, t: string)
    requires |es| == 2 && KeyOf(es[0]) == KeyOf(es[1]) && AllLabelled(es)
    requires Enumerates(order, Collect(es).Keys)
    requires Groups(tenants, SamplesOf(Collect(es), order), Counted, TenantKey, SampleUsage)
    ensures Get(tenants, t).cpu == if t == TenantOf(es[0]) then es[0].usage.cpu + es[1].usage.cpu else 0
  {
    FirstOfTwo(es);
    KeysReadOwners();
    TotalIsBilledUsage(es, order, tenants, TenantKey, TenantOf, t, Cpu);
    SumOfTwo(es, BilledTo(es, TenantOf, t));
  }

  lemma FirstOfTwo(es: seq<Entry>)
    requires |es| == 2 && KeyOf(es[0]) == KeyOf(es[1])
    ensures HasKey(es, KeyOf(es[0])) && First(es, KeyOf(es[0])) == es[0]
  {
    var init := es[..1];
    assert KeyOf(init[0]) == KeyOf(es[0]) && HasKey(init, KeyOf(es[0]));
    assert !HasKey(init[..0], KeyOf(es[0]));
  }

  lemma SumOfTwo(es: seq<Entry>, p: Entry -> bool)
    requires |es| == 2
    ensures SumIf(es, p, UsageOf, Cpu) ==
            (if p(es[0]) then es[0].usage.cpu else 0) + (if p(es[1]) then es[1].usage.cpu else 0)
  {
    var one := es[..1];
    assert one[..0] == [] && one[0] == es[0];
    assert SumIf(one, p, UsageOf, Cpu) == if p(es[0]) then es[0].usage.cpu else 0;
  }
}
