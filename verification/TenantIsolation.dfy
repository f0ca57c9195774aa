/**
 Runs of admitted writes and of deletions, which no webhook checks. Every object has a uid,
 and each admitted write pins the uids of the objects its references were checked against.
 */
module TenantIsolation {
  import opened Text
  import opened ObjectLabels
  import opened Admission

  datatype Cluster = Cluster(store: Store, uids: map<Key, nat>, pins: map<Key, map<Key, nat>>, next: nat)

  const EMPTY := Cluster(map[], map[], map[], 0)

  datatype Step =
    | Write(key: Key, obj: Object, foreignOk: bool)   // `foreignOk`: the checks left out of Admission pass
    | Remove(key: Key)

  /** What an object refers to inside the tenant's resources. */
  function Refs(k: Key, o: Object): set<Key> {
    match o.spec
    case AppSpec(values, secrets, ingresses) =>
      (set n | n in values :: Key(ConfigRef, k.namespace, n)) +
      (set n | n in secrets :: Key(SecretRef, k.namespace, n)) +
      (set n | n in ingresses :: Key(IngressRoute, k.namespace, n)) +
      {Key(Project, k.namespace, ProjectName(o))}
    case ReleaseSpec(app, _) => {Key(App, k.namespace, app)}
    case BindingSpec(ct, consumer, pt, provider) =>
      (if ct == ToApp then {Key(App, k.namespace, consumer)} else {}) +
      (if ProviderKind(pt).Some? then {Key(ProviderKind(pt).value, k.namespace, provider)} else {})
    case BucketSpec(policies) => set n | n in policies :: Key(BucketPolicy, k.namespace, n)
    case ProjectSpec(_) => {}
    case OtherSpec => {}
  }

  predicate Accepted(c: Cluster, s: Step) {
    s.Write? && s.foreignOk && Admits(c.store, s.key, s.obj)
  }

  function Apply(c: Cluster, s: Step): Cluster {
    match s
    case Write(k, o, _) =>
      if !Accepted(c, s) then c
      else
        Cluster(c.store[k := o],
                if k in c.uids then c.uids else c.uids[k := c.next],
                c.pins[k := map r | r in Refs(k, o) && r in c.uids :: c.uids[r]],
                c.next + 1)
    case Remove(k) => Cluster(c.store - {k}, c.uids - {k}, c.pins - {k}, c.next)
  }

  function Run(c: Cluster, steps: seq<Step>): Cluster
    decreases |steps|
  {
    if steps == [] then c else Run(Apply(c, steps[0]), steps[1..])
  }

  // ---------------------------------------------------------------- one admitted write

  /** What admission establishes about one reference, in terms of the trimmed tenant. */
  ghost predicate SameTenant(s: Store, k: Key, o: Object, r: Key) {
    r in s && r != k && r.namespace == k.namespace && (Labelled(s[r]) ==> Tenant(s[r]) == Tenant(o))
  }

  lemma AdmittedRefsAreLocal(s: Store, k: Key, o: Object)
    requires Guarded(k) && Admits(s, k, o)
    ensures Labelled(o)
    ensures forall r :: r in Refs(k, o) ==> SameTenant(s, k, o, r)
  {
    TrimSpaceIdempotent(LabelOf(o, TENANT));
    forall r | r in Refs(k, o) ensures SameTenant(s, k, o, r) {
      if k.kind == App {
        AppRefIsLocal(s, k, o, r);
      } else if k.kind == Bucket {
        var i :| 0 <= i < |o.spec.policyRefs| && r == Key(BucketPolicy, k.namespace, o.spec.policyRefs[i]);
        assert PolicyRefOk(s, r, o);
      }
    }
  }

  lemma AppRefIsLocal(s: Store, k: Key, o: Object, r: Key)
    requires k.kind == App && Admits(s, k, o) && r in Refs(k, o)
    ensures SameTenant(s, k, o, r)
  {
    var tenant := LabelOf(o, TENANT);
    if r.kind == Project {
      assert ProjectRefOk(s, k.namespace, o, tenant);
      if Labelled(s[r]) {
        TrimSpaceIdempotent(LabelOf(s[r], TENANT));
      }
    } else {
      assert RefOk(s, r, tenant) by {
        if r.kind == ConfigRef {
          var i :| 0 <= i < |o.spec.valuesRefs| && r == Key(ConfigRef, k.namespace, o.spec.valuesRefs[i]);
        } else if r.kind == SecretRef {
          var i :| 0 <= i < |o.spec.secretsRefs| && r == Key(SecretRef, k.namespace, o.spec.secretsRefs[i]);
        } else {
          var i :| 0 <= i < |o.spec.ingressRefs| && r == Key(IngressRoute, k.namespace, o.spec.ingressRefs[i]);
        }
      }
    }
  }

  /** References never point at service accounts. */
  lemma RefsAreGuarded(k: Key, o: Object)
    ensures forall r :: r in Refs(k, o) ==> Guarded(r)
  {
  }

  // ---------------------------------------------------------------- the invariant

  ghost predicate AllLabelled(c: Cluster) {
    forall k :: k in c.store && Guarded(k) ==> Labelled(c.store[k])
  }

  ghost predicate UidsKnown(c: Cluster) {
    && c.uids.Keys == c.store.Keys
    && (forall k :: k in c.uids ==> c.uids[k] < c.next)
    && (forall k, r :: k in c.pins && r in c.pins[k] ==> c.pins[k][r] < c.next)
  }

  /** The reference still means the object it was checked against. */
  ghost predicate Intact(c: Cluster, k: Key, r: Key) {
    k in c.pins && r in c.pins[k] && r in c.uids && c.uids[r] == c.pins[k][r]
  }

  ghost predicate Pinned(c: Cluster) {
    forall k, r :: k in c.store && Guarded(k) && r in Refs(k, c.store[k]) ==> k in c.pins && r in c.pins[k]
  }

  ghost predicate IntactRefsAreLocal(c: Cluster) {
    forall k, r :: k in c.store && Guarded(k) && r in Refs(k, c.store[k]) && Intact(c, k, r) ==>
      r in c.store && r.namespace == k.namespace && Tenant(c.store[r]) == Tenant(c.store[k])
  }

  ghost predicate Inv(c: Cluster) {
    AllLabelled(c) && UidsKnown(c) && Pinned(c) && IntactRefsAreLocal(c)
  }

  /** Every reference still means the object it was checked against. */
  ghost predicate AllIntact(c: Cluster) {
    forall k, r :: k in c.store && Guarded(k) && r in Refs(k, c.store[k]) ==> Intact(c, k, r)
  }

  lemma WriteKeepsInv(c: Cluster, s: Step)
    requires Inv(c) && Accepted(c, s)
    ensures Inv(Apply(c, s))
  {
    WriteKeepsTenants(c, s);
    WriteKeepsPins(c, s);
    WriteKeepsLocal(c, s);
  }

  /** A write checks its references against the store, so every one of them gets a pin. */
  lemma WriteKeepsPins(c: Cluster, s: Step)
    requires UidsKnown(c) && Pinned(c) && Accepted(c, s)
    ensures UidsKnown(Apply(c, s)) && Pinned(Apply(c, s))
  {
    var k, o, v := s.key, s.obj, Apply(c, s);
    forall j, r | j in v.store && Guarded(j) && r in Refs(j, v.store[j]) ensures j in v.pins && r in v.pins[j] {
      if j == k {
        AdmittedRefsAreLocal(c.store, k, o);
        assert SameTenant(c.store, k, o, r);
      }
    }
  }

  lemma WriteKeepsAllIntact(c: Cluster, s: Step)
    requires UidsKnown(c) && AllIntact(c) && Accepted(c, s)
    ensures AllIntact(Apply(c, s))
  {
    var k, o, v := s.key, s.obj, Apply(c, s);
    forall j, r | j in v.store && Guarded(j) && r in Refs(j, v.store[j]) ensures Intact(v, j, r) {
      if j == k {
        AdmittedRefsAreLocal(c.store, k, o);
        assert SameTenant(c.store, k, o, r);
      } else {
        assert Intact(c, j, r);
      }
    }
  }

  /** An update does not move an object to another tenant. */
  lemma WriteKeepsTenants(c: Cluster, s: Step)
    requires AllLabelled(c) && Accepted(c, s)
    ensures AllLabelled(Apply(c, s))
    ensures forall r :: r in c.store && Guarded(r) ==>
      r in Apply(c, s).store && Tenant(Apply(c, s).store[r]) == Tenant(c.store[r])
  {
    var k, o := s.key, s.obj;
    if Guarded(k) {
      AdmittedRefsAreLocal(c.store, k, o);
      if k in c.store {
        assert Labelled(c.store[k]);
      }
    }
  }

  lemma WriteKeepsLocal(c: Cluster, s: Step)
    requires Inv(c) && Accepted(c, s)
    ensures IntactRefsAreLocal(Apply(c, s))
  {
    var k, o, v := s.key, s.obj, Apply(c, s);
    WriteKeepsTenants(c, s);
    forall j, r | j in v.store && Guarded(j) && r in Refs(j, v.store[j]) && Intact(v, j, r)
      ensures r in v.store && r.namespace == j.namespace && Tenant(v.store[r]) == Tenant(v.store[j])
    {
      RefsAreGuarded(j, v.store[j]);
      if j == k {
        AdmittedRefsAreLocal(c.store, k, o);
        assert SameTenant(c.store, k, o, r);
        assert Labelled(c.store[r]);
      } else {
        assert Intact(c, j, r);
      }
    }
  }

  lemma RemoveKeepsInv(c: Cluster, k: Key)
    requires Inv(c)
    ensures Inv(Apply(c, Remove(k)))
  {
    var v := Apply(c, Remove(k));
    forall j, r | j in v.store && Guarded(j) && r in Refs(j, v.store[j]) && Intact(v, j, r)
      ensures r in v.store && r.namespace == j.namespace && Tenant(v.store[r]) == Tenant(v.store[j])
    {
      assert Intact(c, j, r);
    }
  }

  lemma ApplyKeepsInv(c: Cluster, s: Step)
    requires Inv(c)
    ensures Inv(Apply(c, s))
  {
    if Accepted(c, s) {
      WriteKeepsInv(c, s);
    } else if s.Remove? {
      RemoveKeepsInv(c, s.key);
    }
  }

  lemma {:induction false} RunKeepsInv(c: Cluster, steps: seq<Step>)
    requires Inv(c)
    ensures Inv(Run(c, steps))
    decreases |steps|
  {
    if steps != [] {
      ApplyKeepsInv(c, steps[0]);
      RunKeepsInv(Apply(c, steps[0]), steps[1..]);
    }
  }

  /**
   In every run, deletions included: a reference that still means the object it was admitted
   against stays inside the tenant and the namespace.
   */
  lemma IntactReferencesStayInTenant(steps: seq<Step>, k: Key, r: Key)
    ensures var c := Run(EMPTY, steps);
            k in c.store && Guarded(k) && r in Refs(k, c.store[k]) && Intact(c, k, r) ==>
              r in c.store && r.namespace == k.namespace && Tenant(c.store[r]) == Tenant(c.store[k])
  {
    RunKeepsInv(EMPTY, steps);
  }

  // ---------------------------------------------------------------- runs without harmful deletions

  ghost predicate Referenced(c: Cluster, k: Key) {
    exists j :: j in c.store && j != k && Guarded(j) && k in Refs(j, c.store[j])
  }

  /** A deletion breaks a reference exactly when the object is referenced. */
  lemma RemoveKeepsAllIntactIff(c: Cluster, k: Key)
    requires AllIntact(c)
    ensures AllIntact(Apply(c, Remove(k))) <==> !Referenced(c, k)
  {
    var v := Apply(c, Remove(k));
    if !Referenced(c, k) {
      forall j, r | j in v.store && Guarded(j) && r in Refs(j, v.store[j]) ensures Intact(v, j, r) {
        UnreferencedStaysIntact(c, k, j, r);
      }
    } else {
      var j :| j in c.store && j != k && Guarded(j) && k in Refs(j, c.store[j]);
      assert v.store[j] == c.store[j] && !Intact(v, j, k);
    }
  }

  lemma UnreferencedStaysIntact(c: Cluster, k: Key, j: Key, r: Key)
    requires !Referenced(c, k) && j in c.store && j != k && Guarded(j) && r in Refs(j, c.store[j])
    requires Intact(c, j, r)
    ensures Intact(Apply(c, Remove(k)), j, r)
  {
  }

  /** No step of the run deletes an object that is referenced at that moment. */
  ghost predicate SafeDeletions(c: Cluster, steps: seq<Step>)
    decreases |steps|
  {
    steps == [] ||
    ((steps[0].Remove? ==> !Referenced(c, steps[0].key)) && SafeDeletions(Apply(c, steps[0]), steps[1..]))
  }

  /** Runs of creates and updates need no condition. */
  lemma {:induction false} WriteRunsAreSafe(c: Cluster, steps: seq<Step>)
    requires forall i :: 0 <= i < |steps| ==> steps[i].Write?
    ensures SafeDeletions(c, steps)
    decreases |steps|
  {
    if steps != [] {
      WriteRunsAreSafe(Apply(c, steps[0]), steps[1..]);
    }
  }

  lemma {:induction false} SafeRunKeepsAllIntact(c: Cluster, steps: seq<Step>)
    requires Inv(c) && AllIntact(c) && SafeDeletions(c, steps)
    ensures Inv(Run(c, steps)) && AllIntact(Run(c, steps))
    decreases |steps|
  {
    if steps != [] {
      var s := steps[0];
      ApplyKeepsInv(c, s);
      if Accepted(c, s) {
        WriteKeepsAllIntact(c, s);
      } else if s.Remove? {
        RemoveKeepsAllIntactIff(c, s.key);
      }
      SafeRunKeepsAllIntact(Apply(c, s), steps[1..]);
    }
  }

  /** A chain of references. */
  ghost predicate Path(s: Store, p: seq<Key>) {
    && |p| > 0 && p[0] in s && Guarded(p[0])
    && forall i :: 0 <= i < |p| - 1 ==> p[i] in s && p[i + 1] in Refs(p[i], s[p[i]])
  }

  /**
   In every run of writes, and of deletions of unreferenced objects, every reference names an
   existing object of the same namespace and tenant, and so does every chain of references.
   */
  lemma PathsStayInTenant(steps: seq<Step>, p: seq<Key>)
    requires SafeDeletions(EMPTY, steps)
    requires Path(Run(EMPTY, steps).store, p)
    ensures var s := Run(EMPTY, steps).store;
            forall i :: 0 <= i < |p| ==>
              p[i] in s && p[i].namespace == p[0].namespace && Tenant(s[p[i]]) == Tenant(s[p[0]])
  {
    var c := Run(EMPTY, steps);
    SafeRunKeepsAllIntact(EMPTY, steps);
    PathIsLocal(c, p);
  }

  lemma {:induction false} PathIsLocal(c: Cluster, p: seq<Key>)
    requires Inv(c) && AllIntact(c) && Path(c.store, p)
    ensures forall i :: 0 <= i < |p| ==>
      p[i] in c.store && Guarded(p[i]) && p[i].namespace == p[0].namespace &&
        Tenant(c.store[p[i]]) == Tenant(c.store[p[0]])
    decreases |p|
  {
    if |p| > 1 {
      var n := |p| - 1;
      var q := p[..n];
      assert forall i :: 0 <= i < |q| ==> q[i] == p[i];
      PathIsLocal(c, q);
      var k, r := p[n - 1], p[n];
      assert q[n - 1] == k && r in Refs(k, c.store[k]) && Intact(c, k, r);
      RefsAreGuarded(k, c.store[k]);
      forall i | 0 <= i < |p|
        ensures p[i] in c.store && Guarded(p[i]) && p[i].namespace == p[0].namespace &&
          Tenant(c.store[p[i]]) == Tenant(c.store[p[0]])
      {
        assert i < n ==> q[i] == p[i];
      }
    }
  }

  // ---------------------------------------------------------------- every reference, kind by kind

  ghost predicate AllTyped(c: Cluster) { forall k :: k in c.store ==> WellTyped(k, c.store[k]) }

  lemma {:induction false} RunKeepsTyped(c: Cluster, steps: seq<Step>)
    requires AllTyped(c)
    ensures AllTyped(Run(c, steps))
    decreases |steps|
  {
    if steps != [] {
      RunKeepsTyped(Apply(c, steps[0]), steps[1..]);
    }
  }

  /** An object of this kind and name stands beside `k`, and the tenant labels of the two are the same tenant. */
  ghost predicate Beside(s: Store, k: Key, kind: Kind, name: string) {
    var r := Key(kind, k.namespace, name);
    && k in s && "paas.kubeop.io/tenant" in s[k].labels
    && r in s && "paas.kubeop.io/tenant" in s[r].labels
    && TrimSpace(s[r].labels["paas.kubeop.io/tenant"]) == TrimSpace(s[k].labels["paas.kubeop.io/tenant"]) != ""
  }

  lemma IntactRefIsBeside(c: Cluster, k: Key, kind: Kind, name: string)
    requires Inv(c) && AllIntact(c) && k in c.store && Guarded(k)
    requires Key(kind, k.namespace, name) in Refs(k, c.store[k])
    ensures Beside(c.store, k, kind, name)
  {
    var r := Key(kind, k.namespace, name);
    assert Intact(c, k, r);
    assert Labelled(c.store[k]);
    assert TrimSpace("") == "";
  }

  /** What a stored App, release, binding or bucket names is there, of the kind its field promises. */
  ghost predicate NamesStand(s: Store, k: Key)
    requires k in s && WellTyped(k, s[k])
  {
    match k.kind
    case App =>
      && (forall n :: n in s[k].spec.valuesRefs ==> Beside(s, k, ConfigRef, n))
      && (forall n :: n in s[k].spec.secretsRefs ==> Beside(s, k, SecretRef, n))
      && (forall n :: n in s[k].spec.ingressRefs ==> Beside(s, k, IngressRoute, n))
      && "paas.kubeop.io/project" in s[k].labels
      && Beside(s, k, Project, TrimSpace(s[k].labels["paas.kubeop.io/project"]))
    case AppRelease => Beside(s, k, App, s[k].spec.appRef)
    case ServiceBinding =>
      && (s[k].spec.consumerType == ToApp ==> Beside(s, k, App, s[k].spec.consumer))
      && (s[k].spec.providerType == FromDatabase ==> Beside(s, k, DatabaseInstance, s[k].spec.provider))
      && (s[k].spec.providerType == FromCache ==> Beside(s, k, CacheInstance, s[k].spec.provider))
      && (s[k].spec.providerType == FromQueue ==> Beside(s, k, QueueInstance, s[k].spec.provider))
    case Bucket => forall n :: n in s[k].spec.policyRefs ==> Beside(s, k, BucketPolicy, n)
    case _ => true
  }

  /**
   In every run of writes, and of deletions of unreferenced objects: each name in a stored spec
   stands for an object of the kind that field is for, in the same namespace and of the same tenant.
   */
  lemma StoredNamesStand(steps: seq<Step>, k: Key)
    requires SafeDeletions(EMPTY, steps)
    ensures var s := Run(EMPTY, steps).store; k in s ==> WellTyped(k, s[k]) && NamesStand(s, k)
  {
    var c := Run(EMPTY, steps);
    SafeRunKeepsAllIntact(EMPTY, steps);
    RunKeepsTyped(EMPTY, steps);
    if k in c.store {
      match k.kind {
        case App => AppNamesStand(c, k);
        case AppRelease => IntactRefIsBeside(c, k, App, c.store[k].spec.appRef);
        case ServiceBinding => BindingNamesStand(c, k);
        case Bucket => BucketNamesStand(c, k);
        case _ =>
      }
    }
  }

  lemma AppNamesStand(c: Cluster, k: Key)
    requires Inv(c) && AllIntact(c) && k in c.store && k.kind == App && c.store[k].spec.AppSpec?
    ensures NamesStand(c.store, k)
  {
    var spec := c.store[k].spec;
    forall n | n in spec.valuesRefs ensures Beside(c.store, k, ConfigRef, n) {
      IntactRefIsBeside(c, k, ConfigRef, n);
    }
    forall n | n in spec.secretsRefs ensures Beside(c.store, k, SecretRef, n) {
      IntactRefIsBeside(c, k, SecretRef, n);
    }
    forall n | n in spec.ingressRefs ensures Beside(c.store, k, IngressRoute, n) {
      IntactRefIsBeside(c, k, IngressRoute, n);
    }
    assert Labelled(c.store[k]) && TrimSpace("") == "";
    IntactRefIsBeside(c, k, Project, ProjectName(c.store[k]));
  }

  lemma BindingNamesStand(c: Cluster, k: Key)
    requires Inv(c) && AllIntact(c) && k in c.store && k.kind == ServiceBinding && c.store[k].spec.BindingSpec?
    ensures NamesStand(c.store, k)
  {
    var spec := c.store[k].spec;
    if spec.consumerType == ToApp {
      IntactRefIsBeside(c, k, App, spec.consumer);
    }
    match spec.providerType {
      case FromDatabase => IntactRefIsBeside(c, k, DatabaseInstance, spec.provider);
      case FromCache => IntactRefIsBeside(c, k, CacheInstance, spec.provider);
      case FromQueue => IntactRefIsBeside(c, k, QueueInstance, spec.provider);
      case FromUnknown =>
    }
  }

  lemma BucketNamesStand(c: Cluster, k: Key)
    requires Inv(c) && AllIntact(c) && k in c.store && k.kind == Bucket && c.store[k].spec.BucketSpec?
    ensures NamesStand(c.store, k)
  {
    forall n | n in c.store[k].spec.policyRefs ensures Beside(c.store, k, BucketPolicy, n) {
      IntactRefIsBeside(c, k, BucketPolicy, n);
    }
  }

  /** In every run, deletions included, each object but a service account carries its three labels. */
  lemma StoredAreLabelled(steps: seq<Step>, k: Key, key: string)
    requires key in {"paas.kubeop.io/tenant", "paas.kubeop.io/project", "paas.kubeop.io/app"}
    ensures var s := Run(EMPTY, steps).store;
            k in s && k.kind != ServiceAccount ==> key in s[k].labels && TrimSpace(s[k].labels[key]) != ""
  {
    RunKeepsInv(EMPTY, steps);
    var s := Run(EMPTY, steps).store;
    if k in s && k.kind != ServiceAccount {
      assert Labelled(s[k]) && TrimSpace("") == "";
    }
  }

  /** What an update may not change. */
  predicate Kept(k: Key, was: Object, now: Object)
    requires WellTyped(k, was) && WellTyped(k, now)
  {
    && Tenant(now) == Tenant(was)
    && (k.kind == AppRelease ==> now.spec == was.spec)
    && (k.kind == Project ==> now.spec.tenantRef == was.spec.tenantRef)
  }

  lemma StepKeeps(c: Cluster, st: Step, k: Key)
    requires AllTyped(c) && AllLabelled(c) && k in c.store && Guarded(k) && st != Remove(k)
    ensures var v := Apply(c, st);
            AllTyped(v) && AllLabelled(v) && k in v.store && Kept(k, c.store[k], v.store[k])
  {
    if Accepted(c, st) {
      WriteKeepsTenants(c, st);
    }
  }

  lemma {:induction false} RunKeeps(c: Cluster, steps: seq<Step>, k: Key)
    requires AllTyped(c) && AllLabelled(c) && k in c.store && Guarded(k)
    requires forall i :: 0 <= i < |steps| ==> steps[i] != Remove(k)
    ensures var v := Run(c, steps);
            AllTyped(v) && AllLabelled(v) && k in v.store && Kept(k, c.store[k], v.store[k])
    decreases |steps|
  {
    if steps != [] {
      assert steps[0] != Remove(k);
      StepKeeps(c, steps[0], k);
      RunKeeps(Apply(c, steps[0]), steps[1..], k);
    }
  }

  /**
   As long as an object is not deleted it keeps its tenant; a release keeps its whole spec and a
   Project its tenantRef, whatever else is written.
   */
  lemma SurvivorsKeep(before: seq<Step>, after: seq<Step>, k: Key)
    requires k in Run(EMPTY, before).store && k.kind != ServiceAccount
    requires forall i :: 0 <= i < |after| ==> after[i] != Remove(k)
    ensures var s, v := Run(EMPTY, before).store, Run(EMPTY, before + after).store;
            && k in v && WellTyped(k, s[k]) && WellTyped(k, v[k])
            && TrimSpace(Label(v[k].labels, "paas.kubeop.io/tenant")) ==
               TrimSpace(Label(s[k].labels, "paas.kubeop.io/tenant")) != ""
            && (k.kind == AppRelease ==> v[k].spec == s[k].spec)
            && (k.kind == Project ==> v[k].spec.tenantRef == s[k].spec.tenantRef)
  {
    RunKeepsInv(EMPTY, before);
    RunKeepsTyped(EMPTY, before);
    RunOfConcat(EMPTY, before, after);
    RunKeeps(Run(EMPTY, before), after, k);
    assert Labelled(Run(EMPTY, before).store[k]);
  }

  /** Where label values carry no surrounding whitespace, as Kubernetes requires, the labels themselves agree. */
  lemma SafeRunLabelsAgree(steps: seq<Step>, k: Key, r: Key)
    requires SafeDeletions(EMPTY, steps)
    requires var s := Run(EMPTY, steps).store;
             && k in s && Guarded(k) && r in Refs(k, s[k])
             && (forall j :: j in s ==> Bare(LabelOf(s[j], TENANT), IsSpace))
    ensures var s := Run(EMPTY, steps).store;
            r in s && LabelOf(s[r], TENANT) == LabelOf(s[k], TENANT)
  {
    var s := Run(EMPTY, steps).store;
    assert Path(s, [k, r]);
    PathsStayInTenant(steps, [k, r]);
    assert [k, r][1] == r;
    TrimShape(LabelOf(s[k], TENANT), IsSpace);
    TrimShape(LabelOf(s[r], TENANT), IsSpace);
  }

  /**
   Deleting a referenced object is harmful whenever another tenant can be admitted under its
   name: the reference then crosses tenants.
   */
  lemma DeletionLetsReferencesCross(c: Cluster, j: Key, k: Key, intruder: Object)
    requires j in c.store && j != k && Guarded(j) && k in Refs(j, c.store[j])
    requires Admits(c.store - {k}, k, intruder) && Tenant(intruder) != Tenant(c.store[j])
    ensures var v := Run(c, [Remove(k), Write(k, intruder, true)]);
            && j in v.store && k in v.store && k in Refs(j, v.store[j])
            && Tenant(v.store[k]) != Tenant(v.store[j])
  {
    var removed := Apply(c, Remove(k));
    var w := Write(k, intruder, true);
    RunOfTwo(c, Remove(k), w);
    assert Apply(removed, w).store == removed.store[k := intruder];
    assert removed.store[j] == c.store[j];
  }

  /** Any tenant is admitted under a free name of a label-guarded kind, and as a Project under its own name. */
  lemma FreeNameIsAdmitted(s: Store, k: Key, o: Object)
    requires k !in s && Labelled(o) && WellTyped(k, o)
    requires k.kind in {ConfigRef, SecretRef, IngressRoute, CacheInstance, DatabaseInstance, QueueInstance,
                        BucketPolicy, Project}
    requires k.kind == Project ==> ProjectName(o) == k.name && o.spec.tenantRef in {"", Tenant(o)}
    ensures Admits(s, k, o)
  {
  }

  /** Any tenant with a Project in the namespace is admitted under a free App name. */
  lemma FreeAppIsAdmitted(s: Store, k: Key, o: Object)
    requires k !in s && k.kind == App && Labelled(o) && o.spec == AppSpec([], [], [])
    requires ProjectRefOk(s, k.namespace, o, LabelOf(o, TENANT))
    ensures Admits(s, k, o)
  {
  }

  lemma RunOfTwo(c: Cluster, s: Step, t: Step)
    ensures Run(c, [s, t]) == Apply(Apply(c, s), t)
  {
    assert [s, t][1..] == [t] && [t][1..] == [];
    assert Run(Apply(c, s), [t]) == Run(Apply(Apply(c, s), t), []);
  }

  lemma {:induction false} RunOfConcat(c: Cluster, a: seq<Step>, b: seq<Step>)
    ensures Run(c, a + b) == Run(Run(c, a), b)
    decreases |a|
  {
    if a == [] {
      assert a + b == b;
    } else {
      RunOfConcat(Apply(c, a[0]), a[1..], b);
      assert (a + b)[1..] == a[1..] + b;
    }
  }

  // ---------------------------------------------------------------- what holds of projects

  /** Every Project carries its own name and, if it names a tenant, its own tenant. */
  ghost predicate ProjectsNamed(s: Store) {
    forall k :: k in s && k.kind == Project ==>
      ProjectName(s[k]) == k.name && s[k].spec.ProjectSpec? && s[k].spec.tenantRef in {"", Tenant(s[k])}
  }

  lemma {:induction false} RunKeepsProjectsNamed(c: Cluster, steps: seq<Step>)
    requires ProjectsNamed(c.store)
    ensures ProjectsNamed(Run(c, steps).store)
    decreases |steps|
  {
    if steps != [] {
      RunKeepsProjectsNamed(Apply(c, steps[0]), steps[1..]);
    }
  }

  // ---------------------------------------------------------------- what holds of project and app labels

  /** Releases and buckets are admitted only beside objects with the same project and app labels. */
  predicate Comparing(o: Object) { o.spec.ReleaseSpec? || o.spec.BucketSpec? }

  /** The labels of `t` that the referring object `o` was compared with are as it needs them. */
  predicate Agrees(o: Object, t: Object) {
    && (o.spec.ReleaseSpec? ==> LabelOf(t, PROJECT) == LabelOf(o, PROJECT))
    && (o.spec.BucketSpec? ==>
          LabelOf(t, PROJECT) == ProjectName(o) && LabelOf(t, APP) == TrimSpace(LabelOf(o, APP)))
  }

  /** Every release is of the project of its App, and every bucket of the project and app of its policies. */
  ghost predicate LabelsAgree(s: Store) {
    forall k, r :: k in s && Comparing(s[k]) && r in Refs(k, s[k]) ==> r in s && Agrees(s[k], s[r])
  }

  /** Some other release or bucket refers to the object. */
  ghost predicate Compared(s: Store, k: Key) {
    exists j :: j in s && j != k && Comparing(s[j]) && k in Refs(j, s[j])
  }

  /** Going from `t` to `t'` changes a label that the referring object `o` was compared with. */
  predicate MovesUnder(o: Object, t: Object, t': Object) {
    || LabelOf(t', PROJECT) != LabelOf(t, PROJECT)
    || (o.spec.BucketSpec? && LabelOf(t', APP) != LabelOf(t, APP))
  }

  /** The write changes the project label under a release, or the project or app label under a bucket. */
  ghost predicate Moves(s: Store, k: Key, o: Object) {
    k in s && exists j :: j in s && j != k && Comparing(s[j]) && k in Refs(j, s[j]) && MovesUnder(s[j], s[k], o)
  }

  /** What is admitted agrees with what it refers to. */
  lemma AdmittedAgrees(s: Store, k: Key, o: Object, r: Key)
    requires Admits(s, k, o) && Comparing(o) && r in Refs(k, o)
    ensures r in s && r != k && Agrees(o, s[r])
  {
    if o.spec.BucketSpec? {
      var i :| 0 <= i < |o.spec.policyRefs| && r == Key(BucketPolicy, k.namespace, o.spec.policyRefs[i]);
      assert PolicyRefOk(s, r, o);
    }
  }

  /** An admitted write keeps the agreement if and only if it moves nothing that is compared. */
  lemma WriteKeepsLabelsAgreeIff(c: Cluster, st: Step)
    requires LabelsAgree(c.store) && Accepted(c, st)
    ensures LabelsAgree(Apply(c, st).store) <==> !Moves(c.store, st.key, st.obj)
  {
    if Moves(c.store, st.key, st.obj) {
      MoveBreaksAgreement(c.store, st.key, st.obj);
    } else {
      OthersKeepAgreement(c.store, st.key, st.obj);
    }
  }

  lemma MoveBreaksAgreement(s: Store, k: Key, o: Object)
    requires LabelsAgree(s) && Moves(s, k, o)
    ensures !LabelsAgree(s[k := o])
  {
    var j :| j in s && j != k && Comparing(s[j]) && k in Refs(j, s[j]) && MovesUnder(s[j], s[k], o);
    var v := s[k := o];
    assert Agrees(s[j], s[k]) && v[j] == s[j] && !Agrees(v[j], v[k]);
  }

  lemma OthersKeepAgreement(s: Store, k: Key, o: Object)
    requires LabelsAgree(s) && Admits(s, k, o) && !Moves(s, k, o)
    ensures LabelsAgree(s[k := o])
  {
    var v := s[k := o];
    forall j, r | j in v && Comparing(v[j]) && r in Refs(j, v[j]) ensures r in v && Agrees(v[j], v[r]) {
      if j == k {
        AdmittedAgrees(s, k, o, r);
      } else {
        assert r in s && Agrees(s[j], s[r]);
        assert r == k ==> !MovesUnder(s[j], s[k], o);
      }
    }
  }

  /** A deletion keeps the agreement if and only if no release or bucket refers to the object. */
  lemma RemoveKeepsLabelsAgreeIff(c: Cluster, k: Key)
    requires LabelsAgree(c.store)
    ensures LabelsAgree(Apply(c, Remove(k)).store) <==> !Compared(c.store, k)
  {
    var v := Apply(c, Remove(k)).store;
    if Compared(c.store, k) {
      var j :| j in c.store && j != k && Comparing(c.store[j]) && k in Refs(j, c.store[j]);
      assert v[j] == c.store[j] && k !in v;
    }
  }

  /** The step neither moves nor deletes what a release or a bucket is compared with. */
  ghost predicate KeepsCompared(c: Cluster, st: Step) {
    match st
    case Write(k, o, _) => Accepted(c, st) ==> !Moves(c.store, k, o)
    case Remove(k) => !Compared(c.store, k)
  }

  ghost predicate AllKeepCompared(c: Cluster, steps: seq<Step>)
    decreases |steps|
  {
    steps == [] || (KeepsCompared(c, steps[0]) && AllKeepCompared(Apply(c, steps[0]), steps[1..]))
  }

  /** The labels agree before, during and after the run. */
  ghost predicate AgreesThroughout(c: Cluster, steps: seq<Step>)
    decreases |steps|
  {
    LabelsAgree(c.store) && (steps == [] || AgreesThroughout(Apply(c, steps[0]), steps[1..]))
  }

  /**
   Unlike tenants, projects are not kept by admission alone: the labels agree throughout a run if
   and only if no step of it moves or deletes what a release or a bucket is compared with.
   */
  lemma {:induction false} AgreesThroughoutIff(c: Cluster, steps: seq<Step>)
    requires LabelsAgree(c.store)
    ensures AgreesThroughout(c, steps) <==> AllKeepCompared(c, steps)
    decreases |steps|
  {
    if steps != [] {
      var st, v := steps[0], Apply(c, steps[0]);
      assert LabelsAgree(v.store) <==> KeepsCompared(c, st) by {
        if Accepted(c, st) {
          WriteKeepsLabelsAgreeIff(c, st);
        } else if st.Remove? {
          RemoveKeepsLabelsAgreeIff(c, st.key);
        }
      }
      if LabelsAgree(v.store) {
        AgreesThroughoutIff(v, steps[1..]);
      } else {
        assert !AgreesThroughout(v, steps[1..]);
      }
    }
  }

  // ---------------------------------------------------------------- two runs that go wrong

  /** A label value without spaces at its ends. */
  predicate Word(s: string) { s != "" && TrimSpace(s) == s }

  function LabelsOf(tenant: string, project: string): Labels {
    map[TENANT := tenant, PROJECT := project, APP := "web"]
  }

  function ProjectObject(tenant: string, project: string): Object {
    Object(LabelsOf(tenant, project), ProjectSpec(tenant))
  }

  function Settings(tenant: string, project: string): Object { Object(LabelsOf(tenant, project), OtherSpec) }

  /** The app reads the settings. */
  function WebOf(project: string): Object { Object(LabelsOf("a", project), AppSpec(["settings"], [], [])) }

  const PROJECT_P := Key(Project, "ns", "p")
  const PROJECT_Q := Key(Project, "ns", "q")
  const CONFIG := Key(ConfigRef, "ns", "settings")
  const WEB := Key(App, "ns", "web")
  const RELEASE := Key(AppRelease, "ns", "r1")
  const RELEASE_OF_P := Object(LabelsOf("a", "p"), ReleaseSpec("web", "v1"))

  /** Tenant a sets up two projects, settings and an app of the first project that reads them. */
  const PROJECTS := [Write(PROJECT_P, ProjectObject("a", "p"), true), Write(PROJECT_Q, ProjectObject("a", "q"), true)]
  const WORKLOAD := [Write(CONFIG, Settings("a", "p"), true), Write(WEB, WebOf("p"), true)]
  const SETUP := PROJECTS + WORKLOAD

  lemma WordsAreTrimmed()
    ensures Word("a") && Word("b") && Word("p") && Word("q") && Word("web")
  {
    TrimShape("a", IsSpace);
    TrimShape("b", IsSpace);
    TrimShape("p", IsSpace);
    TrimShape("q", IsSpace);
    TrimShape("web", IsSpace);
  }

  lemma LabelledBy(tenant: string, project: string, spec: Spec)
    requires Word(tenant) && Word(project) && Word("web")
    ensures var o := Object(LabelsOf(tenant, project), spec);
            Labelled(o) && Tenant(o) == LabelOf(o, TENANT) == tenant && ProjectName(o) == LabelOf(o, PROJECT) == project
  {
  }

  /** Two admitted writes, the second after the first. */
  lemma TwoWrites(c: Cluster, k: Key, o: Object, j: Key, t: Object)
    requires Admits(c.store, k, o) && Admits(c.store[k := o], j, t)
    ensures Run(c, [Write(k, o, true), Write(j, t, true)]).store == c.store[k := o][j := t]
  {
    RunOfTwo(c, Write(k, o, true), Write(j, t, true));
  }

  /** An App whose references and project are there, all of its tenant. */
  lemma AppIsAdmitted(s: Store, k: Key, o: Object)
    requires k.kind == App && o.spec.AppSpec? && Labelled(o) && LabelOf(o, TENANT) == Tenant(o)
    requires k in s ==> Tenant(s[k]) == Tenant(o)
    requires var p := Key(Project, k.namespace, ProjectName(o));
             p in s && s[p].spec == ProjectSpec(Tenant(o)) && Tenant(s[p]) == Tenant(o)
    requires forall n :: n in o.spec.valuesRefs ==> RefOk(s, Key(ConfigRef, k.namespace, n), Tenant(o))
    requires o.spec.secretsRefs == [] && o.spec.ingressRefs == []
    ensures Admits(s, k, o)
  {
  }

  function ProjectStore(): Store {
    map[PROJECT_P := ProjectObject("a", "p"), PROJECT_Q := ProjectObject("a", "q")]
  }

  function SetupStore(): Store { ProjectStore()[CONFIG := Settings("a", "p")][WEB := WebOf("p")] }

  lemma ProjectsAreAdmitted()
    ensures Run(EMPTY, PROJECTS).store == ProjectStore()
  {
    WordsAreTrimmed();
    LabelledBy("a", "p", ProjectSpec("a"));
    LabelledBy("a", "q", ProjectSpec("a"));
    FreeNameIsAdmitted(map[], PROJECT_P, ProjectObject("a", "p"));
    FreeNameIsAdmitted(map[PROJECT_P := ProjectObject("a", "p")], PROJECT_Q, ProjectObject("a", "q"));
    TwoWrites(EMPTY, PROJECT_P, ProjectObject("a", "p"), PROJECT_Q, ProjectObject("a", "q"));
  }

  /** The app is admitted in either project, as a create and as an update. */
  lemma WebIsAdmitted(s: Store, project: string)
    requires project in {"p", "q"} && (WEB in s ==> s[WEB] == WebOf("p"))
    requires PROJECT_P in s && PROJECT_Q in s && CONFIG in s
    requires s[PROJECT_P] == ProjectObject("a", "p") && s[PROJECT_Q] == ProjectObject("a", "q")
    requires s[CONFIG] == Settings("a", "p")
    ensures Admits(s, WEB, WebOf(project))
  {
    WordsAreTrimmed();
    LabelledBy("a", "p", OtherSpec);
    LabelledBy("a", "p", AppSpec(["settings"], [], []));
    LabelledBy("a", "q", AppSpec(["settings"], [], []));
    LabelledBy("a", project, ProjectSpec("a"));
    AppIsAdmitted(s, WEB, WebOf(project));
  }

  lemma SetupIsAdmitted()
    ensures Run(EMPTY, SETUP).store == SetupStore()
  {
    var c := Run(EMPTY, PROJECTS);
    ProjectsAreAdmitted();
    WordsAreTrimmed();
    LabelledBy("a", "p", OtherSpec);
    FreeNameIsAdmitted(c.store, CONFIG, Settings("a", "p"));
    WebIsAdmitted(c.store[CONFIG := Settings("a", "p")], "p");
    TwoWrites(c, CONFIG, Settings("a", "p"), WEB, WebOf("p"));
    RunOfConcat(EMPTY, PROJECTS, WORKLOAD);
  }

  /** From the empty cluster: tenant a's app ends up reading settings that belong to tenant b. */
  lemma RetakenNameCrossesTenants()
    ensures var s := Run(EMPTY, SETUP + [Remove(CONFIG), Write(CONFIG, Settings("b", "q"), true)]).store;
            && WEB in s && CONFIG in s && CONFIG in Refs(WEB, s[WEB])
            && Tenant(s[WEB]) == "a" && Tenant(s[CONFIG]) == "b"
  {
    var c := Run(EMPTY, SETUP);
    SetupIsAdmitted();
    WordsAreTrimmed();
    LabelledBy("a", "p", AppSpec(["settings"], [], []));
    LabelledBy("b", "q", OtherSpec);
    assert CONFIG in Refs(WEB, WebOf("p")) by {
      assert "settings" in ["settings"];
    }
    FreeNameIsAdmitted(c.store - {CONFIG}, CONFIG, Settings("b", "q"));
    RunOfTwo(c, Remove(CONFIG), Write(CONFIG, Settings("b", "q"), true));
    assert Run(c, [Remove(CONFIG), Write(CONFIG, Settings("b", "q"), true)]).store ==
           (SetupStore() - {CONFIG})[CONFIG := Settings("b", "q")];
    RunOfConcat(EMPTY, SETUP, [Remove(CONFIG), Write(CONFIG, Settings("b", "q"), true)]);
  }

  /** From the empty cluster: a release of project p that refers to an app of project q, all admitted. */
  lemma ReleaseProjectDrifts()
    ensures var s := Run(EMPTY, SETUP + [Write(RELEASE, RELEASE_OF_P, true), Write(WEB, WebOf("q"), true)]).store;
            && RELEASE in s && WEB in Refs(RELEASE, s[RELEASE]) && WEB in s
            && LabelOf(s[RELEASE], PROJECT) == "p" && LabelOf(s[WEB], PROJECT) == "q"
            && !LabelsAgree(s)
  {
    var c := Run(EMPTY, SETUP);
    SetupIsAdmitted();
    ReleaseIsAdmitted();
    WebIsAdmitted(c.store[RELEASE := RELEASE_OF_P], "q");
    TwoWrites(c, RELEASE, RELEASE_OF_P, WEB, WebOf("q"));
    RunOfConcat(EMPTY, SETUP, [Write(RELEASE, RELEASE_OF_P, true), Write(WEB, WebOf("q"), true)]);
    var s := c.store[RELEASE := RELEASE_OF_P][WEB := WebOf("q")];
    assert WEB in Refs(RELEASE, s[RELEASE]) && !Agrees(s[RELEASE], s[WEB]);
  }

  lemma ReleaseIsAdmitted()
    ensures Admits(SetupStore(), RELEASE, RELEASE_OF_P)
  {
    WordsAreTrimmed();
    LabelledBy("a", "p", ReleaseSpec("web", "v1"));
    LabelledBy("a", "p", AppSpec(["settings"], [], []));
  }
}
