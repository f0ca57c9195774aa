/**
 Delivery of an App as a Deployment, kubeop-operator/controllers/app_controller.go: apply what is
 wanted, then delete every other managed Deployment of the namespace.
 */
module AppReconcile {
  import opened Wrappers

  datatype Source = Source(url: string, ref: string)

  /** ports is the service profile's list, if there is a profile. */
  datatype App = App(namespace: string, name: string, uid: string, source: Option<Source>, ports: Option<seq<int>>)

  type Key = (string, string)

  /** rest stands for everything the operator never sets. */
  datatype Deployment = Deployment(labels: map<string, string>, selector: map<string, string>,
                                   podLabels: map<string, string>, image: string, ports: seq<int>,
                                   owner: Option<string>, rest: string)

  type Deployments = map<Key, Deployment>

  const MANAGED_BY := "app.kubernetes.io/managed-by"
  const OPERATOR := "kubeop-operator"

  predicate Managed(d: Deployment) { MANAGED_BY in d.labels && d.labels[MANAGED_BY] == OPERATOR }

  function KeyOf(app: App): Key { (app.namespace, app.name) }

  function ResolveAppImage(app: App): string {
    if app.source.None? || app.source.value.url == "" then "ghcr.io/vaheed/kubeop-operator-placeholder:latest"
    else if app.source.value.ref != "" then app.source.value.url + ":" + app.source.value.ref
    else app.source.value.url
  }

  function Wanted(app: App): (d: Deployment)
    ensures Managed(d)
  {
    var labels := map["app.kubernetes.io/name" := app.name, MANAGED_BY := OPERATOR];
    Deployment(labels, labels, labels, ResolveAppImage(app),
               if app.ports.Some? && |app.ports.value| > 0 then [app.ports.value[0]] else [], Some(app.uid), "")
  }

  /** Server-side apply with force: the wanted fields win, labels others have set stay. */
  function ApplyOver(existing: Option<Deployment>, want: Deployment): (d: Deployment)
    ensures Managed(want) ==> Managed(d)
  {
    if existing.None? then want
    else
      var e := existing.value;
      Deployment(e.labels + want.labels, e.selector + want.selector, e.podLabels + want.podLabels,
                 want.image, want.ports, want.owner, e.rest)
  }

  function Get(c: Deployments, k: Key): Option<Deployment> { if k in c then Some(c[k]) else None }

  /** Managed Deployments of the namespace that are not the one wanted. */
  predicate Prunable(k: Key, d: Deployment, app: App) { k.0 == app.namespace && Managed(d) && k != KeyOf(app) }

  function Applied(c: Deployments, app: App): Deployments {
    c[KeyOf(app) := ApplyOver(Get(c, KeyOf(app)), Wanted(app))]
  }

  function Pruned(c: Deployments, app: App): Deployments { map k | k in c && !Prunable(k, c[k], app) :: c[k] }

  /** The cluster after one successful reconcile. */
  function Reconciled(c: Deployments, app: App): Deployments { Pruned(Applied(c, app), app) }

  // ---------------------------------------------------------------- What one reconcile reaches

  /** The labels every delivered object carries. */
  predicate Bears(labels: map<string, string>, app: App) {
    && "app.kubernetes.io/name" in labels && labels["app.kubernetes.io/name"] == app.name
    && "app.kubernetes.io/managed-by" in labels && labels["app.kubernetes.io/managed-by"] == "kubeop-operator"
  }

  /** What the App asks for is in place: labels, image, first port and owner. */
  predicate Delivers(d: Deployment, app: App) {
    && Bears(d.labels, app) && Bears(d.selector, app) && Bears(d.podLabels, app)
    && (match app.source
        case None => d.image == "ghcr.io/vaheed/kubeop-operator-placeholder:latest"
        case Some(Source(url, ref)) =>
          && (url == "" ==> d.image == "ghcr.io/vaheed/kubeop-operator-placeholder:latest")
          && (url != "" && ref == "" ==> d.image == url)
          && (url != "" && ref != "" ==> d.image == url + ":" + ref))
    && (app.ports.None? || app.ports.value == [] ==> d.ports == [])
    && (app.ports.Some? && app.ports.value != [] ==> d.ports == [app.ports.value[0]])
    && d.owner == Some(app.uid)
  }

  function ManagedIn(c: Deployments, namespace: string): set<Key> {
    set k | k in c && k.0 == namespace && Managed(c[k])
  }

  /** The namespace's managed Deployments are the App's one, and it delivers the App. */
  lemma ReconcileReaches(c: Deployments, app: App)
    ensures ManagedIn(Reconciled(c, app), app.namespace) == {KeyOf(app)}
    ensures Delivers(Reconciled(c, app)[KeyOf(app)], app)
  {
    var k := KeyOf(app);
    assert k in Reconciled(c, app) && Reconciled(c, app)[k] == ApplyOver(Get(c, k), Wanted(app));
  }

  /** Other namespaces, and the unmanaged Deployments that are not the App's, are untouched. */
  lemma ReconcileFrame(c: Deployments, app: App, k: Key)
    requires k != KeyOf(app) && (k.0 != app.namespace || (k in c && !Managed(c[k])))
    ensures Get(Reconciled(c, app), k) == Get(c, k)
  {
    assert k in Applied(c, app) <==> k in c;
  }

  /** Applying over an existing Deployment keeps the labels others have set and what the operator never sets. */
  lemma OthersFieldsStay(c: Deployments, app: App)
    requires KeyOf(app) in c
    ensures var d, e := Reconciled(c, app)[KeyOf(app)], c[KeyOf(app)];
            && d.rest == e.rest
            && forall l :: l in e.labels && l !in {"app.kubernetes.io/name", "app.kubernetes.io/managed-by"} ==>
                 l in d.labels && d.labels[l] == e.labels[l]
  {
    assert Reconciled(c, app)[KeyOf(app)] == ApplyOver(Some(c[KeyOf(app)]), Wanted(app));
  }

  lemma ApplyTwice(existing: Option<Deployment>, want: Deployment)
    ensures ApplyOver(Some(ApplyOver(existing, want)), want) == ApplyOver(existing, want)
  {
    if existing.None? {
      assert want.labels + want.labels == want.labels;
      assert want.selector + want.selector == want.selector;
      assert want.podLabels + want.podLabels == want.podLabels;
    } else {
      var e := existing.value;
      assert e.labels + want.labels + want.labels == e.labels + want.labels;
      assert e.selector + want.selector + want.selector == e.selector + want.selector;
      assert e.podLabels + want.podLabels + want.podLabels == e.podLabels + want.podLabels;
    }
  }

  lemma ReconcileIdempotent(c: Deployments, app: App)
    ensures Reconciled(Reconciled(c, app), app) == Reconciled(c, app)
  {
    var once, k := Reconciled(c, app), KeyOf(app);
    ApplyTwice(Get(c, k), Wanted(app));
    assert once[k] == ApplyOver(Get(c, k), Wanted(app));
    assert Applied(once, app) == once;
  }

  // ---------------------------------------------------------------- Runs

  function InNamespace(c: Deployments, namespace: string): Deployments { map k | k in c && k.0 == namespace :: c[k] }

  /** A reconcile looks only at its own namespace. */
  lemma ReconcileIsLocal(c: Deployments, c': Deployments, app: App)
    requires InNamespace(c, app.namespace) == InNamespace(c', app.namespace)
    ensures InNamespace(Reconciled(c, app), app.namespace) == InNamespace(Reconciled(c', app), app.namespace)
  {
    var n := app.namespace;
    forall k: Key | k.0 == n ensures Get(Reconciled(c, app), k) == Get(Reconciled(c', app), k) {
      InBoth(c, c', KeyOf(app));
      InBoth(c, c', k);
      ReconcileAt(c, app, k);
      ReconcileAt(c', app, k);
    }
    SameInNamespace(Reconciled(c, app), Reconciled(c', app), n);
  }

  /** What a reconcile leaves under a key depends only on what was under that key. */
  lemma ReconcileAt(c: Deployments, app: App, k: Key)
    ensures Get(Reconciled(c, app), k) ==
            if k == KeyOf(app) then Some(ApplyOver(Get(c, k), Wanted(app)))
            else if k in c && Prunable(k, c[k], app) then None
            else Get(c, k)
  {
    assert k in Applied(c, app) <==> k == KeyOf(app) || k in c;
  }

  lemma SameInNamespace(c: Deployments, c': Deployments, n: string)
    requires forall k: Key :: k.0 == n ==> Get(c, k) == Get(c', k)
    ensures InNamespace(c, n) == InNamespace(c', n)
  {
    forall k: Key | k.0 == n ensures (k in c <==> k in c') && (k in c ==> c[k] == c'[k]) {
      assert Get(c, k) == Get(c', k);
    }
  }

  lemma ReconcileElsewhere(c: Deployments, app: App, namespace: string)
    requires app.namespace != namespace
    ensures InNamespace(Reconciled(c, app), namespace) == InNamespace(c, namespace)
  {
    forall k: Key | k.0 == namespace ensures Get(Reconciled(c, app), k) == Get(c, k) {
      ReconcileFrame(c, app, k);
    }
    SameInNamespace(Reconciled(c, app), c, namespace);
  }

  function Run(c: Deployments, apps: seq<App>): Deployments {
    if apps == [] then c else Reconciled(Run(c, apps[..|apps| - 1]), apps[|apps| - 1])
  }

  /** A namespace with a single App converges: after any run that reconciles it, it is as after the first time. */
  lemma {:induction false} SingleAppConverges(c: Deployments, apps: seq<App>, app: App)
    requires forall i :: 0 <= i < |apps| ==> apps[i] == app || apps[i].namespace != app.namespace
    ensures InNamespace(Run(c, apps), app.namespace) ==
            if app in apps then InNamespace(Reconciled(c, app), app.namespace) else InNamespace(c, app.namespace)
  {
    if apps != [] {
      var init, last := apps[..|apps| - 1], apps[|apps| - 1];
      SingleAppConverges(c, init, app);
      assert app in apps <==> app in init || last == app;
      if last == app {
        ReconcileIdempotent(c, app);
        ReconcileIsLocal(Run(c, init), if app in init then Reconciled(c, app) else c, app);
      } else {
        ReconcileElsewhere(Run(c, init), last, app.namespace);
      }
    }
  }

  /** Neither App's reconcile changes the cluster. */
  ghost predicate Settled(c: Deployments, a: App, b: App) { Reconciled(c, a) == c && Reconciled(c, b) == c }

  /** Two Apps with different keys can both be settled exactly when they are in different namespaces. */
  lemma SettledTogetherIff(a: App, b: App)
    requires KeyOf(a) != KeyOf(b)
    ensures (exists c :: Settled(c, a, b)) <==> a.namespace != b.namespace
  {
    if a.namespace == b.namespace {
      forall c: Deployments ensures !Settled(c, a, b) {
        ReconcileReaches(c, a);
        ReconcileReaches(c, b);
        assert KeyOf(a) in {KeyOf(a)} && KeyOf(a) !in {KeyOf(b)};
      }
    } else {
      SettledElsewhere(a, b);
    }
  }

  lemma SettledElsewhere(a: App, b: App)
    requires a.namespace != b.namespace
    ensures exists c :: Settled(c, a, b)
  {
    var one := Reconciled(map[], a);
    var c := Reconciled(one, b);
    ReconcileIdempotent(one, b);
    ReconcileIdempotent(map[], a);
    forall k: Key ensures Get(Reconciled(c, a), k) == Get(c, k) {
      if k.0 != a.namespace {
        ReconcileFrame(c, a, k);
      } else {
        ReconcileElsewhere(one, b, a.namespace);
        ReconcileIsLocal(c, one, a);
        InBoth(Reconciled(c, a), c, k);
      }
    }
    SameMaps(Reconciled(c, a), c);
    assert Settled(c, a, b);
  }

  lemma InBoth(c: Deployments, c': Deployments, k: Key)
    requires InNamespace(c, k.0) == InNamespace(c', k.0)
    ensures Get(c, k) == Get(c', k)
  {
    assert k in c <==> k in InNamespace(c, k.0);
    assert k in c' <==> k in InNamespace(c', k.0);
    assert k in c ==> InNamespace(c, k.0)[k] == c[k];
    assert k in c' ==> InNamespace(c', k.0)[k] == c'[k];
  }

  lemma SameMaps(c: Deployments, c': Deployments)
    requires forall k: Key :: Get(c, k) == Get(c', k)
    ensures c == c'
  {
    forall k: Key ensures (k in c <==> k in c') && (k in c ==> c[k] == c'[k]) {
      assert Get(c, k) == Get(c', k);
    }
  }

  /** Reconciling one App of a shared namespace deletes the other's Deployment. */
  lemma SharedNamespaceEvicts(c: Deployments, a: App, b: App)
    requires a.namespace == b.namespace && a.name != b.name
    ensures KeyOf(a) !in Reconciled(Reconciled(c, a), b)
  {
    ReconcileReaches(c, a);
    assert KeyOf(a) in ManagedIn(Reconciled(c, a), a.namespace);
  }

  // ---------------------------------------------------------------- The code

  class Cluster {
    var deployments: Deployments

    constructor ()
      ensures deployments == map[]
    {
      deployments := map[];
    }

    /** The managed Deployments of the namespace. */
    method ListManaged(namespace: string) returns (items: seq<Key>)
      ensures forall k :: k in items <==> k in ManagedIn(deployments, namespace)
    {
      items := [];
      var todo := ManagedIn(deployments, namespace);
      while todo != {}
        invariant todo <= ManagedIn(deployments, namespace)
        invariant forall k :: k in items <==> k in ManagedIn(deployments, namespace) - todo
        decreases todo
      {
        var k :| k in todo;
        todo := todo - {k};
        items := items + [k];
      }
    }

    method PruneWorkload(app: App)
      modifies this
      ensures deployments == Pruned(old(deployments), app)
    {
      var desiredKeys := {KeyOf(app)};
      var items := ListManaged(app.namespace);
      for i := 0 to |items|
        invariant forall k :: k in deployments ==> k in old(deployments) && deployments[k] == old(deployments)[k]
        invariant forall k :: k in old(deployments) ==>
          (k in deployments <==> k in desiredKeys || k !in items[..i])
      {
        assert items[..i + 1] == items[..i] + [items[i]];
        if items[i] in desiredKeys {
          continue;
        }
        deployments := deployments - {items[i]};
      }
      assert items[..|items|] == items;
    }

    /** accepts is the API server's verdict on an apply; a refusal shows in the dry run. */
    method ReconcileWorkload(app: App, accepts: (Option<Deployment>, Deployment) -> bool)
      returns (r: Result<(), string>)
      modifies this
      ensures r.Ok? <==> accepts(Get(old(deployments), KeyOf(app)), Wanted(app))
      ensures deployments == if r.Ok? then Reconciled(old(deployments), app) else old(deployments)
    {
      var key, want := KeyOf(app), Wanted(app);
      if !accepts(Get(deployments, key), want) {
        return Err("dry-run apply");
      }
      deployments := deployments[key := ApplyOver(Get(deployments, key), want)];
      PruneWorkload(app);
      return Ok(());
    }
  }
}
