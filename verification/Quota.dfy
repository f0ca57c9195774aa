/**
 Namespace quotas: the defaults with a project's overrides, and suspending and resuming a project,
 internal/service/service.go and internal/service/quota.go. A project's overrides are kept twice,
 in the cluster's ResourceQuota and, cleaned, in the project row.
 */
module Quota {
  import opened Wrappers
  import opened Text
  import opened Enumerations
  import Keyset

  type Hard = map<string, int>

  type Overrides = map<string, string>

  /** The configured policy. parse reads a quantity; scopes and classes are the configured lists. */
  datatype Policy = Policy(trim: string -> string, parse: string -> int, defaults: Hard, scopes: seq<string>,
                           classes: seq<string>)

  datatype ResourceQuota = ResourceQuota(hard: Hard, scopes: seq<string>, classes: seq<string>)

  // ---------------------------------------------------------------- Limits

  /** Blank values are ignored. */
  function SetResourceQuantity(p: Policy, list: Hard, name: string, raw: string): Hard {
    if p.trim(raw) == "" then list else list[name := p.parse(p.trim(raw))]
  }

  /** The overrides that count, read as quantities. */
  function Quantities(p: Policy, o: Overrides): Hard {
    map k | k in o && p.trim(o[k]) != "" :: p.parse(p.trim(o[k]))
  }

  function HardLimits(p: Policy, o: Overrides): Hard { p.defaults + Quantities(p, o) }

  /** The loop over the overrides; the keys come in any order. */
  method DefaultQuota(p: Policy, overrides: Overrides) returns (rl: Hard)
    ensures rl == HardLimits(p, overrides)
  {
    rl := p.defaults;
    var todo := overrides.Keys;
    while todo != {}
      invariant todo <= overrides.Keys
      invariant rl == HardLimits(p, overrides - todo)
      decreases todo
    {
      var k :| k in todo;
      ghost var before := overrides - todo;
      assert todo == todo - {k} + {k};
      todo := todo - {k};
      rl := SetResourceQuantity(p, rl, k, overrides[k]);
      SetOneMore(p, before, k, overrides[k]);
      OneMoreDone(overrides, todo, k);
    }
    assert overrides - todo == overrides;
  }

  lemma OneMoreDone(o: Overrides, todo: set<string>, k: string)
    requires k in o && k !in todo
    ensures o - todo == (o - (todo + {k}))[k := o[k]] && k !in o - (todo + {k})
  {
  }

  lemma SetOneMore(p: Policy, o: Overrides, k: string, v: string)
    requires k !in o
    ensures HardLimits(p, o[k := v]) == SetResourceQuantity(p, HardLimits(p, o), k, v)
  {
    if p.trim(v) == "" {
      assert Quantities(p, o[k := v]) == Quantities(p, o);
    } else {
      assert Quantities(p, o[k := v]) == Quantities(p, o)[k := p.parse(p.trim(v))];
    }
  }

  // ---------------------------------------------------------------- Scopes

  const COMPUTE := {"requests.cpu", "limits.cpu", "requests.memory", "limits.memory",
                    "requests.ephemeral-storage", "limits.ephemeral-storage"}

  /** NotBestEffort covers compute resources only, BestEffort pods only; a missing list supports everything. */
  predicate Supports(hard: Option<Hard>, scope: string) {
    hard.Some? ==>
      && (scope == "NotBestEffort" ==> forall n :: n in hard.value ==> n in COMPUTE)
      && (scope == "BestEffort" ==> forall n :: n in hard.value ==> n == "pods")
  }

  function Supported(hard: Option<Hard>): string -> bool { (scope: string) => Supports(hard, scope) }

  function Unsupported(hard: Option<Hard>): string -> bool { (scope: string) => !Supports(hard, scope) }

  method FilterQuotaScopes(hard: Option<Hard>, scopes: seq<string>)
    returns (filtered: seq<string>, dropped: seq<string>)
    ensures filtered == Keyset.Filter(scopes, Supported(hard))
    ensures dropped == Keyset.Filter(scopes, Unsupported(hard))
    ensures "NotBestEffort" in dropped <==>
            && "NotBestEffort" in scopes && hard.Some?
            && exists n :: n in hard.value && n !in {"requests.cpu", "limits.cpu", "requests.memory", "limits.memory",
                                                     "requests.ephemeral-storage", "limits.ephemeral-storage"}
    ensures "BestEffort" in dropped <==>
            "BestEffort" in scopes && hard.Some? && exists n :: n in hard.value && n != "pods"
    ensures forall s :: s in dropped ==> s in {"NotBestEffort", "BestEffort"}
  {
    forall s: string ensures s in Keyset.Filter(scopes, Unsupported(hard)) <==> s in scopes && !Supports(hard, s) {
      Keyset.FilterMember(scopes, Unsupported(hard), s);
    }
    if |scopes| == 0 {
      return [], [];
    }
    if hard.None? {
      Keyset.FilterAll(scopes, Supported(hard));
      Keyset.FilterNone(scopes, Unsupported(hard));
      return scopes, [];
    }
    filtered, dropped := [], [];
    for i := 0 to |scopes|
      invariant filtered == Keyset.Filter(scopes[..i], Supported(hard))
      invariant dropped == Keyset.Filter(scopes[..i], Unsupported(hard))
    {
      var scope := scopes[i];
      Keyset.FilterLast(scopes, i, Supported(hard));
      Keyset.FilterLast(scopes, i, Unsupported(hard));
      if scope == "NotBestEffort" {
        var bad := HasOtherThan(hard.value, COMPUTE);
        if bad {
          dropped := dropped + [scope];
          continue;
        }
      } else if scope == "BestEffort" {
        var bad := HasOtherThan(hard.value, {"pods"});
        if bad {
          dropped := dropped + [scope];
          continue;
        }
      }
      filtered := filtered + [scope];
    }
    assert scopes[..|scopes|] == scopes;
  }

  /** Search the list for a resource that is not allowed. */
  method HasOtherThan(hard: Hard, allowed: set<string>) returns (found: bool)
    ensures found <==> exists n :: n in hard && n !in allowed
  {
    var todo := hard.Keys;
    while todo != {}
      invariant todo <= hard.Keys
      invariant forall n :: n in hard && n !in todo ==> n in allowed
      decreases todo
    {
      var n :| n in todo;
      todo := todo - {n};
      if n in allowed {
        continue;
      }
      return true;
    }
    return false;
  }

  /** The kept and the dropped scopes partition the configured ones, and each keeps their order. */
  lemma ScopesArePartitioned(hard: Option<Hard>, scopes: seq<string>)
    ensures var kept, dropped := Keyset.Filter(scopes, Supported(hard)), Keyset.Filter(scopes, Unsupported(hard));
            && Keyset.KeptInOrder(scopes, Supported(hard), kept)
            && Keyset.KeptInOrder(scopes, Unsupported(hard), dropped)
            && multiset(kept) + multiset(dropped) == multiset(scopes)
            && (forall s :: s in kept ==> Supports(hard, s))
            && (forall s :: s in dropped ==> !Supports(hard, s))
  {
    Keyset.FilterSplits(scopes, Supported(hard), Unsupported(hard));
    Keyset.FilterKeepsOrder(scopes, Supported(hard));
    Keyset.FilterKeepsOrder(scopes, Unsupported(hard));
    var kept, dropped := Keyset.Filter(scopes, Supported(hard)), Keyset.Filter(scopes, Unsupported(hard));
    forall s | s in kept ensures Supports(hard, s) {
      Keyset.FilterMember(scopes, Supported(hard), s);
    }
    forall s | s in dropped ensures !Supports(hard, s) {
      Keyset.FilterMember(scopes, Unsupported(hard), s);
    }
  }

  /** The namespace's quota for a project with these overrides. */
  function Build(p: Policy, o: Overrides): ResourceQuota {
    var hard := HardLimits(p, o);
    ResourceQuota(hard, Keyset.Filter(p.scopes, Supported(Some(hard))), p.classes)
  }

  /** A suspended project runs no pods. */
  function Stopped(p: Policy): ResourceQuota { Build(p, map[]).(hard := map["pods" := p.parse("0")]) }

  // ---------------------------------------------------------------- Cleaned overrides

  /** Trim keys and values, drop blank keys; when two keys trim alike the later one wins. */
  function Cleaned(p: Policy, o: Overrides, order: seq<string>): Overrides
    requires forall k :: k in order ==> k in o
  {
    if order == [] then map[]
    else
      var before, k := Cleaned(p, o, order[..|order| - 1]), order[|order| - 1];
      if p.trim(k) == "" then before else before[p.trim(k) := p.trim(o[k])]
  }

  /** Which keys survive cleaning, and where each value comes from. */
  lemma {:induction false} CleanedAt(p: Policy, o: Overrides, order: seq<string>, t: string)
    requires forall k :: k in order ==> k in o
    ensures t in Cleaned(p, o, order) <==> t != "" && exists k :: k in order && p.trim(k) == t
    ensures t in Cleaned(p, o, order) ==>
              exists k :: k in order && p.trim(k) == t && Cleaned(p, o, order)[t] == p.trim(o[k])
  {
    if order != [] {
      var init, last := order[..|order| - 1], order[|order| - 1];
      CleanedAt(p, o, init, t);
      assert order == init + [last];
      assert last in order;
      if p.trim(last) != t && t in Cleaned(p, o, init) {
        var k :| k in init && p.trim(k) == t && Cleaned(p, o, init)[t] == p.trim(o[k]);
        assert k in order;
      }
    }
  }

  /** Trimming twice is trimming once, and the default resource names are trimmed. */
  ghost predicate Sound(p: Policy) {
    && (forall s {:trigger p.trim(p.trim(s))} :: p.trim(p.trim(s)) == p.trim(s))
    && (forall n :: n in p.defaults ==> p.trim(n) == n && n != "")
  }

  /** The override has a value. */
  predicate Given(p: Policy, o: Overrides, k: string) { k in o && p.trim(o[k]) != "" }

  /** A blank override under another spelling of the same key. */
  ghost predicate Shadowed(p: Policy, o: Overrides, k: string) {
    Given(p, o, k) && exists k' :: k' in o && k' != k && p.trim(o[k']) == "" && p.trim(k') == k
  }

  /** What a caller can check of the overrides before the call. */
  ghost predicate Restorable(p: Policy, o: Overrides) {
    && (forall k :: Given(p, o, k) ==> p.trim(k) == k && k != "")
    && (forall k :: Shadowed(p, o, k) ==> k in p.defaults && p.defaults[k] == p.parse(p.trim(o[k])))
  }

  function Limit(h: Hard, k: string): Option<int> { if k in h then Some(h[k]) else None }

  lemma SameLimits(a: Hard, b: Hard)
    requires forall k :: Limit(a, k) == Limit(b, k)
    ensures a == b
  {
    forall k ensures (k in a <==> k in b) && (k in a ==> a[k] == b[k]) {
      assert Limit(a, k) == Limit(b, k);
    }
  }

  lemma LimitAt(p: Policy, o: Overrides, k: string)
    ensures Limit(HardLimits(p, o), k) == if Given(p, o, k) then Some(p.parse(p.trim(o[k]))) else Limit(p.defaults, k)
  {
    assert k in Quantities(p, o) <==> Given(p, o, k);
  }

  /** Restorable overrides give the same limits after cleaning, whatever the order. */
  lemma CleaningKeepsLimit(p: Policy, o: Overrides, order: seq<string>, t: string)
    requires Sound(p) && Restorable(p, o) && Enumerates(order, o.Keys)
    ensures Limit(HardLimits(p, Cleaned(p, o, order)), t) == Limit(HardLimits(p, o), t)
  {
    var e := Cleaned(p, o, order);
    LimitAt(p, o, t);
    LimitAt(p, e, t);
    CleanedAt(p, o, order, t);
    if t in e {
      var k :| k in order && p.trim(k) == t && e[t] == p.trim(o[k]);
      assert p.trim(p.trim(o[k])) == p.trim(o[k]);
      if Given(p, o, k) {
        assert k == t;
      } else if Given(p, o, t) {
        assert Shadowed(p, o, t);
      }
    }
  }

  /** A value under an untrimmed or blank key is lost by cleaning. */
  lemma UntrimmedIsLost(p: Policy, o: Overrides, order: seq<string>, k: string)
    requires Sound(p) && Enumerates(order, o.Keys) && Given(p, o, k) && (p.trim(k) != k || k == "")
    ensures Limit(HardLimits(p, Cleaned(p, o, order)), k) != Limit(HardLimits(p, o), k)
  {
    LimitAt(p, o, k);
    LimitAt(p, Cleaned(p, o, order), k);
    CleanedAt(p, o, order, k);
    assert forall k' :: k' in order ==> p.trim(p.trim(k')) == p.trim(k');
  }

  /** When the blank spelling is visited last it wins. */
  lemma ShadowedIsLost(p: Policy, o: Overrides, k: string) returns (order: seq<string>)
    requires Sound(p) && Shadowed(p, o, k) && k != "" && Limit(p.defaults, k) != Some(p.parse(p.trim(o[k])))
    ensures Enumerates(order, o.Keys)
    ensures Limit(HardLimits(p, Cleaned(p, o, order)), k) != Limit(HardLimits(p, o), k)
  {
    var k' :| k' in o && k' != k && p.trim(o[k']) == "" && p.trim(k') == k;
    order := VisitLast(o.Keys, k');
    LimitAt(p, o, k);
    LimitAt(p, Cleaned(p, o, order), k);
    assert Cleaned(p, o, order)[k] == p.trim(o[k']);
    assert p.trim(p.trim(o[k'])) == p.trim(o[k']);
  }

  // ---------------------------------------------------------------- Suspend and resume

  /** What is installed in the namespace, the overrides in the project row, and the suspended flag. */
  datatype Project = Project(installed: ResourceQuota, stored: Option<Overrides>, suspended: bool)

  /** No overrides are stored as nothing, and nothing is read as no overrides. */
  function Stored(o: Overrides): Option<Overrides> { if o == map[] then None else Some(o) }

  function Decoded(stored: Option<Overrides>): Overrides { if stored.None? then map[] else stored.value }

  function Update(p: Policy, s: Project, o: Overrides, order: seq<string>): Project
    requires forall k :: k in order ==> k in o
  {
    s.(installed := Build(p, o), stored := Stored(Cleaned(p, o, order)))
  }

  function SetSuspended(p: Policy, s: Project, suspended: bool): Project {
    s.(installed := if suspended then Stopped(p) else Build(p, Decoded(s.stored)), suspended := suspended)
  }

  function Toggle(p: Policy, s: Project, toggles: seq<bool>): Project {
    if toggles == [] then s else SetSuspended(p, Toggle(p, s, toggles[..|toggles| - 1]), toggles[|toggles| - 1])
  }

  /** Suspending and resuming after an update puts back the quota the update installed. */
  ghost predicate Restores(p: Policy, s: Project, o: Overrides, order: seq<string>)
    requires Enumerates(order, o.Keys)
  {
    var updated := Update(p, s, o, order);
    SetSuspended(p, SetSuspended(p, updated, true), false).installed == updated.installed
  }

  lemma RestoresMeaning(p: Policy, s: Project, o: Overrides, order: seq<string>)
    requires Enumerates(order, o.Keys)
    ensures Restores(p, s, o, order) <==> HardLimits(p, Cleaned(p, o, order)) == HardLimits(p, o)
  {
    assert Decoded(Stored(Cleaned(p, o, order))) == Cleaned(p, o, order);
  }

  /** The quota comes back for every order exactly when the overrides are restorable. */
  lemma RestoresIff(p: Policy, s: Project, o: Overrides)
    requires Sound(p)
    ensures (forall order :: Enumerates(order, o.Keys) ==> Restores(p, s, o, order)) <==> Restorable(p, o)
  {
    if Restorable(p, o) {
      forall order | Enumerates(order, o.Keys) ensures Restores(p, s, o, order) {
        RestorableRestores(p, s, o, order);
      }
    } else {
      var order := LosingOrder(p, s, o);
      assert Enumerates(order, o.Keys) && !Restores(p, s, o, order);
    }
  }

  lemma RestorableRestores(p: Policy, s: Project, o: Overrides, order: seq<string>)
    requires Sound(p) && Restorable(p, o) && Enumerates(order, o.Keys)
    ensures Restores(p, s, o, order)
  {
    forall t ensures Limit(HardLimits(p, Cleaned(p, o, order)), t) == Limit(HardLimits(p, o), t) {
      CleaningKeepsLimit(p, o, order, t);
    }
    SameLimits(HardLimits(p, Cleaned(p, o, order)), HardLimits(p, o));
    RestoresMeaning(p, s, o, order);
  }

  lemma LosingOrder(p: Policy, s: Project, o: Overrides) returns (order: seq<string>)
    requires Sound(p) && !Restorable(p, o)
    ensures Enumerates(order, o.Keys) && !Restores(p, s, o, order)
  {
    if k :| Given(p, o, k) && !(p.trim(k) == k && k != "") {
      order := VisitLast(o.Keys, k);
      UntrimmedIsLost(p, o, order, k);
    } else {
      var k :| Shadowed(p, o, k) && !(k in p.defaults && p.defaults[k] == p.parse(p.trim(o[k])));
      order := ShadowedIsLost(p, o, k);
    }
    RestoresMeaning(p, s, o, order);
  }

  /** Over every run of suspends and resumes after an update, the quota is the updated one or the stopped one. */
  lemma {:induction false} TogglesRestore(p: Policy, s: Project, o: Overrides, order: seq<string>, toggles: seq<bool>)
    requires Sound(p) && Restorable(p, o) && Enumerates(order, o.Keys) && toggles != []
    ensures var r := Toggle(p, Update(p, s, o, order), toggles);
            && r.stored == Update(p, s, o, order).stored
            && r.suspended == toggles[|toggles| - 1]
            && r.installed == if r.suspended then Stopped(p) else Build(p, o)
  {
    var init := toggles[..|toggles| - 1];
    if init != [] {
      TogglesRestore(p, s, o, order, init);
    }
    RestorableRestores(p, s, o, order);
  }

  // ---------------------------------------------------------------- Runs of updates, suspends and resumes

  /** `order` is the order in which the update visits its overrides. */
  datatype Step = DoUpdate(overrides: Overrides, order: seq<string>) | DoSuspend(suspend: bool)

  ghost predicate Possible(st: Step) { st.DoUpdate? ==> Enumerates(st.order, st.overrides.Keys) }

  ghost function Apply(p: Policy, s: Project, st: Step): Project
    requires Possible(st)
  {
    match st
    case DoUpdate(o, order) => Update(p, s, o, order)
    case DoSuspend(suspend) => SetSuspended(p, s, suspend)
  }

  ghost function Run(p: Policy, s: Project, steps: seq<Step>): Project
    requires forall st :: st in steps ==> Possible(st)
    decreases |steps|
  {
    if steps == [] then s else Run(p, Apply(p, s, steps[0]), steps[1..])
  }

  /** The overrides in force after a step. */
  function Latest(o: Overrides, st: Step): Overrides { if st.DoUpdate? then st.overrides else o }

  function LatestOf(o: Overrides, steps: seq<Step>): Overrides
    decreases |steps|
  {
    if steps == [] then o else LatestOf(Latest(o, steps[0]), steps[1..])
  }

  /** The row stores the overrides, up to what cleaning keeps of their quota. */
  ghost predicate Keeps(p: Policy, s: Project, o: Overrides) { Build(p, Decoded(s.stored)) == Build(p, o) }

  /** A suspended project is stopped, and another one has the quota of its overrides. */
  ghost predicate InForce(p: Policy, s: Project, o: Overrides) {
    s.installed == if s.suspended then Stopped(p) else Build(p, o)
  }

  /** The step updates a suspended project with overrides that do not stop it. */
  ghost predicate Revives(p: Policy, s: Project, st: Step) {
    st.DoUpdate? && s.suspended && Build(p, st.overrides) != Stopped(p)
  }

  lemma StepKeepsStored(p: Policy, s: Project, st: Step, o: Overrides)
    requires Sound(p) && Possible(st) && Keeps(p, s, o)
    requires st.DoUpdate? ==> Restorable(p, st.overrides)
    ensures Keeps(p, Apply(p, s, st), Latest(o, st))
  {
    if st.DoUpdate? {
      RestorableRestores(p, s, st.overrides, st.order);
    }
  }

  /** One step leaves the right quota in force if and only if it does not revive a suspended project. */
  lemma StepIsInForceIff(p: Policy, s: Project, st: Step, o: Overrides)
    requires Possible(st) && Keeps(p, s, o)
    ensures InForce(p, Apply(p, s, st), Latest(o, st)) <==> !Revives(p, s, st)
  {
  }

  ghost predicate NoneRevives(p: Policy, s: Project, steps: seq<Step>)
    requires forall st :: st in steps ==> Possible(st)
    decreases |steps|
  {
    steps == [] || (!Revives(p, s, steps[0]) && NoneRevives(p, Apply(p, s, steps[0]), steps[1..]))
  }

  /** The quota in force is right before, during and after the run. */
  ghost predicate InForceThroughout(p: Policy, s: Project, o: Overrides, steps: seq<Step>)
    requires forall st :: st in steps ==> Possible(st)
    decreases |steps|
  {
    && InForce(p, s, o)
    && (steps == [] || InForceThroughout(p, Apply(p, s, steps[0]), Latest(o, steps[0]), steps[1..]))
  }

  /**
   Over every run of updates, suspends and resumes the installed quota is that of the latest
   overrides, or the stopped one while suspended, if and only if no update revives a suspended project.
   */
  lemma {:induction false} InForceThroughoutIff(p: Policy, s: Project, o: Overrides, steps: seq<Step>)
    requires Sound(p) && Keeps(p, s, o) && InForce(p, s, o)
    requires forall st :: st in steps ==> Possible(st) && (st.DoUpdate? ==> Restorable(p, st.overrides))
    ensures InForceThroughout(p, s, o, steps) <==> NoneRevives(p, s, steps)
    ensures Keeps(p, Run(p, s, steps), LatestOf(o, steps))
    decreases |steps|
  {
    if steps != [] {
      StepKeepsStored(p, s, steps[0], o);
      StepIsInForceIff(p, s, steps[0], o);
      RunKeepsStored(p, Apply(p, s, steps[0]), Latest(o, steps[0]), steps[1..]);
      if !Revives(p, s, steps[0]) {
        InForceThroughoutIff(p, Apply(p, s, steps[0]), Latest(o, steps[0]), steps[1..]);
      }
    }
  }

  lemma {:induction false} RunKeepsStored(p: Policy, s: Project, o: Overrides, steps: seq<Step>)
    requires Sound(p) && Keeps(p, s, o)
    requires forall st :: st in steps ==> Possible(st) && (st.DoUpdate? ==> Restorable(p, st.overrides))
    ensures Keeps(p, Run(p, s, steps), LatestOf(o, steps))
    decreases |steps|
  {
    if steps != [] {
      StepKeepsStored(p, s, steps[0], o);
      RunKeepsStored(p, Apply(p, s, steps[0]), Latest(o, steps[0]), steps[1..]);
    }
  }

  /** While suspended, in every run without a reviving update, pods are limited to zero and nothing else is. */
  lemma {:induction false} SuspendedRunsNoPods(p: Policy, s: Project, steps: seq<Step>)
    requires forall st :: st in steps ==> Possible(st)
    requires NoneRevives(p, s, steps) && (s.suspended ==> s.installed.hard == map["pods" := p.parse("0")])
    ensures var r := Run(p, s, steps);
            r.suspended ==> r.installed.hard == map["pods" := p.parse("0")]
    decreases |steps|
  {
    if steps != [] {
      SuspendedRunsNoPods(p, Apply(p, s, steps[0]), steps[1..]);
    }
  }

  // ---------------------------------------------------------------- The configured policy

  const QUOTA_NAMES: seq<string> := [
    "requests.cpu", "limits.cpu", "requests.memory", "limits.memory", "requests.ephemeral-storage",
    "limits.ephemeral-storage", "pods", "services", "services.loadbalancers", "configmaps", "secrets",
    "persistentvolumeclaims", "requests.storage", "count/deployments.apps", "count/replicasets.apps",
    "count/statefulsets.apps", "count/jobs.batch", "count/cronjobs.batch", "count/ingresses.networking.k8s.io"]

  /** raw is the configured text of each of the named limits. */
  function Defaults(raw: string -> string, parse: string -> int): Hard {
    map n | n in QUOTA_NAMES && TrimSpace(raw(n)) != "" :: parse(TrimSpace(raw(n)))
  }

  function Configured(raw: string -> string, parse: string -> int, scopes: seq<string>, classes: seq<string>): Policy {
    Policy(TrimSpace, parse, Defaults(raw, parse), scopes, classes)
  }

  /** The limits that can be configured, and how each is read. */
  lemma DefaultsAre(raw: string -> string, parse: string -> int, n: string)
    ensures n in Defaults(raw, parse) <==>
            && TrimSpace(raw(n)) != ""
            && n in {"requests.cpu", "limits.cpu", "requests.memory", "limits.memory", "requests.ephemeral-storage",
                     "limits.ephemeral-storage", "pods", "services", "services.loadbalancers", "configmaps", "secrets",
                     "persistentvolumeclaims", "requests.storage", "count/deployments.apps", "count/replicasets.apps",
                     "count/statefulsets.apps", "count/jobs.batch", "count/cronjobs.batch",
                     "count/ingresses.networking.k8s.io"}
    ensures n in Defaults(raw, parse) ==> Defaults(raw, parse)[n] == parse(TrimSpace(raw(n)))
  {
    assert n in QUOTA_NAMES <==> exists i :: 0 <= i < 19 && QUOTA_NAMES[i] == n;
  }

  lemma ConfiguredIsSound(raw: string -> string, parse: string -> int, scopes: seq<string>, classes: seq<string>)
    ensures Sound(Configured(raw, parse, scopes, classes))
  {
    forall s ensures TrimSpace(TrimSpace(s)) == TrimSpace(s) {
      TrimSpaceIdempotent(s);
    }
    forall n | n in QUOTA_NAMES ensures TrimSpace(n) == n && n != "" {
      NamesAreWords(n);
      TrimShape(n, IsSpace);
    }
  }

  lemma NamesAreWords(n: string)
    requires n in QUOTA_NAMES
    ensures n != "" && 'a' <= n[0] <= 'z' && 'a' <= n[|n| - 1] <= 'z'
  {
    var i :| 0 <= i < |QUOTA_NAMES| && QUOTA_NAMES[i] == n;
  }

  /** With the limit under " pods" the namespace loses it on resuming, whatever the configuration. */
  lemma UntrimmedKeyIsNotRestored(raw: string -> string, parse: string -> int, s: Project)
    ensures var p := Configured(raw, parse, [], []); !Restores(p, s, map[" pods" := "5"], [" pods"])
  {
    var p, o, k := Configured(raw, parse, [], []), map[" pods" := "5"], " pods";
    ConfiguredIsSound(raw, parse, [], []);
    TrimShape(k, IsSpace);
    TrimShape("5", IsSpace);
    UntrimmedIsLost(p, o, [k], k);
    RestoresMeaning(p, s, o, [k]);
  }

  /** Updating a suspended project with five pods lets it run five pods while its row says suspended. */
  lemma UpdateRevivesSuspended(raw: string -> string, parse: string -> int, s: Project)
    requires parse("5") != parse("0")
    ensures var p := Configured(raw, parse, [], []);
            var r := Update(p, SetSuspended(p, s, true), map["pods" := "5"], ["pods"]);
            && r.suspended && r.installed != Stopped(p)
            && "pods" in r.installed.hard && r.installed.hard["pods"] == parse("5")
  {
    var p := Configured(raw, parse, [], []);
    TrimShape("5", IsSpace);
    LimitAt(p, map["pods" := "5"], "pods");
    assert Stopped(p).hard["pods"] == parse("0");
  }

  // ---------------------------------------------------------------- The code

  datatype QuotaError = Maintenance | SharedNamespace | NamespaceRequired

  lemma NothingLeft(p: Policy, o: Overrides, order: seq<string>)
    requires Enumerates(order, o.Keys)
    ensures Cleaned(p, o, order) == map[] <==> forall k :: k in o ==> p.trim(k) == ""
  {
    forall k | k in o ensures p.trim(k) in Cleaned(p, o, order) <==> p.trim(k) != "" {
      CleanedAt(p, o, order, p.trim(k));
      assert k in order;
    }
    if t :| t in Cleaned(p, o, order) {
      CleanedAt(p, o, order, t);
    }
  }

  method EncodeQuotaOverrides(p: Policy, overrides: Overrides)
    returns (encoded: Option<Overrides>, ghost order: seq<string>)
    ensures Enumerates(order, overrides.Keys)
    ensures encoded == Stored(Cleaned(p, overrides, order))
    ensures encoded.None? <==> forall k :: k in overrides ==> p.trim(k) == ""
  {
    order := [];
    if |overrides| == 0 {
      return None, [];
    }
    var cleaned: Overrides := map[];
    var todo := overrides.Keys;
    while todo != {}
      invariant todo <= overrides.Keys && Enumerates(order, overrides.Keys - todo)
      invariant cleaned == Cleaned(p, overrides, order)
      decreases todo
    {
      var k :| k in todo;
      todo := todo - {k};
      assert (order + [k])[..|order|] == order;
      order := order + [k];
      var key := p.trim(k);
      if key == "" {
        continue;
      }
      cleaned := cleaned[key := p.trim(overrides[k])];
    }
    NothingLeft(p, overrides, order);
    if |cleaned| == 0 {
      return None, order;
    }
    return Some(cleaned), order;
  }

  method BuildNamespaceLimitPolicy(p: Policy, namespace: string, overrides: Overrides)
    returns (r: Result<ResourceQuota, QuotaError>)
    ensures r == if p.trim(namespace) == "" then Err(NamespaceRequired) else Ok(Build(p, overrides))
  {
    if p.trim(namespace) == "" {
      return Err(NamespaceRequired);
    }
    var hard := DefaultQuota(p, overrides);
    var scopes, _ := FilterQuotaScopes(Some(hard), p.scopes);
    return Ok(ResourceQuota(hard, scopes, p.classes));
  }

  class ProjectQuota {
    const policy: Policy
    const shared: bool
    const namespace: string
    var installed: ResourceQuota
    var stored: Option<Overrides>
    var suspended: bool

    constructor (policy: Policy, shared: bool, namespace: string, project: Project)
      ensures this.policy == policy && this.shared == shared && this.namespace == namespace && Contents() == project
    {
      this.policy, this.shared, this.namespace := policy, shared, namespace;
      installed, stored, suspended := project.installed, project.stored, project.suspended;
    }

    ghost function Contents(): Project
      reads this
    {
      Project(installed, stored, suspended)
    }

    function Refusal(maintenance: bool): Option<QuotaError> {
      if maintenance then Some(Maintenance)
      else if shared then Some(SharedNamespace)
      else if policy.trim(namespace) == "" then Some(NamespaceRequired)
      else None
    }

    method UpdateProjectQuota(maintenance: bool, overrides: Overrides)
      returns (r: Option<QuotaError>, ghost order: seq<string>)
      modifies this
      ensures r == Refusal(maintenance)
      ensures r.None? <==> !maintenance && !shared && policy.trim(namespace) != ""
      ensures Enumerates(order, overrides.Keys)
      ensures Contents() == if r.Some? then old(Contents()) else Update(policy, old(Contents()), overrides, order)
    {
      order := VisitAll(overrides.Keys);
      if maintenance {
        return Some(Maintenance), order;
      }
      if shared {
        return Some(SharedNamespace), order;
      }
      var rq := BuildNamespaceLimitPolicy(policy, namespace, overrides);
      if rq.Err? {
        return Some(rq.error), order;
      }
      installed := rq.value;
      var encoded;
      encoded, order := EncodeQuotaOverrides(policy, overrides);
      stored := encoded;
      return None, order;
    }

    method SetProjectSuspended(maintenance: bool, suspend: bool) returns (r: Option<QuotaError>)
      modifies this
      ensures r == Refusal(maintenance)
      ensures Contents() == if r.Some? then old(Contents()) else SetSuspended(policy, old(Contents()), suspend)
      ensures r.None? ==> suspended == suspend
      ensures r.None? <==> !maintenance && !shared && policy.trim(namespace) != ""
      ensures r.None? && suspend ==> installed.hard == map["pods" := policy.parse("0")]
      ensures r.None? && suspend ==>
                && installed.classes == policy.classes
                && installed.scopes == Keyset.Filter(policy.scopes, Supported(Some(policy.defaults)))
    {
      if maintenance {
        return Some(Maintenance);
      }
      if shared {
        return Some(SharedNamespace);
      }
      var rq;
      if suspend {
        rq := BuildNamespaceLimitPolicy(policy, namespace, map[]);
        if rq.Err? {
          return Some(rq.error);
        }
        rq := Ok(rq.value.(hard := map["pods" := policy.parse("0")]));
        assert HardLimits(policy, map[]) == policy.defaults;
      } else {
        var overrides := if stored.None? then map[] else stored.value;
        rq := BuildNamespaceLimitPolicy(policy, namespace, overrides);
        if rq.Err? {
          return Some(rq.error);
        }
      }
      installed := rq.value;
      suspended := suspend;
      return None;
    }
  }
}
