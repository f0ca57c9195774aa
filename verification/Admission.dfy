/**
 Tenant admission, kubeop-operator/internal/webhooks/webhooks.go. The cluster is a map from
 (kind, namespace, name) to objects. A webhook sees one request and the current cluster;
 what the requests admitted in a run add up to is proved in the module TenantIsolation.
 */
module Admission {
  import opened Wrappers
  import opened Text
  import opened ObjectLabels

  datatype Kind =
    | App | Project | AppRelease | ServiceBinding | Bucket | BucketPolicy | ConfigRef | SecretRef
    | IngressRoute | CacheInstance | DatabaseInstance | QueueInstance | Job | ServiceAccount

  datatype Key = Key(kind: Kind, namespace: string, name: string)

  datatype ConsumerType = ToApp | ToServiceAccount | ToUnknown
  datatype ProviderType = FromDatabase | FromCache | FromQueue | FromUnknown

  /** The fields of a spec that the webhooks read. `rest` stands for the other fields of a release. */
  datatype Spec =
    | AppSpec(valuesRefs: seq<string>, secretsRefs: seq<string>, ingressRefs: seq<string>)
    | ProjectSpec(tenantRef: string)
    | ReleaseSpec(appRef: string, rest: string)
    | BindingSpec(consumerType: ConsumerType, consumer: string, providerType: ProviderType, provider: string)
    | BucketSpec(policyRefs: seq<string>)
    | OtherSpec

  datatype Object = Object(labels: Labels, spec: Spec)

  type Store = map<Key, Object>

  const REQUIRED := [TENANT, PROJECT, APP]

  function LabelOf(o: Object, key: string): string { Label(o.labels, key) }

  function Tenant(o: Object): string { TrimSpace(LabelOf(o, TENANT)) }
  function ProjectName(o: Object): string { TrimSpace(LabelOf(o, PROJECT)) }

  /** Every kind has its own spec, and no webhook watches service accounts. */
  predicate WellTyped(k: Key, o: Object) {
    match k.kind
    case App => o.spec.AppSpec?
    case Project => o.spec.ProjectSpec?
    case AppRelease => o.spec.ReleaseSpec?
    case ServiceBinding => o.spec.BindingSpec?
    case Bucket => o.spec.BucketSpec?
    case _ => o.spec.OtherSpec?
  }

  predicate Guarded(k: Key) { k.kind != ServiceAccount }

  // ---------------------------------------------------------------- what each webhook admits

  predicate Labelled(o: Object) {
    TrimSpace(LabelOf(o, TENANT)) != "" && TrimSpace(LabelOf(o, PROJECT)) != "" && TrimSpace(LabelOf(o, APP)) != ""
  }

  predicate TenantKept(old_: Option<Object>, o: Object) {
    old_.Some? && Tenant(old_.value) != "" ==> Tenant(o) == Tenant(old_.value)
  }

  predicate MetadataOk(old_: Option<Object>, o: Object) { Labelled(o) && TenantKept(old_, o) }

  /** The named object exists and carries this tenant label, compared as written. */
  predicate RefOk(s: Store, k: Key, tenant: string) { k in s && LabelOf(s[k], TENANT) == tenant }

  predicate RefsOk(s: Store, kind: Kind, namespace: string, names: seq<string>, tenant: string) {
    forall i :: 0 <= i < |names| ==> RefOk(s, Key(kind, namespace, names[i]), tenant)
  }

  predicate ProjectRefOk(s: Store, namespace: string, o: Object, tenant: string) {
    var k := Key(Project, namespace, ProjectName(o));
    ProjectName(o) == "" ||
    (&& k in s
     && (s[k].spec.ProjectSpec? && s[k].spec.tenantRef != "" ==> s[k].spec.tenantRef == tenant)
     && (Tenant(s[k]) != "" ==> Tenant(s[k]) == tenant))
  }

  predicate AppOk(s: Store, k: Key, old_: Option<Object>, o: Object)
    requires o.spec.AppSpec?
  {
    var tenant := LabelOf(o, TENANT);
    && MetadataOk(old_, o)
    && RefsOk(s, ConfigRef, k.namespace, o.spec.valuesRefs, tenant)
    && RefsOk(s, SecretRef, k.namespace, o.spec.secretsRefs, tenant)
    && RefsOk(s, IngressRoute, k.namespace, o.spec.ingressRefs, tenant)
    && ProjectRefOk(s, k.namespace, o, tenant)
  }

  predicate ProjectOk(k: Key, old_: Option<Object>, o: Object)
    requires o.spec.ProjectSpec?
  {
    && MetadataOk(old_, o)
    && (o.spec.tenantRef != "" ==> Tenant(o) == o.spec.tenantRef)
    && ProjectName(o) == k.name
    && (old_.Some? && old_.value.spec.ProjectSpec? ==> old_.value.spec.tenantRef == o.spec.tenantRef)
  }

  predicate ReleaseOk(s: Store, k: Key, old_: Option<Object>, o: Object)
    requires o.spec.ReleaseSpec?
  {
    var app := Key(App, k.namespace, o.spec.appRef);
    && MetadataOk(old_, o)
    && (old_.Some? ==> old_.value.spec == o.spec)
    && TrimSpace(o.spec.appRef) != ""
    && app in s
    && LabelOf(s[app], TENANT) == LabelOf(o, TENANT)
    && LabelOf(s[app], PROJECT) == LabelOf(o, PROJECT)
  }

  predicate ConsumerOk(s: Store, k: Key, o: Object)
    requires o.spec.BindingSpec?
  {
    match o.spec.consumerType
    case ToApp => RefOk(s, Key(App, k.namespace, o.spec.consumer), Tenant(o))
    case ToServiceAccount => Key(ServiceAccount, k.namespace, o.spec.consumer) in s
    case ToUnknown => false
  }

  function ProviderKind(t: ProviderType): Option<Kind> {
    match t
    case FromDatabase => Some(DatabaseInstance)
    case FromCache => Some(CacheInstance)
    case FromQueue => Some(QueueInstance)
    case FromUnknown => None
  }

  predicate ProviderOk(s: Store, k: Key, o: Object)
    requires o.spec.BindingSpec?
  {
    && TrimSpace(o.spec.provider) != ""
    && ProviderKind(o.spec.providerType).Some?
    && RefOk(s, Key(ProviderKind(o.spec.providerType).value, k.namespace, o.spec.provider), Tenant(o))
  }

  predicate BindingOk(s: Store, k: Key, old_: Option<Object>, o: Object)
    requires o.spec.BindingSpec?
  {
    MetadataOk(old_, o) && ConsumerOk(s, k, o) && ProviderOk(s, k, o)
  }

  /** A policy must match all three labels of the bucket. */
  predicate PolicyRefOk(s: Store, k: Key, o: Object) {
    && k in s
    && (Tenant(o) != "" ==> LabelOf(s[k], TENANT) == Tenant(o))
    && (ProjectName(o) != "" ==> LabelOf(s[k], PROJECT) == ProjectName(o))
    && (TrimSpace(LabelOf(o, APP)) != "" ==> LabelOf(s[k], APP) == TrimSpace(LabelOf(o, APP)))
  }

  predicate BucketOk(s: Store, k: Key, old_: Option<Object>, o: Object)
    requires o.spec.BucketSpec?
  {
    && MetadataOk(old_, o)
    && forall i :: 0 <= i < |o.spec.policyRefs| ==>
       PolicyRefOk(s, Key(BucketPolicy, k.namespace, o.spec.policyRefs[i]), o)
  }

  /** `o` may be written at `k`: as a create when nothing is there, as an update otherwise. */
  predicate Admits(s: Store, k: Key, o: Object) {
    var old_ := if k in s then Some(s[k]) else None;
    && WellTyped(k, o)
    && match k.kind
       case App => AppOk(s, k, old_, o)
       case Project => ProjectOk(k, old_, o)
       case AppRelease => ReleaseOk(s, k, old_, o)
       case ServiceBinding => BindingOk(s, k, old_, o)
       case Bucket => BucketOk(s, k, old_, o)
       case ServiceAccount => true
       case _ => MetadataOk(old_, o)
  }

  // ---------------------------------------------------------------- the webhooks

  datatype Reason = Required | Invalid | Refused

  /** `index` is the position in a list of references, 0 elsewhere. */
  datatype FieldError = FieldError(field: string, index: nat, reason: Reason)

  method ValidateRequiredLabels(o: Object) returns (errs: seq<FieldError>)
    ensures errs == [] <==> Labelled(o)
    ensures forall key :: key in REQUIRED ==>
              (TrimSpace(LabelOf(o, key)) == "" <==> FieldError(key, 0, Required) in errs)
  {
    errs := [];
    for n := 0 to |REQUIRED|
      invariant errs == [] <==> forall m :: 0 <= m < n ==> TrimSpace(LabelOf(o, REQUIRED[m])) != ""
      invariant forall m :: 0 <= m < n ==>
                  (TrimSpace(LabelOf(o, REQUIRED[m])) == "" <==> FieldError(REQUIRED[m], 0, Required) in errs)
      invariant forall e :: e in errs ==> exists m :: 0 <= m < n && e.field == REQUIRED[m]
    {
      if TrimSpace(LabelOf(o, REQUIRED[n])) == "" {
        errs := errs + [FieldError(REQUIRED[n], 0, Required)];
      }
    }
    assert Labelled(o) <==> forall m :: 0 <= m < |REQUIRED| ==> TrimSpace(LabelOf(o, REQUIRED[m])) != "" by {
      assert REQUIRED[0] == TENANT && REQUIRED[1] == PROJECT && REQUIRED[2] == APP;
    }
  }

  function ValidateTenantImmutability(old_: Option<Object>, o: Object): (errs: seq<FieldError>)
    ensures errs == [] <==> TenantKept(old_, o)
  {
    if old_.Some? && Tenant(old_.value) != "" && Tenant(o) != Tenant(old_.value)
    then [FieldError(TENANT, 0, Refused)] else []
  }

  /** validateConfigRefs, validateSecretRefs and validateIngressRefs: one loop for the three kinds. */
  method ValidateRefs(s: Store, kind: Kind, namespace: string, names: seq<string>, tenant: string, field: string)
    returns (errs: seq<FieldError>)
    ensures errs == [] <==> RefsOk(s, kind, namespace, names, tenant)
    ensures forall e :: e in errs ==>
      e.field == field && e.index < |names| && !RefOk(s, Key(kind, namespace, names[e.index]), tenant)
    ensures forall i :: 0 <= i < |names| && !RefOk(s, Key(kind, namespace, names[i]), tenant) ==>
      FieldError(field, i, if Key(kind, namespace, names[i]) in s then Refused else Invalid) in errs
  {
    errs := [];
    for i := 0 to |names|
      invariant errs == [] <==> forall j :: 0 <= j < i ==> RefOk(s, Key(kind, namespace, names[j]), tenant)
      invariant forall e :: e in errs ==>
        e.field == field && e.index < i && !RefOk(s, Key(kind, namespace, names[e.index]), tenant)
      invariant forall j :: 0 <= j < i && !RefOk(s, Key(kind, namespace, names[j]), tenant) ==>
        FieldError(field, j, if Key(kind, namespace, names[j]) in s then Refused else Invalid) in errs
    {
      var k := Key(kind, namespace, names[i]);
      if k !in s {
        errs := errs + [FieldError(field, i, Invalid)];
        continue;
      }
      if LabelOf(s[k], TENANT) != tenant {
        errs := errs + [FieldError(field, i, Refused)];
      }
    }
  }

  function ProjectForApp(s: Store, namespace: string, o: Object, tenant: string): (errs: seq<FieldError>)
    requires tenant != ""
    ensures errs == [] <==> ProjectRefOk(s, namespace, o, tenant)
    ensures errs != [] <==>
            var name := TrimSpace(Label(o.labels, "paas.kubeop.io/project"));
            var k := Key(Project, namespace, name);
            name != "" &&
              (|| k !in s
               || (s[k].spec.ProjectSpec? && s[k].spec.tenantRef !in {"", tenant})
               || TrimSpace(Label(s[k].labels, "paas.kubeop.io/tenant")) !in {"", tenant})
  {
    var k := Key(Project, namespace, ProjectName(o));
    if ProjectName(o) == "" then []
    else if k !in s then [FieldError(PROJECT, 0, Invalid)]
    else
      (if s[k].spec.ProjectSpec? && s[k].spec.tenantRef != "" && s[k].spec.tenantRef != tenant
       then [FieldError(TENANT, 0, Refused)] else []) +
      (if Tenant(s[k]) != "" && Tenant(s[k]) != tenant then [FieldError(TENANT, 0, Refused)] else [])
  }

  /** `foreign` holds the errors of the version, service-policy and registry-policy checks. */
  method ValidateApp(s: Store, k: Key, old_: Option<Object>, o: Object, foreign: seq<FieldError>)
    returns (errs: seq<FieldError>)
    requires o.spec.AppSpec?
    ensures errs == [] <==> AppOk(s, k, old_, o) && foreign == []
  {
    errs := ValidateRequiredLabels(o);
    errs := errs + ValidateTenantImmutability(old_, o);
    var tenant := LabelOf(o, TENANT);
    if tenant == "" {
      assert TrimSpace(tenant) == "";
      errs := errs + foreign;
      return;
    }
    var config := ValidateRefs(s, ConfigRef, k.namespace, o.spec.valuesRefs, tenant, "spec.valuesRefs");
    var secret := ValidateRefs(s, SecretRef, k.namespace, o.spec.secretsRefs, tenant, "spec.secretsRefs");
    var ingress := ValidateRefs(s, IngressRoute, k.namespace, o.spec.ingressRefs, tenant, "spec.ingressRefs");
    errs := errs + config + secret + ingress + ProjectForApp(s, k.namespace, o, tenant) + foreign;
  }

  method ValidateProject(k: Key, old_: Option<Object>, o: Object) returns (errs: seq<FieldError>)
    requires o.spec.ProjectSpec? && (old_.Some? ==> old_.value.spec.ProjectSpec?)
    ensures errs == [] <==> ProjectOk(k, old_, o)
    ensures errs == [] ==>
              TrimSpace(Label(o.labels, "paas.kubeop.io/project")) == k.name &&
              o.spec.tenantRef in {"", TrimSpace(Label(o.labels, "paas.kubeop.io/tenant"))}
  {
    errs := ValidateRequiredLabels(o);
    errs := errs + ValidateTenantImmutability(old_, o);
    if Tenant(o) != "" && o.spec.tenantRef != "" && Tenant(o) != o.spec.tenantRef {
      errs := errs + [FieldError("spec.tenantRef", 0, Invalid)];
    }
    if ProjectName(o) != "" && ProjectName(o) != k.name {
      errs := errs + [FieldError(PROJECT, 0, Invalid)];
    }
    if old_.Some? && old_.value.spec.tenantRef != o.spec.tenantRef {
      errs := errs + [FieldError("spec.tenantRef", 0, Refused)];
    }
  }

  /** `foreign` holds the errors of the version, digest and hash formats. */
  method ValidateRelease(s: Store, k: Key, old_: Option<Object>, o: Object, foreign: seq<FieldError>)
    returns (errs: seq<FieldError>)
    requires o.spec.ReleaseSpec?
    ensures errs == [] <==> ReleaseOk(s, k, old_, o) && foreign == []
    ensures TrimSpace(o.spec.appRef) == "" ==> FieldError("spec.appRef", 0, Required) in errs
    ensures old_.Some? && old_.value.spec != o.spec ==> FieldError("spec", 0, Refused) in errs
  {
    errs := ValidateRequiredLabels(o);
    if old_.Some? {
      errs := errs + ValidateTenantImmutability(old_, o);
      if old_.value.spec != o.spec {
        errs := errs + [FieldError("spec", 0, Refused)];
      }
    }
    errs := errs + foreign;
    if TrimSpace(o.spec.appRef) == "" {
      errs := errs + [FieldError("spec.appRef", 0, Required)];
      return;
    }
    var app := Key(App, k.namespace, o.spec.appRef);
    if app !in s {
      errs := errs + [FieldError("spec.appRef", 0, Invalid)];
      return;
    }
    if LabelOf(o, TENANT) != "" && LabelOf(s[app], TENANT) != LabelOf(o, TENANT) {
      errs := errs + [FieldError("spec.appRef", 0, Refused)];
    }
    if LabelOf(o, PROJECT) != "" && LabelOf(s[app], PROJECT) != LabelOf(o, PROJECT) {
      errs := errs + [FieldError("spec.appRef", 0, Refused)];
    }
    assert LabelOf(o, TENANT) == "" || LabelOf(o, PROJECT) == "" ==> !Labelled(o) by {
      assert TrimSpace("") == "";
    }
  }

  /** The object is there and its tenant label, as written and empty when not set, is this one. */
  predicate Carries(s: Store, kind: Kind, namespace: string, name: string, tenant: string) {
    var k := Key(kind, namespace, name);
    && k in s
    && tenant == if "paas.kubeop.io/tenant" in s[k].labels then s[k].labels["paas.kubeop.io/tenant"] else ""
  }

  function ValidateConsumer(s: Store, k: Key, o: Object): (errs: seq<FieldError>)
    requires o.spec.BindingSpec?
    ensures errs == [] <==> ConsumerOk(s, k, o)
    ensures errs == [] <==>
            match o.spec.consumerType
            case ToApp => Carries(s, App, k.namespace, o.spec.consumer, Tenant(o))
            case ToServiceAccount => Key(ServiceAccount, k.namespace, o.spec.consumer) in s
            case ToUnknown => false
  {
    match o.spec.consumerType
    case ToApp =>
      var app := Key(App, k.namespace, o.spec.consumer);
      if app !in s then [FieldError("spec.consumerRef.name", 0, Invalid)]
      else if LabelOf(s[app], TENANT) != Tenant(o) then [FieldError("spec.consumerRef.name", 0, Refused)]
      else []
    case ToServiceAccount =>
      if Key(ServiceAccount, k.namespace, o.spec.consumer) in s then []
      else [FieldError("spec.consumerRef.name", 0, Invalid)]
    case ToUnknown => [FieldError("spec.consumerRef.type", 0, Invalid)]
  }

  function ValidateProvider(s: Store, k: Key, o: Object): (errs: seq<FieldError>)
    requires o.spec.BindingSpec?
    ensures errs == [] <==> ProviderOk(s, k, o)
    ensures errs == [] <==>
            && TrimSpace(o.spec.provider) != ""
            && match o.spec.providerType
               case FromDatabase => Carries(s, DatabaseInstance, k.namespace, o.spec.provider, Tenant(o))
               case FromCache => Carries(s, CacheInstance, k.namespace, o.spec.provider, Tenant(o))
               case FromQueue => Carries(s, QueueInstance, k.namespace, o.spec.provider, Tenant(o))
               case FromUnknown => false
  {
    if TrimSpace(o.spec.provider) == "" then [FieldError("spec.providerRef.name", 0, Required)]
    else
      match ProviderKind(o.spec.providerType)
      case None => [FieldError("spec.providerRef.type", 0, Invalid)]
      case Some(kind) =>
        var p := Key(kind, k.namespace, o.spec.provider);
        if p !in s then [FieldError("spec.providerRef.name", 0, Invalid)]
        else if LabelOf(s[p], TENANT) != Tenant(o) then [FieldError("spec.providerRef.name", 0, Refused)]
        else []
  }

  method ValidateBinding(s: Store, k: Key, old_: Option<Object>, o: Object) returns (errs: seq<FieldError>)
    requires o.spec.BindingSpec?
    ensures errs == [] <==> BindingOk(s, k, old_, o)
  {
    errs := ValidateRequiredLabels(o);
    errs := errs + ValidateTenantImmutability(old_, o);
    if Tenant(o) == "" {
      return;
    }
    errs := errs + ValidateConsumer(s, k, o) + ValidateProvider(s, k, o);
  }

  method ValidateBucket(s: Store, k: Key, old_: Option<Object>, o: Object) returns (errs: seq<FieldError>)
    requires o.spec.BucketSpec?
    ensures errs == [] <==> BucketOk(s, k, old_, o)
  {
    errs := ValidateRequiredLabels(o);
    errs := errs + ValidateTenantImmutability(old_, o);
    var tenant, project, app := Tenant(o), ProjectName(o), TrimSpace(LabelOf(o, APP));
    var refs := o.spec.policyRefs;
    for i := 0 to |refs|
      invariant errs == [] <==>
                && MetadataOk(old_, o)
                && forall j :: 0 <= j < i ==> PolicyRefOk(s, Key(BucketPolicy, k.namespace, refs[j]), o)
    {
      var p := Key(BucketPolicy, k.namespace, refs[i]);
      if p !in s {
        errs := errs + [FieldError("spec.policyRefs", i, Invalid)];
        continue;
      }
      if tenant != "" && LabelOf(s[p], TENANT) != tenant {
        errs := errs + [FieldError("spec.policyRefs", i, Refused)];
      }
      if project != "" && LabelOf(s[p], PROJECT) != project {
        errs := errs + [FieldError("spec.policyRefs", i, Refused)];
      }
      if app != "" && LabelOf(s[p], APP) != app {
        errs := errs + [FieldError("spec.policyRefs", i, Refused)];
      }
    }
  }

  /** LabelGuardWebhook and the metadata part of JobWebhook. */
  method ValidateMetadata(old_: Option<Object>, o: Object) returns (errs: seq<FieldError>)
    ensures errs == [] <==> MetadataOk(old_, o)
  {
    errs := ValidateRequiredLabels(o);
    errs := errs + ValidateTenantImmutability(old_, o);
  }

  /** The webhook of the object's kind. `foreign` counts where the kind has checks that are not modelled. */
  method Validate(s: Store, k: Key, o: Object, foreign: seq<FieldError>) returns (errs: seq<FieldError>)
    requires Guarded(k) && WellTyped(k, o) && (k in s ==> WellTyped(k, s[k]))
    ensures errs == [] <==> Admits(s, k, o) && (k.kind in {App, AppRelease, Job} ==> foreign == [])
  {
    var old_ := if k in s then Some(s[k]) else None;
    match k.kind
    case App => errs := ValidateApp(s, k, old_, o, foreign);
    case Project => errs := ValidateProject(k, old_, o);
    case AppRelease => errs := ValidateRelease(s, k, old_, o, foreign);
    case ServiceBinding => errs := ValidateBinding(s, k, old_, o);
    case Bucket => errs := ValidateBucket(s, k, old_, o);
    case Job =>
      errs := ValidateMetadata(old_, o);
      errs := errs + foreign;
    case _ => errs := ValidateMetadata(old_, o);
  }
}
