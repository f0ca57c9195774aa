# kubeOP, verified

kubeOP is a multi-tenant control plane for Kubernetes: a service with a PostgreSQL store that hands out
namespaces, credentials, quotas and releases, and an operator with admission webhooks, app delivery and usage
billing. This project models its state machines and algorithms in Dafny and proves what they promise for every
input, every run or every reachable state. Where the code falls short of what it is for, the model keeps the code
as it is, shows an input where it falls short, and proves the exact condition under which it holds.

`dafny verify dfyconfig.toml` checks everything.

| file | what it holds |
|---|---|
| `Admission.dfy`, `TenantIsolation.dfy` | the webhooks' validators, and tenant isolation as an invariant over runs of creates, updates and deletes |
| `Credentials.dfy`, `CredentialService.dfy` | the kubeconfig protocol between database rows and cluster Secrets and accounts: its steps and invariant, and the service calls statement by statement |
| `Events.dfy`, `Like.dfy`, `Timestamps.dfy`, `EventPaging.dfy` | the event query builder, its cursor, and what a walk over the pages visits |
| `Keyset.dfy`, `Releases.dfy` | sorted listings with strict keyset cursors, and release history paging |
| `Usage.dfy`, `Metering.dfy`, `Billing.dfy` | grouped sums and their conservation, pod and tenant metering, billing record names and upserts |
| `TemplateMerge.dfy` | the recursive deep merge |
| `Dns.dfy` | record reconciliation at Cloudflare and PowerDNS |
| `EnvAttach.dfy` | attaching and detaching ConfigMaps and Secrets |
| `AppReconcile.dfy` | apply and prune of an App's Deployment |
| `Quota.dfy` | quota overrides, suspend and resume |
| `LogTail.dfy`, `YamlDocs.dfy`, `Names.dfy` | the ring-buffer tail, YAML document streams, Kubernetes names |
| `Text.dfy` | the parts of Go's `strings` package the code relies on, remainders, map iteration orders, object labels |

## What the code does not do

- A walk over the project events skips one event per page: the cursor is the first event left out and the next
  query is strict. It is complete exactly when everything fits on one page (`EventPaging.EventWalk`,
  `EventPaging.TwoEventsOneAPage`).
- A deleted object's name can be taken by another tenant while references to it remain, because deletions are not
  validated (`TenantIsolation.DeletionLetsReferencesCross`, `TenantIsolation.RetakenNameCrossesTenants`).
- Tenant labels are immutable and project labels are not, so a release can end up in another project than its App.
  It cannot exactly when no step of the run moves or deletes what it refers to (`TenantIsolation.AgreesThroughoutIff`,
  `TenantIsolation.ReleaseProjectDrifts`).
- Creating a project whose namespace is taken fails only after its credentials are stored, which leaves a row
  without a project (`Credentials.CreateOwnedIff`, `Credentials.RepeatedCreateOrphans`). With shared namespaces the
  same unique index refuses every second project of a user on a cluster (`Credentials.CreateSharedIff`).
- Deleting the last credentials of a project removes its ServiceAccount, and ensure cannot bring them back
  (`Credentials.ProjectEnsureAfterDelete`, `Credentials.DeletedProjectIsStranded`).
- Deleting a user's credentials on one cluster leaves the ServiceAccount there while the user has credentials on
  another, because the count ignores the cluster (`Credentials.DeleteLeavesAccountIff`,
  `Credentials.DeletedAccountLingers`).
- Pods of one app that disagree on their tenant or project are all billed to those of the first one seen
  (`Metering.TenantsAndProjectsFairlyIff`, `Metering.SecondTenantRidesFree`).
- Subjects whose references differ only in separators share a billing record (`BillingNames.NamesCoincideIff`,
  `BillingNames.DotAndDashCollide`, `BillingRecords.AllShownIff`).
- PowerDNS keeps the records of a family that has no address any more (`Dns.PowerReachesDesiredIff`,
  `Dns.DroppedFamilyLingers`).
- Two Apps in one namespace prune each other's Deployment forever (`AppReconcile.SettledTogetherIff`).
- A quota override under an untrimmed key is installed at first and lost on resuming (`Quota.RestoresIff`,
  `Quota.UntrimmedKeyIsNotRestored`). The comment above `EncodeQuotaOverrides` says whitespace-only keys are
  dropped, which holds for the row but not for the quota first installed.
- Updating the quota of a suspended project lets it run again while its row still says suspended
  (`Quota.InForceThroughoutIff`, `Quota.UpdateRevivesSuspended`).
- A slug can end in a dash (`Names.SlugifyIsLabelIff`, `Names.SlugMayEndInDash`), and a search term with `%`, `_` or
  a backslash is not taken literally (`Like.SearchIsContainmentIff`, `Like.UnderscoreFindsTooMuch`).

## Model

| member | source | states |
|---|---|---|
| Admission.ValidateRequiredLabels | kubeop-operator/internal/webhooks/webhooks.go:56-66 | no error exactly when all required labels are present and not blank; each missing label has its own error |
| Admission.ValidateTenantImmutability | kubeop-operator/internal/webhooks/webhooks.go:68-79 | no error exactly when the trimmed tenant label of an existing object is kept |
| Admission.ValidateMetadata | kubeop-operator/internal/webhooks/webhooks.go:220-247 | the label guard accepts exactly the objects with the required labels and an unchanged tenant |
| Admission.ValidateRefs | kubeop-operator/internal/webhooks/webhooks.go:512-588 | no error exactly when every name is an existing object of the namespace with the same tenant label; every bad name is reported at its index, as missing or as refused, and no good name is |
| Admission.ProjectForApp | kubeop-operator/internal/webhooks/webhooks.go:924-949 | no error exactly when the project label is blank, or names a Project of the namespace whose tenantRef and trimmed tenant label are each empty or the App's tenant |
| Admission.ValidateApp | kubeop-operator/internal/webhooks/webhooks.go:352-386 | accepts exactly the Apps whose labels, tenant and all four kinds of reference are right |
| Admission.ValidateProject | kubeop-operator/internal/webhooks/webhooks.go:637-654 | accepts exactly the Projects whose labels are right, whose project label is their name, whose tenantRef, if any, is their tenant and is unchanged |
| Admission.ValidateRelease | kubeop-operator/internal/webhooks/webhooks.go:703-746 | accepts exactly the AppReleases whose appRef is an App of the namespace, tenant and project and whose spec is unchanged; a blank appRef and a changed spec each have their own error |
| Admission.ValidateConsumer | kubeop-operator/internal/webhooks/webhooks.go:835-873 | no error exactly when the consumer is an App of the namespace and tenant, or a ServiceAccount of the namespace |
| Admission.ValidateProvider | kubeop-operator/internal/webhooks/webhooks.go:875-915 | no error exactly when the name is not blank and, by type, the DatabaseInstance, CacheInstance or QueueInstance of that name in the namespace carries the tenant; an unknown type is always an error |
| Admission.ValidateBinding | kubeop-operator/internal/webhooks/webhooks.go:820-833 | accepts exactly the ServiceBindings with right labels, consumer and provider |
| Admission.ValidateBucket | kubeop-operator/internal/webhooks/webhooks.go:1068-1104 | accepts exactly the Buckets with right labels whose policyRefs are BucketPolicies of the namespace with the same tenant, project and app labels |
| Admission.Validate | kubeop-operator/internal/webhooks/webhooks.go:352-386 | the validator chosen by kind refuses exactly the writes that the admission relation excludes |
| TenantIsolation.AdmittedRefsAreLocal | kubeop-operator/internal/webhooks/webhooks.go:512-588 | whatever one request is admitted with, each of its references names an existing object of the same namespace and tenant |
| TenantIsolation.WriteKeepsTenants | kubeop-operator/internal/webhooks/webhooks.go:68-79 | an admitted create or update changes the tenant of no object in the cluster |
| TenantIsolation.RunKeepsInv | kubeop-operator/internal/webhooks/webhooks.go:352-386 | every step of every run, deletions included, keeps the invariant on labels, identities and intact references |
| TenantIsolation.IntactReferencesStayInTenant | kubeop-operator/internal/webhooks/webhooks.go:512-588 | in every run from the empty cluster, a reference to the very object it was admitted against stays in its namespace and tenant |
| TenantIsolation.WriteRunsAreSafe | kubeop-operator/internal/webhooks/webhooks.go:249-252 | a run of creates and updates only never deletes a referenced object |
| TenantIsolation.SafeRunKeepsAllIntact | kubeop-operator/internal/webhooks/webhooks.go:352-386 | in runs that delete only unreferenced objects every reference stays intact |
| TenantIsolation.PathsStayInTenant | kubeop-operator/internal/webhooks/webhooks.go:820-949 | in every such run, every path through the reference graph, of any length, stays inside one namespace and one tenant |
| TenantIsolation.StoredNamesStand | kubeop-operator/internal/webhooks/webhooks.go:352-949 | in every such run each name in a stored spec stands for an object of the kind its field is for, of the same namespace and tenant: ConfigRef, SecretRef, IngressRoute and Project of an App, App of a release, App and DatabaseInstance, CacheInstance or QueueInstance of a binding by its types, BucketPolicies of a bucket |
| TenantIsolation.StoredAreLabelled | kubeop-operator/internal/webhooks/webhooks.go:56-66 | in every run from the empty cluster each object but a service account has a tenant, a project and an app label that are not blank |
| TenantIsolation.SurvivorsKeep | kubeop-operator/internal/webhooks/webhooks.go:637-720 | in every run from the empty cluster an object that is not deleted keeps its tenant, a release its whole spec and a Project its tenantRef |
| TenantIsolation.SafeRunLabelsAgree | kubeop-operator/internal/webhooks/webhooks.go:56-79 | with label values as Kubernetes allows them, the two ends of a reference carry the same tenant label |
| TenantIsolation.RemoveKeepsAllIntactIff | kubeop-operator/internal/webhooks/webhooks.go:249-252 | a deletion keeps all references intact if and only if nothing refers to the deleted object |
| TenantIsolation.DeletionLetsReferencesCross | kubeop-operator/internal/webhooks/webhooks.go:249-252 | after the deletion of a referenced object of any kind, any object of another tenant that is admitted under its name makes the reference cross tenants |
| TenantIsolation.FreeNameIsAdmitted | kubeop-operator/internal/webhooks/webhooks.go:220-247 | any tenant is admitted under a free name of a label-guarded kind, and as a Project under its own name |
| TenantIsolation.FreeAppIsAdmitted | kubeop-operator/internal/webhooks/webhooks.go:352-386 | any tenant with a Project in the namespace is admitted under a free App name |
| TenantIsolation.RetakenNameCrossesTenants | kubeop-operator/internal/webhooks/webhooks.go:249-252 | a run from the empty cluster after which an App of one tenant refers to a ConfigRef of another |
| TenantIsolation.RunKeepsProjectsNamed | kubeop-operator/internal/webhooks/webhooks.go:637-654 | in every run every Project is labelled with its own name and names no tenant but its own |
| TenantIsolation.AdmittedAgrees | kubeop-operator/internal/webhooks/webhooks.go:703-735 | an admitted release is of the project of its App, and an admitted bucket of the project and app of its policies |
| TenantIsolation.WriteKeepsLabelsAgreeIff | kubeop-operator/internal/webhooks/webhooks.go:703-735 | with all releases and buckets in agreement, an admitted write keeps them so if and only if it changes no project label under a release and no project or app label under a bucket |
| TenantIsolation.RemoveKeepsLabelsAgreeIff | kubeop-operator/internal/webhooks/webhooks.go:249-252 | a deletion keeps them in agreement if and only if no release or bucket refers to the object |
| TenantIsolation.AgreesThroughoutIff | kubeop-operator/internal/webhooks/webhooks.go:1068-1104 | releases and buckets agree with what they refer to throughout a run if and only if no step of the run moves or deletes what one of them is compared with |
| TenantIsolation.ReleaseProjectDrifts | kubeop-operator/internal/webhooks/webhooks.go:703-735 | a run of admitted writes from the empty cluster after which a release and its App are of different projects |
| Credentials.EveryRunIsSafe | internal/service/kubeconfigs.go:52-210 | in every run of provision, create, renew, ensure, rotate and delete from empty stores: each row names a live Secret that holds the token of the stored kubeconfig, its ServiceAccount, user-sa or tenant-sa, is live, no two rows share a Secret, a project or a user scope, and the copies in user_spaces and projects are the rows' own |
| Credentials.RunKeepsInv | internal/service/kubeconfigs.go:52-210 | every step of every run keeps the agreement of tables and clusters |
| Credentials.ServiceIsWellConfigured | internal/service/service.go:497-733 | the namespace names the service derives are never empty |
| Credentials.UserNamespaces | internal/service/service.go:749-752 | two users share a namespace if and only if they differ in outer space only; a user can be provisioned if and only if the cluster is known and the user is not blank |
| Credentials.ProjectNamespaces | internal/service/service.go:555-560 | projects of a user whose names differ in a letter or digit get different namespaces unless one was cut |
| Names.ProjectSlug | internal/service/service.go:555-560 | a project namespace that was not cut holds the letters and digits of the user and then of the project name |
| Credentials.RotateExact | internal/service/kubeconfigs.go:149-181 | rotation keeps the row id, points the row at a Secret that did not exist, removes exactly the previous Secret and touches no other row and no account |
| Credentials.RotatableIff | internal/service/kubeconfigs.go:149-181 | a row can be rotated if and only if it is a user's or its project exists |
| Credentials.RenewLeavesOldSecret | internal/service/user_bootstrap.go:111-180 | renewal leaves the previous Secret live although no row names it any more |
| Credentials.DeleteExact | internal/service/kubeconfigs.go:183-210 | deletion removes exactly the row and its Secret; the account goes if and only if no remaining row counts for its namespace and name, so every remaining row stays live |
| Credentials.DeleteLeavesAccountIff | internal/store/kubeconfigs.go:83-90 | deletion leaves an account that no row names if and only if the row was its last and another cluster has a row with its namespace and name |
| Credentials.DeletedAccountLingers | internal/store/kubeconfigs.go:83-90 | from empty stores: a user on two clusters whose first row is deleted leaves the account on that cluster |
| Credentials.EnsureUserNeverRenews | internal/service/kubeconfigs.go:52-102 | in reachable states the renewal branch of user-scope ensure is never taken: what it returns is what provisioning left |
| Credentials.EnsureUserGivesLiveRow | internal/service/kubeconfigs.go:52-102 | user-scope ensure gives a live row for the user scope in every reachable state, after any deletions |
| Credentials.EnsureProjectIff | internal/service/kubeconfigs.go:104-147 | project-scope ensure leaves a row if and only if there was one or the project can be renewed |
| Credentials.EnsureProjectByOwner | internal/service/kubeconfigs.go:104-147 | project-scope ensure renews for the owner of a known project without a row, and changes nothing for anybody else |
| Credentials.OnlyTheOwnerEnsures | internal/service/kubeconfigs.go:104-147 | in every run from empty stores each project has an owner, and an ensure by any other user changes nothing |
| Credentials.ProjectEnsureAfterDelete | internal/service/kubeconfigs.go:104-147 | after its row is deleted a project can be issued credentials again if and only if another row still counts for its account |
| Credentials.DeletedProjectIsStranded | internal/service/kubeconfigs.go:104-147 | from empty stores: create a project, delete its row, ensure it; the project is there and has no row |
| Credentials.CreateSharedIff | internal/service/service.go:497-733 | with shared namespaces a project is created if and only if the user's namespace on the cluster holds none |
| Credentials.SecondSharedProjectIsRefused | internal/service/service.go:497-733 | with shared namespaces a second project of a user on a cluster is never created |
| Credentials.CreateOwnedIff | internal/service/service.go:497-733 | creating a project issues a row; the project exists afterwards if and only if its namespace was free |
| Credentials.RepeatedCreateOrphans | internal/service/service.go:497-733 | creating the same project twice leaves a kubeconfig row whose project does not exist |
| CredentialService.Service.constructor | internal/service/kubeconfigs.go:52-102 | empty tables and clusters, which satisfy the invariant |
| CredentialService.Service.FindRow | internal/store/kubeconfigs.go:41-69 | finds a row of the scope if and only if there is one |
| CredentialService.Service.CountByAccount | internal/store/kubeconfigs.go:83-90 | counts the rows with the namespace and account, on any cluster |
| CredentialService.Service.Mint | internal/service/service.go:1405-1442 | mints a fresh Secret holding the token if and only if the ServiceAccount is live; otherwise nothing changes |
| CredentialService.Service.DeleteSecret | internal/service/kubeconfigs.go:212-226 | removes that Secret, present or not, and no other |
| CredentialService.Service.SaveRow | internal/store/kubeconfigs.go:8-75 | updates the row of the scope or inserts one; the table then has a row of the scope |
| CredentialService.Service.InsertProjectRow | internal/store/migrations/0012_add_projects_namespace_unique.up.sql:1-3 | inserts the project if and only if no project holds the cluster and namespace |
| CredentialService.Service.ProvisionUserSpace | internal/service/service.go:737-853 | succeeds exactly when the user and cluster are given and known; the whole new state is the provision step |
| CredentialService.Service.RenewUserKubeconfig | internal/service/user_bootstrap.go:111-180 | the whole new state is the renew step; on success row and user space hold a kubeconfig with the new token |
| CredentialService.Service.RenewProjectKubeconfig | internal/service/apps.go:2052-2132 | the whole new state is the renew step; on success row and project hold a kubeconfig with the new token |
| CredentialService.Service.CreateProject | internal/service/service.go:497-733 | the whole new state is the create step; a blank user, cluster or name is refused, an unknown cluster too, both without a change; on success the project row has its user, cluster and the namespace of its mode, with credentials only of its own |
| CredentialService.Service.CreateSharedProject | internal/service/service.go:497-733 | the create step when projects share the namespace of their user; the project has that namespace and no credentials |
| CredentialService.Service.CreateOwnedProject | internal/service/service.go:497-733 | the create step when a project has its own namespace; the project has it and the kubeconfig just issued |
| CredentialService.Service.RotateKubeconfigByID | internal/service/kubeconfigs.go:149-181 | the whole new state is the rotate step; the result names the row and its new Secret and token |
| CredentialService.Service.DeleteKubeconfigBinding | internal/service/kubeconfigs.go:183-210 | the whole new state is the delete step, which succeeds exactly when it can |
| CredentialService.Service.EnsureUserKubeconfig | internal/service/kubeconfigs.go:52-102 | the whole new state is the ensure step; the result is the row of the user scope |
| CredentialService.Service.EnsureProjectKubeconfig | internal/service/kubeconfigs.go:104-147 | the whole new state is the ensure step; success only for the owner of a known project, with the row of the project; a blank user, an unknown project and somebody else's project are refused, each with its own error and without a change |
| CredentialService.Service.BootstrapUser | internal/service/user_bootstrap.go:31-80 | succeeds exactly when a cluster is given and the user space then has a kubeconfig, which it returns |
| Events.CursorRoundTripIff | internal/store/events.go:188-209 | decoding undoes encoding for a valid time if and only if the id is not empty, trimmed and free of the bar |
| Timestamps.ParseFormat | internal/store/events.go:188-209 | reading back a formatted time gives the same instant to the nanosecond |
| Timestamps.ParseShifted | internal/store/events.go:195-209 | a text denotes its date and time with the fraction added and the offset from UTC taken away |
| Timestamps.ZoneReads | internal/store/events.go:195-209 | a numeric offset is read as its minutes, east of Greenwich positive and west negative |
| Timestamps.WrittenStamp | internal/store/events.go:188-193 | how a time stands in a cursor |
| Timestamps.DayAfter | internal/store/events.go:195-209 | the day count grows by one from each day to the next, over the ends of months, years and leap Februaries |
| Timestamps.FractionRoundTrip | internal/store/events.go:188-193 | a fraction of a second written without trailing zeros reads back exactly |
| Events.BindList | internal/store/events.go:101-126 | the loop binds exactly the non-blank values, in order, to consecutive placeholders |
| Events.ExtendAddsConjunct | internal/store/events.go:98-154 | a clause over exactly the appended arguments adds one conjunct, and earlier placeholders keep their values |
| Events.AddKinds | internal/store/events.go:101-113 | adds the condition that the kind is among the non-blank kinds, if there are any |
| Events.AddSeverities | internal/store/events.go:114-126 | adds the condition that the severity is among the non-blank severities, if there are any |
| Events.AddActor | internal/store/events.go:127-130 | adds the condition on the actor unless it is blank |
| Events.AddSince | internal/store/events.go:131-134 | adds the lower bound on the time unless it is the zero time |
| Events.AddCursor | internal/store/events.go:135-143 | adds the condition that the event comes strictly after the cursor |
| Events.AddSearch | internal/store/events.go:144-151 | adds the LIKE condition on message or kind unless the search is blank; for a term without wildcards, that the lowered message or the lowered kind contains the lowered, trimmed term |
| Events.BuildQuery | internal/store/events.go:98-154 | for every filter the WHERE clause with its arguments accepts exactly the events the filter describes, and the placeholders are exactly 1 to the number of arguments; unless the search has a wildcard those are the events wanted, field by field, with the term contained in message or kind |
| Events.MatchesWhatIsWanted | internal/store/events.go:98-154 | what a filter matches is what it asks for, field by field, as long as the search term holds no LIKE wildcard |
| Events.BuildStatement | internal/store/events.go:98-154 | the LIMIT placeholder is the last one and is bound to one more than the clamped limit |
| Events.Truncate | internal/store/events.go:180-186 | from one row more than the page it makes the page of the whole listing: its first rows, and no cursor when the listing ends there, else the cursor of the first row left out |
| Events.ListProjectEvents | internal/store/events.go:84-186 | fails exactly for a blank project, else returns the beginning of the filtered events, newest first, and the cursor; 50 by default and at most 500 |
| Like.SearchIsContainmentIff | internal/store/events.go:144-151 | the search pattern means containment if and only if the term has no LIKE metacharacter |
| Like.WildcardFindsTooMuch | internal/store/events.go:144-151 | for every term with a metacharacter, a text that the search finds and that does not contain the term |
| Like.UnderscoreFindsTooMuch | internal/store/events.go:144-151 | searching for a_b finds axb |
| EventPaging.NextSkipsOne | internal/store/events.go:180-186 | a page's cursor leads to what follows the first row left out |
| EventPaging.WalkVisitsExactly | internal/store/events.go:135-186 | for any such paging scheme the walk ends, keeps the order, repeats nothing and visits exactly the positions i with i mod (n + 1) != n |
| EventPaging.WalkIsCompleteIff | internal/store/events.go:135-186 | the walk is complete if and only if everything fits on one page |
| EventPaging.EventLogIsSound | internal/store/events.go:135-143 | the event query with changing cursors is such a scheme |
| EventPaging.WalkFromIsWalk | internal/store/events.go:84-186 | following the cursors of the pages ListProjectEvents returns is walking such a scheme |
| EventPaging.EventWalk | internal/store/events.go:84-186 | following the pages that ListProjectEvents returns visits exactly those positions of the listing, and everything if and only if the listing fits on one page |
| EventPaging.TwoEventsOneAPage | internal/store/events.go:180-186 | two events of one project read one at a time: the older one is in the log and never visited |
| EventPaging.EventListing | internal/store/events.go:98-154 | the listing walked over holds exactly the events the filter describes, later times first and, at one time, greater ids first |
| Releases.ListReleasesByApp | internal/store/releases.go:151-199 | returns the first rows of the app after the cursor, newest first, with the limit clamped |
| Releases.ListAppReleases | internal/service/releases.go:218-276 | the page and the cursor, 20 by default and at most 100; BadRequest exactly for blank ids, NotFound exactly for an unknown app or cursor, success only for an app of the project and a cursor of that project and app |
| Releases.StrangersAreForbidden | internal/service/releases.go:237-252 | an app of another project is forbidden, and so is a cursor of another project or app |
| Releases.FetchPage | internal/service/releases.go:255-275 | one row more than the page is fetched; the cursor is the last row kept, and there is one exactly when there is more |
| Releases.PageAdvances | internal/service/releases.go:227-275 | a page is the next rows and its cursor stands for exactly the rest |
| Releases.WalkVisitsEachOnce | internal/service/releases.go:227-275 | for every limit, following the cursors from none to the end terminates and visits every release of the app exactly once, later times first and, at one time, greater ids first |
| Releases.ZeroTimeStartsOver | internal/store/releases.go:161-182 | a cursor on a row with the zero time starts the listing over |
| Keyset.LessIsLexicographic | internal/store/releases.go:161-182 | ids are ordered like words in a dictionary |
| Metering.AddContainers | kubeop-operator/internal/metrics/metricsserver.go:88-95 | adds to cpu and memory the sums of what the containers report, and nothing to the other meters |
| Metering.PodUsageIsReported | kubeop-operator/internal/metrics/metricsserver.go:88-95 | the usage of a pod is the sum of the reported cpu, the sum of the reported memory and zero on the other meters |
| Metering.LabelsThatApply | kubeop-operator/internal/metrics/metricsserver.go:62-66 | a pod's own tenant and project labels win over its namespace's unless they are blank; its app label is its own |
| Metering.PodsShareSampleIff | kubeop-operator/internal/metrics/metricsserver.go:70-71 | pods whose app has no slash share a sample if and only if they have the same namespace and app |
| Metering.AddPod | kubeop-operator/internal/metrics/metricsserver.go:62-96 | a fully labelled pod is added to the sample of its namespace and app, any other pod is skipped |
| Metering.CollectUsage | kubeop-operator/internal/metrics/metricsserver.go:42-108 | the samples of all namespaces, each once, in some order |
| Metering.CollectExact | kubeop-operator/internal/metrics/metricsserver.go:52-97 | there is a sample for a key exactly when a labelled pod has it; it carries the first pod's labels and, per meter, the sum over the pods with the key |
| Metering.Accumulate | kubeop-operator/controllers/usagewriter_controller.go:396-412 | adds each of the five meters to its own total |
| Metering.Aggregate | kubeop-operator/controllers/usagewriter_controller.go:105-139 | the three tables hold, per key and meter, the sum over the counted samples with that key, and no other keys |
| Metering.NamespaceKeysTellApart | kubeop-operator/controllers/usagewriter_controller.go:319-324 | names without a slash get one key for each namespace and name, and a blank namespace adds nothing |
| Metering.SamplesShareTotalIff | kubeop-operator/controllers/usagewriter_controller.go:105-139 | samples go into one tenant, project or app total if and only if the trimmed tenant, or the namespace and trimmed name, are the same |
| UsageSums.GroupsUnique | kubeop-operator/controllers/usagewriter_controller.go:105-139 | the samples determine the totals, whatever order they are added in |
| UsageSums.GroupsConserve | kubeop-operator/controllers/usagewriter_controller.go:105-139 | a grouped table, added up in any order, gives the sum over what was grouped |
| Metering.TotalsConserveSamples | kubeop-operator/controllers/usagewriter_controller.go:105-139 | for each meter the tenant, project and app totals all add up to the sum over the counted samples |
| Metering.TotalsConservePods | kubeop-operator/internal/metrics/metricsserver.go:52-97 | for each meter the totals by tenant, project or app add up to the usage of all fully labelled pods |
| Metering.TotalsConserveReports | kubeop-operator/internal/metrics/metricsserver.go:52-97 | by tenant, project or app the totals add up to the cpu and the memory reported by all containers of the pods that have, from themselves or their namespace, the three labels |
| Metering.TotalIsBilledUsage | kubeop-operator/internal/metrics/metricsserver.go:52-97 | the total of a tenant, project or app is the usage of the pods whose app's first pod names that owner |
| Metering.BilledFairlyIff | kubeop-operator/internal/metrics/metricsserver.go:62-96 | every owner is billed the usage of its own pods, whatever the usage, if and only if the pods of each app agree on their owner |
| Metering.TenantsAndProjectsFairlyIff | kubeop-operator/internal/metrics/metricsserver.go:62-96 | the same for tenants and for projects |
| Metering.SecondTenantRidesFree | kubeop-operator/internal/metrics/metricsserver.go:62-96 | two pods of one app with different tenants: the first tenant is billed for both |
| BillingNames.Sanitize | kubeop-operator/controllers/usagewriter_controller.go:344-370 | the builder loop with its lastDash flag computes the collapsed, trimmed name or the fallback |
| BillingNames.SanitizedIsClean | kubeop-operator/controllers/usagewriter_controller.go:344-370 | a sanitized name is never empty and consists of letters and digits separated by single dashes |
| BillingNames.SanitizedKeepsAlnums | kubeop-operator/controllers/usagewriter_controller.go:344-370 | a sanitized name keeps exactly the letters and digits of the lowered value, in order, or is the fallback when there are none |
| BillingNames.CleanIsFixed | kubeop-operator/controllers/usagewriter_controller.go:344-370 | a clean name is its own sanitized form |
| BillingNames.WindowTextIsExact | kubeop-operator/controllers/usagewriter_controller.go:372-376 | two windows have the same text if and only if they are the same hour |
| BillingNames.BillingNameIsLabel | kubeop-operator/controllers/usagewriter_controller.go:326-342 | every name is a DNS label of at most 63 characters (section 2.1 of RFC 1123), truncated or not |
| BillingNames.NamesCoincideIff | kubeop-operator/controllers/usagewriter_controller.go:326-342 | untruncated names coincide if and only if type, sanitized reference and window do |
| BillingNames.ShortenedTellsApart | kubeop-operator/controllers/usagewriter_controller.go:328-341 | names that were cut can only coincide when the digests of the full names agree on their first four bytes |
| BillingNames.ShortNameIs | kubeop-operator/controllers/usagewriter_controller.go:326-330 | how a name that fits is put together from type, sanitized reference and window |
| BillingNames.DotAndDashCollide | kubeop-operator/controllers/usagewriter_controller.go:344-370 | two references that differ in a dot and a dash get the same name |
| BillingRecords.UpsertAllAt | kubeop-operator/controllers/usagewriter_controller.go:271-297 | under each name stands the last subject written to it over what was there |
| BillingRecords.UpsertAllIdempotent | kubeop-operator/controllers/usagewriter_controller.go:141-203 | writing the same subjects again changes nothing, even when names collide |
| BillingRecords.RepeatedReconcile | kubeop-operator/controllers/usagewriter_controller.go:91-203 | reconciling again with the same samples, objects and window changes no record |
| BillingRecords.AllShownIff | kubeop-operator/controllers/usagewriter_controller.go:141-203 | every subject's numbers are in its record if and only if subjects with one name are equal |
| BillingRecords.SubjectsAre | kubeop-operator/controllers/usagewriter_controller.go:141-203 | records are written for the listed tenants, projects and apps, each with its own table's total or zeros |
| BillingRecords.TenantRecordShowsPods | kubeop-operator/controllers/usagewriter_controller.go:91-203 | with names that tell subjects apart, a listed tenant's record shows the cpu and memory of exactly the pods whose app was first seen with that tenant |
| BillingRecords.UsageWriter.UpsertBillingUsage | kubeop-operator/controllers/usagewriter_controller.go:271-297 | afterwards the record under the derived name shows the subject's own numbers, its other meters are kept, and every other record is unchanged |
| BillingRecords.UsageWriter.UpsertTenants | kubeop-operator/controllers/usagewriter_controller.go:145-161 | writes one record per tenant with its total, or zeros |
| BillingRecords.UsageWriter.UpsertKeyed | kubeop-operator/controllers/usagewriter_controller.go:163-196 | writes one record per project or app with its total, or zeros |
| BillingRecords.UsageWriter.Reconcile | kubeop-operator/controllers/usagewriter_controller.go:91-203 | the totals are the grouped sums of the samples, and the records are those subjects written in order |
| TemplateMerge.CloneIsEqual | internal/service/templates.go:331-359 | a clone equals the original at every depth |
| TemplateMerge.MergeMaps | internal/service/templates.go:361-384 | the recursive loop computes the merge and terminates on the overlay tree |
| TemplateMerge.MergePathLaw | internal/service/templates.go:361-384 | at every path the merged tree holds the overlay's value where that is not a map, nothing below an overlay non-map, and the base's value where the overlay is silent |
| TemplateMerge.MergeUnits | internal/service/templates.go:361-384 | the empty map is a unit on both sides |
| TemplateMerge.MergeIdempotent | internal/service/templates.go:361-384 | merging the same overlay twice is merging it once |
| Dns.CollectDesired | internal/dns/providers.go:214-227 | the loop collects the type and text of every valid address |
| Dns.Desired | internal/dns/providers.go:214-227 | an A pair exactly for each valid IPv4 address and an AAAA pair exactly for each valid IPv6 address |
| Dns.TrailingDot | internal/dns/providers.go:543-552 | the trimmed name with one dot added unless it ends in one; blank stays empty, and repeating it changes nothing |
| Dns.CloudflareZone.DeleteStale | internal/dns/providers.go:236-248 | removes exactly the host's address records that are not wanted |
| Dns.CloudflareZone.CreateMissing | internal/dns/providers.go:250-259 | adds exactly one record for each wanted pair that was not listed |
| Dns.CloudflareZone.EnsureRecords | internal/dns/providers.go:207-261 | fails exactly when no address is valid; on success the host's address pairs are the wanted ones, records already right are kept, and no other host or type is touched |
| Dns.CloudflareZone.DeleteRecords | internal/dns/providers.go:263-283 | the host has no address records left and nothing else changes |
| Dns.ReconciledServes | internal/dns/providers.go:207-261 | deleting the stale and adding the missing serves exactly the wanted pairs |
| Dns.SecondRunChangesNothing | internal/dns/providers.go:207-261 | a second run with the same addresses leaves the zone as it is |
| Dns.SplitFamilies | internal/dns/providers.go:465-477 | the valid addresses are split by family in order |
| Dns.PowerDnsZone.EnsureRecords | internal/dns/providers.go:456-489 | fails exactly when no address is valid; else each family that has an address is replaced |
| Dns.PowerDnsZone.DeleteRecords | internal/dns/providers.go:491-501 | both address families of the name are gone and nothing else changes |
| Dns.PowerReachesDesiredIff | internal/dns/providers.go:456-489 | the zone serves exactly the wanted pairs afterwards if and only if every family the name had occurs among the valid addresses |
| Dns.DroppedFamilyLingers | internal/dns/providers.go:456-489 | a host that moves from IPv4 to IPv6 keeps its old A records |
| Dns.PowerFrame | internal/dns/providers.go:456-489 | replacing touches no other name or type, and repeating it changes nothing |
| LogTail.ReadBytes | internal/api/projects.go:169-185 | reads up to and including the next newline and reports the end exactly when there is none |
| LogTail.Push | internal/api/projects.go:171-178 | after overwriting the next slot the ring holds the last chunks up to its size |
| LogTail.FillRing | internal/api/projects.go:165-185 | after the whole file the ring holds its last chunks |
| LogTail.UnrollRing | internal/api/projects.go:189-195 | unrolling from the computed start gives the chunks oldest first |
| LogTail.TailProjectLog | internal/api/projects.go:153-196 | returns the concatenation of the last min(n, total) lines; over the limit and a missing file are errors, and n <= 0 gives nothing |
| LogTail.ChunksAreLines | internal/api/projects.go:169-185 | the chunks put the file back together, have a newline only at their end, and only the last may lack it |
| LogTail.TailIsSuffix | internal/api/projects.go:153-196 | the tail is a suffix of the file of n lines, and the whole of it when there are not more |
| YamlDocs.SplitYamlDocs | internal/service/apps.go:2244-2261 | the line loop computes the cut of the text at its separator lines |
| YamlDocs.JoinRendered | internal/service/apps.go:2855-2867 | the loop writes the documents with a separator line between them |
| YamlDocs.SplitGivesWhole | internal/service/apps.go:2244-2261 | no document that is cut out contains a separator line |
| YamlDocs.YamlRoundTripIff | internal/service/apps.go:2244-2261 | splitting the joined documents gives them back if and only if there is at least one and no line of any trims to the separator |
| YamlDocs.TrailingSeparator | internal/service/apps.go:2244-2261 | a separator at the end starts no document |
| YamlDocs.LeadingSeparator | internal/service/apps.go:2244-2261 | a separator at the beginning ends an empty document |
| EnvAttach.NormalizeAttachmentKeys | internal/service/apps.go:763-778 | the loop computes the normalised keys |
| EnvAttach.NormalizedMeaning | internal/service/apps.go:763-778 | the normalised keys are distinct and are exactly the non-blank trimmed keys |
| EnvAttach.Container.SetEnv | internal/service/apps.go:797-816 | replaces the first variable of the name or appends one |
| EnvAttach.Container.AttachAll | internal/service/apps.go:788-796 | adds a reference to the whole source unless there is one |
| EnvAttach.Container.AttachKeys | internal/service/apps.go:797-817 | sets one variable per key in order |
| EnvAttach.AttachEnv | internal/service/apps.go:782-818 | the new environment is the attach of the old one; a nil container is left alone |
| EnvAttach.DetachEnv | internal/service/apps.go:821-841 | the new environment is the detach of the old one; a nil container is left alone |
| EnvAttach.AttachBinds | internal/service/apps.go:845-881 | each requested key is bound under its prefixed name to that key of the ConfigMap or Secret, and no other name is affected |
| EnvAttach.AttachWhole | internal/service/apps.go:788-796 | without keys a reference to the whole ConfigMap or Secret is appended unless there is one, and no variable changes; with keys no such reference is added |
| EnvAttach.AttachIdempotent | internal/service/apps.go:782-881 | attaching twice is attaching once |
| EnvAttach.DetachExact | internal/service/apps.go:884-904 | afterwards nothing refers to the source and everything else is kept, as often as it was there and in its order; nothing changes if and only if nothing referred to it |
| EnvAttach.DetachDrops | internal/service/apps.go:821-841 | the entries dropped are those whose ConfigMap or Secret reference, by kind, has the name |
| Keyset.FilterKeepsOrder | internal/service/apps.go:821-841 | a filter loop keeps exactly the accepted entries, at increasing positions |
| EnvAttach.DetachUndoesAttachIff | internal/service/apps.go:782-904 | detaching undoes attaching if and only if nothing referred to the source and no variable had one of the new names |
| EnvAttach.RunKeepsUnique | internal/service/apps.go:763-904 | over every sequence of attach and detach calls of both kinds unique variable names stay unique |
| AppReconcile.Cluster.PruneWorkload | kubeop-operator/controllers/app_controller.go:165-185 | deletes exactly the other managed Deployments of the namespace |
| AppReconcile.Cluster.ReconcileWorkload | kubeop-operator/controllers/app_controller.go:100-124 | a refused dry run changes nothing; else the new cluster is the reconciled one |
| AppReconcile.ReconcileReaches | kubeop-operator/controllers/app_controller.go:100-148 | the managed Deployments of the namespace are the App's one, with the image, port, labels and owner the App asks for |
| AppReconcile.ReconcileFrame | kubeop-operator/controllers/app_controller.go:165-185 | other namespaces and other unmanaged Deployments are untouched |
| AppReconcile.OthersFieldsStay | kubeop-operator/controllers/app_controller.go:100-124 | labels that others set on the Deployment and fields the operator never sets are kept |
| AppReconcile.ReconcileIdempotent | kubeop-operator/controllers/app_controller.go:100-124 | reconciling twice is reconciling once |
| AppReconcile.SingleAppConverges | kubeop-operator/controllers/app_controller.go:100-185 | in a namespace with one App, any run with that App in it ends as after its first reconcile, whatever happens in other namespaces |
| AppReconcile.SettledTogetherIff | kubeop-operator/controllers/app_controller.go:165-185 | two Apps have a common fixpoint if and only if they are in different namespaces |
| AppReconcile.SharedNamespaceEvicts | kubeop-operator/controllers/app_controller.go:165-185 | reconciling one App of a shared namespace deletes the other's Deployment |
| Quota.DefaultQuota | internal/service/service.go:1280-1305 | the override loop, in any order, gives the defaults with the non-blank overrides on top |
| Quota.HasOtherThan | internal/service/service.go:1507-1542 | finds a resource outside the allowed ones if and only if there is one |
| Quota.FilterQuotaScopes | internal/service/service.go:1480-1505 | splits the scopes in order into the supported and the unsupported ones; NotBestEffort is dropped exactly when a limit is not a compute limit, BestEffort exactly when one is not pods, and nothing else is |
| Quota.ScopesArePartitioned | internal/service/service.go:1480-1542 | kept and dropped scopes are a partition of the configured ones by whether the limits support them, each in their order |
| Quota.EncodeQuotaOverrides | internal/service/quota.go:12-32 | the loop, in some order, computes the cleaned overrides; nothing is stored when nothing is left |
| Quota.CleanedAt | internal/service/quota.go:12-32 | a key survives cleaning exactly when it is not blank and is the trimmed form of a given one, and then carries a trimmed given value |
| Quota.BuildNamespaceLimitPolicy | internal/service/service.go:1239-1278 | fails exactly for a blank namespace, else builds the quota with limits and supported scopes |
| Quota.ProjectQuota.UpdateProjectQuota | internal/service/service.go:1064-1093 | installs the quota of the overrides and stores them cleaned, or changes nothing on refusal |
| Quota.ProjectQuota.SetProjectSuspended | internal/service/service.go:990-1033 | suspending leaves pods limited to zero and no other limit, resuming installs the quota of the stored overrides, and a refusal changes nothing |
| Quota.RestoresIff | internal/service/service.go:990-1093 | update, suspend, resume restores the installed quota for every map iteration order if and only if each override with a value has a trimmed non-empty key and none is shadowed by a blank override, unless the default says the same |
| Quota.TogglesRestore | internal/service/service.go:990-1033 | over every run of suspends and resumes after an update with such overrides the quota is the stopped one or exactly the updated one |
| Quota.InForceThroughoutIff | internal/service/service.go:990-1093 | over every run of updates, suspends and resumes with such overrides, the quota is that of the latest overrides or, while suspended, the stopped one, if and only if no update of a suspended project installs another quota |
| Quota.SuspendedRunsNoPods | internal/service/service.go:990-1093 | over every run in which no update revives it, a suspended project has pods limited to zero and no other limit |
| Quota.DefaultsAre | internal/service/service.go:1280-1300 | which limits can be configured by default, and how their text is read |
| Quota.UpdateRevivesSuspended | internal/service/service.go:1064-1093 | updating a suspended project with five pods lets it run them while its row says suspended |
| Quota.ConfiguredIsSound | internal/service/service.go:1280-1305 | the configured resource names are trimmed, as the restore results need |
| Quota.UntrimmedKeyIsNotRestored | internal/service/service.go:1064-1093 | an override under a key with a leading space is lost on resuming |
| Names.SlugifyIsLabelIff | internal/util/slugify.go:11-22 | a slug is a DNS label if and only if the cut at 63 characters does not fall right after a dash |
| Names.SlugKeepsAlnumsIff | internal/util/slugify.go:11-22 | a slug holds the first letters and digits of the lowered input, all of them if and only if it was not cut, and is the fallback when there are none |
| Names.SlugMayEndInDash | internal/util/slugify.go:11-22 | two words whose first has 62 characters give a slug that ends in a dash |
| Names.ResourceSuffix | internal/service/app_names.go:21-38 | empty exactly for a blank id, else of fixed length, of letters, digits and dashes and without a dash at either end |
| Names.SuffixesAgreeIff | internal/service/app_names.go:21-38 | two ids that are not blank share a suffix if and only if their digests agree on 60 given bits |
| Names.DeriveKubeNameIsLabel | internal/service/app_names.go:40-63 | for every base name and non-blank id the name is a DNS label of at most 63 characters (section 2.1 of RFC 1123) that ends in the full suffix and begins with the slug as far as it fits |
| Names.DeriveKubeNameWithoutId | internal/service/app_names.go:40-63 | without an id the name is a label if and only if the slug is not cut after a dash |
| Names.DerivedNamesDistinct | internal/service/app_names.go:40-63 | ids with different suffixes never share a name, whatever the base names |

## Left out

- HTTP handlers, routing, authentication and JSON: request decoding and status codes only.
- The database, Kubernetes, metrics, Git, Helm and DNS clients: stores are maps and sequences, calls to them succeed, and network faults and partial failures are not modelled.
- Concurrency between replicas and between admission and persistence: steps are serial.
- Cryptography: stored kubeconfigs are in the clear, SHA-1 is a parameter of known length, UUIDs are fresh numbers.
- The text of SQL statements: a query is its clauses and arguments, evaluated as PostgreSQL would, with identifiers ordered by their characters.
- Unicode lower-casing outside ASCII: a parameter, different for Go and the database.
- Registry allow-lists, semantic versions, image references, Job pod security and service policies in the webhooks: the errors they add are the parameter `foreign`.
- DeleteProject and DeleteUser: they drop namespaces without touching the kubeconfig rows, so they are not steps of the credential protocol.
- Looking up users by e-mail, labels and quotas of new namespaces, and role bindings in provisioning: no credential depends on them.
- Status conditions of Tenants, Projects and Apps, and the usage writer's error conditions.
- Quantities: integers read by a parameter; text that is not a quantity, on which the code panics, is not modelled.
- Sorting and splitting the configured quota scopes and priority classes: the lists are given.
- The LimitRange beside the quota: it depends on the configuration alone.
- The template engine and template storage around the merge; sharing of memory between clones and originals, since values here cannot be aliased.
- Timestamps: time.Parse's leniency (a comma before the fraction, one-digit hours) is not modelled, only the form of section 5.6 of RFC 3339.
- Dns.CloudflareZone.EnsureRecords: the list request returns all records of the name on one page, and every record has an id.
- AppReconcile.Cluster.ReconcileWorkload: fields that other managers own inside the containers are not modelled, and deletes that fail are not either.
- EnvAttach.AttachEnv: the ConfigMap and the Secret version are one method with the kind as a parameter, as their code differs only in the field names.
- LogTail.TailProjectLog: read errors in the middle of a file are not modelled.
- Metering.CollectUsage: the metrics client always answers.
- Releases.WalkVisitsEachOnce: the table does not change during the walk, ids are unique, trimmed and not empty, and no row has the zero time; `Releases.ZeroTimeStartsOver` shows why the last is needed.
- EventPaging.EventWalk: the table does not change during the walk, and ids are unique and survive in a cursor, as UUIDs do.
- Health checks, counters, configuration loading, logging and version metadata: easy or not algorithmic.
