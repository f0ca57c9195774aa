/**
 The service calls of internal/service/kubeconfigs.go, user_bootstrap.go, service.go and apps.go
 that issue, rotate and delete kubeconfigs, over the table operations of internal/store/kubeconfigs.go.
 Each call is proved to be one step of the protocol in Credentials.
 */
module CredentialService {
  import opened Wrappers
  import opened Credentials
  import Text

  datatype Failure = BadRequest | NotFound | Forbidden | ClusterFailure | Conflict

  datatype Issue = Issue(id: Uuid, secret: SecretName, config: Option<Kubeconfig>)

  class Service {
    const config: Config
    var rows: map<Uuid, Row>
    var spaces: map<(string, string), UserSpace>
    var projects: map<Uuid, Project>
    var secrets: map<SecretKey, Secret>
    var accounts: set<AccountKey>
    var next: Uuid

    constructor (clusters: set<string>, shared: bool, uni: char -> char)
      requires "" !in clusters
      ensures config == ServiceConfig(clusters, shared, uni)
      ensures Contents() == EMPTY && Valid() && Inv(Contents(), config)
    {
      config := ServiceConfig(clusters, shared, uni);
      rows, spaces, projects, secrets, accounts, next := map[], map[], map[], map[], {}, 0;
      new;
      ServiceIsWellConfigured(clusters, shared, uni);
    }

    ghost function Contents(): World
      reads this
    {
      World(rows, spaces, projects, secrets, accounts, next)
    }

    /** What the statements of the calls rely on. Credentials.Inv, which is about runs, implies it. */
    ghost predicate Valid()
      reads this
    {
      && WellConfigured(config)
      && OneRowPerScope(rows)
      && (forall i :: i in rows ==> i < next && rows[i].config.Some?)
    }

    // ------------------------------------------------------------ store and cluster operations

    method NewUuid() returns (u: Uuid)
      modifies this`next
      ensures u == old(next) && next == u + 1
    {
      u := next;
      next := next + 1;
    }

    /** GetKubeconfigByProject and GetKubeconfigByUserScope. */
    method FindRow(scope: Scope) returns (id: Option<Uuid>)
      ensures id.Some? <==> HasRow(rows, scope)
      ensures id.Some? ==> id.value in rows && ScopeOf(rows[id.value]) == scope
    {
      if i :| i in rows && ScopeOf(rows[i]) == scope {
        id := Some(i);
      } else {
        id := None;
      }
    }

    method CountByAccount(namespace: string, account: string) returns (n: nat)
      ensures n == |set i | i in rows && rows[i].namespace == namespace && rows[i].account == account|
      ensures n == 0 <==> !AccountCounted(rows, namespace, account)
    {
      var matching := set i | i in rows && rows[i].namespace == namespace && rows[i].account == account;
      if i :| i in rows && rows[i].namespace == namespace && rows[i].account == account {
        assert i in matching;
      }
      n := |matching|;
    }

    /** Minting waits for the cluster to fill in a token, which happens only for a live account. */
    method Mint(cluster: string, namespace: string, account: string, token: string)
      returns (r: Result<SecretName, Failure>)
      modifies this`secrets, this`next
      ensures r.Ok? <==> namespace != "" && account != "" && AccountKey(cluster, namespace, account) in accounts
      ensures r.Ok? ==>
        && r.value == SecretName(account, old(next)) && next == old(next) + 1
        && secrets == old(secrets)[SecretKey(cluster, namespace, r.value) := Secret(account, token)]
      ensures r.Err? ==> secrets == old(secrets) && next == old(next)
    {
      if namespace == "" || account == "" {
        return Err(BadRequest);
      }
      if AccountKey(cluster, namespace, account) !in accounts {
        return Err(ClusterFailure);
      }
      var uuid := NewUuid();
      var name := SecretName(account, uuid);
      secrets := secrets[SecretKey(cluster, namespace, name) := Secret(account, token)];
      return Ok(name);
    }

    method DeleteSecret(cluster: string, namespace: string, name: SecretName) returns (r: Result<(), Failure>)
      modifies this`secrets
      ensures r.Ok? <==> namespace != "" && cluster in config.clusters
      ensures secrets == if r.Ok? then old(secrets) - {SecretKey(cluster, namespace, name)} else old(secrets)
    {
      if namespace == "" {
        return Err(BadRequest);
      }
      if cluster !in config.clusters {
        return Err(ClusterFailure);
      }
      secrets := secrets - {SecretKey(cluster, namespace, name)};
      return Ok(());
    }

    /** Look the scope up, then UpdateKubeconfigRecord or CreateKubeconfigRecord. */
    method SaveRow(r: Row)
      requires Valid() && r.config.Some?
      modifies this`rows, this`next
      ensures rows == Upsert(old(rows), old(next), r) && next == old(next) + 1
      ensures Valid() && HasRow(rows, ScopeOf(r))
    {
      var id := NewUuid();
      var found := FindRow(ScopeOf(r));
      if found.Some? {
        var i := found.value;
        rows := rows[i := rows[i].(account := r.account, secret := r.secret, config := r.config)];
        assert rows == Upsert(old(rows), id, r);
        assert ScopeOf(rows[i]) == ScopeOf(r);
      } else {
        rows := rows[id := r];
        assert ScopeOf(rows[id]) == ScopeOf(r);
      }
    }

    /** The insert into `projects`, refused by idx_projects_cluster_namespace when the namespace is taken. */
    method InsertProjectRow(p: Uuid, project: Project) returns (ok: bool)
      modifies this`projects
      ensures ok <==> !NamespaceTaken(old(projects), project.cluster, project.namespace)
      ensures projects == if ok then old(projects)[p := project] else old(projects)
    {
      ok := forall q :: q in projects ==>
        projects[q].cluster != project.cluster || projects[q].namespace != project.namespace;
      if ok {
        projects := projects[p := project];
      }
    }

    // ------------------------------------------------------------ issuing

    method ProvisionUserSpace(user: string, cluster: string, token: string) returns (r: Result<string, Failure>)
      requires Valid()
      modifies this
      ensures Contents() == Provision(old(Contents()), config, user, cluster, token)
      ensures r.Ok? <==> CanProvision(config, user, cluster)
      ensures r.Ok? ==> r.value == config.userNamespace(user) && HasCopy(Contents(), user, cluster)
      ensures Valid()
    {
      if cluster !in config.clusters {
        return Err(ClusterFailure);
      }
      var ns := config.userNamespace(user);
      if ns == BLANK_USER_NAMESPACE {
        return Err(BadRequest);
      }
      accounts := accounts + {AccountKey(cluster, ns, USER_ACCOUNT)};
      var minted := Mint(cluster, ns, USER_ACCOUNT, token);
      var kc := Some(Kubeconfig(cluster, ns, token));
      var key := (user, cluster);
      if key in spaces {
        // the insert is refused by the unique pair, and the existing space is updated
        spaces := spaces[key := spaces[key].(config := kc)];
      } else {
        spaces := spaces[key := UserSpace(ns, kc)];
      }
      SaveRow(Row(cluster, ns, user, None, USER_ACCOUNT, minted.value, kc));
      return Ok(ns);
    }

    method RenewUserKubeconfig(user: string, cluster: string, token: string) returns (r: Result<Kubeconfig, Failure>)
      requires Valid()
      modifies this
      ensures Contents() == RenewUser(old(Contents()), config, user, cluster, token)
      ensures r.Ok? <==> CanRenewUser(old(Contents()), config, user, cluster)
      ensures r.Ok? ==>
        && (user, cluster) in spaces && spaces[(user, cluster)].config == Some(r.value) && r.value.token == token
        && HasRow(rows, OfUser(cluster, spaces[(user, cluster)].namespace, user))
      ensures Valid()
    {
      if user == "" || cluster == "" {
        return Err(BadRequest);
      }
      var key := (user, cluster);
      if key !in spaces {
        return Err(NotFound);
      }
      if cluster !in config.clusters {
        return Err(ClusterFailure);
      }
      var ns := spaces[key].namespace;
      var minted := Mint(cluster, ns, USER_ACCOUNT, token);
      if minted.Err? {
        return Err(minted.error);
      }
      var kc := Kubeconfig(cluster, ns, token);
      spaces := spaces[key := spaces[key].(config := Some(kc))];
      SaveRow(Row(cluster, ns, user, None, USER_ACCOUNT, minted.value, Some(kc)));
      return Ok(kc);
    }

    method RenewProjectKubeconfig(p: Uuid, token: string) returns (r: Result<Kubeconfig, Failure>)
      requires Valid()
      modifies this
      ensures Contents() == RenewProject(old(Contents()), config, p, token)
      ensures r.Ok? <==> CanRenewProject(old(Contents()), config, p)
      ensures r.Ok? ==>
        && p in projects && projects[p].config == Some(r.value) && r.value.token == token
        && HasRow(rows, OfProject(p))
      ensures Valid()
    {
      if p !in projects {
        return Err(NotFound);
      }
      if config.shared {
        return Err(BadRequest);
      }
      var project := projects[p];
      if project.cluster !in config.clusters {
        return Err(ClusterFailure);
      }
      var minted := Mint(project.cluster, project.namespace, TENANT_ACCOUNT, token);
      if minted.Err? {
        return Err(minted.error);
      }
      var kc := Kubeconfig(project.cluster, project.namespace, token);
      projects := projects[p := project.(config := Some(kc))];
      SaveRow(Row(project.cluster, project.namespace, project.user, Some(p), TENANT_ACCOUNT, minted.value, Some(kc)));
      return Ok(kc);
    }

    /** CreateProject, from the point where the user is known. */
    method CreateProject(user: string, cluster: string, name: string, token: string) returns (r: Result<Uuid, Failure>)
      requires Valid()
      modifies this
      ensures Contents() == Credentials.CreateProject(old(Contents()), config, user, cluster, name, token)
      ensures r == Err(BadRequest) <==>
              Text.TrimSpace(user) == "" || Text.TrimSpace(cluster) == "" || Text.TrimSpace(name) == ""
      ensures r.Err? && r.error in {BadRequest, ClusterFailure} ==> Contents() == old(Contents())
      ensures r.Ok? ==> r.value == old(next) && r.value in projects
      ensures r.Ok? ==> projects[r.value].user == user && projects[r.value].cluster == cluster
      ensures r.Err? ==> projects == old(projects)
      ensures r.Ok? && config.shared ==>
                var ns := SharedNamespace(old(Contents()), config, user, cluster);
                projects[r.value] == Project(user, cluster, ns, None)
      ensures r.Ok? && !config.shared ==>
                var ns := config.projectNamespace(user, name);
                projects[r.value] == Project(user, cluster, ns, Some(Kubeconfig(cluster, ns, token)))
      ensures Valid()
    {
      if Text.TrimSpace(user) == "" || Text.TrimSpace(cluster) == "" || Text.TrimSpace(name) == "" {
        return Err(BadRequest);
      }
      if cluster !in config.clusters {
        return Err(ClusterFailure);
      }
      if config.shared {
        r := CreateSharedProject(user, cluster, token);
      } else {
        r := CreateOwnedProject(user, cluster, name, token);
      }
    }

    method CreateSharedProject(user: string, cluster: string, token: string) returns (r: Result<Uuid, Failure>)
      requires Valid() && cluster in config.clusters
      modifies this
      ensures Contents() == CreateShared(old(Contents()), config, user, cluster, token)
      ensures r.Ok? ==> r.value == old(next) && r.value in projects
      ensures r.Ok? ==>
                var ns := SharedNamespace(old(Contents()), config, user, cluster);
                projects[r.value] == Project(user, cluster, ns, None)
      ensures r.Err? ==> r.error == Conflict && projects == old(projects)
      ensures Valid()
    {
      var p := NewUuid();
      var ns;
      if (user, cluster) in spaces {
        ns := spaces[(user, cluster)].namespace;
      } else {
        var provisioned := ProvisionUserSpace(user, cluster, token);
        ns := config.userNamespace(user);
      }
      var ok := InsertProjectRow(p, Project(user, cluster, ns, None));
      return if ok then Ok(p) else Err(Conflict);
    }

    /** The insert comes after the credentials of the project were written. */
    method CreateOwnedProject(user: string, cluster: string, name: string, token: string)
      returns (r: Result<Uuid, Failure>)
      requires Valid() && cluster in config.clusters
      modifies this
      ensures Contents() == CreateOwned(old(Contents()), config, user, cluster, name, token)
      ensures r.Ok? ==> r.value == old(next) && r.value in projects
      ensures r.Ok? ==>
                var ns := config.projectNamespace(user, name);
                projects[r.value] == Project(user, cluster, ns, Some(Kubeconfig(cluster, ns, token)))
      ensures r.Err? ==> r.error == Conflict && projects == old(projects)
      ensures Valid()
    {
      var p := NewUuid();
      var ns := config.projectNamespace(user, name);
      accounts := accounts + {AccountKey(cluster, ns, TENANT_ACCOUNT)};
      var minted := Mint(cluster, ns, TENANT_ACCOUNT, token);
      var kc := Some(Kubeconfig(cluster, ns, token));
      SaveRow(Row(cluster, ns, user, Some(p), TENANT_ACCOUNT, minted.value, kc));
      var ok := InsertProjectRow(p, Project(user, cluster, ns, kc));
      return if ok then Ok(p) else Err(Conflict);
    }

    // ------------------------------------------------------------ the binding lifecycle

    method RotateKubeconfigByID(id: Uuid, token: string) returns (r: Result<Issue, Failure>)
      requires Valid()
      modifies this
      ensures Contents() == Rotate(old(Contents()), config, id, token)
      ensures r.Ok? <==> CanRotate(old(Contents()), config, id)
      ensures r.Ok? ==> r.value.id == id && id in rows && r.value.secret == rows[id].secret
      ensures r.Ok? ==> r.value.config.Some? && r.value.config.value.token == token
      ensures Valid()
    {
      if id !in rows {
        return Err(NotFound);
      }
      var rec := rows[id];
      var previous := rec.secret;
      var out: Result<Kubeconfig, Failure>;
      if rec.project.Some? {
        out := RenewProjectKubeconfig(rec.project.value, token);
      } else {
        out := RenewUserKubeconfig(rec.user, rec.cluster, token);
      }
      if out.Err? {
        return Err(out.error);
      }
      var deleted := DeleteSecret(rec.cluster, rec.namespace, previous); // a failure is only logged
      return Ok(Issue(id, rows[id].secret, Some(out.value)));
    }

    method DeleteKubeconfigBinding(id: Uuid) returns (r: Result<(), Failure>)
      requires Valid()
      modifies this
      ensures Contents() == Delete(old(Contents()), config, id)
      ensures r.Ok? <==> CanDelete(old(Contents()), config, id)
      ensures Valid()
    {
      if id !in rows {
        return Err(NotFound);
      }
      var rec := rows[id];
      var deleted := DeleteSecret(rec.cluster, rec.namespace, rec.secret);
      if deleted.Err? {
        return Err(deleted.error);
      }
      if rec.project.Some? {
        if rec.project.value in projects {
          projects := projects[rec.project.value := projects[rec.project.value].(config := None)];
        }
      } else if (rec.user, rec.cluster) in spaces {
        spaces := spaces[(rec.user, rec.cluster) := spaces[(rec.user, rec.cluster)].(config := None)];
      }
      rows := rows - {id};
      var count := CountByAccount(rec.namespace, rec.account);
      if count == 0 {
        accounts := accounts - {AccountKey(rec.cluster, rec.namespace, rec.account)};
      }
      return Ok(());
    }

    method EnsureUserKubeconfig(user: string, cluster: string, token: string, again: string)
      returns (r: Result<Issue, Failure>)
      requires Valid()
      modifies this
      ensures Contents() == EnsureUser(old(Contents()), config, user, cluster, token, again)
      ensures r.Ok? <==> CanEnsureUser(old(Contents()), config, user, cluster, token, again)
      ensures r.Ok? ==>
        && HasCopy(Contents(), user, cluster)
        && r.value.id in rows && ScopeOf(rows[r.value.id]) == OfUser(cluster, spaces[(user, cluster)].namespace, user)
        && r.value == Issue(r.value.id, rows[r.value.id].secret, rows[r.value.id].config)
      ensures Valid()
    {
      if user == "" || cluster == "" {
        return Err(BadRequest);
      }
      var key := (user, cluster);
      if key !in spaces || spaces[key].config.None? {
        var provisioned := ProvisionUserSpace(user, cluster, token);
        if provisioned.Err? {
          return Err(provisioned.error);
        }
      }
      var found := FindRow(OfUser(cluster, spaces[key].namespace, user));
      if found.None? {
        var renewed := RenewUserKubeconfig(user, cluster, again);
        if renewed.Err? {
          return Err(renewed.error);
        }
        found := FindRow(OfUser(cluster, spaces[key].namespace, user));
      }
      var rec := rows[found.value];
      return Ok(Issue(found.value, rec.secret, rec.config));
    }

    method EnsureProjectKubeconfig(user: string, p: Uuid, token: string) returns (r: Result<Issue, Failure>)
      requires Valid()
      modifies this
      ensures Contents() == EnsureProject(old(Contents()), config, user, p, token)
      ensures r.Ok? <==> MayEnsureProject(old(Contents()), user, p) && HasRow(rows, OfProject(p))
      ensures r.Ok? ==> user != "" && p in old(projects) && old(projects)[p].user in {"", user}
      ensures user == "" ==> r == Err(BadRequest)
      ensures user != "" && p !in old(projects) ==> r == Err(NotFound)
      ensures user != "" && p in old(projects) && old(projects)[p].user !in {"", user} ==> r == Err(Forbidden)
      ensures user == "" || p !in old(projects) || old(projects)[p].user !in {"", user} ==>
                Contents() == old(Contents())
      ensures r.Ok? ==>
        && r.value.id in rows && ScopeOf(rows[r.value.id]) == OfProject(p)
        && r.value == Issue(r.value.id, rows[r.value.id].secret, rows[r.value.id].config)
      ensures Valid()
    {
      if user == "" {
        return Err(BadRequest);
      }
      if p !in projects {
        return Err(NotFound);
      }
      if projects[p].user != "" && projects[p].user != user {
        return Err(Forbidden);
      }
      var found := FindRow(OfProject(p));
      if found.None? {
        var renewed := RenewProjectKubeconfig(p, token);
        if renewed.Err? {
          return Err(renewed.error);
        }
        found := FindRow(OfProject(p));
      }
      var rec := rows[found.value];
      return Ok(Issue(found.value, rec.secret, rec.config));
    }

    /** BootstrapUser, from the point where the user is known: the copy is returned, or provisioned first. */
    method BootstrapUser(user: string, cluster: string, token: string)
      returns (r: Result<(string, Kubeconfig), Failure>)
      requires Valid()
      modifies this
      ensures Contents() == if cluster == "" then old(Contents())
                            else Prepared(old(Contents()), config, user, cluster, token)
      ensures r.Ok? <==> cluster != "" && HasCopy(Contents(), user, cluster)
      ensures r.Ok? ==> UserSpace(r.value.0, Some(r.value.1)) == spaces[(user, cluster)]
      ensures Valid()
    {
      if cluster == "" {
        return Err(BadRequest);
      }
      var key := (user, cluster);
      if key in spaces && spaces[key].config.Some? {
        return Ok((spaces[key].namespace, spaces[key].config.value));
      }
      var provisioned := ProvisionUserSpace(user, cluster, token);
      if provisioned.Err? {
        return Err(provisioned.error);
      }
      return Ok((spaces[key].namespace, spaces[key].config.value));
    }
  }
}
