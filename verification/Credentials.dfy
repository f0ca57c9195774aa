/**
 The kubeconfig credential protocol: rows of the `kubeconfigs`, `user_spaces` and `projects`
 tables on one side, Secrets and ServiceAccounts of the clusters on the other. This module
 holds the state, what each service call does to it as one step, and what every run keeps.
 CredentialService holds the calls themselves, statement by statement.
 */
module Credentials {
  import opened Wrappers
  import Text
  import Names

  /** UUIDs are drawn in order: the next one is always fresh. */
  type Uuid = nat

  const USER_ACCOUNT := "user-sa"
  const TENANT_ACCOUNT := "tenant-sa"
  /** What the namespace of a blank user would be. */
  const BLANK_USER_NAMESPACE := "user-"

  datatype AccountKey = AccountKey(cluster: string, namespace: string, name: string)
  /** `<account>-token-<uuid>` */
  datatype SecretName = SecretName(account: string, uuid: Uuid)
  datatype SecretKey = SecretKey(cluster: string, namespace: string, name: SecretName)
  datatype Secret = Secret(account: string, token: string)
  /** The fields of a namespace-scoped kubeconfig that name what it opens. */
  datatype Kubeconfig = Kubeconfig(cluster: string, namespace: string, token: string)

  /** A kubeconfigs row. `config` is the stored kubeconfig, None for an empty column. */
  datatype Row = Row(cluster: string, namespace: string, user: string, project: Option<Uuid>,
                     account: string, secret: SecretName, config: Option<Kubeconfig>)
  datatype UserSpace = UserSpace(namespace: string, config: Option<Kubeconfig>)
  datatype Project = Project(user: string, cluster: string, namespace: string, config: Option<Kubeconfig>)

  /** What a row is looked up by: its project, or cluster, namespace and user when it has none. */
  datatype Scope = OfProject(project: Uuid) | OfUser(cluster: string, namespace: string, user: string)

  function ScopeOf(r: Row): Scope {
    if r.project.Some? then OfProject(r.project.value) else OfUser(r.cluster, r.namespace, r.user)
  }

  /**
   The registered clusters, whether projects share the namespace of their user, and how
   namespaces are named. `ServiceConfig` is the naming the service uses.
   */
  datatype Config = Config(clusters: set<string>, shared: bool,
                           userNamespace: string -> string, projectNamespace: (string, string) -> string)

  function ServiceConfig(clusters: set<string>, shared: bool, uni: char -> char): Config {
    Config(clusters, shared,
           user => "user-" + Text.TrimSpace(user),
           (user, name) => Names.Slugify("tenant-" + user + "-" + name, uni))
  }

  /** What the protocol relies on: no empty namespace, and a recognisable one for a blank user. */
  ghost predicate WellConfigured(c: Config) {
    && "" !in c.clusters
    && (forall user, name :: c.projectNamespace(user, name) != "")
    && (forall user :: c.userNamespace(user) != "")
    && c.userNamespace("") == BLANK_USER_NAMESPACE
  }

  lemma ServiceIsWellConfigured(clusters: set<string>, shared: bool, uni: char -> char)
    requires "" !in clusters
    ensures WellConfigured(ServiceConfig(clusters, shared, uni))
  {
    forall user: string, name: string ensures Names.Slugify("tenant-" + user + "-" + name, uni) != "" {
      Names.SlugifyIsLabelIff("tenant-" + user + "-" + name, uni);
    }
  }

  /** Two users share a namespace if and only if they differ in outer space only, and a blank user gets none. */
  lemma UserNamespaces(clusters: set<string>, shared: bool, uni: char -> char, user: string, other: string)
    ensures var c := ServiceConfig(clusters, shared, uni);
            && "user-" <= c.userNamespace(user)
            && (c.userNamespace(user) == c.userNamespace(other) <==> Text.TrimSpace(user) == Text.TrimSpace(other))
            && (forall cluster :: CanProvision(c, user, cluster) <==>
                  cluster in clusters && Text.TrimSpace(user) != "")
  {
    var c := ServiceConfig(clusters, shared, uni);
    assert c.userNamespace(user)[5..] == Text.TrimSpace(user);
    assert c.userNamespace(other)[5..] == Text.TrimSpace(other);
  }

  /** Two projects of a user whose names differ in a letter or digit get two namespaces, as long as neither was cut. */
  lemma ProjectNamespaces(clusters: set<string>, shared: bool, uni: char -> char, user: string, name: string,
                          other: string)
    requires Named(user, name, uni) && Named(user, other, uni)
    requires Text.Alnums(Text.ToLower(name, uni)) != Text.Alnums(Text.ToLower(other, uni))
    ensures var c := ServiceConfig(clusters, shared, uni);
            c.projectNamespace(user, name) != c.projectNamespace(user, other)
  {
    var head := "tenant" + Text.Alnums(Text.ToLower(user, uni));
    Names.ProjectSlug(user, name, uni);
    Names.ProjectSlug(user, other, uni);
    EndsDiffer(head, Text.Alnums(Text.ToLower(name, uni)), Text.Alnums(Text.ToLower(other, uni)));
  }

  lemma EndsDiffer(head: string, a: string, b: string)
    requires a != b
    ensures head + a != head + b
  {
    assert (head + a)[|head|..] == a && (head + b)[|head|..] == b;
  }

  /** A project name that fits into the namespace. */
  predicate Named(user: string, name: string, uni: char -> char) {
    && name != "" && Text.TrimSpace(name) == name
    && |Names.FullSlug("tenant-" + user + "-" + name, uni)| <= Names.MAX_LABEL
  }

  datatype World = World(
    rows: map<Uuid, Row>,
    spaces: map<(string, string), UserSpace>,   // by user and cluster, which are UNIQUE
    projects: map<Uuid, Project>,
    secrets: map<SecretKey, Secret>,
    accounts: set<AccountKey>,
    next: Uuid)

  const EMPTY := World(map[], map[], map[], map[], {}, 0)

  function SecretOf(r: Row): SecretKey { SecretKey(r.cluster, r.namespace, r.secret) }
  function AccountOf(r: Row): AccountKey { AccountKey(r.cluster, r.namespace, r.account) }

  // ---------------------------------------------------------------- the invariant

  /** The row opens something: its Secret is live, holds the stored token, and its account is live. */
  ghost predicate Live(w: World, r: Row) {
    && SecretOf(r) in w.secrets
    && AccountOf(r) in w.accounts
    && w.secrets[SecretOf(r)].account == r.account
    && r.config == Some(Kubeconfig(r.cluster, r.namespace, w.secrets[SecretOf(r)].token))
  }

  /** The copy of the kubeconfig kept beside the row is the row's. */
  ghost predicate CopyAgrees(w: World, r: Row) {
    match r.project
    case None =>
      && (r.user, r.cluster) in w.spaces
      && w.spaces[(r.user, r.cluster)] == UserSpace(r.namespace, r.config)
      && r.account == USER_ACCOUNT
    case Some(p) =>
      && r.account == TENANT_ACCOUNT
      && p < w.next
      && (p in w.projects ==> w.projects[p] == Project(r.user, r.cluster, r.namespace, r.config))
  }

  predicate HasRow(rows: map<Uuid, Row>, s: Scope) {
    exists i :: i in rows && ScopeOf(rows[i]) == s
  }

  /** Every stored copy belongs to a row. */
  ghost predicate CopiesHaveRows(w: World) {
    && (forall k :: k in w.spaces && w.spaces[k].config.Some? ==>
          HasRow(w.rows, OfUser(k.1, w.spaces[k].namespace, k.0)))
    && (forall p :: p in w.projects && w.projects[p].config.Some? ==>
          HasRow(w.rows, OfProject(p)))
  }

  ghost predicate RowsDisjoint(w: World) {
    forall i, j :: i in w.rows && j in w.rows && i != j ==>
      && w.rows[i].secret != w.rows[j].secret
      && ScopeOf(w.rows[i]) != ScopeOf(w.rows[j])
  }

  ghost predicate Fresh(w: World) {
    && (forall i :: i in w.rows ==> i < w.next && w.rows[i].secret.uuid < w.next)
    && (forall k :: k in w.secrets ==> k.name.uuid < w.next)
    && (forall p :: p in w.projects ==> p < w.next)
  }

  /** Names and clusters are the ones the service hands out. */
  ghost predicate WellNamed(w: World, c: Config) {
    && (forall k :: k in w.spaces ==>
          k.1 in c.clusters && k.0 != "" && w.spaces[k].namespace == c.userNamespace(k.0) != BLANK_USER_NAMESPACE)
    && (forall p :: p in w.projects ==> w.projects[p].cluster in c.clusters && w.projects[p].namespace != "")
    && (forall i :: i in w.rows ==> w.rows[i].cluster in c.clusters && w.rows[i].namespace != "")
    && (c.shared ==> forall i :: i in w.rows ==> w.rows[i].project.None?)
  }

  ghost predicate Inv(w: World, c: Config) {
    && (forall i :: i in w.rows ==> Live(w, w.rows[i]) && CopyAgrees(w, w.rows[i]))
    && RowsDisjoint(w)
    && CopiesHaveRows(w)
    && Fresh(w)
    && WellNamed(w, c)
  }

  // ---------------------------------------------------------------- building blocks

  /**
   Writes `r` under its scope: an existing row keeps its identity and takes the new secret,
   account and kubeconfig, and otherwise `r` is inserted with the identifier `id`.
   */
  function Upsert(rows: map<Uuid, Row>, id: Uuid, r: Row): map<Uuid, Row> {
    if HasRow(rows, ScopeOf(r))
    then map i | i in rows ::
           if ScopeOf(rows[i]) == ScopeOf(r)
           then rows[i].(account := r.account, secret := r.secret, config := r.config)
           else rows[i]
    else rows[id := r]
  }

  function AddAccount(w: World, k: AccountKey): World { w.(accounts := w.accounts + {k}) }

  /** The row a freshly minted Secret of `k` with this token is recorded in. */
  function IssuedRow(w: World, k: AccountKey, user: string, project: Option<Uuid>, token: string): Row {
    Row(k.cluster, k.namespace, user, project, k.name, SecretName(k.name, w.next),
        Some(Kubeconfig(k.cluster, k.namespace, token)))
  }

  /** Mint a Secret for a user and record it in the row and in the user's space. */
  function IssueUser(w: World, user: string, cluster: string, namespace: string, token: string): World {
    var r := IssuedRow(w, AccountKey(cluster, namespace, USER_ACCOUNT), user, None, token);
    var k := (user, cluster);
    World(Upsert(w.rows, w.next + 1, r),
          w.spaces[k := UserSpace(if k in w.spaces then w.spaces[k].namespace else namespace, r.config)],
          w.projects,
          w.secrets[SecretOf(r) := Secret(USER_ACCOUNT, token)],
          w.accounts, w.next + 2)
  }

  /** Mint a Secret for a project and record it in the row and, when `record` is set, in the project. */
  function IssueProject(w: World, p: Uuid, project: Project, token: string, record: bool): World {
    var r := IssuedRow(w, AccountKey(project.cluster, project.namespace, TENANT_ACCOUNT), project.user, Some(p), token);
    World(Upsert(w.rows, w.next + 1, r),
          w.spaces,
          if record then w.projects[p := project.(config := r.config)] else w.projects,
          w.secrets[SecretOf(r) := Secret(TENANT_ACCOUNT, token)],
          w.accounts, w.next + 2)
  }

  function DropSecret(w: World, k: SecretKey): World { w.(secrets := w.secrets - {k}) }

  predicate CanDeleteSecret(c: Config, k: SecretKey) { k.namespace != "" && k.cluster in c.clusters }

  /** A Secret without a namespace or on an unknown cluster stays. */
  function DeleteSecret(w: World, c: Config, k: SecretKey): World {
    if CanDeleteSecret(c, k) then DropSecret(w, k) else w
  }

  /** Delete a row and clear the copy beside it. */
  function DropRow(w: World, id: Uuid): World
    requires id in w.rows
  {
    var r := w.rows[id];
    var k := (r.user, r.cluster);
    w.(rows := w.rows - {id},
       projects := if r.project.Some? && r.project.value in w.projects
                   then w.projects[r.project.value := w.projects[r.project.value].(config := None)] else w.projects,
       spaces := if r.project.None? && k in w.spaces
                 then w.spaces[k := w.spaces[k].(config := None)] else w.spaces)
  }

  // ---------------------------------------------------------------- the steps

  /** An unknown cluster and a blank user are refused before anything is written. */
  predicate CanProvision(c: Config, user: string, cluster: string) {
    cluster in c.clusters && c.userNamespace(user) != BLANK_USER_NAMESPACE
  }

  function Provision(w: World, c: Config, user: string, cluster: string, token: string): World {
    var ns := c.userNamespace(user);
    if !CanProvision(c, user, cluster) then w
    else IssueUser(AddAccount(w, AccountKey(cluster, ns, USER_ACCOUNT)), user, cluster, ns, token)
  }

  predicate CanRenewUser(w: World, c: Config, user: string, cluster: string) {
    && user != "" && cluster != ""
    && (user, cluster) in w.spaces
    && cluster in c.clusters
    && w.spaces[(user, cluster)].namespace != ""
    && AccountKey(cluster, w.spaces[(user, cluster)].namespace, USER_ACCOUNT) in w.accounts
  }

  function RenewUser(w: World, c: Config, user: string, cluster: string, token: string): World {
    if !CanRenewUser(w, c, user, cluster) then w
    else IssueUser(w, user, cluster, w.spaces[(user, cluster)].namespace, token)
  }

  predicate CanRenewProject(w: World, c: Config, p: Uuid) {
    && p in w.projects
    && !c.shared
    && w.projects[p].cluster in c.clusters
    && w.projects[p].namespace != ""
    && AccountKey(w.projects[p].cluster, w.projects[p].namespace, TENANT_ACCOUNT) in w.accounts
  }

  function RenewProject(w: World, c: Config, p: Uuid, token: string): World {
    if !CanRenewProject(w, c, p) then w else IssueProject(w, p, w.projects[p], token, true)
  }

  /** Two live projects may not share a namespace of a cluster. */
  predicate NamespaceTaken(projects: map<Uuid, Project>, cluster: string, namespace: string) {
    exists p :: p in projects && projects[p].cluster == cluster && projects[p].namespace == namespace
  }

  predicate CanStartProject(c: Config, user: string, cluster: string, name: string) {
    && Text.TrimSpace(user) != "" && Text.TrimSpace(cluster) != "" && Text.TrimSpace(name) != ""
    && cluster in c.clusters
  }

  /**
   Create a project. The unique index on (cluster, namespace) is met only by the last
   statement, when the credentials of the project have already been issued.
   */
  function CreateProject(w: World, c: Config, user: string, cluster: string, name: string, token: string): World {
    if !CanStartProject(c, user, cluster, name) then w
    else if c.shared then CreateShared(w, c, user, cluster, token)
    else CreateOwned(w, c, user, cluster, name, token)
  }

  /** The project gets a namespace, an account and credentials of its own. */
  function CreateOwned(w: World, c: Config, user: string, cluster: string, name: string, token: string): World {
    var ns := c.projectNamespace(user, name);
    IssueProject(AddAccount(Draw(w), AccountKey(cluster, ns, TENANT_ACCOUNT)), w.next,
                 Project(user, cluster, ns, None), token, !NamespaceTaken(w.projects, cluster, ns))
  }

  /** The project lives in the namespace of its user, who is provisioned when new. */
  function CreateShared(w: World, c: Config, user: string, cluster: string, token: string): World {
    var ready := if (user, cluster) in w.spaces then Draw(w) else Provision(Draw(w), c, user, cluster, token);
    var ns := if (user, cluster) in w.spaces then w.spaces[(user, cluster)].namespace else c.userNamespace(user);
    if NamespaceTaken(ready.projects, cluster, ns) then ready
    else InsertProject(ready, w.next, Project(user, cluster, ns, None))
  }

  function Draw(w: World): World { w.(next := w.next + 1) }

  function InsertProject(w: World, p: Uuid, project: Project): World { w.(projects := w.projects[p := project]) }

  predicate CanRotate(w: World, c: Config, id: Uuid) {
    && id in w.rows
    && match w.rows[id].project
       case Some(p) => CanRenewProject(w, c, p)
       case None => CanRenewUser(w, c, w.rows[id].user, w.rows[id].cluster)
  }

  /** Renewal through a row: by its project, or by its user and cluster. */
  function Renewed(w: World, c: Config, id: Uuid, token: string): World
    requires id in w.rows
  {
    match w.rows[id].project
    case Some(p) => RenewProject(w, c, p, token)
    case None => RenewUser(w, c, w.rows[id].user, w.rows[id].cluster, token)
  }

  function Rotate(w: World, c: Config, id: Uuid, token: string): World {
    if !CanRotate(w, c, id) then w else DeleteSecret(Renewed(w, c, id, token), c, SecretOf(w.rows[id]))
  }

  /** How the last reference to an account is recognised: the query does not look at the cluster. */
  predicate AccountCounted(rows: map<Uuid, Row>, namespace: string, account: string) {
    exists i :: i in rows && rows[i].namespace == namespace && rows[i].account == account
  }

  predicate CanDelete(w: World, c: Config, id: Uuid) {
    id in w.rows && CanDeleteSecret(c, SecretOf(w.rows[id]))
  }

  function Delete(w: World, c: Config, id: Uuid): World {
    if !CanDelete(w, c, id) then w
    else
      var r := w.rows[id];
      var dropped := DropSecret(DropRow(w, id), SecretOf(r));
      if AccountCounted(dropped.rows, r.namespace, r.account) then dropped
      else dropped.(accounts := dropped.accounts - {AccountOf(r)})
  }

  predicate HasCopy(w: World, user: string, cluster: string) {
    (user, cluster) in w.spaces && w.spaces[(user, cluster)].config.Some?
  }

  /** The state in which the row is looked up: the user's space has a copy unless provisioning was refused. */
  function Prepared(w: World, c: Config, user: string, cluster: string, token: string): World {
    if HasCopy(w, user, cluster) then w else Provision(w, c, user, cluster, token)
  }

  predicate CanEnsureUser(w: World, c: Config, user: string, cluster: string, token: string, again: string) {
    var v := Prepared(w, c, user, cluster, token);
    && user != "" && cluster != ""
    && HasCopy(v, user, cluster)
    && (HasRow(v.rows, OfUser(cluster, v.spaces[(user, cluster)].namespace, user)) || CanRenewUser(v, c, user, cluster))
  }

  /**
   Return the user's credentials: provision when there is no copy, and renew when there is a copy
   but no row. `token` and `again` are what the cluster issues for the first and second Secret.
   */
  function EnsureUser(w: World, c: Config, user: string, cluster: string, token: string, again: string): World {
    if user == "" || cluster == "" then w
    else
      var v := Prepared(w, c, user, cluster, token);
      if HasCopy(v, user, cluster) && !HasRow(v.rows, OfUser(cluster, v.spaces[(user, cluster)].namespace, user))
      then RenewUser(v, c, user, cluster, again)
      else v
  }

  predicate MayEnsureProject(w: World, user: string, p: Uuid) {
    user != "" && p in w.projects && (w.projects[p].user == "" || w.projects[p].user == user)
  }

  function EnsureProject(w: World, c: Config, user: string, p: Uuid, token: string): World {
    if MayEnsureProject(w, user, p) && !HasRow(w.rows, OfProject(p)) then RenewProject(w, c, p, token) else w
  }

  // ---------------------------------------------------------------- every step keeps the invariant

  lemma AddAccountKeepsInv(w: World, c: Config, k: AccountKey)
    requires Inv(w, c)
    ensures Inv(AddAccount(w, k), c)
  {
    var v := AddAccount(w, k);
    assert forall i :: i in v.rows ==> Live(w, v.rows[i]) && CopyAgrees(w, v.rows[i]);
  }

  ghost predicate OneRowPerScope(rows: map<Uuid, Row>) {
    forall i, k :: i in rows && k in rows && i != k ==> ScopeOf(rows[i]) != ScopeOf(rows[k])
  }

  /** With one row per scope, Upsert writes exactly one row. */
  lemma UpsertWritesOne(rows: map<Uuid, Row>, id: Uuid, r: Row) returns (j: Uuid)
    requires id !in rows
    requires OneRowPerScope(rows)
    requires forall i :: i in rows && ScopeOf(rows[i]) == ScopeOf(r) ==>
      rows[i].cluster == r.cluster && rows[i].namespace == r.namespace && rows[i].user == r.user &&
        rows[i].project == r.project
    ensures Upsert(rows, id, r) == rows[j := r]
    ensures if j in rows then ScopeOf(rows[j]) == ScopeOf(r) else j == id
    ensures forall i :: i in rows && i != j ==> ScopeOf(rows[i]) != ScopeOf(r)
  {
    if i :| i in rows && ScopeOf(rows[i]) == ScopeOf(r) {
      j := i;
      assert rows[i].(account := r.account, secret := r.secret, config := r.config) == r;
    } else {
      j := id;
    }
  }

  /** `v` is `w` after a Secret was minted for `r` and `r` was written as row `j`. */
  ghost predicate Issued(w: World, v: World, j: Uuid, r: Row, token: string) {
    && v.rows == w.rows[j := r]
    && (j in w.rows || j == w.next + 1)
    && (forall i :: i in w.rows && i != j ==> ScopeOf(w.rows[i]) != ScopeOf(r))
    && r.secret == SecretName(r.account, w.next)
    && r.config == Some(Kubeconfig(r.cluster, r.namespace, token))
    && v.secrets == w.secrets[SecretOf(r) := Secret(r.account, token)]
    && v.accounts == w.accounts && AccountOf(r) in w.accounts
    && v.next == w.next + 2
  }

  lemma IssuedIsLive(w: World, v: World, j: Uuid, r: Row, token: string)
    requires Issued(w, v, j, r, token)
    requires Fresh(w) && forall i :: i in w.rows ==> Live(w, w.rows[i])
    ensures forall i :: i in v.rows ==> Live(v, v.rows[i])
  {
    forall i | i in v.rows ensures Live(v, v.rows[i]) {
      if i != j {
        assert Live(w, w.rows[i]);
      }
    }
  }

  lemma IssuedIsDisjoint(w: World, v: World, j: Uuid, r: Row, token: string)
    requires Issued(w, v, j, r, token)
    requires Fresh(w) && RowsDisjoint(w) && forall p :: p in v.projects ==> p < w.next
    ensures RowsDisjoint(v) && Fresh(v)
  {
  }

  /** The scopes that have a row still have one. */
  lemma IssuedKeepsScopes(w: World, v: World, j: Uuid, r: Row, token: string)
    requires Issued(w, v, j, r, token) && (j in w.rows ==> ScopeOf(w.rows[j]) == ScopeOf(r))
    ensures forall s :: HasRow(w.rows, s) ==> HasRow(v.rows, s)
    ensures HasRow(v.rows, ScopeOf(r))
  {
    assert j in v.rows && ScopeOf(v.rows[j]) == ScopeOf(r);
    forall s | HasRow(w.rows, s) ensures HasRow(v.rows, s) {
      var i :| i in w.rows && ScopeOf(w.rows[i]) == s;
      assert i in v.rows && ScopeOf(v.rows[i]) == s;
    }
  }

  lemma IssueUserForm(w: World, user: string, cluster: string, ns: string, token: string) returns (j: Uuid, r: Row)
    requires RowsDisjoint(w) && Fresh(w)
    requires AccountKey(cluster, ns, USER_ACCOUNT) in w.accounts
    ensures Issued(w, IssueUser(w, user, cluster, ns, token), j, r, token)
    ensures r == IssuedRow(w, AccountKey(cluster, ns, USER_ACCOUNT), user, None, token)
    ensures j in w.rows ==> ScopeOf(w.rows[j]) == ScopeOf(r)
  {
    r := IssuedRow(w, AccountKey(cluster, ns, USER_ACCOUNT), user, None, token);
    j := UpsertWritesOne(w.rows, w.next + 1, r);
  }

  lemma IssueUserWellNamed(w: World, c: Config, user: string, cluster: string, ns: string, token: string)
    requires WellNamed(w, c)
    requires cluster in c.clusters && user != "" && ns == c.userNamespace(user) != BLANK_USER_NAMESPACE && ns != ""
    ensures WellNamed(IssueUser(w, user, cluster, ns, token), c)
  {
    var v := IssueUser(w, user, cluster, ns, token);
    forall i | i in v.rows ensures v.rows[i].cluster in c.clusters && v.rows[i].namespace != "" {
      assert i in w.rows ==> w.rows[i].cluster in c.clusters;
    }
  }

  lemma IssueUserKeepsInv(w: World, c: Config, user: string, cluster: string, ns: string, token: string)
    requires Inv(w, c)
    requires AccountKey(cluster, ns, USER_ACCOUNT) in w.accounts
    requires cluster in c.clusters && user != "" && ns == c.userNamespace(user) != BLANK_USER_NAMESPACE && ns != ""
    ensures Inv(IssueUser(w, user, cluster, ns, token), c)
  {
    var v := IssueUser(w, user, cluster, ns, token);
    var j, r := IssueUserForm(w, user, cluster, ns, token);
    IssuedIsLive(w, v, j, r, token);
    IssuedIsDisjoint(w, v, j, r, token);
    IssuedKeepsScopes(w, v, j, r, token);
    IssuedUserCopies(w, v, j, r, token);
    IssueUserWellNamed(w, c, user, cluster, ns, token);
  }

  lemma IssuedUserCopies(w: World, v: World, j: Uuid, r: Row, token: string)
    requires Issued(w, v, j, r, token)
    requires forall i :: i in w.rows ==> CopyAgrees(w, w.rows[i])
    requires r.project.None? && r.account == USER_ACCOUNT
    requires (r.user, r.cluster) in w.spaces ==> w.spaces[(r.user, r.cluster)].namespace == r.namespace
    requires v.projects == w.projects && v.spaces == w.spaces[(r.user, r.cluster) := UserSpace(r.namespace, r.config)]
    requires CopiesHaveRows(w)
    requires HasRow(v.rows, ScopeOf(r)) && forall s :: HasRow(w.rows, s) ==> HasRow(v.rows, s)
    ensures forall i :: i in v.rows ==> CopyAgrees(v, v.rows[i])
    ensures CopiesHaveRows(v)
  {
    forall i | i in v.rows ensures CopyAgrees(v, v.rows[i]) {
      if i != j {
        assert CopyAgrees(w, w.rows[i]);
        assert ScopeOf(w.rows[i]) != ScopeOf(r);
      }
    }
  }

  /** `p` may be issued credentials: it is new, or its row carries the project's own columns. */
  ghost predicate Issuable(w: World, p: Uuid, project: Project) {
    && AccountKey(project.cluster, project.namespace, TENANT_ACCOUNT) in w.accounts
    && p < w.next
    && (p in w.projects ==> w.projects[p].(config := project.config) == project)
    && (p !in w.projects ==> !HasRow(w.rows, OfProject(p)))
  }

  lemma IssueProjectForm(w: World, p: Uuid, project: Project, token: string, record: bool) returns (j: Uuid, r: Row)
    requires RowsDisjoint(w) && Fresh(w) && Issuable(w, p, project)
    requires forall i :: i in w.rows ==> CopyAgrees(w, w.rows[i])
    ensures Issued(w, IssueProject(w, p, project, token, record), j, r, token)
    ensures r == IssuedRow(w, AccountKey(project.cluster, project.namespace, TENANT_ACCOUNT), project.user, Some(p),
                           token)
    ensures j in w.rows ==> ScopeOf(w.rows[j]) == ScopeOf(r)
  {
    r := IssuedRow(w, AccountKey(project.cluster, project.namespace, TENANT_ACCOUNT), project.user, Some(p), token);
    forall i | i in w.rows && ScopeOf(w.rows[i]) == ScopeOf(r)
      ensures w.rows[i].cluster == r.cluster && w.rows[i].namespace == r.namespace && w.rows[i].user == r.user &&
        w.rows[i].project == r.project
    {
      assert HasRow(w.rows, OfProject(p));
      assert CopyAgrees(w, w.rows[i]);
    }
    j := UpsertWritesOne(w.rows, w.next + 1, r);
  }

  lemma IssuedProjectCopies(w: World, v: World, j: Uuid, r: Row, p: Uuid, token: string, record: bool)
    requires Issued(w, v, j, r, token)
    requires forall i :: i in w.rows ==> CopyAgrees(w, w.rows[i])
    requires r.project == Some(p) && r.account == TENANT_ACCOUNT && p < w.next
    requires record || p !in w.projects
    requires v.spaces == w.spaces
    requires v.projects == if record then w.projects[p := Project(r.user, r.cluster, r.namespace, r.config)]
                           else w.projects
    requires CopiesHaveRows(w)
    requires HasRow(v.rows, ScopeOf(r)) && forall s :: HasRow(w.rows, s) ==> HasRow(v.rows, s)
    ensures forall i :: i in v.rows ==> CopyAgrees(v, v.rows[i])
    ensures CopiesHaveRows(v)
  {
    forall i | i in v.rows ensures CopyAgrees(v, v.rows[i]) {
      if i != j {
        assert CopyAgrees(w, w.rows[i]);
        assert ScopeOf(w.rows[i]) != ScopeOf(r);
      }
    }
  }

  lemma IssueProjectWellNamed(w: World, c: Config, p: Uuid, project: Project, token: string, record: bool)
    requires WellNamed(w, c) && !c.shared
    requires project.cluster in c.clusters && project.namespace != ""
    ensures WellNamed(IssueProject(w, p, project, token, record), c)
  {
    var v := IssueProject(w, p, project, token, record);
    forall i | i in v.rows ensures v.rows[i].cluster in c.clusters && v.rows[i].namespace != "" {
      assert i in w.rows ==> w.rows[i].cluster in c.clusters;
    }
  }

  lemma IssueProjectKeepsInv(w: World, c: Config, p: Uuid, project: Project, token: string, record: bool)
    requires Inv(w, c) && !c.shared
    requires Issuable(w, p, project) && (record || p !in w.projects)
    requires project.cluster in c.clusters && project.namespace != ""
    ensures Inv(IssueProject(w, p, project, token, record), c)
  {
    var v := IssueProject(w, p, project, token, record);
    var j, r := IssueProjectForm(w, p, project, token, record);
    IssuedIsLive(w, v, j, r, token);
    IssuedIsDisjoint(w, v, j, r, token);
    IssuedKeepsScopes(w, v, j, r, token);
    IssuedProjectCopies(w, v, j, r, p, token, record);
    IssueProjectWellNamed(w, c, p, project, token, record);
  }

  lemma DropSecretKeepsInv(w: World, c: Config, k: SecretKey)
    requires Inv(w, c) && forall i :: i in w.rows ==> SecretOf(w.rows[i]) != k
    ensures Inv(DropSecret(w, k), c)
  {
    var v := DropSecret(w, k);
    forall i | i in v.rows ensures Live(v, v.rows[i]) && CopyAgrees(v, v.rows[i]) {
      assert Live(w, w.rows[i]) && CopyAgrees(w, w.rows[i]);
    }
  }

  lemma DropAccountKeepsInv(w: World, c: Config, k: AccountKey)
    requires Inv(w, c) && forall i :: i in w.rows ==> AccountOf(w.rows[i]) != k
    ensures Inv(w.(accounts := w.accounts - {k}), c)
  {
    var v := w.(accounts := w.accounts - {k});
    forall i | i in v.rows ensures Live(v, v.rows[i]) && CopyAgrees(v, v.rows[i]) {
      assert Live(w, w.rows[i]) && CopyAgrees(w, w.rows[i]);
    }
  }

  lemma DropRowCopies(w: World, id: Uuid)
    requires id in w.rows && RowsDisjoint(w) && CopiesHaveRows(w)
    requires forall i :: i in w.rows ==> CopyAgrees(w, w.rows[i])
    ensures forall i :: i in DropRow(w, id).rows ==> CopyAgrees(DropRow(w, id), w.rows[i])
    ensures CopiesHaveRows(DropRow(w, id))
  {
    var v, r := DropRow(w, id), w.rows[id];
    assert CopyAgrees(w, r);
    forall i | i in v.rows ensures CopyAgrees(v, v.rows[i]) {
      assert CopyAgrees(w, w.rows[i]);
      assert ScopeOf(w.rows[i]) != ScopeOf(r);
    }
    forall s | HasRow(w.rows, s) && s != ScopeOf(r) ensures HasRow(v.rows, s) {
      var i :| i in w.rows && ScopeOf(w.rows[i]) == s;
      assert i in v.rows && ScopeOf(v.rows[i]) == s;
    }
  }

  lemma DropRowKeepsInv(w: World, c: Config, id: Uuid)
    requires Inv(w, c) && id in w.rows
    ensures Inv(DropRow(w, id), c)
  {
    DropRowCopies(w, id);
    DropRowNames(w, c, id);
  }

  lemma DropRowNames(w: World, c: Config, id: Uuid)
    requires id in w.rows && RowsDisjoint(w) && Fresh(w) && WellNamed(w, c)
    requires forall i :: i in w.rows ==> Live(w, w.rows[i])
    ensures RowsDisjoint(DropRow(w, id)) && Fresh(DropRow(w, id)) && WellNamed(DropRow(w, id), c)
    ensures forall i :: i in DropRow(w, id).rows ==> Live(DropRow(w, id), w.rows[i])
  {
    var v := DropRow(w, id);
    forall i | i in v.rows ensures Live(v, w.rows[i]) {
      assert Live(w, w.rows[i]);
    }
  }

  lemma DrawKeepsInv(w: World, c: Config)
    requires Inv(w, c)
    ensures Inv(Draw(w), c)
  {
    var v := Draw(w);
    forall i | i in v.rows ensures Live(v, v.rows[i]) && CopyAgrees(v, v.rows[i]) {
      assert Live(w, w.rows[i]) && CopyAgrees(w, w.rows[i]);
    }
  }

  lemma InsertProjectCopies(w: World, p: Uuid, project: Project)
    requires !HasRow(w.rows, OfProject(p)) && project.config.None?
    requires forall i :: i in w.rows ==> Live(w, w.rows[i]) && CopyAgrees(w, w.rows[i])
    ensures forall i :: i in w.rows ==>
              Live(InsertProject(w, p, project), w.rows[i]) && CopyAgrees(InsertProject(w, p, project), w.rows[i])
  {
    forall i | i in w.rows
      ensures Live(InsertProject(w, p, project), w.rows[i]) && CopyAgrees(InsertProject(w, p, project), w.rows[i])
    {
      assert ScopeOf(w.rows[i]) != OfProject(p);
    }
  }

  lemma InsertProjectKeepsInv(w: World, c: Config, p: Uuid, project: Project)
    requires Inv(w, c)
    requires p < w.next && !HasRow(w.rows, OfProject(p)) && project.config.None?
    requires project.cluster in c.clusters && project.namespace != ""
    ensures Inv(InsertProject(w, p, project), c)
  {
    InsertProjectCopies(w, p, project);
  }

  /** An identifier not drawn yet has no row. */
  lemma NoRowBeforeDraw(w: World, c: Config, p: Uuid)
    requires Inv(w, c) && w.next <= p
    ensures !HasRow(w.rows, OfProject(p)) && p !in w.projects
  {
    forall i | i in w.rows ensures ScopeOf(w.rows[i]) != OfProject(p) {
      assert CopyAgrees(w, w.rows[i]);
    }
  }

  lemma ProvisionKeepsInv(w: World, c: Config, user: string, cluster: string, token: string)
    requires Inv(w, c) && WellConfigured(c)
    ensures Inv(Provision(w, c, user, cluster, token), c)
    ensures w.next <= Provision(w, c, user, cluster, token).next
    ensures Provision(w, c, user, cluster, token).projects == w.projects
  {
    if CanProvision(c, user, cluster) {
      var k := AccountKey(cluster, c.userNamespace(user), USER_ACCOUNT);
      AddAccountKeepsInv(w, c, k);
      IssueUserKeepsInv(AddAccount(w, k), c, user, cluster, k.namespace, token);
    }
  }

  /** Provisioning gives no project a row. */
  lemma ProvisionKeepsProjectRows(w: World, c: Config, user: string, cluster: string, token: string, p: Uuid)
    requires !HasRow(w.rows, OfProject(p))
    ensures !HasRow(Provision(w, c, user, cluster, token).rows, OfProject(p))
  {
    var v := Provision(w, c, user, cluster, token);
    forall i | i in v.rows ensures ScopeOf(v.rows[i]) != OfProject(p) {
      assert i in w.rows ==> ScopeOf(w.rows[i]) != OfProject(p);
    }
  }

  lemma RenewUserKeepsInv(w: World, c: Config, user: string, cluster: string, token: string)
    requires Inv(w, c) && WellConfigured(c)
    ensures Inv(RenewUser(w, c, user, cluster, token), c)
  {
    if CanRenewUser(w, c, user, cluster) {
      IssueUserKeepsInv(w, c, user, cluster, w.spaces[(user, cluster)].namespace, token);
    }
  }

  lemma RenewProjectKeepsInv(w: World, c: Config, p: Uuid, token: string)
    requires Inv(w, c)
    ensures Inv(RenewProject(w, c, p, token), c)
  {
    if CanRenewProject(w, c, p) {
      IssueProjectKeepsInv(w, c, p, w.projects[p], token, true);
    }
  }

  lemma CreateOwnedKeepsInv(w: World, c: Config, user: string, cluster: string, name: string, token: string)
    requires Inv(w, c) && WellConfigured(c) && !c.shared && cluster in c.clusters
    ensures Inv(CreateOwned(w, c, user, cluster, name, token), c)
  {
    var ns := c.projectNamespace(user, name);
    var k := AccountKey(cluster, ns, TENANT_ACCOUNT);
    NoRowBeforeDraw(w, c, w.next);
    DrawKeepsInv(w, c);
    AddAccountKeepsInv(Draw(w), c, k);
    IssueProjectKeepsInv(AddAccount(Draw(w), k), c, w.next, Project(user, cluster, ns, None), token,
                         !NamespaceTaken(w.projects, cluster, ns));
  }

  lemma CreateSharedKeepsInv(w: World, c: Config, user: string, cluster: string, token: string)
    requires Inv(w, c) && WellConfigured(c) && cluster in c.clusters
    ensures Inv(CreateShared(w, c, user, cluster, token), c)
  {
    var known := (user, cluster) in w.spaces;
    var ready := if known then Draw(w) else Provision(Draw(w), c, user, cluster, token);
    var ns := if known then w.spaces[(user, cluster)].namespace else c.userNamespace(user);
    assert ns == c.userNamespace(user);
    NoRowBeforeDraw(w, c, w.next);
    DrawKeepsInv(w, c);
    ProvisionKeepsInv(Draw(w), c, user, cluster, token);
    ProvisionKeepsProjectRows(Draw(w), c, user, cluster, token, w.next);
    InsertProjectKeepsInv(ready, c, w.next, Project(user, cluster, ns, None));
  }

  lemma CreateProjectKeepsInv(w: World, c: Config, user: string, cluster: string, name: string, token: string)
    requires Inv(w, c) && WellConfigured(c)
    ensures Inv(CreateProject(w, c, user, cluster, name, token), c)
  {
    if CanStartProject(c, user, cluster, name) {
      if c.shared {
        CreateSharedKeepsInv(w, c, user, cluster, token);
      } else {
        CreateOwnedKeepsInv(w, c, user, cluster, name, token);
      }
    }
  }

  lemma DeleteKeepsInv(w: World, c: Config, id: Uuid)
    requires Inv(w, c)
    ensures Inv(Delete(w, c, id), c)
  {
    if CanDelete(w, c, id) {
      var r := w.rows[id];
      DropRowKeepsInv(w, c, id);
      var d := DropRow(w, id);
      assert forall i :: i in d.rows ==> d.rows[i] == w.rows[i] && d.rows[i].secret != r.secret;
      DropSecretKeepsInv(d, c, SecretOf(r));
      var e := DropSecret(d, SecretOf(r));
      if !AccountCounted(e.rows, r.namespace, r.account) {
        assert forall i :: i in e.rows ==> !(e.rows[i].namespace == r.namespace && e.rows[i].account == r.account);
        DropAccountKeepsInv(e, c, AccountOf(r));
      }
    }
  }

  lemma RenewedKeepsInv(w: World, c: Config, id: Uuid, token: string)
    requires Inv(w, c) && WellConfigured(c) && CanRotate(w, c, id)
    ensures Inv(Renewed(w, c, id, token), c)
  {
    match w.rows[id].project
    case Some(p) => RenewProjectKeepsInv(w, c, p, token);
    case None => RenewUserKeepsInv(w, c, w.rows[id].user, w.rows[id].cluster, token);
  }

  /** After a renewal no row names the Secret the renewed row had. */
  lemma RenewedForgetsSecret(w: World, id: Uuid, token: string)
    requires RowsDisjoint(w) && Fresh(w) && id in w.rows
    ensures var rows := w.rows[id := Reissued(w, id, token)];
            forall i :: i in rows ==> SecretOf(rows[i]) != SecretOf(w.rows[id])
  {
  }

  lemma RotateKeepsInv(w: World, c: Config, id: Uuid, token: string)
    requires Inv(w, c) && WellConfigured(c)
    ensures Inv(Rotate(w, c, id, token), c)
  {
    if CanRotate(w, c, id) {
      RenewedExact(w, c, id, token);
      RenewedKeepsInv(w, c, id, token);
      RenewedForgetsSecret(w, id, token);
      DropSecretKeepsInv(Renewed(w, c, id, token), c, SecretOf(w.rows[id]));
    }
  }

  /** The row `id` with the Secret minted next. */
  function Reissued(w: World, id: Uuid, token: string): Row
    requires id in w.rows
  {
    var r := w.rows[id];
    r.(secret := SecretName(r.account, w.next), config := Some(Kubeconfig(r.cluster, r.namespace, token)))
  }

  /** Renewing through a row replaces that row only, and keeps every Secret. */
  lemma RenewedExact(w: World, c: Config, id: Uuid, token: string)
    requires Inv(w, c) && CanRotate(w, c, id)
    ensures var v := Renewed(w, c, id, token);
            && v.rows == w.rows[id := Reissued(w, id, token)]
            && v.secrets == w.secrets[SecretOf(Reissued(w, id, token)) := Secret(w.rows[id].account, token)]
            && v.accounts == w.accounts
  {
    var r := w.rows[id];
    assert Live(w, r) && CopyAgrees(w, r);
    match r.project {
      case Some(p) =>
        var j, row := IssueProjectForm(w, p, w.projects[p], token, true);
        assert ScopeOf(r) == ScopeOf(row);
      case None =>
        var j, row := IssueUserForm(w, r.user, r.cluster, w.spaces[(r.user, r.cluster)].namespace, token);
        assert ScopeOf(r) == ScopeOf(row);
    }
  }

  /** A copy always has its row, so the renewal inside EnsureUser is never needed. */
  lemma EnsureUserNeverRenews(w: World, c: Config, user: string, cluster: string, token: string, again: string)
    requires Inv(w, c) && WellConfigured(c)
    ensures Inv(EnsureUser(w, c, user, cluster, token, again), c)
    ensures user != "" && cluster != "" ==>
              EnsureUser(w, c, user, cluster, token, again) == Prepared(w, c, user, cluster, token)
  {
    ProvisionKeepsInv(w, c, user, cluster, token);
  }

  lemma EnsureProjectKeepsInv(w: World, c: Config, user: string, p: Uuid, token: string)
    requires Inv(w, c)
    ensures Inv(EnsureProject(w, c, user, p, token), c)
  {
    RenewProjectKeepsInv(w, c, p, token);
  }

  // ---------------------------------------------------------------- runs

  datatype Step =
    | DoProvision(user: string, cluster: string, token: string)
    | DoCreateProject(user: string, cluster: string, name: string, token: string)
    | DoRenewUser(user: string, cluster: string, token: string)
    | DoRenewProject(project: Uuid, token: string)
    | DoEnsureUser(user: string, cluster: string, token: string, again: string)
    | DoEnsureProject(user: string, project: Uuid, token: string)
    | DoRotate(row: Uuid, token: string)
    | DoDelete(row: Uuid)

  function Apply(w: World, c: Config, s: Step): World {
    match s
    case DoProvision(user, cluster, token) => Provision(w, c, user, cluster, token)
    case DoCreateProject(user, cluster, name, token) => CreateProject(w, c, user, cluster, name, token)
    case DoRenewUser(user, cluster, token) => RenewUser(w, c, user, cluster, token)
    case DoRenewProject(p, token) => RenewProject(w, c, p, token)
    case DoEnsureUser(user, cluster, token, again) => EnsureUser(w, c, user, cluster, token, again)
    case DoEnsureProject(user, p, token) => EnsureProject(w, c, user, p, token)
    case DoRotate(id, token) => Rotate(w, c, id, token)
    case DoDelete(id) => Delete(w, c, id)
  }

  function Run(w: World, c: Config, steps: seq<Step>): World
    decreases |steps|
  {
    if steps == [] then w else Run(Apply(w, c, steps[0]), c, steps[1..])
  }

  lemma ApplyKeepsInv(w: World, c: Config, s: Step)
    requires Inv(w, c) && WellConfigured(c)
    ensures Inv(Apply(w, c, s), c)
  {
    match s
    case DoProvision(user, cluster, token) => ProvisionKeepsInv(w, c, user, cluster, token);
    case DoCreateProject(user, cluster, name, token) => CreateProjectKeepsInv(w, c, user, cluster, name, token);
    case DoRenewUser(user, cluster, token) => RenewUserKeepsInv(w, c, user, cluster, token);
    case DoRenewProject(p, token) => RenewProjectKeepsInv(w, c, p, token);
    case DoEnsureUser(user, cluster, token, again) => EnsureUserNeverRenews(w, c, user, cluster, token, again);
    case DoEnsureProject(user, p, token) => EnsureProjectKeepsInv(w, c, user, p, token);
    case DoRotate(id, token) => RotateKeepsInv(w, c, id, token);
    case DoDelete(id) => DeleteKeepsInv(w, c, id);
  }

  lemma {:induction false} RunKeepsInv(w: World, c: Config, steps: seq<Step>)
    requires Inv(w, c) && WellConfigured(c)
    ensures Inv(Run(w, c, steps), c)
    decreases |steps|
  {
    if steps != [] {
      ApplyKeepsInv(w, c, steps[0]);
      RunKeepsInv(Apply(w, c, steps[0]), c, steps[1..]);
    }
  }

  /**
   In every run of the service from empty tables and clusters: each row names a live Secret
   on its cluster that holds the token inside the stored kubeconfig, its account is live, no
   two rows share a Secret, a project or a user scope, and the copy beside a row is the row's.
   */
  lemma EveryRunIsSafe(clusters: set<string>, shared: bool, uni: char -> char, steps: seq<Step>)
    requires "" !in clusters
    ensures var w := Run(EMPTY, ServiceConfig(clusters, shared, uni), steps);
      && (forall i :: i in w.rows ==>
            var r := w.rows[i];
            && SecretOf(r) in w.secrets && AccountOf(r) in w.accounts
            && r.config == Some(Kubeconfig(r.cluster, r.namespace, w.secrets[SecretOf(r)].token))
            && w.secrets[SecretOf(r)].account == r.account == (if r.project.None? then "user-sa" else "tenant-sa")
            && (r.project.None? ==> (r.user, r.cluster) in w.spaces && w.spaces[(r.user, r.cluster)].config == r.config)
            && (r.project.Some? && r.project.value in w.projects ==> w.projects[r.project.value].config == r.config))
      && (forall i, j :: i in w.rows && j in w.rows && i != j ==>
            && SecretOf(w.rows[i]) != SecretOf(w.rows[j])
            && (w.rows[i].project.Some? ==> w.rows[i].project != w.rows[j].project)
            && (w.rows[i].project.None? && w.rows[j].project.None? ==>
                  (w.rows[i].cluster, w.rows[i].namespace, w.rows[i].user) !=
                  (w.rows[j].cluster, w.rows[j].namespace, w.rows[j].user)))
      && (forall k :: k in w.spaces && w.spaces[k].config.Some? ==>
            HasRow(w.rows, OfUser(k.1, w.spaces[k].namespace, k.0)))
      && (forall p :: p in w.projects && w.projects[p].config.Some? ==> HasRow(w.rows, OfProject(p)))
  {
    var c := ServiceConfig(clusters, shared, uni);
    ServiceIsWellConfigured(clusters, shared, uni);
    assert Inv(EMPTY, c);
    RunKeepsInv(EMPTY, c, steps);
    InvMeaning(Run(EMPTY, c, steps), c);
  }

  lemma InvMeaning(w: World, c: Config)
    requires Inv(w, c)
    ensures forall i :: i in w.rows ==> Live(w, w.rows[i]) && CopyAgrees(w, w.rows[i])
    ensures RowsDisjoint(w) && CopiesHaveRows(w) && OneRowPerScope(w.rows)
    ensures forall i :: i in w.rows ==> i < w.next && w.rows[i].config.Some?
  {
    assert forall i :: i in w.rows ==> Live(w, w.rows[i]);
  }

  // ---------------------------------------------------------------- what single steps do

  /**
   Rotation keeps the row's identity, points it at a Secret that did not exist before, removes
   exactly the previous Secret and leaves every other row and every account alone.
   */
  lemma RotateExact(w: World, c: Config, id: Uuid, token: string)
    requires Inv(w, c) && CanRotate(w, c, id)
    ensures var v := Rotate(w, c, id, token);
            && v.rows == w.rows[id := Reissued(w, id, token)]
            && SecretOf(v.rows[id]) !in w.secrets
            && v.secrets ==
                 w.secrets[SecretOf(v.rows[id]) := Secret(w.rows[id].account, token)] - {SecretOf(w.rows[id])}
            && v.secrets.Keys == w.secrets.Keys - {SecretOf(w.rows[id])} + {SecretOf(v.rows[id])}
            && v.accounts == w.accounts
  {
    RenewedExact(w, c, id, token);
    assert Live(w, w.rows[id]);
  }

  /** A row can be rotated exactly when it is a user's or its project exists. */
  lemma RotatableIff(w: World, c: Config, id: Uuid)
    requires Inv(w, c) && WellConfigured(c) && id in w.rows
    ensures CanRotate(w, c, id) <==> (w.rows[id].project.Some? ==> w.rows[id].project.value in w.projects)
  {
    assert Live(w, w.rows[id]) && CopyAgrees(w, w.rows[id]);
  }

  /** Renewing keeps the previous Secret: only rotation removes it. */
  lemma RenewLeavesOldSecret(w: World, c: Config, id: Uuid, token: string)
    requires Inv(w, c) && CanRotate(w, c, id)
    ensures SecretOf(w.rows[id]) in Renewed(w, c, id, token).secrets
    ensures forall i :: i in Renewed(w, c, id, token).rows ==>
      SecretOf(Renewed(w, c, id, token).rows[i]) != SecretOf(w.rows[id])
  {
    RenewedExact(w, c, id, token);
    assert Live(w, w.rows[id]);
  }

  lemma DeleteShape(w: World, c: Config, id: Uuid)
    requires CanDelete(w, c, id) && AccountOf(w.rows[id]) in w.accounts
    ensures var v, r := Delete(w, c, id), w.rows[id];
            && v.rows == w.rows - {id}
            && v.secrets == w.secrets - {SecretOf(r)}
            && v.accounts + {AccountOf(r)} == w.accounts
            && (AccountOf(r) in v.accounts <==> AccountCounted(v.rows, r.namespace, r.account))
  {
  }

  /**
   Deletion removes exactly the row and its Secret. The account goes exactly when no remaining
   row of any cluster has its namespace and name, so no remaining row loses its account.
   */
  lemma DeleteExact(w: World, c: Config, id: Uuid)
    requires Inv(w, c) && id in w.rows
    ensures var v, r := Delete(w, c, id), w.rows[id];
            && v.rows == w.rows - {id}
            && v.secrets == w.secrets - {SecretOf(r)}
            && v.accounts + {AccountOf(r)} == w.accounts
            && (AccountOf(r) in v.accounts <==> AccountCounted(v.rows, r.namespace, r.account))
    ensures forall i :: i in Delete(w, c, id).rows ==> Live(Delete(w, c, id), w.rows[i])
  {
    assert Live(w, w.rows[id]);
    DeleteShape(w, c, id);
    DeleteKeepsInv(w, c, id);
    InvMeaning(Delete(w, c, id), c);
  }

  /**
   The count ignores the cluster: deletion leaves an account that no row names if and only if the
   row was the account's last and another cluster has a row with its namespace and name.
   */
  lemma DeleteLeavesAccountIff(w: World, c: Config, id: Uuid)
    requires Inv(w, c) && id in w.rows
    ensures var v, r := Delete(w, c, id), w.rows[id];
            (AccountOf(r) in v.accounts && !AccountNamed(v.rows, AccountOf(r))) <==>
            !AccountNamed(w.rows - {id}, AccountOf(r)) &&
            exists i :: i in w.rows && i != id && w.rows[i].cluster != r.cluster &&
              w.rows[i].namespace == r.namespace && w.rows[i].account == r.account
  {
    var v, r := Delete(w, c, id), w.rows[id];
    DeleteExact(w, c, id);
    if AccountCounted(v.rows, r.namespace, r.account) && !AccountNamed(v.rows, AccountOf(r)) {
      var i :| i in v.rows && v.rows[i].namespace == r.namespace && v.rows[i].account == r.account;
      assert w.rows[i].cluster != r.cluster;
    }
    if i :| i in w.rows && i != id && w.rows[i].cluster != r.cluster &&
            w.rows[i].namespace == r.namespace && w.rows[i].account == r.account {
      assert i in v.rows && AccountCounted(v.rows, r.namespace, r.account);
    }
  }

  predicate AccountNamed(rows: map<Uuid, Row>, k: AccountKey) { exists i :: i in rows && AccountOf(rows[i]) == k }

  /**
   From empty stores: a user provisioned on two clusters, rows 1 and 3, whose first row is deleted.
   The account on the first cluster lives on without a row.
   */
  lemma DeletedAccountLingers(c: Config, user: string, a: string, b: string, t1: string, t2: string)
    requires WellConfigured(c) && CanProvision(c, user, a) && CanProvision(c, user, b) && a != b
    ensures var w := Run(EMPTY, c, [DoProvision(user, a, t1), DoProvision(user, b, t2), DoDelete(1)]);
            && AccountKey(a, c.userNamespace(user), USER_ACCOUNT) in w.accounts
            && !AccountNamed(w.rows, AccountKey(a, c.userNamespace(user), USER_ACCOUNT))
  {
    var one := Provision(EMPTY, c, user, a, t1);
    var two := Provision(one, c, user, b, t2);
    TwoProvisioned(c, user, a, b, t1, t2);
    assert CanDelete(two, c, 1);
    var w := Delete(two, c, 1);
    assert w.rows.Keys == {3} && AccountOf(w.rows[3]) == AccountKey(b, c.userNamespace(user), USER_ACCOUNT);
    assert AccountCounted(w.rows, c.userNamespace(user), USER_ACCOUNT);
    RunOfThree(EMPTY, c, DoProvision(user, a, t1), DoProvision(user, b, t2), DoDelete(1));
  }

  lemma TwoProvisioned(c: Config, user: string, a: string, b: string, t1: string, t2: string)
    requires WellConfigured(c) && CanProvision(c, user, a) && CanProvision(c, user, b) && a != b
    ensures var ns := c.userNamespace(user);
            var w := Provision(Provision(EMPTY, c, user, a, t1), c, user, b, t2);
            && w.rows.Keys == {1, 3}
            && AccountOf(w.rows[1]) == AccountKey(a, ns, USER_ACCOUNT)
            && AccountOf(w.rows[3]) == AccountKey(b, ns, USER_ACCOUNT)
            && w.accounts == {AccountKey(a, ns, USER_ACCOUNT), AccountKey(b, ns, USER_ACCOUNT)}
  {
    var ns := c.userNamespace(user);
    var one := Provision(EMPTY, c, user, a, t1);
    assert one.rows.Keys == {1} && ScopeOf(one.rows[1]) == OfUser(a, ns, user) && one.next == 2;
    assert !HasRow(one.rows, OfUser(b, ns, user));
  }

  /** Ensuring a user's credentials succeeds in every state the service can reach, deletions included. */
  lemma EnsureUserGivesLiveRow(w: World, c: Config, user: string, cluster: string, token: string, again: string)
    returns (id: Uuid)
    requires Inv(w, c) && WellConfigured(c) && CanProvision(c, user, cluster)
    ensures CanEnsureUser(w, c, user, cluster, token, again)
    ensures var v := EnsureUser(w, c, user, cluster, token, again);
            && id in v.rows && Live(v, v.rows[id])
            && ScopeOf(v.rows[id]) == OfUser(cluster, c.userNamespace(user), user)
  {
    var v := Prepared(w, c, user, cluster, token);
    EnsureUserNeverRenews(w, c, user, cluster, token, again);
    InvMeaning(v, c);
    assert HasCopy(v, user, cluster);
    assert v.spaces[(user, cluster)].namespace == c.userNamespace(user);
    id :| id in v.rows && ScopeOf(v.rows[id]) == OfUser(cluster, c.userNamespace(user), user);
  }

  /** Ensuring a project's credentials leaves it with a live row exactly when it had one or its account is live. */
  /** Asking for the kubeconfig of somebody else's project, or of none, changes nothing. */
  lemma EnsureProjectByOwner(w: World, c: Config, user: string, p: Uuid, token: string)
    ensures EnsureProject(w, c, user, p, token) ==
            if user != "" && p in w.projects && w.projects[p].user in {"", user} && !HasRow(w.rows, OfProject(p))
            then RenewProject(w, c, p, token) else w
  {
  }

  /** In every run a project has an owner, and a request of anybody else for its kubeconfig changes nothing. */
  lemma OnlyTheOwnerEnsures(c: Config, steps: seq<Step>, user: string, p: Uuid, token: string)
    ensures var w := Run(EMPTY, c, steps);
            p in w.projects ==>
              && w.projects[p].user != ""
              && (user != w.projects[p].user ==> Apply(w, c, DoEnsureProject(user, p, token)) == w)
  {
    RunKeepsOwners(EMPTY, c, steps);
  }

  ghost predicate Owned(projects: map<Uuid, Project>) { forall p :: p in projects ==> projects[p].user != "" }

  lemma {:induction false} RunKeepsOwners(w: World, c: Config, steps: seq<Step>)
    requires Owned(w.projects)
    ensures Owned(Run(w, c, steps).projects)
    decreases |steps|
  {
    if steps != [] {
      ApplyKeepsOwners(w, c, steps[0]);
      RunKeepsOwners(Apply(w, c, steps[0]), c, steps[1..]);
    }
  }

  lemma ApplyKeepsOwners(w: World, c: Config, s: Step)
    requires Owned(w.projects)
    ensures Owned(Apply(w, c, s).projects)
  {
    match s
    case DoProvision(user, cluster, token) =>
    case DoCreateProject(user, cluster, name, token) => CreateKeepsOwners(w, c, user, cluster, name, token);
    case DoRenewUser(user, cluster, token) =>
    case DoRenewProject(p, token) => RenewKeepsOwners(w, c, p, token);
    case DoEnsureUser(user, cluster, token, again) =>
    case DoEnsureProject(user, p, token) => RenewKeepsOwners(w, c, p, token);
    case DoRotate(id, token) => RotateKeepsOwners(w, c, id, token);
    case DoDelete(id) =>
  }

  lemma CreateKeepsOwners(w: World, c: Config, user: string, cluster: string, name: string, token: string)
    requires Owned(w.projects)
    ensures Owned(CreateProject(w, c, user, cluster, name, token).projects)
  {
    if CanStartProject(c, user, cluster, name) {
      assert user != "" by {
        assert Text.TrimSpace("") == "";
      }
      CreateAddsOwn(w, c, user, cluster, name, token);
    }
  }

  /** Creating a project adds at most one, which is the user's. */
  lemma CreateAddsOwn(w: World, c: Config, user: string, cluster: string, name: string, token: string)
    requires CanStartProject(c, user, cluster, name)
    ensures var projects := CreateProject(w, c, user, cluster, name, token).projects;
            projects == w.projects ||
            (w.next in projects && projects[w.next].user == user && projects == w.projects[w.next := projects[w.next]])
  {
    if c.shared {
      SharedProjects(w, c, user, cluster, token);
    }
  }

  lemma RenewKeepsOwners(w: World, c: Config, p: Uuid, token: string)
    requires Owned(w.projects)
    ensures Owned(RenewProject(w, c, p, token).projects)
  {
  }

  lemma RotateKeepsOwners(w: World, c: Config, id: Uuid, token: string)
    requires Owned(w.projects)
    ensures Owned(Rotate(w, c, id, token).projects)
  {
    if id in w.rows && w.rows[id].project.Some? {
      RenewKeepsOwners(w, c, w.rows[id].project.value, token);
    }
  }

  lemma EnsureProjectIff(w: World, c: Config, user: string, p: Uuid, token: string)
    requires Inv(w, c) && MayEnsureProject(w, user, p)
    ensures HasRow(EnsureProject(w, c, user, p, token).rows, OfProject(p)) <==>
      HasRow(w.rows, OfProject(p)) || CanRenewProject(w, c, p)
  {
    if !HasRow(w.rows, OfProject(p)) && CanRenewProject(w, c, p) {
      var j, r := IssueProjectForm(w, p, w.projects[p], token, true);
      IssuedKeepsScopes(w, EnsureProject(w, c, user, p, token), j, r, token);
    }
  }

  /**
   After its row is deleted, a project can be issued credentials again exactly when some other
   row still counts for its account: deletion of the last one strands the project.
   */
  lemma ProjectEnsureAfterDelete(w: World, c: Config, id: Uuid, user: string, token: string)
    requires Inv(w, c) && id in w.rows && w.rows[id].project.Some?
    requires MayEnsureProject(w, user, w.rows[id].project.value)
    ensures var r, v := w.rows[id], Delete(w, c, id);
            && (HasRow(EnsureProject(v, c, user, r.project.value, token).rows, OfProject(r.project.value)) <==>
                  AccountCounted(w.rows - {id}, r.namespace, r.account))
  {
    var r, v := w.rows[id], Delete(w, c, id);
    var p := r.project.value;
    assert CopyAgrees(w, r);
    DeleteExact(w, c, id);
    DeleteKeepsInv(w, c, id);
    assert !HasRow(v.rows, OfProject(p)) by {
      forall i | i in v.rows ensures ScopeOf(v.rows[i]) != OfProject(p) {
        assert ScopeOf(w.rows[i]) != ScopeOf(r);
      }
    }
    assert v.projects[p] == w.projects[p].(config := None);
    EnsureProjectIff(v, c, user, p, token);
  }

  /**
   Creating a project in a namespace of its own always issues a row. The project itself exists
   afterwards exactly when no live project held the namespace; otherwise the row is an orphan.
   */
  lemma CreateOwnedIff(w: World, c: Config, user: string, cluster: string, name: string, token: string)
    requires Inv(w, c) && WellConfigured(c) && !c.shared && CanStartProject(c, user, cluster, name)
    ensures var v := CreateProject(w, c, user, cluster, name, token);
            && HasRow(v.rows, OfProject(w.next))
            && (w.next in v.projects <==> !NamespaceTaken(w.projects, cluster, c.projectNamespace(user, name)))
  {
    CreateOwnedIssues(w, c, user, cluster, name, token);
  }

  lemma CreateOwnedIssues(w: World, c: Config, user: string, cluster: string, name: string, token: string)
    requires Inv(w, c) && WellConfigured(c) && !c.shared && cluster in c.clusters
    ensures var v := CreateOwned(w, c, user, cluster, name, token);
            && HasRow(v.rows, OfProject(w.next))
            && (w.next in v.projects <==> !NamespaceTaken(w.projects, cluster, c.projectNamespace(user, name)))
  {
    var ns := c.projectNamespace(user, name);
    var k := AccountKey(cluster, ns, TENANT_ACCOUNT);
    NoRowBeforeDraw(w, c, w.next);
    DrawKeepsInv(w, c);
    AddAccountKeepsInv(Draw(w), c, k);
    var ready, project := AddAccount(Draw(w), k), Project(user, cluster, ns, None);
    var record := !NamespaceTaken(w.projects, cluster, ns);
    var j, r := IssueProjectForm(ready, w.next, project, token, record);
    IssuedKeepsScopes(ready, IssueProject(ready, w.next, project, token, record), j, r, token);
  }

  /** The orphan is real: creating the same project twice leaves a row whose project does not exist. */
  lemma RepeatedCreateOrphans(w: World, c: Config, user: string, cluster: string, name: string, t1: string, t2: string)
    requires Inv(w, c) && WellConfigured(c) && !c.shared && CanStartProject(c, user, cluster, name)
    ensures var once := CreateProject(w, c, user, cluster, name, t1);
            var twice := CreateProject(once, c, user, cluster, name, t2);
            HasRow(twice.rows, OfProject(once.next)) && once.next !in twice.projects
  {
    var ns := c.projectNamespace(user, name);
    var once := CreateProject(w, c, user, cluster, name, t1);
    CreateProjectKeepsInv(w, c, user, cluster, name, t1);
    assert once == CreateOwned(w, c, user, cluster, name, t1);
    assert NamespaceTaken(once.projects, cluster, ns) by {
      if NamespaceTaken(w.projects, cluster, ns) {
        var p :| p in w.projects && w.projects[p].cluster == cluster && w.projects[p].namespace == ns;
        assert once.projects[p] == w.projects[p];
      } else {
        assert once.projects[w.next].cluster == cluster && once.projects[w.next].namespace == ns;
      }
    }
    CreateOwnedIff(once, c, user, cluster, name, t2);
  }

  /**
   From empty stores: create a project, which is number 0 with row 2, delete that row and ensure
   the project's credentials. The project is still there and has none.
   */
  lemma DeletedProjectIsStranded(clusters: set<string>, uni: char -> char, user: string, cluster: string, name: string,
                                 t1: string, t2: string)
    requires "" !in clusters && CanStartProject(ServiceConfig(clusters, false, uni), user, cluster, name)
    ensures var c := ServiceConfig(clusters, false, uni);
            var w := Run(EMPTY, c, [DoCreateProject(user, cluster, name, t1), DoDelete(2),
                                    DoEnsureProject(user, 0, t2)]);
            0 in w.projects && w.rows == map[]
  {
    var c := ServiceConfig(clusters, false, uni);
    ServiceIsWellConfigured(clusters, false, uni);
    StrandedByDelete(c, user, cluster, name, t1, t2);
  }

  lemma StrandedByDelete(c: Config, user: string, cluster: string, name: string, t1: string, t2: string)
    requires WellConfigured(c) && !c.shared && CanStartProject(c, user, cluster, name)
    ensures var w := Run(EMPTY, c, [DoCreateProject(user, cluster, name, t1), DoDelete(2),
                                    DoEnsureProject(user, 0, t2)]);
            0 in w.projects && w.rows == map[]
  {
    var s1, s2, s3 := DoCreateProject(user, cluster, name, t1), DoDelete(2), DoEnsureProject(user, 0, t2);
    var created := CreateProject(EMPTY, c, user, cluster, name, t1);
    FirstProject(c, user, cluster, name, t1);
    var deleted := Delete(created, c, 2);
    assert deleted.rows == map[];
    assert !AccountCounted(deleted.rows, c.projectNamespace(user, name), TENANT_ACCOUNT);
    assert AccountKey(cluster, c.projectNamespace(user, name), TENANT_ACCOUNT) !in deleted.accounts;
    assert !CanRenewProject(deleted, c, 0);
    RunOfThree(EMPTY, c, s1, s2, s3);
  }

  /** The first project of all, with its one row. */
  lemma FirstProject(c: Config, user: string, cluster: string, name: string, token: string)
    requires WellConfigured(c) && !c.shared && CanStartProject(c, user, cluster, name)
    ensures var w, ns := CreateProject(EMPTY, c, user, cluster, name, token), c.projectNamespace(user, name);
            && w.rows.Keys == {2} && w.accounts == {AccountKey(cluster, ns, TENANT_ACCOUNT)}
            && AccountOf(w.rows[2]) == AccountKey(cluster, ns, TENANT_ACCOUNT) && w.rows[2].project == Some(0)
            && w.projects == map[0 := Project(user, cluster, ns, w.rows[2].config)]
  {
    var ns := c.projectNamespace(user, name);
    assert !NamespaceTaken(EMPTY.projects, cluster, ns);
    assert !HasRow(EMPTY.rows, OfProject(0));
  }

  lemma RunOfThree(w: World, c: Config, s: Step, t: Step, u: Step)
    ensures Run(w, c, [s, t, u]) == Apply(Apply(Apply(w, c, s), c, t), c, u)
  {
    assert [s, t, u][1..] == [t, u] && [t, u][1..] == [u] && [u][1..] == [];
    var v := Apply(Apply(w, c, s), c, t);
    assert Run(v, c, [u]) == Run(Apply(v, c, u), c, []);
    assert Run(Apply(w, c, s), c, [t, u]) == Run(v, c, [u]);
  }

  /** Where a project of the user goes when projects share the user's namespace. */
  function SharedNamespace(w: World, c: Config, user: string, cluster: string): string {
    if (user, cluster) in w.spaces then w.spaces[(user, cluster)].namespace else c.userNamespace(user)
  }

  /** With shared namespaces a project is created if and only if the user's namespace holds none; else none is added. */
  lemma CreateSharedIff(w: World, c: Config, user: string, cluster: string, name: string, token: string)
    requires Inv(w, c) && c.shared && CanStartProject(c, user, cluster, name)
    ensures var v := CreateProject(w, c, user, cluster, name, token);
            && (w.next in v.projects <==> !NamespaceTaken(w.projects, cluster, SharedNamespace(w, c, user, cluster)))
            && (NamespaceTaken(w.projects, cluster, SharedNamespace(w, c, user, cluster)) ==> v.projects == w.projects)
  {
    SharedProjects(w, c, user, cluster, token);
    assert Fresh(w);
  }

  lemma SharedProjects(w: World, c: Config, user: string, cluster: string, token: string)
    ensures var ns := SharedNamespace(w, c, user, cluster);
            CreateShared(w, c, user, cluster, token).projects ==
              if NamespaceTaken(w.projects, cluster, ns) then w.projects
              else w.projects[w.next := Project(user, cluster, ns, None)]
  {
  }

  /** After the first project the user's namespace is the same one and is taken. */
  lemma FirstSharedProjectTakes(w: World, c: Config, user: string, cluster: string, token: string)
    ensures var once, ns := CreateShared(w, c, user, cluster, token), SharedNamespace(w, c, user, cluster);
            SharedNamespace(once, c, user, cluster) == ns && NamespaceTaken(once.projects, cluster, ns)
  {
    var ns := SharedNamespace(w, c, user, cluster);
    var once := CreateShared(w, c, user, cluster, token);
    SharedProjects(w, c, user, cluster, token);
    assert NamespaceTaken(once.projects, cluster, ns) by {
      if !NamespaceTaken(w.projects, cluster, ns) {
        assert once.projects[w.next] == Project(user, cluster, ns, None);
      }
    }
  }

  /** So a user never gets a second project on a cluster, whatever it is called. */
  lemma SecondSharedProjectIsRefused(w: World, c: Config, user: string, cluster: string, n1: string, n2: string,
                                     t1: string, t2: string)
    requires Inv(w, c) && WellConfigured(c) && c.shared
    requires CanStartProject(c, user, cluster, n1) && CanStartProject(c, user, cluster, n2)
    ensures var once := CreateProject(w, c, user, cluster, n1, t1);
            CreateProject(once, c, user, cluster, n2, t2).projects == once.projects
  {
    var once := CreateShared(w, c, user, cluster, t1);
    FirstSharedProjectTakes(w, c, user, cluster, t1);
    CreateProjectKeepsInv(w, c, user, cluster, n1, t1);
    CreateSharedIff(once, c, user, cluster, n2, t2);
  }
}
