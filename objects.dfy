/** The cluster objects both scripts read, and the lookups they make.

    A listing (`resources.get(...).get()`) is a sequence in the order the API
    returns it; a point lookup (`get(name=..., namespace=...)`) is a partial map,
    and a lookup that raises is a key that is not in the map. */
module Objects {

  datatype Option<T> = None | Some(value: T)

  /** `metadata` of an object; `namespace` is "" for cluster-scoped objects. */
  datatype Meta = Meta(name: string, namespace: string, uid: string)

  /** Key of a namespaced point lookup. */
  datatype NsName = NsName(namespace: string, name: string)

  /** One PolicyRule of a Role or ClusterRole. A list the object leaves out is
      read as empty: the scripts test `apiGroups` and `nonResourceURLs` only for
      truthiness, and the API server rejects rules that lack `verbs`, or that
      name API groups without `resources`. */
  datatype Rule = Rule(
    apiGroups: seq<string>,
    resources: seq<string>,
    verbs: seq<string>,
    nonResourceURLs: seq<string>)

  /** A Role or a ClusterRole. */
  datatype RoleObject = RoleObject(meta: Meta, rules: seq<Rule>)

  /** `roleRef.kind`; the API server admits only these two. */
  datatype RoleRefKind = RefRole | RefClusterRole

  datatype RoleRef = RoleRef(kind: RoleRefKind, name: string)

  /** One entry of a binding's `subjects`; `namespace` is "" when absent, which
      the scripts treat the same way (both are falsy). */
  datatype Subject = Subject(kind: string, name: string, namespace: string)

  /** A RoleBinding or ClusterRoleBinding. `description` is not a field the API
      defines, so it is normally absent. */
  datatype Binding = Binding(
    meta: Meta,
    description: Option<string>,
    roleRef: RoleRef,
    subjects: seq<Subject>)

  /** A Route: `spec.host`, `spec.path` and, when `spec.port` is set, its `targetPort`. */
  datatype RouteObject = RouteObject(
    meta: Meta,
    host: Option<string>,
    path: Option<string>,
    targetPort: Option<string>)

  /** What the scripts can observe of the cluster. */
  datatype Cluster = Cluster(
    projectList: seq<Meta>,
    serviceAccountList: seq<Meta>,
    sccList: seq<Meta>,
    roleList: seq<RoleObject>,
    clusterRoleList: seq<RoleObject>,
    roleBindingList: seq<Binding>,
    clusterRoleBindingList: seq<Binding>,
    routeList: seq<RouteObject>,
    /** `projects.get(name=ns)` */
    projects: map<string, Meta>,
    /** `serviceAccounts.get(name=n, namespace=ns)`, keyed by (ns, n) */
    serviceAccounts: map<NsName, Meta>,
    /** `roles.get(name=n, namespace=ns)`, keyed by (ns, n) */
    roles: map<NsName, RoleObject>,
    /** `clusterroles.get(name=n)` */
    clusterRoles: map<string, RoleObject>,
    /** standard output of `oc adm policy who-can use scc <name> -A`, keyed by
        the SCC name; a missing key is a command that exited non-zero */
    whoCan: map<string, string>)

  /** Why a run stopped early: each is an exception the script does not catch. */
  datatype Abort =
      /** `-r` was given but the confirmation prompt was not answered "y": the
          script exits before it merges anything */
    | ResetDeclined
    | ProjectLookupFailed(namespace: string)
    | WhoCanFailed(scc: string)
    | WhoCanLineTooShort(scc: string, line: string)

  datatype Outcome = Completed | Aborted(reason: Abort)

  /** What a run produced before it completed or stopped. */
  datatype Trace<T> = Trace(items: seq<T>, outcome: Outcome)

  /** Run `u` after `t`, unless `t` stopped the script. */
  function Then<T>(t: Trace<T>, u: Trace<T>): Trace<T>
  {
    if t.outcome.Aborted? then t else Trace(t.items + u.items, u.outcome)
  }

  /** A subject the scripts resolve: a service account with a namespace. */
  predicate IsServiceAccountSubject(s: Subject)
  {
    s.kind == "ServiceAccount" && s.namespace != ""
  }

  /** The binding's description, "" when it is absent or empty. */
  function Description(b: Binding): string
  {
    match b.description
    case Some(d) => d
    case None => ""
  }

  /** The object a binding's `roleRef` points at: a ClusterRole by name, or a
      Role by name in the binding's own namespace; `None` when `get` raises. */
  function ResolveRole(c: Cluster, b: Binding): (r: Option<RoleObject>)
    ensures r.Some? && b.roleRef.kind == RefRole ==>
      NsName(b.meta.namespace, b.roleRef.name) in c.roles
      && r.value == c.roles[NsName(b.meta.namespace, b.roleRef.name)]
    ensures r.Some? && b.roleRef.kind == RefClusterRole ==>
      b.roleRef.name in c.clusterRoles && r.value == c.clusterRoles[b.roleRef.name]
    ensures r.None? <==>
      (if b.roleRef.kind == RefRole then NsName(b.meta.namespace, b.roleRef.name) !in c.roles
       else b.roleRef.name !in c.clusterRoles)
  {
    match b.roleRef.kind
    case RefClusterRole =>
      if b.roleRef.name in c.clusterRoles then Some(c.clusterRoles[b.roleRef.name]) else None
    case RefRole =>
      var key := NsName(b.meta.namespace, b.roleRef.name);
      if key in c.roles then Some(c.roles[key]) else None
  }
}
