/** What each stage of the grapher merges, as sequences of `tx.merge` calls in
    the order the script makes them, and the lemmas that say which nodes and
    edges those merges leave in the graph. */
module GrapherSpec {
  import opened Objects
  import opened GraphStore
  import opened Rules
  import opened WhoCan

  // ---------------------------------------------------------------------------
  // Nodes, with the primary label and primary key the script gives them.

  function ProjectNode(m: Meta): Node
  {
    Node("Project", m.uid, map["name" := m.name, "uid" := m.uid])
  }

  /** A namespace that `projects.get` could not find: keyed by its name. */
  function AbsentProjectNode(namespace: string): Node
  {
    Node("AbsentProject", namespace, map["name" := namespace])
  }

  function ServiceAccountNode(m: Meta): Node
  {
    Node("ServiceAccount", m.uid, map["name" := m.name, "namespace" := m.namespace, "uid" := m.uid])
  }

  /** A service account that `serviceAccounts.get` could not find: keyed by its
      name alone, the namespace being only a property. */
  function AbsentServiceAccountNode(namespace: string, name: string): Node
  {
    Node("AbsentServiceAccount", name, map["name" := name, "namespace" := namespace])
  }

  function SccNode(m: Meta): Node
  {
    Node("SCC", m.uid, map["name" := m.name, "uid" := m.uid])
  }

  function RoleNode(m: Meta): Node
  {
    Node("Role", m.uid, map["name" := m.name, "namespace" := m.namespace, "uid" := m.uid])
  }

  function ClusterRoleNode(m: Meta): Node
  {
    Node("ClusterRole", m.uid, map["name" := m.name, "uid" := m.uid])
  }

  /** The Route's port: `spec.port.targetPort` when `spec.port` is set, else "any". */
  function RoutePort(r: RouteObject): string
  {
    match r.targetPort
    case Some(p) => p
    case None => "any"
  }

  /** Properties set to None are dropped, so an absent host or path is no property. */
  function OptionalProp(props: Props, key: string, value: Option<string>): Props
  {
    match value
    case Some(v) => props[key := v]
    case None => props
  }

  function RouteNode(r: RouteObject): Node
  {
    var base := map["name" := r.meta.name, "namespace" := r.meta.namespace, "uid" := r.meta.uid,
                    "port" := RoutePort(r)];
    Node("Route", r.meta.uid, OptionalProp(OptionalProp(base, "host", r.host), "path", r.path))
  }

  // ---------------------------------------------------------------------------
  // Resolution with absent-node fallback.

  /** `projects.get(name=namespace)`, or an AbsentProject when it raises. */
  function ProjectOrAbsent(c: Cluster, namespace: string): Node
  {
    if namespace in c.projects then ProjectNode(c.projects[namespace])
    else AbsentProjectNode(namespace)
  }

  /** `serviceAccounts.get(name=name, namespace=namespace)`, or an
      AbsentServiceAccount when it raises. */
  function ServiceAccountOrAbsent(c: Cluster, namespace: string, name: string): Node
  {
    var key := NsName(namespace, name);
    if key in c.serviceAccounts then ServiceAccountNode(c.serviceAccounts[key])
    else AbsentServiceAccountNode(namespace, name)
  }

  /** The node of a resolved roleRef, built from the object `get` returned. */
  function BoundRoleNode(kind: RoleRefKind, role: RoleObject): Node
  {
    match kind
    case RefClusterRole => ClusterRoleNode(role.meta)
    case RefRole => RoleNode(role.meta)
  }

  /** The two binding stages differ only in the subject-to-role relationship type. */
  datatype BindingKind = RoleBindingKind | ClusterRoleBindingKind
  {
    function HasRole(): string
    {
      match this
      case RoleBindingKind => "HAS ROLE"
      case ClusterRoleBindingKind => "HAS CLUSTER ROLE"
    }
  }

  /** A trace that completed with the given merges. */
  function Done(ops: seq<Op>): Trace<Op>
  {
    Trace(ops, Completed)
  }

  // ---------------------------------------------------------------------------
  // Node-only stages: Project, SCC, Role, ClusterRole.

  function ProjectStage(projects: seq<Meta>): seq<Op>
    decreases |projects|
  {
    if projects == [] then []
    else ProjectStage(projects[..|projects| - 1]) + [MergeNode(ProjectNode(projects[|projects| - 1]))]
  }

  function SccStage(sccs: seq<Meta>): seq<Op>
    decreases |sccs|
  {
    if sccs == [] then []
    else SccStage(sccs[..|sccs| - 1]) + [MergeNode(SccNode(sccs[|sccs| - 1]))]
  }

  function RoleStage(roles: seq<RoleObject>): seq<Op>
    decreases |roles|
  {
    if roles == [] then []
    else RoleStage(roles[..|roles| - 1]) + [MergeNode(RoleNode(roles[|roles| - 1].meta))]
  }

  function ClusterRoleStage(roles: seq<RoleObject>): seq<Op>
    decreases |roles|
  {
    if roles == [] then []
    else ClusterRoleStage(roles[..|roles| - 1]) + [MergeNode(ClusterRoleNode(roles[|roles| - 1].meta))]
  }

  // ---------------------------------------------------------------------------
  // ServiceAccount stage: the project lookup is not guarded, so a service
  // account whose namespace `projects.get` cannot find stops the script.

  /** The Project node this stage builds: named by the service account's
      namespace, keyed by the uid `get` returned. */
  function ServiceAccountProjectNode(sa: Meta, project: Meta): Node
  {
    Node("Project", project.uid, map["name" := sa.namespace, "uid" := project.uid])
  }

  function ServiceAccountStep(c: Cluster, sa: Meta): Trace<Op>
  {
    if sa.namespace in c.projects then
      var a := ServiceAccountNode(sa);
      var b := ServiceAccountProjectNode(sa, c.projects[sa.namespace]);
      Done([MergeNode(a), MergeNode(b), MergeRel(b, "CONTAIN SA", a, map[])])
    else Trace([], Aborted(ProjectLookupFailed(sa.namespace)))
  }

  function ServiceAccountStage(c: Cluster, sas: seq<Meta>): Trace<Op>
    decreases |sas|
  {
    if sas == [] then Done([])
    else Then(ServiceAccountStage(c, sas[..|sas| - 1]), ServiceAccountStep(c, sas[|sas| - 1]))
  }

  // ---------------------------------------------------------------------------
  // SCC binding stage.

  /** One service account allowed to use an SCC: the project, the service
      account and the SCC are merged, then the CAN USE SCC edge. The CONTAIN SA
      relationship the script also builds is never merged. */
  function SccUserOps(c: Cluster, scc: Meta, namespace: string, name: string): seq<Op>
  {
    var project := ProjectOrAbsent(c, namespace);
    var subject := ServiceAccountOrAbsent(c, namespace, name);
    [MergeNode(project), MergeNode(subject), MergeNode(SccNode(scc)),
     MergeRel(subject, "CAN USE SCC", SccNode(scc), map[])]
  }

  function SccLineStep(c: Cluster, scc: Meta, line: string): Trace<Op>
  {
    match ParseLine(line)
    case NotServiceAccount => Done([])
    case TooFewFields => Trace([], Aborted(WhoCanLineTooShort(scc.name, line)))
    case ServiceAccountRef(namespace, name) => Done(SccUserOps(c, scc, namespace, name))
  }

  function SccLinesTrace(c: Cluster, scc: Meta, lines: seq<string>): Trace<Op>
    decreases |lines|
  {
    if lines == [] then Done([])
    else Then(SccLinesTrace(c, scc, lines[..|lines| - 1]), SccLineStep(c, scc, lines[|lines| - 1]))
  }

  /** One SCC: run `who-can` (a failure stops the script) and read its lines. */
  function SccBindingStep(c: Cluster, scc: Meta): Trace<Op>
  {
    if scc.name in c.whoCan then SccLinesTrace(c, scc, Lines(c.whoCan[scc.name]))
    else Trace([], Aborted(WhoCanFailed(scc.name)))
  }

  function SccBindingStage(c: Cluster, sccs: seq<Meta>): Trace<Op>
    decreases |sccs|
  {
    if sccs == [] then Done([])
    else Then(SccBindingStage(c, sccs[..|sccs| - 1]), SccBindingStep(c, sccs[|sccs| - 1]))
  }

  // ---------------------------------------------------------------------------
  // RoleBinding and ClusterRoleBinding stages.

  /** One subject: only a service account with a namespace is resolved. */
  function SubjectOps(c: Cluster, role: Node, hasRole: string, description: string, s: Subject): seq<Op>
  {
    if IsServiceAccountSubject(s) then
      var project := ProjectOrAbsent(c, s.namespace);
      var subject := ServiceAccountOrAbsent(c, s.namespace, s.name);
      [MergeNode(role), MergeNode(subject),
       MergeRel(project, "CONTAIN SA", subject, map[]),
       MergeRel(subject, hasRole, role, map["description" := description])]
    else []
  }

  function SubjectsOps(c: Cluster, role: Node, hasRole: string, description: string, subjects: seq<Subject>): seq<Op>
    decreases |subjects|
  {
    if subjects == [] then []
    else
      SubjectsOps(c, role, hasRole, description, subjects[..|subjects| - 1])
        + SubjectOps(c, role, hasRole, description, subjects[|subjects| - 1])
  }

  /** One binding: nothing at all when its roleRef does not resolve; otherwise
      the role's rules, then its subjects. */
  function BindingOps(c: Cluster, kind: BindingKind, b: Binding): seq<Op>
  {
    match ResolveRole(c, b)
    case None => []
    case Some(role) =>
      var roleNode := BoundRoleNode(b.roleRef.kind, role);
      RulesOps(roleNode, role.rules) + SubjectsOps(c, roleNode, kind.HasRole(), Description(b), b.subjects)
  }

  function BindingStage(c: Cluster, kind: BindingKind, bindings: seq<Binding>): seq<Op>
    decreases |bindings|
  {
    if bindings == [] then []
    else BindingStage(c, kind, bindings[..|bindings| - 1]) + BindingOps(c, kind, bindings[|bindings| - 1])
  }

  // ---------------------------------------------------------------------------
  // Route stage.

  function RouteOps(c: Cluster, r: RouteObject): seq<Op>
  {
    var project := ProjectOrAbsent(c, r.meta.namespace);
    [MergeNode(project), MergeNode(RouteNode(r)), MergeRel(project, "CONTAIN ROUTE", RouteNode(r), map[])]
  }

  function RouteStage(c: Cluster, routes: seq<RouteObject>): seq<Op>
    decreases |routes|
  {
    if routes == [] then []
    else RouteStage(c, routes[..|routes| - 1]) + RouteOps(c, routes[|routes| - 1])
  }

  // ---------------------------------------------------------------------------
  // The whole run.

  /** `"all" in collector or name in collector` */
  predicate Selected(collectors: seq<string>, name: string)
  {
    "all" in collectors || name in collectors
  }

  /** The stages that can stop the script, in its order: projects, service
      accounts (a namespace without a project stops it), SCC nodes, and SCC
      users (a failed or short `who-can` stops it). */
  function IdentityStages(c: Cluster, collectors: seq<string>): Trace<Op>
  {
    var t1 := Done(if Selected(collectors, "project") then ProjectStage(c.projectList) else []);
    var t2 := Then(t1, if Selected(collectors, "sa") then ServiceAccountStage(c, c.serviceAccountList) else Done([]));
    var t3 := Then(t2, Done(if Selected(collectors, "scc") then SccStage(c.sccList) else []));
    Then(t3, if Selected(collectors, "scc") then SccBindingStage(c, c.sccList) else Done([]))
  }

  /** The stages that always run to the end, in the script's order: Roles,
      ClusterRoles, RoleBindings (under "role"), ClusterRoleBindings (under
      "clusterrole") and Routes. */
  function GrantStages(c: Cluster, collectors: seq<string>): seq<Op>
  {
    (if Selected(collectors, "role") then RoleStage(c.roleList) else [])
    + (if Selected(collectors, "clusterrole") then ClusterRoleStage(c.clusterRoleList) else [])
    + (if Selected(collectors, "role") then BindingStage(c, RoleBindingKind, c.roleBindingList) else [])
    + (if Selected(collectors, "clusterrole") then BindingStage(c, ClusterRoleBindingKind, c.clusterRoleBindingList) else [])
    + (if Selected(collectors, "route") then RouteStage(c, c.routeList) else [])
  }

  /** A whole run: every selected stage in the script's order; an uncaught
      exception ends it. */
  function Pass(c: Cluster, collectors: seq<string>): Trace<Op>
  {
    Then(IdentityStages(c, collectors), Done(GrantStages(c, collectors)))
  }
}
