/** The grapher's stages as the loops the script runs over a live graph: each
    merge goes through `Graph.Merge`, and each stage is proved to leave the
    graph as its specification in GrapherSpec says. */
module Grapher {
  import opened Objects
  import opened GraphStore
  import opened Text
  import opened Rules
  import opened WhoCan
  import opened GrapherSpec
  import opened GrapherFacts

  /** Merge a node, a node and a relationship, as most stages' transactions do. */
  method MergeThree(g: Graph, a: Op, b: Op, c: Op, ghost done: seq<Op>, ghost s0: Store)
    modifies g
    requires g.State() == ApplyAll(s0, done)
    ensures g.State() == ApplyAll(s0, done + [a, b, c])
  {
    g.Merge(a);
    g.Merge(b);
    g.Merge(c);
    ApplyAllConcat(s0, done, [a, b, c]);
    ApplyAllThree(ApplyAll(s0, done), a, b, c);
  }

  /** The Project stage. */
  method MergeProjects(g: Graph, projects: seq<Meta>)
    modifies g
    ensures g.State() == ApplyAll(old(g.State()), ProjectStage(projects))
  {
    for i := 0 to |projects|
      invariant g.State() == ApplyAll(old(g.State()), ProjectStage(projects[..i]))
    {
      g.Merge(MergeNode(ProjectNode(projects[i])));
      assert projects[..i + 1][..i] == projects[..i];
      ApplyAllSnoc(old(g.State()), ProjectStage(projects[..i]), MergeNode(ProjectNode(projects[i])));
    }
    assert projects[..|projects|] == projects;
  }

  /** The ServiceAccount stage: stops at the first service account whose
      namespace the project lookup cannot find. */
  method MergeServiceAccounts(g: Graph, c: Cluster, sas: seq<Meta>) returns (outcome: Outcome)
    modifies g
    ensures outcome == ServiceAccountStage(c, sas).outcome
    ensures g.State() == ApplyAll(old(g.State()), ServiceAccountStage(c, sas).items)
  {
    for i := 0 to |sas|
      invariant ServiceAccountStage(c, sas[..i]).outcome == Completed
      invariant g.State() == ApplyAll(old(g.State()), ServiceAccountStage(c, sas[..i]).items)
    {
      var sa := sas[i];
      assert sas[..i + 1][..i] == sas[..i];
      if sa.namespace !in c.projects {
        outcome := Aborted(ProjectLookupFailed(sa.namespace));
        assert ServiceAccountStep(c, sa) == Trace([], outcome);
        assert ServiceAccountStage(c, sas[..i + 1]) == Then(ServiceAccountStage(c, sas[..i]), ServiceAccountStep(c, sa));
        assert ServiceAccountStage(c, sas[..i]).items + [] == ServiceAccountStage(c, sas[..i]).items;
        ServiceAccountStageStops(c, sas, i + 1);
        return;
      }
      var a := ServiceAccountNode(sa);
      var b := ServiceAccountProjectNode(sa, c.projects[sa.namespace]);
      MergeThree(g, MergeNode(a), MergeNode(b), MergeRel(b, "CONTAIN SA", a, map[]),
                 ServiceAccountStage(c, sas[..i]).items, old(g.State()));
    }
    assert sas[..|sas|] == sas;
    outcome := Completed;
  }

  /** The SCC stage. */
  method MergeSccs(g: Graph, sccs: seq<Meta>)
    modifies g
    ensures g.State() == ApplyAll(old(g.State()), SccStage(sccs))
  {
    for i := 0 to |sccs|
      invariant g.State() == ApplyAll(old(g.State()), SccStage(sccs[..i]))
    {
      g.Merge(MergeNode(SccNode(sccs[i])));
      assert sccs[..i + 1][..i] == sccs[..i];
      ApplyAllSnoc(old(g.State()), SccStage(sccs[..i]), MergeNode(SccNode(sccs[i])));
    }
    assert sccs[..|sccs|] == sccs;
  }

  /** One service-account line: project, service account, SCC, then CAN USE SCC. */
  method MergeSccUser(g: Graph, c: Cluster, scc: Meta, namespace: string, name: string)
    modifies g
    ensures g.State() == ApplyAll(old(g.State()), SccUserOps(c, scc, namespace, name))
  {
    var subjectNode := ServiceAccountOrAbsent(c, namespace, name);
    var projectNode := ProjectOrAbsent(c, namespace);
    var sccNode := SccNode(scc);
    var canUse := MergeRel(subjectNode, "CAN USE SCC", sccNode, map[]);
    g.Merge(MergeNode(projectNode));
    g.Merge(MergeNode(subjectNode));
    g.Merge(MergeNode(sccNode));
    g.Merge(canUse);
    ApplyAllFour(old(g.State()), MergeNode(projectNode), MergeNode(subjectNode), MergeNode(sccNode), canUse);
  }

  /** The lines of one SCC's `who-can` output. */
  method MergeSccUsers(g: Graph, c: Cluster, scc: Meta, lines: seq<string>) returns (outcome: Outcome)
    modifies g
    ensures outcome == SccLinesTrace(c, scc, lines).outcome
    ensures g.State() == ApplyAll(old(g.State()), SccLinesTrace(c, scc, lines).items)
  {
    for k := 0 to |lines|
      invariant SccLinesTrace(c, scc, lines[..k]).outcome == Completed
      invariant g.State() == ApplyAll(old(g.State()), SccLinesTrace(c, scc, lines[..k]).items)
    {
      var line := lines[k];
      ghost var done := SccLinesTrace(c, scc, lines[..k]).items;
      assert lines[..k + 1][..k] == lines[..k];
      assert SccLinesTrace(c, scc, lines[..k + 1]) == Then(SccLinesTrace(c, scc, lines[..k]), SccLineStep(c, scc, line));
      if Contains(line, ServiceAccountMarker) {
        var fields := Split(line, ':');
        if |fields| < 4 {
          outcome := Aborted(WhoCanLineTooShort(scc.name, line));
          assert SccLineStep(c, scc, line) == Trace([], outcome);
          assert done + [] == done;
          SccLinesStops(c, scc, lines, k + 1);
          return;
        }
        var namespace, name := fields[2], fields[3];
        assert SccLineStep(c, scc, line) == Done(SccUserOps(c, scc, namespace, name));
        MergeSccUser(g, c, scc, namespace, name);
        ApplyAllConcat(old(g.State()), done, SccUserOps(c, scc, namespace, name));
      } else {
        assert SccLineStep(c, scc, line) == Done([]);
        assert done + [] == done;
      }
    }
    assert lines[..|lines|] == lines;
    outcome := Completed;
  }

  /** The SCC binding stage: for every SCC, run `who-can` (whose output the
      cluster supplies) and read it; a failed command stops the script. */
  method MergeSccBindings(g: Graph, c: Cluster, sccs: seq<Meta>) returns (outcome: Outcome)
    modifies g
    ensures outcome == SccBindingStage(c, sccs).outcome
    ensures g.State() == ApplyAll(old(g.State()), SccBindingStage(c, sccs).items)
  {
    for i := 0 to |sccs|
      invariant SccBindingStage(c, sccs[..i]).outcome == Completed
      invariant g.State() == ApplyAll(old(g.State()), SccBindingStage(c, sccs[..i]).items)
    {
      var scc := sccs[i];
      ghost var done := SccBindingStage(c, sccs[..i]).items;
      assert sccs[..i + 1][..i] == sccs[..i];
      assert SccBindingStage(c, sccs[..i + 1]) == Then(SccBindingStage(c, sccs[..i]), SccBindingStep(c, scc));
      if scc.name !in c.whoCan {
        outcome := Aborted(WhoCanFailed(scc.name));
        assert SccBindingStep(c, scc) == Trace([], outcome);
        assert done + [] == done;
        SccBindingStageStops(c, sccs, i + 1);
        return;
      }
      var lines := Lines(c.whoCan[scc.name]);
      assert SccBindingStep(c, scc) == SccLinesTrace(c, scc, lines);
      var o := MergeSccUsers(g, c, scc, lines);
      ApplyAllConcat(old(g.State()), done, SccLinesTrace(c, scc, lines).items);
      if o.Aborted? {
        outcome := o;
        SccBindingStageStops(c, sccs, i + 1);
        return;
      }
    }
    assert sccs[..|sccs|] == sccs;
    outcome := Completed;
  }

  /** The Role stage. */
  method MergeRoles(g: Graph, roles: seq<RoleObject>)
    modifies g
    ensures g.State() == ApplyAll(old(g.State()), RoleStage(roles))
  {
    for i := 0 to |roles|
      invariant g.State() == ApplyAll(old(g.State()), RoleStage(roles[..i]))
    {
      g.Merge(MergeNode(RoleNode(roles[i].meta)));
      assert roles[..i + 1][..i] == roles[..i];
      ApplyAllSnoc(old(g.State()), RoleStage(roles[..i]), MergeNode(RoleNode(roles[i].meta)));
    }
    assert roles[..|roles|] == roles;
  }

  /** The ClusterRole stage. */
  method MergeClusterRoles(g: Graph, roles: seq<RoleObject>)
    modifies g
    ensures g.State() == ApplyAll(old(g.State()), ClusterRoleStage(roles))
  {
    for i := 0 to |roles|
      invariant g.State() == ApplyAll(old(g.State()), ClusterRoleStage(roles[..i]))
    {
      g.Merge(MergeNode(ClusterRoleNode(roles[i].meta)));
      assert roles[..i + 1][..i] == roles[..i];
      ApplyAllSnoc(old(g.State()), ClusterRoleStage(roles[..i]), MergeNode(ClusterRoleNode(roles[i].meta)));
    }
    assert roles[..|roles|] == roles;
  }

  /** `for verb in rule.verbs` under one resource. */
  method MergeResourceVerbs(g: Graph, role: Node, name: string, verbs: seq<string>)
    modifies g
    ensures g.State() == ApplyAll(old(g.State()), VerbOps(role, name, verbs))
  {
    for v := 0 to |verbs|
      invariant g.State() == ApplyAll(old(g.State()), VerbOps(role, name, verbs[..v]))
    {
      var verb := verbs[v];
      var resourceNode := ResourceNode(name);
      var relType := if verb == "impersonate" then "impers" else verb;
      assert verbs[..v + 1][..v] == verbs[..v];
      MergeThree(g, MergeNode(role), MergeNode(resourceNode), MergeRel(role, relType, resourceNode, map[]),
                 VerbOps(role, name, verbs[..v]), old(g.State()));
    }
    assert verbs[..|verbs|] == verbs;
  }

  /** `for resource in rule.resources` under one API group. */
  method MergeResources(g: Graph, role: Node, apiGroup: string, resources: seq<string>, verbs: seq<string>)
    modifies g
    ensures g.State() == ApplyAll(old(g.State()), ResourceOps(role, apiGroup, resources, verbs))
  {
    for r := 0 to |resources|
      invariant g.State() == ApplyAll(old(g.State()), ResourceOps(role, apiGroup, resources[..r], verbs))
    {
      var resource := resources[r];
      var resourceName := if apiGroup == "" then resource else resource;
      MergeResourceVerbs(g, role, resourceName, verbs);
      assert resources[..r + 1][..r] == resources[..r];
      ApplyAllConcat(old(g.State()), ResourceOps(role, apiGroup, resources[..r], verbs),
                     VerbOps(role, resourceName, verbs));
    }
    assert resources[..|resources|] == resources;
  }

  /** The resource part of one rule: every (apiGroup, resource, verb). */
  method MergeResourceRule(g: Graph, role: Node, rule: Rule)
    modifies g
    ensures g.State() == ApplyAll(old(g.State()), ApiGroupOps(role, rule.apiGroups, rule.resources, rule.verbs))
  {
    var groups := rule.apiGroups;
    for a := 0 to |groups|
      invariant g.State() == ApplyAll(old(g.State()), ApiGroupOps(role, groups[..a], rule.resources, rule.verbs))
    {
      var apiGroup := groups[a];
      MergeResources(g, role, apiGroup, rule.resources, rule.verbs);
      assert groups[..a + 1][..a] == groups[..a];
      ApplyAllConcat(old(g.State()), ApiGroupOps(role, groups[..a], rule.resources, rule.verbs),
                     ResourceOps(role, apiGroup, rule.resources, rule.verbs));
    }
    assert groups[..|groups|] == groups;
  }

  /** `for verb in rule.verbs` under one non-resource URL. */
  method MergeUrlVerbs(g: Graph, role: Node, url: string, verbs: seq<string>)
    modifies g
    ensures g.State() == ApplyAll(old(g.State()), UrlVerbOps(role, url, verbs))
  {
    for v := 0 to |verbs|
      invariant g.State() == ApplyAll(old(g.State()), UrlVerbOps(role, url, verbs[..v]))
    {
      var verb := verbs[v];
      var resourceNode := NonResourceNode(url);
      assert verbs[..v + 1][..v] == verbs[..v];
      MergeThree(g, MergeNode(role), MergeNode(resourceNode), MergeRel(role, verb, resourceNode, map[]),
                 UrlVerbOps(role, url, verbs[..v]), old(g.State()));
    }
    assert verbs[..|verbs|] == verbs;
  }

  /** The non-resource part of one rule: every (nonResourceURL, verb), typed by the verb. */
  method MergeUrlRule(g: Graph, role: Node, rule: Rule)
    modifies g
    ensures g.State() == ApplyAll(old(g.State()), UrlOps(role, rule.nonResourceURLs, rule.verbs))
  {
    var urls := rule.nonResourceURLs;
    for u := 0 to |urls|
      invariant g.State() == ApplyAll(old(g.State()), UrlOps(role, urls[..u], rule.verbs))
    {
      var url := urls[u];
      MergeUrlVerbs(g, role, url, rule.verbs);
      assert urls[..u + 1][..u] == urls[..u];
      ApplyAllConcat(old(g.State()), UrlOps(role, urls[..u], rule.verbs), UrlVerbOps(role, url, rule.verbs));
    }
    assert urls[..|urls|] == urls;
  }

  /** `for rule in role.rules`. */
  method MergeRules(g: Graph, role: Node, rules: seq<Rule>)
    modifies g
    ensures g.State() == ApplyAll(old(g.State()), RulesOps(role, rules))
  {
    for i := 0 to |rules|
      invariant g.State() == ApplyAll(old(g.State()), RulesOps(role, rules[..i]))
    {
      var rule := rules[i];
      ghost var before := g.State();
      ghost var resourcePart: seq<Op> := [];
      ghost var urlPart: seq<Op> := [];
      if rule.apiGroups != [] {
        MergeResourceRule(g, role, rule);
        resourcePart := ApiGroupOps(role, rule.apiGroups, rule.resources, rule.verbs);
      }
      ghost var mid := g.State();
      if rule.nonResourceURLs != [] {
        MergeUrlRule(g, role, rule);
        urlPart := UrlOps(role, rule.nonResourceURLs, rule.verbs);
      }
      assert RuleOps(role, rule) == resourcePart + urlPart;
      ApplyAllConcat(before, resourcePart, urlPart);
      assert rules[..i + 1][..i] == rules[..i];
      ApplyAllConcat(old(g.State()), RulesOps(role, rules[..i]), RuleOps(role, rule));
    }
    assert rules[..|rules|] == rules;
  }

  /** `for subject in enum.subjects`: only a service account with a namespace
      is resolved, its project and itself with absent-node fallback. */
  method MergeSubjects(g: Graph, c: Cluster, role: Node, hasRole: string, description: string, subjects: seq<Subject>)
    modifies g
    ensures g.State() == ApplyAll(old(g.State()), SubjectsOps(c, role, hasRole, description, subjects))
  {
    for i := 0 to |subjects|
      invariant g.State() == ApplyAll(old(g.State()), SubjectsOps(c, role, hasRole, description, subjects[..i]))
    {
      var subject := subjects[i];
      ghost var done := SubjectsOps(c, role, hasRole, description, subjects[..i]);
      assert subjects[..i + 1][..i] == subjects[..i];
      if subject.kind == "ServiceAccount" && subject.namespace != "" {
        var projectNode := ProjectOrAbsent(c, subject.namespace);
        var subjectNode := ServiceAccountOrAbsent(c, subject.namespace, subject.name);
        var containSa := MergeRel(projectNode, "CONTAIN SA", subjectNode, map[]);
        var hasRoleRel := MergeRel(subjectNode, hasRole, role, map["description" := description]);
        ghost var ops := [MergeNode(role), MergeNode(subjectNode), containSa, hasRoleRel];
        g.Merge(MergeNode(role));
        g.Merge(MergeNode(subjectNode));
        g.Merge(containSa);
        g.Merge(hasRoleRel);
        assert ops == SubjectOps(c, role, hasRole, description, subject);
        assert SubjectsOps(c, role, hasRole, description, subjects[..i + 1]) == done + ops;
        ApplyAllConcat(old(g.State()), done, ops);
        ApplyAllFour(ApplyAll(old(g.State()), done), ops[0], ops[1], ops[2], ops[3]);
      } else {
        assert SubjectsOps(c, role, hasRole, description, subjects[..i + 1]) == done + [];
        assert done + [] == done;
      }
    }
    assert subjects[..|subjects|] == subjects;
  }

  /** One binding: resolve its roleRef (a Role in the binding's own
      namespace), leaving the binding out entirely when the lookup fails; then
      the role's rules and the binding's subjects. */
  method MergeBinding(g: Graph, c: Cluster, kind: BindingKind, b: Binding)
    modifies g
    ensures g.State() == ApplyAll(old(g.State()), BindingOps(c, kind, b))
  {
    var description := if b.description.Some? && b.description.value != "" then b.description.value else "";
    var roleNode: Node;
    var role: RoleObject;
    if b.roleRef.kind == RefClusterRole {
      if b.roleRef.name !in c.clusterRoles {
        return;
      }
      role := c.clusterRoles[b.roleRef.name];
      roleNode := ClusterRoleNode(role.meta);
    } else {
      if NsName(b.meta.namespace, b.roleRef.name) !in c.roles {
        return;
      }
      role := c.roles[NsName(b.meta.namespace, b.roleRef.name)];
      roleNode := RoleNode(role.meta);
    }
    assert description == Description(b);
    assert BindingOps(c, kind, b) == RulesOps(roleNode, role.rules)
      + SubjectsOps(c, roleNode, kind.HasRole(), description, b.subjects);
    MergeRules(g, roleNode, role.rules);
    MergeSubjects(g, c, roleNode, kind.HasRole(), description, b.subjects);
    ApplyAllConcat(old(g.State()), RulesOps(roleNode, role.rules),
                   SubjectsOps(c, roleNode, kind.HasRole(), description, b.subjects));
  }

  /** The RoleBinding or ClusterRoleBinding stage. */
  method MergeBindings(g: Graph, c: Cluster, kind: BindingKind, bindings: seq<Binding>)
    modifies g
    ensures g.State() == ApplyAll(old(g.State()), BindingStage(c, kind, bindings))
  {
    for i := 0 to |bindings|
      invariant g.State() == ApplyAll(old(g.State()), BindingStage(c, kind, bindings[..i]))
    {
      assert bindings[..i + 1][..i] == bindings[..i];
      MergeBinding(g, c, kind, bindings[i]);
      ApplyAllConcat(old(g.State()), BindingStage(c, kind, bindings[..i]), BindingOps(c, kind, bindings[i]));
    }
    assert bindings[..|bindings|] == bindings;
  }

  /** The Route stage. */
  method MergeRoutes(g: Graph, c: Cluster, routes: seq<RouteObject>)
    modifies g
    ensures g.State() == ApplyAll(old(g.State()), RouteStage(c, routes))
  {
    for i := 0 to |routes|
      invariant g.State() == ApplyAll(old(g.State()), RouteStage(c, routes[..i]))
    {
      var r := routes[i];
      var port := "any";
      if r.targetPort.Some? {
        port := r.targetPort.value;
      }
      var projectNode := ProjectOrAbsent(c, r.meta.namespace);
      var props := map["name" := r.meta.name, "namespace" := r.meta.namespace, "uid" := r.meta.uid, "port" := port];
      if r.host.Some? {
        props := props["host" := r.host.value];
      }
      if r.path.Some? {
        props := props["path" := r.path.value];
      }
      var routeNode := Node("Route", r.meta.uid, props);
      assert routeNode == RouteNode(r);
      assert routes[..i + 1][..i] == routes[..i];
      MergeThree(g, MergeNode(projectNode), MergeNode(routeNode), MergeRel(projectNode, "CONTAIN ROUTE", routeNode, map[]),
                 RouteStage(c, routes[..i]), old(g.State()));
    }
    assert routes[..|routes|] == routes;
  }

  /** The selected stages that can stop the script, until one does. */
  method MergeIdentities(g: Graph, c: Cluster, collectors: seq<string>) returns (outcome: Outcome)
    modifies g
    ensures outcome == IdentityStages(c, collectors).outcome
    ensures g.State() == ApplyAll(old(g.State()), IdentityStages(c, collectors).items)
  {
    ghost var s0 := g.State();
    ghost var t := Done([]);
    ghost var u: Trace<Op>;
    outcome := Completed;

    u := Done([]);
    if "all" in collectors || "project" in collectors {
      MergeProjects(g, c.projectList);
      u := Done(ProjectStage(c.projectList));
    }
    assert [] + u.items == u.items;
    t := Then(t, u);
    ApplyAllConcat(s0, [], u.items);

    u := Done([]);
    if "all" in collectors || "sa" in collectors {
      outcome := MergeServiceAccounts(g, c, c.serviceAccountList);
      u := ServiceAccountStage(c, c.serviceAccountList);
    }
    ApplyAllConcat(s0, t.items, u.items);
    t := Then(t, u);
    if outcome.Aborted? {
      return;
    }

    u := Done([]);
    if "all" in collectors || "scc" in collectors {
      MergeSccs(g, c.sccList);
      u := Done(SccStage(c.sccList));
    }
    ApplyAllConcat(s0, t.items, u.items);
    t := Then(t, u);

    u := Done([]);
    if "all" in collectors || "scc" in collectors {
      outcome := MergeSccBindings(g, c, c.sccList);
      u := SccBindingStage(c, c.sccList);
    }
    ApplyAllConcat(s0, t.items, u.items);
    t := Then(t, u);
  }

  /** The selected stages that always run to the end. */
  method MergeGrants(g: Graph, c: Cluster, collectors: seq<string>)
    modifies g
    ensures g.State() == ApplyAll(old(g.State()), GrantStages(c, collectors))
  {
    ghost var s0 := g.State();
    ghost var done: seq<Op> := [];
    ghost var step: seq<Op>;

    step := [];
    if "all" in collectors || "role" in collectors {
      MergeRoles(g, c.roleList);
      step := RoleStage(c.roleList);
    }
    assert [] + step == step;
    ApplyAllConcat(s0, [], step);
    done := done + step;

    step := [];
    if "all" in collectors || "clusterrole" in collectors {
      MergeClusterRoles(g, c.clusterRoleList);
      step := ClusterRoleStage(c.clusterRoleList);
    }
    ApplyAllConcat(s0, done, step);
    done := done + step;

    step := [];
    if "all" in collectors || "role" in collectors {
      MergeBindings(g, c, RoleBindingKind, c.roleBindingList);
      step := BindingStage(c, RoleBindingKind, c.roleBindingList);
    }
    ApplyAllConcat(s0, done, step);
    done := done + step;

    step := [];
    if "all" in collectors || "clusterrole" in collectors {
      MergeBindings(g, c, ClusterRoleBindingKind, c.clusterRoleBindingList);
      step := BindingStage(c, ClusterRoleBindingKind, c.clusterRoleBindingList);
    }
    ApplyAllConcat(s0, done, step);
    done := done + step;

    step := [];
    if "all" in collectors || "route" in collectors {
      MergeRoutes(g, c, c.routeList);
      step := RouteStage(c, c.routeList);
    }
    ApplyAllConcat(s0, done, step);
    done := done + step;
  }

  /** The script after its connection is made. With `resetDB` it asks for
      confirmation (`answer` is the reply), exits without touching the graph
      on anything but "y", and otherwise empties the graph first; then every
      selected stage runs in order, until an uncaught exception stops it. */
  method Run(g: Graph, c: Cluster, collectors: seq<string>, resetDB: bool, answer: string) returns (outcome: Outcome)
    modifies g
    ensures resetDB && answer != "y" ==> outcome == Aborted(ResetDeclined) && g.State() == old(g.State())
    ensures !resetDB || answer == "y" ==>
      outcome == Pass(c, collectors).outcome
      && g.State() == ApplyAll(if resetDB then Empty else old(g.State()), Pass(c, collectors).items)
  {
    if resetDB {
      if answer != "y" {
        return Aborted(ResetDeclined);
      }
      g.DeleteAll();
    }
    ghost var s0 := g.State();
    outcome := MergeIdentities(g, c, collectors);
    if outcome.Completed? {
      MergeGrants(g, c, collectors);
      ApplyAllConcat(s0, IdentityStages(c, collectors).items, GrantStages(c, collectors));
    }
  }
}
