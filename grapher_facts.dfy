/** What the grapher's stages leave in the graph: the edges each stage writes,
    stated as sets independently of the loops, which nodes hang off them, when
    a stage stops the script, and that a whole run can be repeated without
    changing the graph. */
module GrapherFacts {
  import opened Objects
  import opened GraphStore
  import opened Rules
  import opened WhoCan
  import opened GrapherSpec

  /** Membership in a sequence split into its prefix and its last element. */
  lemma InSnoc<T>(xs: seq<T>)
    requires xs != []
    ensures forall x :: x in xs <==> x in xs[..|xs| - 1] || x == xs[|xs| - 1]
  {
    assert xs == xs[..|xs| - 1] + [xs[|xs| - 1]];
  }

  // ---------------------------------------------------------------------------
  // Identity resolution.

  /** A project that resolves is keyed by its uid; one that does not is an
      AbsentProject keyed by the namespace it was asked for. */
  lemma ProjectResolution(c: Cluster, namespace: string)
    ensures namespace in c.projects ==>
      ProjectOrAbsent(c, namespace).Id() == NodeKey("Project", c.projects[namespace].uid)
    ensures namespace !in c.projects ==>
      ProjectOrAbsent(c, namespace).Id() == NodeKey("AbsentProject", namespace)
      && ProjectOrAbsent(c, namespace).props == map["name" := namespace]
  {
  }

  /** Service accounts that do not resolve are keyed by name alone: the same
      name missing from two namespaces is one AbsentServiceAccount node, whose
      `namespace` property is whichever merge came last. */
  lemma AbsentServiceAccountCollapse(c: Cluster, ns1: string, ns2: string, name: string)
    requires NsName(ns1, name) !in c.serviceAccounts && NsName(ns2, name) !in c.serviceAccounts
    ensures ServiceAccountOrAbsent(c, ns1, name).Id() == ServiceAccountOrAbsent(c, ns2, name).Id()
         == NodeKey("AbsentServiceAccount", name)
    ensures ServiceAccountOrAbsent(c, ns1, name).props["namespace"] == ns1
  {
  }

  // ---------------------------------------------------------------------------
  // Node-only stages.

  /** The Project stage writes one Project node per listed project, keyed by uid, and no edge. */
  lemma {:induction false} ProjectStageWrites(projects: seq<Meta>)
    ensures NodeWrites(ProjectStage(projects)) == set p | p in projects :: NodeKey("Project", p.uid)
    ensures EdgeWrites(ProjectStage(projects)) == {}
    decreases |projects|
  {
    if projects == [] {
      assert NodeWrites([]) == {};
    } else {
      var n := |projects| - 1;
      ProjectStageWrites(projects[..n]);
      WritesOne(MergeNode(ProjectNode(projects[n])));
      WritesConcat(ProjectStage(projects[..n]), [MergeNode(ProjectNode(projects[n]))]);
      InSnoc(projects);
    }
  }

  /** The SCC stage writes one SCC node per listed SCC and no edge. */
  lemma {:induction false} SccStageWrites(sccs: seq<Meta>)
    ensures NodeWrites(SccStage(sccs)) == set s | s in sccs :: NodeKey("SCC", s.uid)
    ensures EdgeWrites(SccStage(sccs)) == {}
    decreases |sccs|
  {
    if sccs == [] {
      assert NodeWrites([]) == {};
    } else {
      var n := |sccs| - 1;
      SccStageWrites(sccs[..n]);
      WritesOne(MergeNode(SccNode(sccs[n])));
      WritesConcat(SccStage(sccs[..n]), [MergeNode(SccNode(sccs[n]))]);
      InSnoc(sccs);
    }
  }

  /** The Role stage writes one Role node per listed role and no edge. */
  lemma {:induction false} RoleStageWrites(roles: seq<RoleObject>)
    ensures NodeWrites(RoleStage(roles)) == set r | r in roles :: NodeKey("Role", r.meta.uid)
    ensures EdgeWrites(RoleStage(roles)) == {}
    decreases |roles|
  {
    if roles == [] {
      assert NodeWrites([]) == {};
    } else {
      var n := |roles| - 1;
      RoleStageWrites(roles[..n]);
      WritesOne(MergeNode(RoleNode(roles[n].meta)));
      WritesConcat(RoleStage(roles[..n]), [MergeNode(RoleNode(roles[n].meta))]);
      InSnoc(roles);
    }
  }

  /** The ClusterRole stage writes one ClusterRole node per listed cluster role and no edge. */
  lemma {:induction false} ClusterRoleStageWrites(roles: seq<RoleObject>)
    ensures NodeWrites(ClusterRoleStage(roles)) == set r | r in roles :: NodeKey("ClusterRole", r.meta.uid)
    ensures EdgeWrites(ClusterRoleStage(roles)) == {}
    decreases |roles|
  {
    if roles == [] {
      assert NodeWrites([]) == {};
    } else {
      var n := |roles| - 1;
      ClusterRoleStageWrites(roles[..n]);
      WritesOne(MergeNode(ClusterRoleNode(roles[n].meta)));
      WritesConcat(ClusterRoleStage(roles[..n]), [MergeNode(ClusterRoleNode(roles[n].meta))]);
      InSnoc(roles);
    }
  }

  // ---------------------------------------------------------------------------
  // ServiceAccount stage.

  /** The CONTAIN SA edges of service accounts whose project resolves. */
  function ServiceAccountEdges(c: Cluster, sas: seq<Meta>): set<EdgeKey>
  {
    set sa | sa in sas && sa.namespace in c.projects ::
      EdgeKey(NodeKey("Project", c.projects[sa.namespace].uid), "CONTAIN SA", NodeKey("ServiceAccount", sa.uid))
  }

  /** The stage completes exactly when every listed service account's
      namespace resolves, and otherwise stops at the first one that does not. */
  lemma {:induction false} ServiceAccountStageOutcome(c: Cluster, sas: seq<Meta>)
    ensures ServiceAccountStage(c, sas).outcome.Completed? <==>
      forall i :: 0 <= i < |sas| ==> sas[i].namespace in c.projects
    ensures ServiceAccountStage(c, sas).outcome.Aborted? ==>
      exists i :: 0 <= i < |sas| && sas[i].namespace !in c.projects
        && ServiceAccountStage(c, sas).outcome.reason == ProjectLookupFailed(sas[i].namespace)
        && forall j :: 0 <= j < i ==> sas[j].namespace in c.projects
    decreases |sas|
  {
    if sas != [] {
      var n := |sas| - 1;
      var prev := ServiceAccountStage(c, sas[..n]);
      assert ServiceAccountStage(c, sas) == Then(prev, ServiceAccountStep(c, sas[n]));
      ServiceAccountStageOutcome(c, sas[..n]);
      assert forall j :: 0 <= j < n ==> sas[j] == sas[..n][j];
      if prev.outcome.Aborted? {
        var i :| 0 <= i < n && sas[..n][i].namespace !in c.projects
          && prev.outcome.reason == ProjectLookupFailed(sas[..n][i].namespace)
          && forall j :: 0 <= j < i ==> sas[..n][j].namespace in c.projects;
        assert sas[i] == sas[..n][i];
      }
    }
  }

  /** When the stage completes it writes one CONTAIN SA edge per service
      account, from the project its namespace resolves to, and no node
      outside those edges. */
  lemma {:induction false} ServiceAccountStageWrites(c: Cluster, sas: seq<Meta>)
    requires ServiceAccountStage(c, sas).outcome.Completed?
    ensures EdgeWrites(ServiceAccountStage(c, sas).items) == ServiceAccountEdges(c, sas)
    ensures Anchored(ServiceAccountStage(c, sas).items)
    decreases |sas|
  {
    if sas == [] {
      assert NodeWrites([]) == {};
    } else {
      var n := |sas| - 1;
      var prev := ServiceAccountStage(c, sas[..n]);
      assert prev.outcome.Completed?;
      ServiceAccountStageWrites(c, sas[..n]);
      var a := ServiceAccountNode(sas[n]);
      var b := ServiceAccountProjectNode(sas[n], c.projects[sas[n].namespace]);
      StepAnchoredReversed(b, a, "CONTAIN SA", map[]);
      WritesConcat(prev.items, ServiceAccountStep(c, sas[n]).items);
      AnchoredConcat(prev.items, ServiceAccountStep(c, sas[n]).items);
      InSnoc(sas);
    }
  }

  /** The ServiceAccount stage merges the target node first, then the source. */
  lemma StepAnchoredReversed(a: Node, b: Node, rel: string, p: Props)
    ensures EdgeWrites([MergeNode(b), MergeNode(a), MergeRel(a, rel, b, p)]) == {EdgeKey(a.Id(), rel, b.Id())}
    ensures Anchored([MergeNode(b), MergeNode(a), MergeRel(a, rel, b, p)])
  {
    var ops := [MergeNode(b), MergeNode(a), MergeRel(a, rel, b, p)];
    assert ops == [MergeNode(b)] + [MergeNode(a)] + [MergeRel(a, rel, b, p)];
    WritesOne(MergeNode(a));
    WritesOne(MergeNode(b));
    WritesOne(MergeRel(a, rel, b, p));
    WritesConcat([MergeNode(b)], [MergeNode(a)]);
    WritesConcat([MergeNode(b)] + [MergeNode(a)], [MergeRel(a, rel, b, p)]);
    var es := {EdgeKey(a.Id(), rel, b.Id())};
    assert (set e | e in es :: e.src) == {a.Id()};
    assert (set e | e in es :: e.dst) == {b.Id()};
  }

  // ---------------------------------------------------------------------------
  // SCC binding stage.

  /** A service account or an absent one. */
  predicate IsServiceAccountKind(kind: string)
  {
    kind == "ServiceAccount" || kind == "AbsentServiceAccount"
  }

  predicate IsProjectKind(kind: string)
  {
    kind == "Project" || kind == "AbsentProject"
  }

  /** Only CAN USE SCC edges from a (possibly absent) service account to an
      SCC, and only nodes of those kinds or projects. */
  predicate CanUseSccOnly(ops: seq<Op>)
  {
    (forall e | e in EdgeWrites(ops) ::
      e.rel == "CAN USE SCC" && IsServiceAccountKind(e.src.kind) && e.dst.kind == "SCC")
    && forall k | k in NodeWrites(ops) ::
      IsProjectKind(k.kind) || IsServiceAccountKind(k.kind) || k.kind == "SCC"
  }

  lemma CanUseSccOnlyConcat(a: seq<Op>, b: seq<Op>)
    requires CanUseSccOnly(a) && CanUseSccOnly(b)
    ensures CanUseSccOnly(a + b)
  {
    WritesConcat(a, b);
  }

  /** Three nodes, then an edge between the last two: the first node is the
      end of no edge. */
  lemma UseStepWrites(p: Node, a: Node, b: Node, rel: string, props: Props)
    requires p.Id() != a.Id() && p.Id() != b.Id()
    ensures NodeWrites([MergeNode(p), MergeNode(a), MergeNode(b), MergeRel(a, rel, b, props)]) == {p.Id(), a.Id(), b.Id()}
    ensures EdgeWrites([MergeNode(p), MergeNode(a), MergeNode(b), MergeRel(a, rel, b, props)]) == {EdgeKey(a.Id(), rel, b.Id())}
    ensures p.Id() !in Endpoints(EdgeWrites([MergeNode(p), MergeNode(a), MergeNode(b), MergeRel(a, rel, b, props)]))
  {
    var step := [MergeNode(a), MergeNode(b), MergeRel(a, rel, b, props)];
    assert [MergeNode(p), MergeNode(a), MergeNode(b), MergeRel(a, rel, b, props)] == [MergeNode(p)] + step;
    StepAnchored(a, b, rel, props);
    WritesOne(MergeNode(p));
    WritesConcat([MergeNode(p)], step);
  }

  /** One service account allowed to use an SCC: its project, itself and the
      SCC are written, but the only edge is CAN USE SCC, so the project node
      is the end of no edge the merges write. */
  lemma SccUserOpsWrites(c: Cluster, scc: Meta, namespace: string, name: string)
    ensures NodeWrites(SccUserOps(c, scc, namespace, name))
         == {ProjectOrAbsent(c, namespace).Id(), ServiceAccountOrAbsent(c, namespace, name).Id(), SccNode(scc).Id()}
    ensures EdgeWrites(SccUserOps(c, scc, namespace, name))
         == {EdgeKey(ServiceAccountOrAbsent(c, namespace, name).Id(), "CAN USE SCC", SccNode(scc).Id())}
    ensures ProjectOrAbsent(c, namespace).Id() !in Endpoints(EdgeWrites(SccUserOps(c, scc, namespace, name)))
    ensures CanUseSccOnly(SccUserOps(c, scc, namespace, name))
  {
    var project := ProjectOrAbsent(c, namespace);
    var subject := ServiceAccountOrAbsent(c, namespace, name);
    assert IsProjectKind(project.kind);
    assert IsServiceAccountKind(subject.kind);
    UseStepWrites(project, subject, SccNode(scc), "CAN USE SCC", map[]);
  }

  /** A user line with a ':'-terminated heading in front (the first user after
      `Users:`) makes the SCC usable by the service account named after the
      real namespace in a namespace called "serviceaccount": with no such
      project and account, an AbsentProject "serviceaccount" and an
      AbsentServiceAccount keyed by the real namespace get the CAN USE SCC edge. */
  lemma HeadedUserLineMerged(c: Cluster, scc: Meta, heading: string, indent: string, namespace: string, name: string)
    requires ':' !in heading && ':' !in indent && ':' !in namespace && ':' !in name
    requires "serviceaccount" !in c.projects && NsName("serviceaccount", namespace) !in c.serviceAccounts
    ensures var line := heading + ":" + indent + ServiceAccountMarker + namespace + ":" + name;
      SccLineStep(c, scc, line).outcome.Completed?
      && NodeWrites(SccLineStep(c, scc, line).items)
         == {NodeKey("AbsentProject", "serviceaccount"), NodeKey("AbsentServiceAccount", namespace), SccNode(scc).Id()}
      && EdgeWrites(SccLineStep(c, scc, line).items)
         == {EdgeKey(NodeKey("AbsentServiceAccount", namespace), "CAN USE SCC", SccNode(scc).Id())}
  {
    ParseHeadedUserLine(heading, indent, namespace, name);
    SccUserOpsWrites(c, scc, "serviceaccount", namespace);
  }

  /** Every line of the output has the marker only if it has four fields. */
  predicate WellFormedLines(lines: seq<string>)
  {
    forall i :: 0 <= i < |lines| ==> !ParseLine(lines[i]).TooFewFields?
  }

  lemma WellFormedLinesSnoc(lines: seq<string>)
    requires lines != []
    ensures WellFormedLines(lines) <==>
      WellFormedLines(lines[..|lines| - 1]) && !ParseLine(lines[|lines| - 1]).TooFewFields?
  {
    assert forall j :: 0 <= j < |lines| - 1 ==> lines[j] == lines[..|lines| - 1][j];
  }

  /** The CAN USE SCC edges the service-account lines of one SCC's output name. */
  function SccUserEdges(c: Cluster, scc: Meta, lines: seq<string>): set<EdgeKey>
  {
    set l | l in lines && ParseLine(l).ServiceAccountRef? ::
      EdgeKey(ServiceAccountOrAbsent(c, ParseLine(l).namespace, ParseLine(l).name).Id(),
              "CAN USE SCC", SccNode(scc).Id())
  }

  lemma SccUserEdgesSnoc(c: Cluster, scc: Meta, lines: seq<string>)
    requires lines != []
    ensures SccUserEdges(c, scc, lines) == SccUserEdges(c, scc, lines[..|lines| - 1])
      + match ParseLine(lines[|lines| - 1])
        case ServiceAccountRef(namespace, name) =>
          {EdgeKey(ServiceAccountOrAbsent(c, namespace, name).Id(), "CAN USE SCC", SccNode(scc).Id())}
        case _ => {}
  {
    InSnoc(lines);
  }

  /** Reading one SCC's output completes exactly when no marked line is short
      of fields, and otherwise stops at the first such line. */
  lemma {:induction false} SccLinesOutcome(c: Cluster, scc: Meta, lines: seq<string>)
    ensures SccLinesTrace(c, scc, lines).outcome.Completed? <==> WellFormedLines(lines)
    ensures SccLinesTrace(c, scc, lines).outcome.Aborted? ==>
      exists i :: 0 <= i < |lines| && ParseLine(lines[i]).TooFewFields?
        && SccLinesTrace(c, scc, lines).outcome.reason == WhoCanLineTooShort(scc.name, lines[i])
        && WellFormedLines(lines[..i])
    decreases |lines|
  {
    if lines != [] {
      var n := |lines| - 1;
      var prev := SccLinesTrace(c, scc, lines[..n]);
      SccLinesOutcome(c, scc, lines[..n]);
      WellFormedLinesSnoc(lines);
      if prev.outcome.Aborted? {
        var i :| 0 <= i < n && ParseLine(lines[..n][i]).TooFewFields?
          && prev.outcome.reason == WhoCanLineTooShort(scc.name, lines[..n][i])
          && WellFormedLines(lines[..n][..i]);
        assert lines[i] == lines[..n][i];
        assert lines[..i] == lines[..n][..i];
      } else if ParseLine(lines[n]).TooFewFields? {
        assert SccLinesTrace(c, scc, lines).outcome.reason == WhoCanLineTooShort(scc.name, lines[n]);
      }
    }
  }

  /** Whatever the outcome, reading one SCC's output writes only CAN USE SCC
      edges; when it completes, exactly one per service-account line. */
  lemma {:induction false} SccLinesWrites(c: Cluster, scc: Meta, lines: seq<string>)
    ensures CanUseSccOnly(SccLinesTrace(c, scc, lines).items)
    ensures SccLinesTrace(c, scc, lines).outcome.Completed? ==>
      EdgeWrites(SccLinesTrace(c, scc, lines).items) == SccUserEdges(c, scc, lines)
    decreases |lines|
  {
    if lines == [] {
      assert NodeWrites([]) == {};
    } else {
      var n := |lines| - 1;
      var prev := SccLinesTrace(c, scc, lines[..n]);
      SccLinesWrites(c, scc, lines[..n]);
      if prev.outcome.Completed? {
        var step := SccLineStep(c, scc, lines[n]);
        SccUserEdgesSnoc(c, scc, lines);
        match ParseLine(lines[n]) {
          case NotServiceAccount =>
            assert NodeWrites([]) == {};
          case TooFewFields =>
            assert NodeWrites([]) == {};
          case ServiceAccountRef(namespace, name) =>
            SccUserOpsWrites(c, scc, namespace, name);
        }
        CanUseSccOnlyConcat(prev.items, step.items);
        WritesConcat(prev.items, step.items);
      }
    }
  }

  /** Every SCC's `who-can` command succeeds and its output is well formed. */
  predicate WhoCanReadable(c: Cluster, sccs: seq<Meta>)
  {
    forall i :: 0 <= i < |sccs| ==>
      sccs[i].name in c.whoCan && WellFormedLines(Lines(c.whoCan[sccs[i].name]))
  }

  lemma {:induction false} SccBindingStageOutcome(c: Cluster, sccs: seq<Meta>)
    ensures SccBindingStage(c, sccs).outcome.Completed? <==> WhoCanReadable(c, sccs)
    decreases |sccs|
  {
    if sccs != [] {
      var n := |sccs| - 1;
      SccBindingStageOutcome(c, sccs[..n]);
      WhoCanReadableSnoc(c, sccs);
      SccBindingStepOutcome(c, sccs[n]);
    }
  }

  /** One SCC completes exactly when its `who-can` output exists and is well formed. */
  lemma SccBindingStepOutcome(c: Cluster, scc: Meta)
    ensures SccBindingStep(c, scc).outcome.Completed? <==>
      scc.name in c.whoCan && WellFormedLines(Lines(c.whoCan[scc.name]))
  {
    if scc.name in c.whoCan {
      SccLinesOutcome(c, scc, Lines(c.whoCan[scc.name]));
    }
  }

  lemma WhoCanReadableSnoc(c: Cluster, sccs: seq<Meta>)
    requires sccs != []
    ensures WhoCanReadable(c, sccs) <==>
      WhoCanReadable(c, sccs[..|sccs| - 1])
      && sccs[|sccs| - 1].name in c.whoCan && WellFormedLines(Lines(c.whoCan[sccs[|sccs| - 1].name]))
  {
    var n := |sccs| - 1;
    assert forall j :: 0 <= j < n ==> sccs[j] == sccs[..n][j];
  }

  /** Merges that write CAN USE SCC edges only never write CONTAIN SA, and
      no project node among their nodes is the end of one of their edges. */
  lemma CanUseSccOnlyShape(ops: seq<Op>)
    requires CanUseSccOnly(ops)
    ensures forall e | e in EdgeWrites(ops) :: e.rel != "CONTAIN SA"
    ensures forall k | k in NodeWrites(ops) && IsProjectKind(k.kind) :: k !in Endpoints(EdgeWrites(ops))
  {
  }

  /** The SCC binding stage, whatever its outcome, writes CAN USE SCC edges only. */
  lemma {:induction false} SccBindingStageUseOnly(c: Cluster, sccs: seq<Meta>)
    ensures CanUseSccOnly(SccBindingStage(c, sccs).items)
    decreases |sccs|
  {
    if sccs == [] {
      assert NodeWrites([]) == {};
    } else {
      var n := |sccs| - 1;
      var prev := SccBindingStage(c, sccs[..n]);
      SccBindingStageUseOnly(c, sccs[..n]);
      if prev.outcome.Completed? {
        var step := SccBindingStep(c, sccs[n]);
        if sccs[n].name in c.whoCan {
          SccLinesWrites(c, sccs[n], Lines(c.whoCan[sccs[n].name]));
        } else {
          assert NodeWrites([]) == {};
        }
        CanUseSccOnlyConcat(prev.items, step.items);
      }
    }
  }

  /** The SCC binding stage writes CAN USE SCC edges only: the CONTAIN SA
      relationship it builds is never written, and no project node it writes
      is the end of an edge it writes. */
  lemma SccBindingStageShape(c: Cluster, sccs: seq<Meta>)
    ensures CanUseSccOnly(SccBindingStage(c, sccs).items)
    ensures forall e | e in EdgeWrites(SccBindingStage(c, sccs).items) :: e.rel != "CONTAIN SA"
    ensures forall k | k in NodeWrites(SccBindingStage(c, sccs).items) && IsProjectKind(k.kind) ::
      k !in Endpoints(EdgeWrites(SccBindingStage(c, sccs).items))
  {
    SccBindingStageUseOnly(c, sccs);
    CanUseSccOnlyShape(SccBindingStage(c, sccs).items);
  }

  /** The CAN USE SCC edges of every SCC whose `who-can` output exists: those
      its service-account lines name. */
  function SccStageEdges(c: Cluster, sccs: seq<Meta>): set<EdgeKey>
  {
    set scc, e | scc in sccs && scc.name in c.whoCan && e in SccUserEdges(c, scc, Lines(c.whoCan[scc.name])) :: e
  }

  lemma SccStageEdgesSnoc(c: Cluster, sccs: seq<Meta>)
    requires sccs != []
    ensures var last := sccs[|sccs| - 1];
      SccStageEdges(c, sccs) == SccStageEdges(c, sccs[..|sccs| - 1])
        + (if last.name in c.whoCan then SccUserEdges(c, last, Lines(c.whoCan[last.name])) else {})
  {
    InSnoc(sccs);
  }

  /** When the SCC binding stage completes, it writes exactly the CAN USE SCC
      edges of every service-account line of every SCC's output. */
  lemma {:induction false} SccBindingStageWrites(c: Cluster, sccs: seq<Meta>)
    ensures SccBindingStage(c, sccs).outcome.Completed? ==>
      EdgeWrites(SccBindingStage(c, sccs).items) == SccStageEdges(c, sccs)
    decreases |sccs|
  {
    if sccs == [] {
      assert NodeWrites([]) == {};
    } else {
      var n := |sccs| - 1;
      var prev := SccBindingStage(c, sccs[..n]);
      var step := SccBindingStep(c, sccs[n]);
      assert SccBindingStage(c, sccs) == Then(prev, step);
      if prev.outcome.Completed? && step.outcome.Completed? {
        SccBindingStageWrites(c, sccs[..n]);
        SccStageEdgesSnoc(c, sccs);
        assert sccs[n].name in c.whoCan;
        SccLinesWrites(c, sccs[n], Lines(c.whoCan[sccs[n].name]));
        WritesConcat(prev.items, step.items);
      }
    }
  }

  // ---------------------------------------------------------------------------
  // RoleBinding and ClusterRoleBinding stages.

  /** The edges one subject gives: CONTAIN SA from its project and the
      has-role edge to the role, for a service account with a namespace only. */
  function SubjectEdges(c: Cluster, role: NodeKey, hasRole: string, s: Subject): set<EdgeKey>
  {
    if IsServiceAccountSubject(s) then
      var subject := ServiceAccountOrAbsent(c, s.namespace, s.name).Id();
      {EdgeKey(ProjectOrAbsent(c, s.namespace).Id(), "CONTAIN SA", subject), EdgeKey(subject, hasRole, role)}
    else {}
  }

  function SubjectsEdges(c: Cluster, role: NodeKey, hasRole: string, subjects: seq<Subject>): set<EdgeKey>
  {
    set s, e | s in subjects && e in SubjectEdges(c, role, hasRole, s) :: e
  }

  /** The edges one binding grants: none when its roleRef does not resolve;
      otherwise those of the role's rules and those of its subjects. */
  function BindingEdges(c: Cluster, kind: BindingKind, b: Binding): set<EdgeKey>
  {
    match ResolveRole(c, b)
    case None => {}
    case Some(role) =>
      var id := BoundRoleNode(b.roleRef.kind, role).Id();
      RulesEdges(id, role.rules) + SubjectsEdges(c, id, kind.HasRole(), b.subjects)
  }

  /** The role, the subject, CONTAIN SA from the project to the subject,
      and the has-role edge from the subject to the role. */
  lemma GrantStepWrites(role: Node, subject: Node, project: Node, hasRole: string, m1: Props, m2: Props)
    ensures EdgeWrites([MergeNode(role), MergeNode(subject), MergeRel(project, "CONTAIN SA", subject, m1),
                        MergeRel(subject, hasRole, role, m2)])
         == {EdgeKey(project.Id(), "CONTAIN SA", subject.Id()), EdgeKey(subject.Id(), hasRole, role.Id())}
    ensures Anchored([MergeNode(role), MergeNode(subject), MergeRel(project, "CONTAIN SA", subject, m1),
                      MergeRel(subject, hasRole, role, m2)])
  {
    var o1, o2, o3, o4 := MergeNode(role), MergeNode(subject),
      MergeRel(project, "CONTAIN SA", subject, m1), MergeRel(subject, hasRole, role, m2);
    var e3, e4 := EdgeKey(project.Id(), "CONTAIN SA", subject.Id()), EdgeKey(subject.Id(), hasRole, role.Id());
    var ops := [o1, o2, o3, o4];
    var es := {e3, e4};
    assert EdgeWrites(ops) == es && NodeWrites(ops) == {role.Id(), subject.Id(), project.Id()} by {
      assert ops == [o1, o2] + [o3, o4];
      StepAnchoredPair(o1, o2);
      RelPairWrites(o3, o4);
      WritesConcat([o1, o2], [o3, o4]);
    }
    EndpointsPair(e3, e4);
  }

  lemma StepAnchoredPair(a: Op, b: Op)
    requires a.MergeNode? && b.MergeNode?
    ensures NodeWrites([a, b]) == {a.node.Id(), b.node.Id()}
    ensures EdgeWrites([a, b]) == {}
  {
    assert [a, b] == [a] + [b];
    WritesOne(a);
    WritesOne(b);
    WritesConcat([a], [b]);
  }

  lemma RelPairWrites(a: Op, b: Op)
    requires a.MergeRel? && b.MergeRel?
    ensures NodeWrites([a, b]) == {a.src.Id(), a.dst.Id(), b.src.Id(), b.dst.Id()}
    ensures EdgeWrites([a, b]) == {EdgeKey(a.src.Id(), a.rel, a.dst.Id()), EdgeKey(b.src.Id(), b.rel, b.dst.Id())}
  {
    assert [a, b] == [a] + [b];
    WritesOne(a);
    WritesOne(b);
    WritesConcat([a], [b]);
  }

  lemma SubjectOpsWrites(c: Cluster, role: Node, hasRole: string, description: string, s: Subject)
    ensures EdgeWrites(SubjectOps(c, role, hasRole, description, s)) == SubjectEdges(c, role.Id(), hasRole, s)
    ensures Anchored(SubjectOps(c, role, hasRole, description, s))
  {
    if IsServiceAccountSubject(s) {
      GrantStepWrites(role, ServiceAccountOrAbsent(c, s.namespace, s.name), ProjectOrAbsent(c, s.namespace),
                      hasRole, map[], map["description" := description]);
    } else {
      assert NodeWrites([]) == {};
    }
  }

  lemma {:induction false} SubjectsOpsWrites(c: Cluster, role: Node, hasRole: string, description: string, subjects: seq<Subject>)
    ensures EdgeWrites(SubjectsOps(c, role, hasRole, description, subjects))
         == SubjectsEdges(c, role.Id(), hasRole, subjects)
    ensures Anchored(SubjectsOps(c, role, hasRole, description, subjects))
    decreases |subjects|
  {
    if subjects == [] {
      assert NodeWrites([]) == {};
    } else {
      var n := |subjects| - 1;
      var prev := SubjectsOps(c, role, hasRole, description, subjects[..n]);
      var last := SubjectOps(c, role, hasRole, description, subjects[n]);
      SubjectsOpsWrites(c, role, hasRole, description, subjects[..n]);
      SubjectOpsWrites(c, role, hasRole, description, subjects[n]);
      WritesConcat(prev, last);
      AnchoredConcat(prev, last);
      InSnoc(subjects);
    }
  }

  /** One binding writes exactly `BindingEdges`, and only their ends as nodes. */
  lemma BindingOpsWrites(c: Cluster, kind: BindingKind, b: Binding)
    ensures EdgeWrites(BindingOps(c, kind, b)) == BindingEdges(c, kind, b)
    ensures Anchored(BindingOps(c, kind, b))
  {
    match ResolveRole(c, b)
    case None =>
      assert NodeWrites([]) == {};
    case Some(role) =>
      var roleNode := BoundRoleNode(b.roleRef.kind, role);
      var a := RulesOps(roleNode, role.rules);
      var s := SubjectsOps(c, roleNode, kind.HasRole(), Description(b), b.subjects);
      RulesOpsEdges(roleNode, role.rules);
      RulesOpsAnchored(roleNode, role.rules);
      SubjectsOpsWrites(c, roleNode, kind.HasRole(), Description(b), b.subjects);
      WritesConcat(a, s);
      AnchoredConcat(a, s);
  }

  /** A binding stage writes the edges of all its bindings, and only their ends as nodes. */
  lemma {:induction false} BindingStageWrites(c: Cluster, kind: BindingKind, bindings: seq<Binding>)
    ensures EdgeWrites(BindingStage(c, kind, bindings))
         == set b, e | b in bindings && e in BindingEdges(c, kind, b) :: e
    ensures Anchored(BindingStage(c, kind, bindings))
    decreases |bindings|
  {
    if bindings == [] {
      assert NodeWrites([]) == {};
    } else {
      var n := |bindings| - 1;
      var prev := BindingStage(c, kind, bindings[..n]);
      var last := BindingOps(c, kind, bindings[n]);
      BindingStageWrites(c, kind, bindings[..n]);
      BindingOpsWrites(c, kind, bindings[n]);
      WritesConcat(prev, last);
      AnchoredConcat(prev, last);
      InSnoc(bindings);
    }
  }

  /** A binding whose roleRef does not resolve leaves the graph as it was,
      subjects included. */
  lemma UnresolvedBindingSkipped(c: Cluster, kind: BindingKind, b: Binding, st: Store)
    requires ResolveRole(c, b).None?
    ensures ApplyAll(st, BindingOps(c, kind, b)) == st
    ensures BindingEdges(c, kind, b) == {}
  {
  }

  /** Merging a resolving binding's service-account subject: the has-role
      edge carries the binding's description, which is "" exactly when the
      binding has none or an empty one, and the CONTAIN SA edge carries nothing. */
  lemma SubjectEdgeProps(c: Cluster, kind: BindingKind, b: Binding, s: Subject, st: Store)
    requires ResolveRole(c, b).Some? && IsServiceAccountSubject(s)
    ensures var role := BoundRoleNode(b.roleRef.kind, ResolveRole(c, b).value);
      var g := ApplyAll(st, SubjectOps(c, role, kind.HasRole(), Description(b), s));
      var subject := ServiceAccountOrAbsent(c, s.namespace, s.name).Id();
      var contain := EdgeKey(ProjectOrAbsent(c, s.namespace).Id(), "CONTAIN SA", subject);
      var has := EdgeKey(subject, kind.HasRole(), role.Id());
      contain in g.edges && g.edges[contain] == map[]
      && has in g.edges && g.edges[has] == map["description" := Description(b)]
    ensures Description(b) == "" <==> b.description.None? || b.description == Some("")
  {
    var role := BoundRoleNode(b.roleRef.kind, ResolveRole(c, b).value);
    var ops := SubjectOps(c, role, kind.HasRole(), Description(b), s);
    ApplyAllFour(st, ops[0], ops[1], ops[2], ops[3]);
    assert ops == [ops[0], ops[1], ops[2], ops[3]];
  }

  /** Every merge a subject makes is among the merges of the subjects it belongs to. */
  lemma {:induction false} SubjectOpsIn(c: Cluster, role: Node, hasRole: string, description: string,
                                        subjects: seq<Subject>, s: Subject)
    requires s in subjects
    ensures forall op :: op in SubjectOps(c, role, hasRole, description, s) ==>
      op in SubjectsOps(c, role, hasRole, description, subjects)
    decreases |subjects|
  {
    var n := |subjects| - 1;
    var prev := SubjectsOps(c, role, hasRole, description, subjects[..n]);
    var last := SubjectOps(c, role, hasRole, description, subjects[n]);
    assert SubjectsOps(c, role, hasRole, description, subjects) == prev + last;
    if s != subjects[n] {
      InSnoc(subjects);
      SubjectOpsIn(c, role, hasRole, description, subjects[..n], s);
    }
  }

  /** A resolving binding merges, for each of its service-account subjects
      with a namespace, CONTAIN SA from the subject's project and the has-role
      edge to the bound role carrying the binding's description. */
  lemma BindingGrantsSubject(c: Cluster, kind: BindingKind, b: Binding, s: Subject)
    requires ResolveRole(c, b).Some? && s in b.subjects && IsServiceAccountSubject(s)
    ensures var role := BoundRoleNode(b.roleRef.kind, ResolveRole(c, b).value);
      var subject := ServiceAccountOrAbsent(c, s.namespace, s.name);
      MergeRel(ProjectOrAbsent(c, s.namespace), "CONTAIN SA", subject, map[]) in BindingOps(c, kind, b)
      && MergeRel(subject, kind.HasRole(), role, map["description" := Description(b)]) in BindingOps(c, kind, b)
  {
    var role := BoundRoleNode(b.roleRef.kind, ResolveRole(c, b).value);
    SubjectOpsIn(c, role, kind.HasRole(), Description(b), b.subjects, s);
    var ops := SubjectOps(c, role, kind.HasRole(), Description(b), s);
    assert ops[2] in ops && ops[3] in ops;
  }

  // ---------------------------------------------------------------------------
  // Route stage.

  /** One route: its project (or absent project) and the route, joined by CONTAIN ROUTE. */
  lemma RouteOpsWrites(c: Cluster, r: RouteObject)
    ensures NodeWrites(RouteOps(c, r)) == {ProjectOrAbsent(c, r.meta.namespace).Id(), NodeKey("Route", r.meta.uid)}
    ensures EdgeWrites(RouteOps(c, r))
         == {EdgeKey(ProjectOrAbsent(c, r.meta.namespace).Id(), "CONTAIN ROUTE", NodeKey("Route", r.meta.uid))}
    ensures Anchored(RouteOps(c, r))
  {
    StepAnchored(ProjectOrAbsent(c, r.meta.namespace), RouteNode(r), "CONTAIN ROUTE", map[]);
  }

  /** After a route is merged its node holds the target port, or "any" when
      the route names no port; host and path are properties only when set. */
  lemma RouteNodeProps(c: Cluster, r: RouteObject, st: Store)
    ensures var g := ApplyAll(st, RouteOps(c, r));
      var id := NodeKey("Route", r.meta.uid);
      id in g.nodes
      && g.nodes[id]["port"] == (if r.targetPort.Some? then r.targetPort.value else "any")
      && ("host" in g.nodes[id] <==> r.host.Some?)
      && ("path" in g.nodes[id] <==> r.path.Some?)
      && g.nodes[id]["uid"] == r.meta.uid
  {
    var ops := RouteOps(c, r);
    ApplyAllThree(st, ops[0], ops[1], ops[2]);
    assert ops == [ops[0], ops[1], ops[2]];
  }

  lemma {:induction false} RouteStageWrites(c: Cluster, routes: seq<RouteObject>)
    ensures EdgeWrites(RouteStage(c, routes)) == set r | r in routes ::
      EdgeKey(ProjectOrAbsent(c, r.meta.namespace).Id(), "CONTAIN ROUTE", NodeKey("Route", r.meta.uid))
    ensures Anchored(RouteStage(c, routes))
    decreases |routes|
  {
    if routes == [] {
      assert NodeWrites([]) == {};
    } else {
      var n := |routes| - 1;
      RouteStageWrites(c, routes[..n]);
      RouteOpsWrites(c, routes[n]);
      WritesConcat(RouteStage(c, routes[..n]), RouteOps(c, routes[n]));
      AnchoredConcat(RouteStage(c, routes[..n]), RouteOps(c, routes[n]));
      InSnoc(routes);
    }
  }

  // ---------------------------------------------------------------------------
  // The whole run.

  /** Running the grapher again over the same cluster leaves the graph as the
      first run left it. */
  lemma PassIdempotent(c: Cluster, collectors: seq<string>, st: Store)
    ensures ApplyAll(ApplyAll(st, Pass(c, collectors).items), Pass(c, collectors).items)
         == ApplyAll(st, Pass(c, collectors).items)
  {
    Idempotent(st, Pass(c, collectors).items);
  }

  /** A run completes exactly when the stages that can stop it are either not
      selected or find every namespace and every `who-can` output they need. */
  lemma PassOutcome(c: Cluster, collectors: seq<string>)
    ensures Pass(c, collectors).outcome.Completed? <==>
      (Selected(collectors, "sa") ==>
         forall i :: 0 <= i < |c.serviceAccountList| ==> c.serviceAccountList[i].namespace in c.projects)
      && (Selected(collectors, "scc") ==> WhoCanReadable(c, c.sccList))
  {
    ServiceAccountStageOutcome(c, c.serviceAccountList);
    SccBindingStageOutcome(c, c.sccList);
  }

  // ---------------------------------------------------------------------------
  // A stage that has stopped stays stopped.

  lemma {:induction false} ServiceAccountStageStops(c: Cluster, sas: seq<Meta>, i: nat)
    requires i <= |sas| && ServiceAccountStage(c, sas[..i]).outcome.Aborted?
    ensures ServiceAccountStage(c, sas) == ServiceAccountStage(c, sas[..i])
    decreases |sas| - i
  {
    if i < |sas| {
      assert sas[..|sas| - 1][..i] == sas[..i];
      ServiceAccountStageStops(c, sas[..|sas| - 1], i);
    } else {
      assert sas[..i] == sas;
    }
  }

  lemma {:induction false} SccLinesStops(c: Cluster, scc: Meta, lines: seq<string>, i: nat)
    requires i <= |lines| && SccLinesTrace(c, scc, lines[..i]).outcome.Aborted?
    ensures SccLinesTrace(c, scc, lines) == SccLinesTrace(c, scc, lines[..i])
    decreases |lines| - i
  {
    if i < |lines| {
      assert lines[..|lines| - 1][..i] == lines[..i];
      SccLinesStops(c, scc, lines[..|lines| - 1], i);
    } else {
      assert lines[..i] == lines;
    }
  }

  lemma {:induction false} SccBindingStageStops(c: Cluster, sccs: seq<Meta>, i: nat)
    requires i <= |sccs| && SccBindingStage(c, sccs[..i]).outcome.Aborted?
    ensures SccBindingStage(c, sccs) == SccBindingStage(c, sccs[..i])
    decreases |sccs| - i
  {
    if i < |sccs| {
      assert sccs[..|sccs| - 1][..i] == sccs[..i];
      SccBindingStageStops(c, sccs[..|sccs| - 1], i);
    } else {
      assert sccs[..i] == sccs;
    }
  }
}
