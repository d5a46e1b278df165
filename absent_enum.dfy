/** The absent-object enumerator: it reads the same `who-can` output and the
    same bindings as the grapher, writes nothing, and reports every service
    account subject whose service account (`[o]`) or project (`[+]`) the
    cluster does not have. */
module AbsentEnum {
  import opened Objects
  import opened Text
  import opened WhoCan
  import GraphStore
  import GrapherSpec
  import GrapherFacts

  /** The collector is the string "all", not a list: `name in collector` is a
      substring test. */
  const Collector: string := "all"

  /** `[o]`: the service account does not exist; `[+]`: its project does not. */
  datatype Tag = MissingServiceAccount | MissingProject

  /** The stage a report comes from. */
  datatype Context = SccContext | RoleContext | ClusterRoleContext

  /** One printed line: its tag, stage, the SCC name or the roleRef name, and
      the subject's namespace and name. */
  datatype Report = Report(tag: Tag, context: Context, owner: string, namespace: string, name: string)

  /** `"all" in collector or name in collector` */
  predicate Enabled(name: string)
  {
    Contains(Collector, "all") || Contains(Collector, name)
  }

  /** The two lookups of one subject, each reported on its own. */
  function SubjectReports(c: Cluster, context: Context, owner: string, namespace: string, name: string): seq<Report>
  {
    (if NsName(namespace, name) in c.serviceAccounts then []
     else [Report(MissingServiceAccount, context, owner, namespace, name)])
    + (if namespace in c.projects then []
       else [Report(MissingProject, context, owner, namespace, name)])
  }

  // ---------------------------------------------------------------------------
  // SCC stage.

  function SccLineReports(c: Cluster, scc: Meta, line: string): Trace<Report>
  {
    match ParseLine(line)
    case NotServiceAccount => Trace([], Completed)
    case TooFewFields => Trace([], Aborted(WhoCanLineTooShort(scc.name, line)))
    case ServiceAccountRef(namespace, name) => Trace(SubjectReports(c, SccContext, scc.name, namespace, name), Completed)
  }

  function SccLinesReports(c: Cluster, scc: Meta, lines: seq<string>): Trace<Report>
    decreases |lines|
  {
    if lines == [] then Trace([], Completed)
    else Then(SccLinesReports(c, scc, lines[..|lines| - 1]), SccLineReports(c, scc, lines[|lines| - 1]))
  }

  function SccStepReports(c: Cluster, scc: Meta): Trace<Report>
  {
    if scc.name in c.whoCan then SccLinesReports(c, scc, Lines(c.whoCan[scc.name]))
    else Trace([], Aborted(WhoCanFailed(scc.name)))
  }

  function SccReports(c: Cluster, sccs: seq<Meta>): Trace<Report>
    decreases |sccs|
  {
    if sccs == [] then Trace([], Completed)
    else Then(SccReports(c, sccs[..|sccs| - 1]), SccStepReports(c, sccs[|sccs| - 1]))
  }

  // ---------------------------------------------------------------------------
  // Binding stages: the roleRef is read but never looked up.

  function SubjectsReports(c: Cluster, context: Context, owner: string, subjects: seq<Subject>): seq<Report>
    decreases |subjects|
  {
    if subjects == [] then []
    else
      var s := subjects[|subjects| - 1];
      SubjectsReports(c, context, owner, subjects[..|subjects| - 1])
        + (if IsServiceAccountSubject(s) then SubjectReports(c, context, owner, s.namespace, s.name) else [])
  }

  function BindingsReports(c: Cluster, context: Context, bindings: seq<Binding>): seq<Report>
    decreases |bindings|
  {
    if bindings == [] then []
    else
      var b := bindings[|bindings| - 1];
      BindingsReports(c, context, bindings[..|bindings| - 1]) + SubjectsReports(c, context, b.roleRef.name, b.subjects)
  }

  /** The whole run: SCC bindings, then RoleBindings, then ClusterRoleBindings. */
  function AllReports(c: Cluster): Trace<Report>
  {
    var t1 := if Enabled("scc") then SccReports(c, c.sccList) else Trace([], Completed);
    var t2 := Then(t1, Trace(if Enabled("role") then BindingsReports(c, RoleContext, c.roleBindingList) else [], Completed));
    Then(t2, Trace(if Enabled("clusterrole") then BindingsReports(c, ClusterRoleContext, c.clusterRoleBindingList) else [], Completed))
  }

  // ---------------------------------------------------------------------------
  // The enumerator's loops.

  method CheckSubject(c: Cluster, context: Context, owner: string, namespace: string, name: string)
    returns (reports: seq<Report>)
    ensures reports == SubjectReports(c, context, owner, namespace, name)
  {
    reports := [];
    if NsName(namespace, name) !in c.serviceAccounts {
      reports := reports + [Report(MissingServiceAccount, context, owner, namespace, name)];
    }
    if namespace !in c.projects {
      reports := reports + [Report(MissingProject, context, owner, namespace, name)];
    }
  }

  method EnumerateSccUsers(c: Cluster, scc: Meta, lines: seq<string>) returns (reports: seq<Report>, outcome: Outcome)
    ensures Trace(reports, outcome) == SccLinesReports(c, scc, lines)
  {
    reports := [];
    for k := 0 to |lines|
      invariant Trace(reports, Completed) == SccLinesReports(c, scc, lines[..k])
    {
      var line := lines[k];
      assert lines[..k + 1][..k] == lines[..k];
      if Contains(line, ServiceAccountMarker) {
        var fields := Split(line, ':');
        if |fields| < 4 {
          outcome := Aborted(WhoCanLineTooShort(scc.name, line));
          assert reports + [] == reports;
          assert SccLinesReports(c, scc, lines[..k + 1]) == Trace(reports, outcome);
          StopsReports(c, scc, lines, k + 1);
          return;
        }
        var found := CheckSubject(c, SccContext, scc.name, fields[2], fields[3]);
        reports := reports + found;
      } else {
        assert reports + [] == reports;
      }
    }
    assert lines[..|lines|] == lines;
    outcome := Completed;
  }

  lemma {:induction false} StopsReports(c: Cluster, scc: Meta, lines: seq<string>, i: nat)
    requires i <= |lines| && SccLinesReports(c, scc, lines[..i]).outcome.Aborted?
    ensures SccLinesReports(c, scc, lines) == SccLinesReports(c, scc, lines[..i])
    decreases |lines| - i
  {
    if i < |lines| {
      assert lines[..|lines| - 1][..i] == lines[..i];
      StopsReports(c, scc, lines[..|lines| - 1], i);
    } else {
      assert lines[..i] == lines;
    }
  }

  lemma {:induction false} SccStopsReports(c: Cluster, sccs: seq<Meta>, i: nat)
    requires i <= |sccs| && SccReports(c, sccs[..i]).outcome.Aborted?
    ensures SccReports(c, sccs) == SccReports(c, sccs[..i])
    decreases |sccs| - i
  {
    if i < |sccs| {
      assert sccs[..|sccs| - 1][..i] == sccs[..i];
      SccStopsReports(c, sccs[..|sccs| - 1], i);
    } else {
      assert sccs[..i] == sccs;
    }
  }

  method EnumerateSccs(c: Cluster, sccs: seq<Meta>) returns (reports: seq<Report>, outcome: Outcome)
    ensures Trace(reports, outcome) == SccReports(c, sccs)
  {
    reports := [];
    for i := 0 to |sccs|
      invariant Trace(reports, Completed) == SccReports(c, sccs[..i])
    {
      var scc := sccs[i];
      assert sccs[..i + 1][..i] == sccs[..i];
      if scc.name !in c.whoCan {
        outcome := Aborted(WhoCanFailed(scc.name));
        assert reports + [] == reports;
        assert SccReports(c, sccs[..i + 1]) == Trace(reports, outcome);
        SccStopsReports(c, sccs, i + 1);
        return;
      }
      var found, o := EnumerateSccUsers(c, scc, Lines(c.whoCan[scc.name]));
      reports := reports + found;
      if o.Aborted? {
        outcome := o;
        SccStopsReports(c, sccs, i + 1);
        return;
      }
    }
    assert sccs[..|sccs|] == sccs;
    outcome := Completed;
  }

  /** The subjects of one binding, each service account with a namespace checked in turn. */
  method EnumerateSubjects(c: Cluster, context: Context, owner: string, subjects: seq<Subject>) returns (reports: seq<Report>)
    ensures reports == SubjectsReports(c, context, owner, subjects)
  {
    reports := [];
    for k := 0 to |subjects|
      invariant reports == SubjectsReports(c, context, owner, subjects[..k])
    {
      var s := subjects[k];
      assert subjects[..k + 1][..k] == subjects[..k];
      if s.kind == "ServiceAccount" && s.namespace != "" {
        var found := CheckSubject(c, context, owner, s.namespace, s.name);
        reports := reports + found;
      } else {
        assert reports + [] == reports;
      }
    }
    assert subjects[..|subjects|] == subjects;
  }

  method EnumerateBindings(c: Cluster, context: Context, bindings: seq<Binding>) returns (reports: seq<Report>)
    ensures reports == BindingsReports(c, context, bindings)
  {
    reports := [];
    for i := 0 to |bindings|
      invariant reports == BindingsReports(c, context, bindings[..i])
    {
      var b := bindings[i];
      assert bindings[..i + 1][..i] == bindings[..i];
      var found := EnumerateSubjects(c, context, b.roleRef.name, b.subjects);
      reports := reports + found;
    }
    assert bindings[..|bindings|] == bindings;
  }

  /** The script after its setup. */
  method Enumerate(c: Cluster) returns (reports: seq<Report>, outcome: Outcome)
    ensures Trace(reports, outcome) == AllReports(c)
  {
    reports, outcome := [], Completed;
    if Contains(Collector, "all") || Contains(Collector, "scc") {
      reports, outcome := EnumerateSccs(c, c.sccList);
      if outcome.Aborted? {
        return;
      }
    }
    if Contains(Collector, "all") || Contains(Collector, "role") {
      var found := EnumerateBindings(c, RoleContext, c.roleBindingList);
      reports := reports + found;
    }
    if Contains(Collector, "all") || Contains(Collector, "clusterrole") {
      var found := EnumerateBindings(c, ClusterRoleContext, c.clusterRoleBindingList);
      reports := reports + found;
    }
  }

  // ---------------------------------------------------------------------------
  // What is reported.

  /** The fixed collector enables every stage. */
  lemma CollectorEnablesAll()
    ensures Contains(Collector, "all")
    ensures Enabled("scc") && Enabled("role") && Enabled("clusterrole")
  {
    assert OccursAt(Collector, "all", 0);
    ContainsAt(Collector, "all");
  }

  /** The reports come in stage order: SCC bindings, RoleBindings,
      ClusterRoleBindings; a stopped SCC stage ends the run. */
  lemma AllReportsOrder(c: Cluster)
    ensures AllReports(c).outcome == SccReports(c, c.sccList).outcome
    ensures AllReports(c).outcome.Completed? ==>
      AllReports(c).items == SccReports(c, c.sccList).items
        + BindingsReports(c, RoleContext, c.roleBindingList)
        + BindingsReports(c, ClusterRoleContext, c.clusterRoleBindingList)
    ensures AllReports(c).outcome.Aborted? ==> AllReports(c).items == SccReports(c, c.sccList).items
  {
    CollectorEnablesAll();
  }

  /** One subject: `[o]` exactly when the service account is missing, `[+]`
      exactly when the project is missing, each regardless of the other and
      `[o]` first; every report names the subject and its owner. */
  lemma SubjectReportsSpec(c: Cluster, context: Context, owner: string, namespace: string, name: string)
    ensures Report(MissingServiceAccount, context, owner, namespace, name) in SubjectReports(c, context, owner, namespace, name)
        <==> NsName(namespace, name) !in c.serviceAccounts
    ensures Report(MissingProject, context, owner, namespace, name) in SubjectReports(c, context, owner, namespace, name)
        <==> namespace !in c.projects
    ensures |SubjectReports(c, context, owner, namespace, name)|
         == (if NsName(namespace, name) in c.serviceAccounts then 0 else 1) + (if namespace in c.projects then 0 else 1)
    ensures forall r | r in SubjectReports(c, context, owner, namespace, name) ::
      r.context == context && r.owner == owner && r.namespace == namespace && r.name == name
    ensures NsName(namespace, name) !in c.serviceAccounts && namespace !in c.projects ==>
      SubjectReports(c, context, owner, namespace, name)[0].tag == MissingServiceAccount
  {
  }

  /** The enumerator reports a missing service account or project exactly
      when the grapher, for the same subject, falls back to an absent node. */
  lemma ReportsMatchAbsentNodes(c: Cluster, context: Context, owner: string, namespace: string, name: string)
    ensures Report(MissingServiceAccount, context, owner, namespace, name) in SubjectReports(c, context, owner, namespace, name)
        <==> GrapherSpec.ServiceAccountOrAbsent(c, namespace, name).kind == "AbsentServiceAccount"
    ensures Report(MissingProject, context, owner, namespace, name) in SubjectReports(c, context, owner, namespace, name)
        <==> GrapherSpec.ProjectOrAbsent(c, namespace).kind == "AbsentProject"
  {
    SubjectReportsSpec(c, context, owner, namespace, name);
  }

  /** A binding stage reports exactly the reports of its service-account
      subjects with a namespace, attributed to the binding's roleRef name. */
  lemma {:induction false} BindingsReportsMembership(c: Cluster, context: Context, bindings: seq<Binding>, r: Report)
    ensures r in BindingsReports(c, context, bindings) <==>
      exists b, s :: b in bindings && s in b.subjects && IsServiceAccountSubject(s)
        && r in SubjectReports(c, context, b.roleRef.name, s.namespace, s.name)
    decreases |bindings|
  {
    if bindings != [] {
      var n := |bindings| - 1;
      var b := bindings[n];
      BindingsReportsMembership(c, context, bindings[..n], r);
      SubjectsReportsMembership(c, context, b.roleRef.name, b.subjects, r);
      assert bindings == bindings[..n] + [b];
      if r in BindingsReports(c, context, bindings) {
        if r in BindingsReports(c, context, bindings[..n]) {
          var b', s :| b' in bindings[..n] && s in b'.subjects && IsServiceAccountSubject(s)
            && r in SubjectReports(c, context, b'.roleRef.name, s.namespace, s.name);
          assert b' in bindings;
        } else {
          assert r in SubjectsReports(c, context, b.roleRef.name, b.subjects);
        }
      } else {
        forall b', s | b' in bindings && s in b'.subjects && IsServiceAccountSubject(s)
          ensures r !in SubjectReports(c, context, b'.roleRef.name, s.namespace, s.name)
        {
          if b' != b {
            assert b' in bindings[..n];
          }
        }
      }
    }
  }

  lemma {:induction false} SubjectsReportsMembership(c: Cluster, context: Context, owner: string, subjects: seq<Subject>, r: Report)
    ensures r in SubjectsReports(c, context, owner, subjects) <==>
      exists s :: s in subjects && IsServiceAccountSubject(s) && r in SubjectReports(c, context, owner, s.namespace, s.name)
    decreases |subjects|
  {
    if subjects != [] {
      var n := |subjects| - 1;
      SubjectsReportsMembership(c, context, owner, subjects[..n], r);
      assert subjects == subjects[..n] + [subjects[n]];
      if r in SubjectsReports(c, context, owner, subjects[..n]) {
        var s :| s in subjects[..n] && IsServiceAccountSubject(s) && r in SubjectReports(c, context, owner, s.namespace, s.name);
        assert s in subjects;
      }
    }
  }

  // ---------------------------------------------------------------------------
  // What is not consulted.

  /** Two clusters that agree on everything the enumerator reads. */
  predicate SameInputs(c1: Cluster, c2: Cluster)
  {
    c1.projects == c2.projects && c1.serviceAccounts == c2.serviceAccounts && c1.whoCan == c2.whoCan
    && c1.sccList == c2.sccList && c1.roleBindingList == c2.roleBindingList
    && c1.clusterRoleBindingList == c2.clusterRoleBindingList
  }

  lemma {:induction false} SubjectsReportsInputs(c1: Cluster, c2: Cluster, context: Context, owner: string, subjects: seq<Subject>)
    requires SameInputs(c1, c2)
    ensures SubjectsReports(c1, context, owner, subjects) == SubjectsReports(c2, context, owner, subjects)
    decreases |subjects|
  {
    if subjects != [] {
      SubjectsReportsInputs(c1, c2, context, owner, subjects[..|subjects| - 1]);
    }
  }

  lemma {:induction false} BindingsReportsInputs(c1: Cluster, c2: Cluster, context: Context, bindings: seq<Binding>)
    requires SameInputs(c1, c2)
    ensures BindingsReports(c1, context, bindings) == BindingsReports(c2, context, bindings)
    decreases |bindings|
  {
    if bindings != [] {
      var b := bindings[|bindings| - 1];
      BindingsReportsInputs(c1, c2, context, bindings[..|bindings| - 1]);
      SubjectsReportsInputs(c1, c2, context, b.roleRef.name, b.subjects);
    }
  }

  lemma {:induction false} SccLinesReportsInputs(c1: Cluster, c2: Cluster, scc: Meta, lines: seq<string>)
    requires SameInputs(c1, c2)
    ensures SccLinesReports(c1, scc, lines) == SccLinesReports(c2, scc, lines)
    decreases |lines|
  {
    if lines != [] {
      SccLinesReportsInputs(c1, c2, scc, lines[..|lines| - 1]);
    }
  }

  lemma {:induction false} SccReportsInputs(c1: Cluster, c2: Cluster, sccs: seq<Meta>)
    requires SameInputs(c1, c2)
    ensures SccReports(c1, sccs) == SccReports(c2, sccs)
    decreases |sccs|
  {
    if sccs != [] {
      var scc := sccs[|sccs| - 1];
      SccReportsInputs(c1, c2, sccs[..|sccs| - 1]);
      if scc.name in c1.whoCan {
        SccLinesReportsInputs(c1, c2, scc, Lines(c1.whoCan[scc.name]));
      }
    }
  }

  /** The roleRef is never looked up: the reports do not depend on which
      Roles and ClusterRoles exist. */
  lemma RoleRefNeverResolved(c: Cluster, roles: map<NsName, RoleObject>, clusterRoles: map<string, RoleObject>)
    ensures AllReports(c) == AllReports(c.(roles := roles, clusterRoles := clusterRoles))
  {
    var c2 := c.(roles := roles, clusterRoles := clusterRoles);
    SccReportsInputs(c, c2, c.sccList);
    BindingsReportsInputs(c, c2, RoleContext, c.roleBindingList);
    BindingsReportsInputs(c, c2, ClusterRoleContext, c.clusterRoleBindingList);
  }

  // ---------------------------------------------------------------------------
  // The same stopping points as the grapher.

  lemma {:induction false} SccLinesSameOutcome(c: Cluster, scc: Meta, lines: seq<string>)
    ensures SccLinesReports(c, scc, lines).outcome == GrapherSpec.SccLinesTrace(c, scc, lines).outcome
    decreases |lines|
  {
    if lines != [] {
      SccLinesSameOutcome(c, scc, lines[..|lines| - 1]);
    }
  }

  /** Both scripts stop on the same `who-can` failure or short line. */
  lemma {:induction false} SccSameOutcome(c: Cluster, sccs: seq<Meta>)
    ensures SccReports(c, sccs).outcome == GrapherSpec.SccBindingStage(c, sccs).outcome
    decreases |sccs|
  {
    if sccs != [] {
      var scc := sccs[|sccs| - 1];
      SccSameOutcome(c, sccs[..|sccs| - 1]);
      if scc.name in c.whoCan {
        SccLinesSameOutcome(c, scc, Lines(c.whoCan[scc.name]));
      }
    }
  }

  /** The same headed user line is reported as a missing service account
      named after the real namespace, in a missing project "serviceaccount". */
  lemma HeadedUserLineReported(c: Cluster, scc: Meta, heading: string, indent: string, namespace: string, name: string)
    requires ':' !in heading && ':' !in indent && ':' !in namespace && ':' !in name
    requires "serviceaccount" !in c.projects && NsName("serviceaccount", namespace) !in c.serviceAccounts
    ensures SccLineReports(c, scc, heading + ":" + indent + ServiceAccountMarker + namespace + ":" + name)
         == Trace([Report(MissingServiceAccount, SccContext, scc.name, "serviceaccount", namespace),
                   Report(MissingProject, SccContext, scc.name, "serviceaccount", namespace)], Completed)
  {
    ParseHeadedUserLine(heading, indent, namespace, name);
  }

  /** Line `i` of one SCC's output is reached (no marked line before it is
      short of fields), names a service account, and `r` is one of its reports. */
  predicate LineReports(c: Cluster, scc: Meta, lines: seq<string>, i: int, r: Report)
  {
    0 <= i < |lines| && GrapherFacts.WellFormedLines(lines[..i])
    && ParseLine(lines[i]).ServiceAccountRef?
    && r in SubjectReports(c, SccContext, scc.name, ParseLine(lines[i]).namespace, ParseLine(lines[i]).name)
  }

  /** The lines before `n` are reached in `lines` exactly as in its prefix of length `n`. */
  lemma LineReportsPrefix(c: Cluster, scc: Meta, lines: seq<string>, n: nat, r: Report)
    requires n <= |lines|
    ensures forall i :: 0 <= i < n ==> (LineReports(c, scc, lines[..n], i, r) <==> LineReports(c, scc, lines, i, r))
  {
    forall i | 0 <= i < n
      ensures LineReports(c, scc, lines[..n], i, r) <==> LineReports(c, scc, lines, i, r)
    {
      assert lines[..n][..i] == lines[..i];
      assert lines[..n][i] == lines[i];
    }
  }

  /** One SCC's output is read to the end exactly when it is well formed. */
  lemma SccLinesReportsOutcome(c: Cluster, scc: Meta, lines: seq<string>)
    ensures SccLinesReports(c, scc, lines).outcome.Completed? <==> GrapherFacts.WellFormedLines(lines)
  {
    SccLinesSameOutcome(c, scc, lines);
    GrapherFacts.SccLinesOutcome(c, scc, lines);
  }

  /** Every report from one SCC's output comes from a line it reaches. */
  lemma {:induction false} SccLinesReportsSound(c: Cluster, scc: Meta, lines: seq<string>, r: Report)
    requires r in SccLinesReports(c, scc, lines).items
    ensures exists i :: LineReports(c, scc, lines, i, r)
    decreases |lines|
  {
    var n := |lines| - 1;
    var prev := SccLinesReports(c, scc, lines[..n]);
    LineReportsPrefix(c, scc, lines, n, r);
    if r in prev.items {
      SccLinesReportsSound(c, scc, lines[..n], r);
      var i :| LineReports(c, scc, lines[..n], i, r);
      assert LineReports(c, scc, lines, i, r);
    } else {
      SccLinesReportsOutcome(c, scc, lines[..n]);
      assert LineReports(c, scc, lines, n, r);
    }
  }

  /** Every line one SCC's output reaches has its reports made. */
  lemma {:induction false} SccLinesReportsComplete(c: Cluster, scc: Meta, lines: seq<string>, i: int, r: Report)
    requires LineReports(c, scc, lines, i, r)
    ensures r in SccLinesReports(c, scc, lines).items
    decreases |lines|
  {
    var n := |lines| - 1;
    var prev := SccLinesReports(c, scc, lines[..n]);
    var step := SccLineReports(c, scc, lines[n]);
    assert SccLinesReports(c, scc, lines) == Then(prev, step);
    if i < n {
      LineReportsPrefix(c, scc, lines, n, r);
      SccLinesReportsComplete(c, scc, lines[..n], i, r);
      assert r in prev.items;
    } else {
      assert lines[..i] == lines[..n];
      assert prev.outcome.Completed? by {
        SccLinesReportsOutcome(c, scc, lines[..n]);
      }
      assert r in step.items;
    }
  }

  /** One SCC's output reports exactly the reports of its service-account
      lines up to the first marked line that is short of fields. */
  lemma SccLinesReportsMembership(c: Cluster, scc: Meta, lines: seq<string>, r: Report)
    ensures r in SccLinesReports(c, scc, lines).items <==> exists i :: LineReports(c, scc, lines, i, r)
  {
    if r in SccLinesReports(c, scc, lines).items {
      SccLinesReportsSound(c, scc, lines, r);
    }
    if exists i :: LineReports(c, scc, lines, i, r) {
      var i :| LineReports(c, scc, lines, i, r);
      SccLinesReportsComplete(c, scc, lines, i, r);
    }
  }

  /** SCC `j` is reached (every SCC before it has well-formed `who-can`
      output), and line `i` of its output reports `r`. */
  predicate SccLineReported(c: Cluster, sccs: seq<Meta>, j: int, i: int, r: Report)
  {
    0 <= j < |sccs| && GrapherFacts.WhoCanReadable(c, sccs[..j]) && sccs[j].name in c.whoCan
    && LineReports(c, sccs[j], Lines(c.whoCan[sccs[j].name]), i, r)
  }

  lemma SccLineReportedPrefix(c: Cluster, sccs: seq<Meta>, n: nat, r: Report)
    requires n <= |sccs|
    ensures forall j, i :: 0 <= j < n ==> (SccLineReported(c, sccs[..n], j, i, r) <==> SccLineReported(c, sccs, j, i, r))
  {
    forall j, i | 0 <= j < n
      ensures SccLineReported(c, sccs[..n], j, i, r) <==> SccLineReported(c, sccs, j, i, r)
    {
      assert sccs[..n][..j] == sccs[..j];
      assert sccs[..n][j] == sccs[j];
    }
  }

  /** The SCC stage runs to the end exactly when every `who-can` output is available and well formed. */
  lemma SccReportsOutcome(c: Cluster, sccs: seq<Meta>)
    ensures SccReports(c, sccs).outcome.Completed? <==> GrapherFacts.WhoCanReadable(c, sccs)
  {
    SccSameOutcome(c, sccs);
    GrapherFacts.SccBindingStageOutcome(c, sccs);
  }

  /** Every report of the SCC stage comes from a line of an SCC it reaches. */
  lemma {:induction false} SccReportsSound(c: Cluster, sccs: seq<Meta>, r: Report)
    requires r in SccReports(c, sccs).items
    ensures exists j, i :: SccLineReported(c, sccs, j, i, r)
    decreases |sccs|
  {
    var n := |sccs| - 1;
    var scc := sccs[n];
    var prev := SccReports(c, sccs[..n]);
    SccLineReportedPrefix(c, sccs, n, r);
    if r in prev.items {
      SccReportsSound(c, sccs[..n], r);
      var j, i :| SccLineReported(c, sccs[..n], j, i, r);
      assert SccLineReported(c, sccs, j, i, r);
    } else {
      SccReportsOutcome(c, sccs[..n]);
      assert scc.name in c.whoCan;
      SccLinesReportsSound(c, scc, Lines(c.whoCan[scc.name]), r);
      var i :| LineReports(c, scc, Lines(c.whoCan[scc.name]), i, r);
      assert SccLineReported(c, sccs, n, i, r);
    }
  }

  /** Every line of every SCC the stage reaches has its reports made. */
  lemma {:induction false} SccReportsComplete(c: Cluster, sccs: seq<Meta>, j: int, i: int, r: Report)
    requires SccLineReported(c, sccs, j, i, r)
    ensures r in SccReports(c, sccs).items
    decreases |sccs|
  {
    var n := |sccs| - 1;
    var scc := sccs[n];
    var prev := SccReports(c, sccs[..n]);
    var step := SccStepReports(c, scc);
    assert SccReports(c, sccs) == Then(prev, step);
    if j < n {
      SccLineReportedPrefix(c, sccs, n, r);
      SccReportsComplete(c, sccs[..n], j, i, r);
    } else {
      var lines := Lines(c.whoCan[scc.name]);
      assert GrapherFacts.WhoCanReadable(c, sccs[..n]) && LineReports(c, scc, lines, i, r) by {
        assert j == n;
      }
      SccReportsOutcome(c, sccs[..n]);
      SccLinesReportsComplete(c, scc, lines, i, r);
      assert step == SccLinesReports(c, scc, lines);
    }
  }

  /** The SCC stage reports exactly the reports of the service-account lines
      it reaches, across the SCCs in order, until the first `who-can` failure
      or short line. */
  lemma SccReportsMembership(c: Cluster, sccs: seq<Meta>, r: Report)
    ensures r in SccReports(c, sccs).items <==> exists j, i :: SccLineReported(c, sccs, j, i, r)
  {
    if r in SccReports(c, sccs).items {
      SccReportsSound(c, sccs, r);
    }
    if exists j, i :: SccLineReported(c, sccs, j, i, r) {
      var j, i :| SccLineReported(c, sccs, j, i, r);
      SccReportsComplete(c, sccs, j, i, r);
    }
  }

  /** The enumerator runs to the end exactly when every SCC's `who-can`
      command succeeds with well-formed output. */
  lemma AllReportsComplete(c: Cluster)
    ensures AllReports(c).outcome.Completed? <==> GrapherFacts.WhoCanReadable(c, c.sccList)
  {
    AllReportsOrder(c);
    SccSameOutcome(c, c.sccList);
    GrapherFacts.SccBindingStageOutcome(c, c.sccList);
  }
}
