/** Expanding a role's rules into merges, as the RoleBinding and
    ClusterRoleBinding stages of the grapher do: for every (apiGroup, resource,
    verb) of a rule that names API groups, a verb edge from the role's node to a
    Resource node named by the bare resource; for every (nonResourceURL, verb),
    a verb edge to a ResourceNoUrl node named by the URL. */
module Rules {
  import opened Objects
  import opened GraphStore

  /** The relationship type of a resource-rule verb: `impersonate` becomes `impers`. */
  function ResourceEdgeType(verb: string): string
  {
    if verb == "impersonate" then "impers" else verb
  }

  /** The name of the Resource node for a resource under an API group. The
      source assigns the group, then ":", then the resource to one variable, so
      both branches end with the bare resource. */
  function ResourceName(apiGroup: string, resource: string): string
  {
    if apiGroup == "" then resource else resource
  }

  function ResourceNode(name: string): Node
  {
    Node("Resource", name, map["name" := name])
  }

  function NonResourceNode(url: string): Node
  {
    Node("ResourceNoUrl", url, map["name" := url])
  }

  /** The three merges of one (apiGroup, resource, verb): role node, resource node, verb edge. */
  function ResourceVerbStep(role: Node, name: string, verb: string): seq<Op>
  {
    [MergeNode(role), MergeNode(ResourceNode(name)),
     MergeRel(role, ResourceEdgeType(verb), ResourceNode(name), map[])]
  }

  /** `for verb in rule.verbs` under one resource. */
  function VerbOps(role: Node, name: string, verbs: seq<string>): seq<Op>
    decreases |verbs|
  {
    if verbs == [] then []
    else VerbOps(role, name, verbs[..|verbs| - 1]) + ResourceVerbStep(role, name, verbs[|verbs| - 1])
  }

  /** `for resource in rule.resources` under one API group. */
  function ResourceOps(role: Node, apiGroup: string, resources: seq<string>, verbs: seq<string>): seq<Op>
    decreases |resources|
  {
    if resources == [] then []
    else
      var r := resources[|resources| - 1];
      ResourceOps(role, apiGroup, resources[..|resources| - 1], verbs)
        + VerbOps(role, ResourceName(apiGroup, r), verbs)
  }

  /** `for apiGroup in rule.apiGroups`. */
  function ApiGroupOps(role: Node, apiGroups: seq<string>, resources: seq<string>, verbs: seq<string>): seq<Op>
    decreases |apiGroups|
  {
    if apiGroups == [] then []
    else
      ApiGroupOps(role, apiGroups[..|apiGroups| - 1], resources, verbs)
        + ResourceOps(role, apiGroups[|apiGroups| - 1], resources, verbs)
  }

  /** The three merges of one (nonResourceURL, verb); the verb is used as it is. */
  function UrlVerbStep(role: Node, url: string, verb: string): seq<Op>
  {
    [MergeNode(role), MergeNode(NonResourceNode(url)),
     MergeRel(role, verb, NonResourceNode(url), map[])]
  }

  /** `for verb in rule.verbs` under one URL. */
  function UrlVerbOps(role: Node, url: string, verbs: seq<string>): seq<Op>
    decreases |verbs|
  {
    if verbs == [] then []
    else UrlVerbOps(role, url, verbs[..|verbs| - 1]) + UrlVerbStep(role, url, verbs[|verbs| - 1])
  }

  /** `for nonResourceURL in rule.nonResourceURLs`. */
  function UrlOps(role: Node, urls: seq<string>, verbs: seq<string>): seq<Op>
    decreases |urls|
  {
    if urls == [] then []
    else UrlOps(role, urls[..|urls| - 1], verbs) + UrlVerbOps(role, urls[|urls| - 1], verbs)
  }

  /** One rule: the resource part when `apiGroups` is non-empty, then the URL
      part when `nonResourceURLs` is non-empty. */
  function RuleOps(role: Node, rule: Rule): seq<Op>
  {
    (if rule.apiGroups != [] then ApiGroupOps(role, rule.apiGroups, rule.resources, rule.verbs) else [])
    + (if rule.nonResourceURLs != [] then UrlOps(role, rule.nonResourceURLs, rule.verbs) else [])
  }

  /** `for rule in role.rules`. */
  function RulesOps(role: Node, rules: seq<Rule>): seq<Op>
    decreases |rules|
  {
    if rules == [] then []
    else RulesOps(role, rules[..|rules| - 1]) + RuleOps(role, rules[|rules| - 1])
  }

  // ---------------------------------------------------------------------------
  // The edges a rule grants, stated as sets independently of the loops.

  /** Resource edges: one per (resource, verb) when the rule names API groups;
      the API group itself is not part of any identity. */
  function ResourceEdges(role: NodeKey, rule: Rule): set<EdgeKey>
  {
    if rule.apiGroups == [] then {}
    else (set r, v | r in rule.resources && v in rule.verbs ::
            EdgeKey(role, ResourceEdgeType(v), NodeKey("Resource", r)))
  }

  /** Non-resource edges: one per (URL, verb), typed by the verb as it is. */
  function UrlEdges(role: NodeKey, rule: Rule): set<EdgeKey>
  {
    set u, v | u in rule.nonResourceURLs && v in rule.verbs ::
      EdgeKey(role, v, NodeKey("ResourceNoUrl", u))
  }

  function RuleEdges(role: NodeKey, rule: Rule): set<EdgeKey>
  {
    ResourceEdges(role, rule) + UrlEdges(role, rule)
  }

  function RulesEdges(role: NodeKey, rules: seq<Rule>): set<EdgeKey>
  {
    set rule, e | rule in rules && e in RuleEdges(role, rule) :: e
  }

  // ---------------------------------------------------------------------------
  // The loops write exactly those edges, and every node they write is an end
  // of one of them.

  // Splitting the last element off the sets of edges the loops build.

  lemma ResourceVerbEdgesSnoc(role: NodeKey, name: string, verbs: seq<string>)
    requires verbs != []
    ensures (set v | v in verbs :: EdgeKey(role, ResourceEdgeType(v), NodeKey("Resource", name)))
         == (set v | v in verbs[..|verbs| - 1] :: EdgeKey(role, ResourceEdgeType(v), NodeKey("Resource", name)))
            + {EdgeKey(role, ResourceEdgeType(verbs[|verbs| - 1]), NodeKey("Resource", name))}
  {
    assert verbs == verbs[..|verbs| - 1] + [verbs[|verbs| - 1]];
  }

  lemma ResourceEdgesSnoc(role: NodeKey, resources: seq<string>, verbs: seq<string>)
    requires resources != []
    ensures (set r, v | r in resources && v in verbs :: EdgeKey(role, ResourceEdgeType(v), NodeKey("Resource", r)))
         == (set r, v | r in resources[..|resources| - 1] && v in verbs ::
               EdgeKey(role, ResourceEdgeType(v), NodeKey("Resource", r)))
            + (set v | v in verbs :: EdgeKey(role, ResourceEdgeType(v), NodeKey("Resource", resources[|resources| - 1])))
  {
    assert resources == resources[..|resources| - 1] + [resources[|resources| - 1]];
  }

  lemma UrlVerbEdgesSnoc(role: NodeKey, url: string, verbs: seq<string>)
    requires verbs != []
    ensures (set v | v in verbs :: EdgeKey(role, v, NodeKey("ResourceNoUrl", url)))
         == (set v | v in verbs[..|verbs| - 1] :: EdgeKey(role, v, NodeKey("ResourceNoUrl", url)))
            + {EdgeKey(role, verbs[|verbs| - 1], NodeKey("ResourceNoUrl", url))}
  {
    assert verbs == verbs[..|verbs| - 1] + [verbs[|verbs| - 1]];
  }

  lemma UrlEdgesSnoc(role: NodeKey, urls: seq<string>, verbs: seq<string>)
    requires urls != []
    ensures (set u, v | u in urls && v in verbs :: EdgeKey(role, v, NodeKey("ResourceNoUrl", u)))
         == (set u, v | u in urls[..|urls| - 1] && v in verbs :: EdgeKey(role, v, NodeKey("ResourceNoUrl", u)))
            + (set v | v in verbs :: EdgeKey(role, v, NodeKey("ResourceNoUrl", urls[|urls| - 1])))
  {
    assert urls == urls[..|urls| - 1] + [urls[|urls| - 1]];
  }

  lemma {:induction false} VerbOpsWrites(role: Node, name: string, verbs: seq<string>)
    ensures EdgeWrites(VerbOps(role, name, verbs))
         == set v | v in verbs :: EdgeKey(role.Id(), ResourceEdgeType(v), NodeKey("Resource", name))
    ensures Anchored(VerbOps(role, name, verbs))
    decreases |verbs|
  {
    if verbs != [] {
      var n := |verbs| - 1;
      var prev := VerbOps(role, name, verbs[..n]);
      VerbOpsWrites(role, name, verbs[..n]);
      StepAfter(prev, role, ResourceNode(name), ResourceEdgeType(verbs[n]), map[]);
      assert VerbOps(role, name, verbs) == prev + ResourceVerbStep(role, name, verbs[n]);
      ResourceVerbEdgesSnoc(role.Id(), name, verbs);
    }
  }

  lemma {:induction false} ResourceOpsWrites(role: Node, apiGroup: string, resources: seq<string>, verbs: seq<string>)
    ensures EdgeWrites(ResourceOps(role, apiGroup, resources, verbs))
         == set r, v | r in resources && v in verbs ::
              EdgeKey(role.Id(), ResourceEdgeType(v), NodeKey("Resource", r))
    ensures Anchored(ResourceOps(role, apiGroup, resources, verbs))
    decreases |resources|
  {
    if resources != [] {
      var n := |resources| - 1;
      var r := resources[n];
      var prev := ResourceOps(role, apiGroup, resources[..n], verbs);
      var step := VerbOps(role, r, verbs);
      ResourceOpsWrites(role, apiGroup, resources[..n], verbs);
      VerbOpsWrites(role, ResourceName(apiGroup, r), verbs);
      assert EdgeWrites(prev + step) == EdgeWrites(prev) + EdgeWrites(step) by {
        WritesConcat(prev, step);
      }
      AnchoredConcat(prev, step);
      ResourceEdgesSnoc(role.Id(), resources, verbs);
    }
  }

  lemma {:induction false} ApiGroupOpsWrites(role: Node, apiGroups: seq<string>, resources: seq<string>, verbs: seq<string>)
    ensures EdgeWrites(ApiGroupOps(role, apiGroups, resources, verbs))
         == if apiGroups == [] then {} else
              set r, v | r in resources && v in verbs ::
                EdgeKey(role.Id(), ResourceEdgeType(v), NodeKey("Resource", r))
    ensures Anchored(ApiGroupOps(role, apiGroups, resources, verbs))
    decreases |apiGroups|
  {
    if apiGroups != [] {
      var n := |apiGroups| - 1;
      ApiGroupOpsWrites(role, apiGroups[..n], resources, verbs);
      ResourceOpsWrites(role, apiGroups[n], resources, verbs);
      WritesConcat(ApiGroupOps(role, apiGroups[..n], resources, verbs), ResourceOps(role, apiGroups[n], resources, verbs));
      AnchoredConcat(ApiGroupOps(role, apiGroups[..n], resources, verbs), ResourceOps(role, apiGroups[n], resources, verbs));
    } else {
      assert NodeWrites([]) == {};
    }
  }

  lemma {:induction false} UrlVerbOpsWrites(role: Node, url: string, verbs: seq<string>)
    ensures EdgeWrites(UrlVerbOps(role, url, verbs))
         == set v | v in verbs :: EdgeKey(role.Id(), v, NodeKey("ResourceNoUrl", url))
    ensures Anchored(UrlVerbOps(role, url, verbs))
    decreases |verbs|
  {
    if verbs != [] {
      var n := |verbs| - 1;
      var prev := UrlVerbOps(role, url, verbs[..n]);
      UrlVerbOpsWrites(role, url, verbs[..n]);
      StepAfter(prev, role, NonResourceNode(url), verbs[n], map[]);
      assert UrlVerbOps(role, url, verbs) == prev + UrlVerbStep(role, url, verbs[n]);
      UrlVerbEdgesSnoc(role.Id(), url, verbs);
    }
  }

  lemma {:induction false} UrlOpsWrites(role: Node, urls: seq<string>, verbs: seq<string>)
    ensures EdgeWrites(UrlOps(role, urls, verbs))
         == set u, v | u in urls && v in verbs :: EdgeKey(role.Id(), v, NodeKey("ResourceNoUrl", u))
    ensures Anchored(UrlOps(role, urls, verbs))
    decreases |urls|
  {
    if urls != [] {
      var n := |urls| - 1;
      var prev := UrlOps(role, urls[..n], verbs);
      var step := UrlVerbOps(role, urls[n], verbs);
      UrlOpsWrites(role, urls[..n], verbs);
      UrlVerbOpsWrites(role, urls[n], verbs);
      assert EdgeWrites(prev + step) == EdgeWrites(prev) + EdgeWrites(step) by {
        WritesConcat(prev, step);
      }
      UrlEdgesSnoc(role.Id(), urls, verbs);
      AnchoredConcat(prev, step);
    }
  }

  /** One rule writes exactly the edges `RuleEdges` names, and only their ends as nodes. */
  lemma RuleOpsWrites(role: Node, rule: Rule)
    ensures EdgeWrites(RuleOps(role, rule)) == RuleEdges(role.Id(), rule)
    ensures Anchored(RuleOps(role, rule))
  {
    var a := if rule.apiGroups != [] then ApiGroupOps(role, rule.apiGroups, rule.resources, rule.verbs) else [];
    var b := if rule.nonResourceURLs != [] then UrlOps(role, rule.nonResourceURLs, rule.verbs) else [];
    ApiGroupOpsWrites(role, rule.apiGroups, rule.resources, rule.verbs);
    UrlOpsWrites(role, rule.nonResourceURLs, rule.verbs);
    assert NodeWrites([]) == {};
    WritesConcat(a, b);
    AnchoredConcat(a, b);
  }

  lemma RulesEdgesSnoc(role: NodeKey, rules: seq<Rule>)
    requires rules != []
    ensures RulesEdges(role, rules)
         == RulesEdges(role, rules[..|rules| - 1]) + RuleEdges(role, rules[|rules| - 1])
  {
    var n := |rules| - 1;
    assert forall rule :: rule in rules <==> rule in rules[..n] || rule == rules[n] by {
      assert rules == rules[..n] + [rules[n]];
    }
  }

  /** All rules of a role write exactly `RulesEdges`. */
  lemma {:induction false} RulesOpsEdges(role: Node, rules: seq<Rule>)
    ensures EdgeWrites(RulesOps(role, rules)) == RulesEdges(role.Id(), rules)
    decreases |rules|
  {
    if rules != [] {
      var n := |rules| - 1;
      RulesOpsEdges(role, rules[..n]);
      RuleOpsWrites(role, rules[n]);
      WritesConcat(RulesOps(role, rules[..n]), RuleOps(role, rules[n]));
      RulesEdgesSnoc(role.Id(), rules);
    }
  }

  /** Every node the rules of a role write is an end of one of their edges. */
  lemma {:induction false} RulesOpsAnchored(role: Node, rules: seq<Rule>)
    ensures Anchored(RulesOps(role, rules))
    decreases |rules|
  {
    if rules == [] {
      assert NodeWrites([]) == {};
    } else {
      var n := |rules| - 1;
      RulesOpsAnchored(role, rules[..n]);
      RuleOpsWrites(role, rules[n]);
      AnchoredConcat(RulesOps(role, rules[..n]), RuleOps(role, rules[n]));
    }
  }

  // ---------------------------------------------------------------------------
  // Facts about the fan-out.

  /** The API group never changes what is merged: the merges under any two
      API groups are the same. */
  lemma {:induction false} ApiGroupIgnored(role: Node, g1: string, g2: string, resources: seq<string>, verbs: seq<string>)
    ensures ResourceOps(role, g1, resources, verbs) == ResourceOps(role, g2, resources, verbs)
    decreases |resources|
  {
    if resources != [] {
      ApiGroupIgnored(role, g1, g2, resources[..|resources| - 1], verbs);
    }
  }

  lemma {:induction false} VerbOpsLength(role: Node, name: string, verbs: seq<string>)
    ensures |VerbOps(role, name, verbs)| == 3 * |verbs|
    decreases |verbs|
  {
    if verbs != [] {
      VerbOpsLength(role, name, verbs[..|verbs| - 1]);
    }
  }

  lemma {:induction false} ResourceOpsLength(role: Node, apiGroup: string, resources: seq<string>, verbs: seq<string>)
    ensures |ResourceOps(role, apiGroup, resources, verbs)| == 3 * |verbs| * |resources|
    decreases |resources|
  {
    if resources != [] {
      var n := |resources| - 1;
      ResourceOpsLength(role, apiGroup, resources[..n], verbs);
      VerbOpsLength(role, ResourceName(apiGroup, resources[n]), verbs);
      assert 3 * |verbs| * n + 3 * |verbs| == 3 * |verbs| * (n + 1);
    }
  }

  lemma MulSucc(k: int, n: int)
    ensures k * n + k == k * (n + 1)
  {
  }

  /** One merge of the role node, one of the resource node and one of the
      edge for every (apiGroup, resource, verb): nothing is deduplicated
      before merging. */
  lemma {:induction false} ApiGroupOpsLength(role: Node, apiGroups: seq<string>, resources: seq<string>, verbs: seq<string>)
    ensures |ApiGroupOps(role, apiGroups, resources, verbs)| == (3 * |verbs| * |resources|) * |apiGroups|
    decreases |apiGroups|
  {
    var k := 3 * |verbs| * |resources|;
    if apiGroups != [] {
      var n := |apiGroups| - 1;
      var prev := ApiGroupOps(role, apiGroups[..n], resources, verbs);
      var last := ResourceOps(role, apiGroups[n], resources, verbs);
      assert ApiGroupOps(role, apiGroups, resources, verbs) == prev + last;
      ApiGroupOpsLength(role, apiGroups[..n], resources, verbs);
      ResourceOpsLength(role, apiGroups[n], resources, verbs);
      assert |prev| == k * n;
      assert |last| == k;
      MulSucc(k, n);
    }
  }

  /** The verb edges of one rule: `impersonate` on a resource gives an
      `impers` edge and never an `impersonate` edge to a Resource node, while
      on a non-resource URL it stays `impersonate`; other verbs are kept. */
  lemma ImpersonateRenamed(role: Node, rule: Rule)
    ensures forall e :: e in EdgeWrites(RuleOps(role, rule)) && e.dst.kind == "Resource" ==> e.rel != "impersonate"
    ensures "impersonate" in rule.verbs && rule.apiGroups != [] ==>
      forall r :: r in rule.resources ==>
        EdgeKey(role.Id(), "impers", NodeKey("Resource", r)) in EdgeWrites(RuleOps(role, rule))
    ensures "impersonate" in rule.verbs ==>
      forall u :: u in rule.nonResourceURLs ==>
        EdgeKey(role.Id(), "impersonate", NodeKey("ResourceNoUrl", u)) in EdgeWrites(RuleOps(role, rule))
    ensures forall v, r :: v in rule.verbs && v != "impersonate" && r in rule.resources && rule.apiGroups != [] ==>
        EdgeKey(role.Id(), v, NodeKey("Resource", r)) in EdgeWrites(RuleOps(role, rule))
  {
    RuleOpsWrites(role, rule);
    var id := role.Id();
    forall e | e in RuleEdges(id, rule) && e.dst.kind == "Resource"
      ensures e.rel != "impersonate"
    {
      assert e !in UrlEdges(id, rule);
      var r, v :| r in rule.resources && v in rule.verbs
               && e == EdgeKey(id, ResourceEdgeType(v), NodeKey("Resource", r));
    }
    if "impersonate" in rule.verbs && rule.apiGroups != [] {
      forall r | r in rule.resources
        ensures EdgeKey(id, "impers", NodeKey("Resource", r)) in ResourceEdges(id, rule)
      {
        assert ResourceEdgeType("impersonate") == "impers";
      }
    }
    if "impersonate" in rule.verbs {
      forall u | u in rule.nonResourceURLs
        ensures EdgeKey(id, "impersonate", NodeKey("ResourceNoUrl", u)) in UrlEdges(id, rule)
      {
      }
    }
    forall v, r | v in rule.verbs && v != "impersonate" && r in rule.resources && rule.apiGroups != []
      ensures EdgeKey(id, v, NodeKey("Resource", r)) in ResourceEdges(id, rule)
    {
      assert ResourceEdgeType(v) == v;
    }
  }
}
