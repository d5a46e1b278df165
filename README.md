# OpenShiftGrapher resolution core, in Dafny

OpenShiftGrapher reads the access-control objects of an OpenShift cluster and
writes them into a Neo4j property graph. It records which service accounts
hold which roles, which verbs those roles grant on which resources, and which
service accounts may use which Security Context Constraints (SCCs). Its
companion script, AbsentEnum, walks the same references and reports the
service accounts and projects they name that do not exist.

This project models both scripts as they are written:

- **Cluster.** The cluster is a value (`Objects.Cluster`).
  - Each listing is a sequence.
  - Each point lookup (`get(name=…)`) is a partial map, and a lookup that raises is a missing key.
  - The output of `oc adm policy who-can use scc <name> -A` is a string per SCC name. A missing entry is a command that exited non-zero.
- **Graph.** The graph is a class (`GraphStore.Graph`) with a node map and an edge map.
  - A node is keyed by its primary label and primary-key value.
  - An edge is keyed by (source node, type, target node).
  - `tx.merge` is `Graph.Merge`, a keyed upsert that replaces the properties and never removes anything.
- **Grapher stages.** Each stage of the grapher is a method with the script's loops (`Grapher`), proved to perform exactly the merges a specification function lists (`GrapherSpec`).
- **Facts about the merges.** `GrapherFacts` and `Rules` prove what those merges mean:
  - the edge set each stage writes, stated independently of the loops;
  - which nodes hang off no edge;
  - when a stage stops the script;
  - that a run can be repeated without changing the graph.
- **Exceptions.** Exceptions the script does not catch are an explicit outcome (`Objects.Outcome`):
  - a service account whose project cannot be found;
  - a failed `who-can` command;
  - a `who-can` line with the service-account marker but fewer than four `:`-separated fields.
- **AbsentEnum.** `AbsentEnum.Enumerate` appends report records (`[o]` missing service account, `[+]` missing project) in the order the script prints them.

Some facts about what the script builds shape the whole model:

- The script merges no User, Group or binding nodes. Subjects of other kinds are skipped (OpenShiftGrapher.py:321-353).
- It never reads a rule's `resourceNames`: a rule is expanded over its resources and verbs whatever object names it restricts them to (OpenShiftGrapher.py:272-313).
- AbsentServiceAccount nodes have primary key `name`, so they are keyed by name alone (OpenShiftGrapher.py:161-163, 341-343, 469-471).
- Resource nodes are keyed by the bare resource name (OpenShiftGrapher.py:286-288).
- The has-role edge runs from the subject to the role (OpenShiftGrapher.py:348).
- RoleBindings are read under the `role` collector (OpenShiftGrapher.py:236) and ClusterRoleBindings under `clusterrole` (OpenShiftGrapher.py:364).

The `who-can` output lists the first user of a group on the same line as its `Users:` heading. On such a line the heading adds one `:`-separated field in front, so the fields the script reads as namespace and name (`test[2]`, `test[3]`) are "serviceaccount" and the real namespace. When no project "serviceaccount" and no such service account in it exist, the grapher then merges an AbsentProject "serviceaccount" and an AbsentServiceAccount named after the namespace, with CAN USE SCC from it to the SCC, and AbsentEnum reports both the service account and the project missing (`WhoCan.ParseHeadedUserLine`, `GrapherFacts.HeadedUserLineMerged`, `AbsentEnum.HeadedUserLineReported`).

## Model

| member | source | states |
|---|---|---|
| GraphStore.Graph.Merge | OpenShiftGrapher.py:83-87 | a merge upserts the node (or both end nodes and then the edge) by key, replacing its properties |
| GraphStore.Graph.DeleteAll | OpenShiftGrapher.py:65-68 | the reset removes every node and every relationship |
| GraphStore.Idempotent | OpenShiftGrapher.py:83-87 | repeating any sequence of merges leaves the graph as the first application left it |
| GraphStore.ApplyAllWrites | OpenShiftGrapher.py:83-87 | merging only adds: the node and edge keys afterwards are those before plus those written |
| Text.Split | OpenShiftGrapher.py:149-151 | `str.split(sep)` yields at least one part, no part contains the separator, and joining the parts with it gives the input back |
| Text.SplitJoin | OpenShiftGrapher.py:151-151 | splitting separator-free parts joined by the separator gives the parts back |
| Text.ContainsAt | OpenShiftGrapher.py:150-150 | `pat in s` holds exactly when `pat` occurs at some index of `s` |
| WhoCan.ParseLine | OpenShiftGrapher.py:149-153 | a line is ignored exactly when it lacks `system:serviceaccount:`; a used line yields colon-free namespace and name |
| WhoCan.ParseUserLine | OpenShiftGrapher.py:150-153 | an indented `system:serviceaccount:<ns>:<name>` line yields that namespace and name |
| WhoCan.ParseHeadedUserLine | OpenShiftGrapher.py:150-153 | a line with a `:`-terminated heading before the user shifts the fields: the namespace read is "serviceaccount" and the name read is the real namespace |
| Objects.ResolveRole | OpenShiftGrapher.py:245-270 | a roleRef resolves exactly when the ClusterRole exists by name, or the Role exists in the binding's own namespace, and then to exactly the object stored under that name or (namespace, name) |
| Rules.RuleOpsWrites | OpenShiftGrapher.py:273-313 | one rule writes exactly one edge per (resource, verb) when it names API groups, plus one per (URL, verb), and only their end nodes |
| Rules.RulesOpsEdges | OpenShiftGrapher.py:272-313 | all rules of a role write exactly the union of their rules' edges |
| Rules.RulesOpsAnchored | OpenShiftGrapher.py:272-313 | every node the rule expansion writes is an end of an edge it writes |
| Rules.ApiGroupIgnored | OpenShiftGrapher.py:278-284 | the merges for one API group are the same as for any other: the group never reaches a node identity |
| Rules.ApiGroupOpsLength | OpenShiftGrapher.py:274-297 | the resource part of a rule makes three merges per (apiGroup, resource, verb), with nothing deduplicated |
| Rules.ImpersonateRenamed | OpenShiftGrapher.py:291-309 | `impersonate` on a resource becomes an `impers` edge and never an `impersonate` edge; on a non-resource URL it stays `impersonate`; other verbs are kept |
| GrapherFacts.ProjectResolution | OpenShiftGrapher.py:166-175 | a project that resolves is keyed by its uid; one that does not is an AbsentProject keyed by the namespace |
| GrapherFacts.AbsentServiceAccountCollapse | OpenShiftGrapher.py:155-164 | a missing service account is keyed by its name alone, so the same name missing in two namespaces is one node |
| GrapherFacts.ProjectStageWrites | OpenShiftGrapher.py:79-87 | the Project stage writes one Project node per project, keyed by uid, and no edge |
| GrapherFacts.SccStageWrites | OpenShiftGrapher.py:128-136 | the SCC stage writes one SCC node per SCC and no edge |
| GrapherFacts.RoleStageWrites | OpenShiftGrapher.py:198-206 | the Role stage writes one Role node per role and no edge |
| GrapherFacts.ClusterRoleStageWrites | OpenShiftGrapher.py:217-225 | the ClusterRole stage writes one ClusterRole node per cluster role and no edge |
| GrapherFacts.ServiceAccountStageOutcome | OpenShiftGrapher.py:98-117 | the ServiceAccount stage completes exactly when every namespace resolves, and otherwise stops at the first one that does not |
| GrapherFacts.ServiceAccountStageWrites | OpenShiftGrapher.py:98-117 | a completed ServiceAccount stage writes one CONTAIN SA edge per service account from its project, and no other node |
| GrapherFacts.SccUserOpsWrites | OpenShiftGrapher.py:177-187 | one SCC user writes its project, itself and the SCC but only the CAN USE SCC edge, so the project node is the end of no edge |
| GrapherFacts.SccLinesOutcome | OpenShiftGrapher.py:149-153 | reading one SCC's output completes exactly when no marked line is short of fields, and otherwise stops at the first such line |
| GrapherFacts.SccLinesWrites | OpenShiftGrapher.py:149-187 | one SCC's output writes only CAN USE SCC edges, and when it completes exactly one per service-account line |
| GrapherFacts.SccBindingStageOutcome | OpenShiftGrapher.py:144-153 | the SCC binding stage completes exactly when every `who-can` command succeeds with well-formed output |
| GrapherFacts.HeadedUserLineMerged | OpenShiftGrapher.py:149-187 | a `Users:`-headed line merges an AbsentProject "serviceaccount", an AbsentServiceAccount named after the real namespace and the SCC, with CAN USE SCC from that absent service account |
| GrapherFacts.SccBindingStageWrites | OpenShiftGrapher.py:144-187 | a completed SCC binding stage writes exactly the CAN USE SCC edges named by the service-account lines of every SCC's `who-can` output |
| GrapherFacts.SccBindingStageShape | OpenShiftGrapher.py:177-187 | the SCC binding stage never writes CONTAIN SA, and no project node it writes is the end of an edge it writes |
| GrapherFacts.SubjectOpsWrites | OpenShiftGrapher.py:321-353 | a service-account subject with a namespace gets CONTAIN SA from its project and the has-role edge to the role; any other subject gets nothing |
| GrapherFacts.SubjectsOpsWrites | OpenShiftGrapher.py:315-353 | the subjects of a binding write exactly the union of their edges, and only their end nodes |
| GrapherFacts.BindingOpsWrites | OpenShiftGrapher.py:236-353 | a binding writes nothing when its roleRef does not resolve, and otherwise exactly its role's rule edges plus its subjects' edges |
| GrapherFacts.BindingStageWrites | OpenShiftGrapher.py:236-481 | the RoleBinding stage and the ClusterRoleBinding stage each write exactly the edges of all their bindings, and every node they write is an end of one of them |
| GrapherFacts.UnresolvedBindingSkipped | OpenShiftGrapher.py:248-266 | a binding whose roleRef lookup fails leaves the graph unchanged |
| GrapherFacts.SubjectEdgeProps | OpenShiftGrapher.py:239-352 | for a binding whose roleRef resolves and a service-account subject, the has-role edge carries that binding's own description, which is "" exactly when the binding has none or an empty one, and the CONTAIN SA edge carries no property |
| GrapherFacts.BindingGrantsSubject | OpenShiftGrapher.py:315-353 | a resolving binding merges, for each of its service-account subjects, CONTAIN SA from the subject's project and the has-role edge to the role with the binding's description |
| GrapherFacts.RouteOpsWrites | OpenShiftGrapher.py:505-525 | a route writes its project (or absent project), itself and the CONTAIN ROUTE edge between them |
| GrapherFacts.RouteNodeProps | OpenShiftGrapher.py:499-518 | a merged route node holds the target port, or "any" without one; host and path are properties only when set |
| GrapherFacts.RouteStageWrites | OpenShiftGrapher.py:492-525 | the Route stage writes one CONTAIN ROUTE edge per route, and only their end nodes |
| GrapherFacts.PassIdempotent | OpenShiftGrapher.py:79-525 | running the grapher twice over the same cluster leaves the graph as one run left it |
| GrapherFacts.PassOutcome | OpenShiftGrapher.py:98-153 | a run completes exactly when the selected ServiceAccount and SCC stages find every namespace and `who-can` output they need |
| Grapher.MergeProjects | OpenShiftGrapher.py:79-87 | the loop performs exactly the Project stage's merges |
| Grapher.MergeServiceAccounts | OpenShiftGrapher.py:98-117 | the loop performs the ServiceAccount stage's merges and stops as it does |
| Grapher.MergeSccs | OpenShiftGrapher.py:128-136 | the loop performs exactly the SCC stage's merges |
| Grapher.MergeSccUser | OpenShiftGrapher.py:155-187 | one service-account line performs exactly the merges of its project, itself, the SCC and CAN USE SCC |
| Grapher.MergeSccUsers | OpenShiftGrapher.py:149-187 | the loop over one SCC's output lines performs its merges and stops as specified |
| Grapher.MergeSccBindings | OpenShiftGrapher.py:144-187 | the loop over SCCs performs the SCC binding stage's merges and stops as specified |
| Grapher.MergeRoles | OpenShiftGrapher.py:198-206 | the loop performs exactly the Role stage's merges |
| Grapher.MergeClusterRoles | OpenShiftGrapher.py:217-225 | the loop performs exactly the ClusterRole stage's merges |
| Grapher.MergeResourceVerbs | OpenShiftGrapher.py:277-297 | the verb loop under one resource performs exactly its three merges per verb, `impersonate` typed `impers` |
| Grapher.MergeResources | OpenShiftGrapher.py:276-297 | the resource loop under one API group performs exactly its merges |
| Grapher.MergeResourceRule | OpenShiftGrapher.py:274-297 | the apiGroup, resource and verb loops perform exactly the resource part of a rule |
| Grapher.MergeUrlVerbs | OpenShiftGrapher.py:302-313 | the verb loop under one URL performs exactly its three merges per verb |
| Grapher.MergeUrlRule | OpenShiftGrapher.py:300-313 | the URL and verb loops perform exactly the non-resource part of a rule |
| Grapher.MergeRules | OpenShiftGrapher.py:272-313 | the loop over a role's rules performs exactly its rule expansion |
| Grapher.MergeSubjects | OpenShiftGrapher.py:315-353 | the loop over a binding's subjects performs exactly their merges |
| Grapher.MergeBinding | OpenShiftGrapher.py:237-353 | one binding performs its merges, or none when its roleRef does not resolve |
| Grapher.MergeBindings | OpenShiftGrapher.py:236-353 | the loop over bindings performs exactly the binding stage's merges |
| Grapher.MergeRoutes | OpenShiftGrapher.py:492-525 | the loop performs exactly the Route stage's merges |
| Grapher.MergeIdentities | OpenShiftGrapher.py:79-187 | the project, service account and SCC stages run in order when selected and stop at the first uncaught exception |
| Grapher.MergeGrants | OpenShiftGrapher.py:198-525 | the role, cluster role, binding and route stages run in order when selected, RoleBindings under "role" and ClusterRoleBindings under "clusterrole" |
| Grapher.Run | OpenShiftGrapher.py:65-525 | with `-r` and any reply but "y" the script exits leaving the graph untouched; with "y" the graph is emptied first; then the selected stages run in the script's order and leave the graph as the whole-run specification says, stopping where it stops |
| AbsentEnum.CheckSubject | AbsentEnum.py:92-101 | the two lookups of a subject, each reported on its own, `[o]` before `[+]` |
| AbsentEnum.EnumerateSccUsers | AbsentEnum.py:86-101 | the loop over one SCC's output lines appends exactly its reports and stops as specified |
| AbsentEnum.EnumerateSccs | AbsentEnum.py:81-101 | the loop over SCCs appends exactly the SCC stage's reports and stops as specified |
| AbsentEnum.EnumerateSubjects | AbsentEnum.py:143-160 | the loop over one binding's subjects checks exactly the service accounts with a namespace, in order |
| AbsentEnum.EnumerateBindings | AbsentEnum.py:130-160 | the loop over bindings appends exactly the binding stage's reports, attributed to each roleRef name |
| AbsentEnum.Enumerate | AbsentEnum.py:81-202 | the enumerator produces exactly the specified reports and outcome |
| AbsentEnum.CollectorEnablesAll | AbsentEnum.py:32-32 | the fixed collector "all" enables every stage |
| AbsentEnum.AllReportsOrder | AbsentEnum.py:81-202 | the reports come from the SCCs, then the RoleBindings, then the ClusterRoleBindings; a stopped SCC stage ends the run |
| AbsentEnum.SubjectReportsSpec | AbsentEnum.py:92-101 | `[o]` exactly when the service account is missing and `[+]` exactly when the project is missing, independently, `[o]` first, each naming the subject and its owner |
| AbsentEnum.ReportsMatchAbsentNodes | AbsentEnum.py:150-160 | a subject is reported missing exactly when the grapher would fall back to an absent node for it |
| AbsentEnum.BindingsReportsMembership | AbsentEnum.py:143-160 | a binding stage reports exactly what its service-account subjects with a namespace report, attributed to the roleRef name |
| AbsentEnum.RoleRefNeverResolved | AbsentEnum.py:139-140 | the reports do not depend on which Roles and ClusterRoles exist |
| AbsentEnum.SccLinesReportsMembership | AbsentEnum.py:86-101 | one SCC's output reports exactly the subject reports of its service-account lines that come before the first short marked line |
| AbsentEnum.SccReportsMembership | AbsentEnum.py:81-101 | the SCC stage reports exactly the line reports of each SCC reached before the first failed `who-can` or short line |
| AbsentEnum.HeadedUserLineReported | AbsentEnum.py:86-101 | a `Users:`-headed line reports the service account "<namespace>" in project "serviceaccount" missing, then the project "serviceaccount" missing |
| AbsentEnum.SccSameOutcome | AbsentEnum.py:81-90 | the enumerator stops on the same `who-can` failure or short line as the grapher |
| AbsentEnum.AllReportsComplete | AbsentEnum.py:81-90 | the enumerator runs to the end exactly when every SCC's `who-can` output is available and well formed |

## Left out

- Argument parsing, client and TLS setup, the Neo4j connection and transaction begin/commit are configuration and I/O. A run starts from a given `Graph`; the `-r` flag and the reply typed at the reset prompt are parameters of `Grapher.Run`.
- The `oc adm policy who-can` subprocess is an input: its standard output per SCC name, or no entry when the command fails.
- The dynamic-client `get` and listing calls are partial maps and sequences in `Objects.Cluster`. Any exception a lookup raises is a missing key.
- `roleRef.kind` is restricted to Role and ClusterRole, which is all the API server admits. The script's fall-through for any other kind, which reuses the previous iteration's role, is not modelled.
- A rule list the object leaves out is read as empty. The script would raise on an absent `resources` or `verbs` under a non-empty `apiGroups`. The API server rejects such rules, so that crash is not modelled.
- A subject with no namespace is modelled with namespace "". The script treats that the same way, since both are falsy.
- GrapherSpec.RouteNode: a route whose `spec.port` is set but has no `targetPort` is modelled as having no port ("any"). The script would store no `port` property in that case; the API requires `targetPort` whenever `port` is set.
- GrapherSpec.RouteNode: `targetPort` is an int or a string in the route object, and the script stores a numeric port as an integer property. The model keeps every property as a string, so a port 8080 and a port "8080" are the same here.
- The neo4j behaviour of binding a merged node to an existing one is not modelled separately. A merge replaces the properties of the keyed node, which is what the script's merges observe.
- The printed progress headings and the exact wording of AbsentEnum's report lines are left out. Reports are tagged records.
- The commented-out Pod, Secret and "all resources" code is not part of this model.
