// The compound tree of a rendered view: the groups synthesised above the real
// nodes, and why every parent link lands on a node of the body.
module CompoundTree {
  import opened Common
  import opened Figures
  import opened Graphs
  import opened Decimal
  import opened Matchers
  import Projection

  // A synthesised group, by the names that identify it.
  datatype Group =
    | ClusterGroup(cluster: string)
    | StorageGroup(ontapCluster: string)
    | NamespaceGroup(cluster: string, ns: string)
    | ApplicationGroup(cluster: string, ns: string, app: string)
    | ControllerGroup(cluster: string, ns: string, app: string, kind: string, name: string)

  // ---- ids ----

  function ClusterParentID(cluster: string): string {
    "cluster/" + cluster
  }

  function StorageClusterParentID(oc: string): string {
    "storage-cluster/" + oc
  }

  function NamespaceParentID(cluster: string, ns: string): string {
    cluster + "/namespace/" + ns
  }

  function ApplicationParentID(cluster: string, ns: string, app: string): string {
    NamespaceParentID(cluster, ns) + "/application/" + app
  }

  function ControllerParentID(cluster: string, ns: string, app: string, kind: string, name: string): string {
    (if app != "" then ApplicationParentID(cluster, ns, app) else NamespaceParentID(cluster, ns))
    + "/controller/" + kind + "/" + name
  }

  function GroupID(g: Group): string {
    match g
    case ClusterGroup(c) => ClusterParentID(c)
    case StorageGroup(oc) => StorageClusterParentID(oc)
    case NamespaceGroup(c, ns) => NamespaceParentID(c, ns)
    case ApplicationGroup(c, ns, app) => ApplicationParentID(c, ns, app)
    case ControllerGroup(c, ns, app, kind, name) => ControllerParentID(c, ns, app, kind, name)
  }

  // The segments a group id is made of.
  function Segments(g: Group): seq<string> {
    match g
    case ClusterGroup(c) => ["cluster", c]
    case StorageGroup(oc) => ["storage-cluster", oc]
    case NamespaceGroup(c, ns) => [c, "namespace", ns]
    case ApplicationGroup(c, ns, app) => [c, "namespace", ns, "application", app]
    case ControllerGroup(c, ns, app, kind, name) =>
      if app != "" then [c, "namespace", ns, "application", app, "controller", kind, name]
      else [c, "namespace", ns, "controller", kind, name]
  }

  ghost predicate NoSlash(segs: seq<string>) {
    forall i :: 0 <= i < |segs| ==> '/' !in segs[i]
  }

  lemma {:induction false} JoinInjective(a: seq<string>, b: seq<string>)
    requires a != [] && b != [] && NoSlash(a) && NoSlash(b) && Join(a, "/") == Join(b, "/")
    ensures a == b
  {
    if |a| == 1 || |b| == 1 {
      JoinHasSlash(a);
      JoinHasSlash(b);
      assert a == [a[0]] + a[1..] && b == [b[0]] + b[1..];
    } else {
      var ra, rb := Join(a[1..], "/"), Join(b[1..], "/");
      assert Join(a, "/") == a[0] + ['/'] + ra && Join(b, "/") == b[0] + ['/'] + rb;
      SplitAtFirst(a[0], ra, b[0], rb, '/');
      JoinInjective(a[1..], b[1..]);
      assert a == [a[0]] + a[1..] && b == [b[0]] + b[1..];
    }
  }

  lemma JoinHasSlash(a: seq<string>)
    requires a != [] && NoSlash(a)
    ensures |a| == 1 <==> '/' !in Join(a, "/")
  {
    if |a| > 1 {
      assert Join(a, "/")[|a[0]|] == '/';
    }
  }

  lemma Join2(a: string, b: string)
    ensures Join([a, b], "/") == a + "/" + b
  {
    assert [a, b][1..] == [b];
  }

  lemma {:induction false} JoinMore(a: seq<string>, s: string)
    requires a != []
    ensures Join(a + [s], "/") == Join(a, "/") + "/" + s
  {
    if |a| == 1 {
      assert a + [s] == [a[0], s];
      Join2(a[0], s);
    } else {
      assert (a + [s])[1..] == a[1..] + [s];
      JoinMore(a[1..], s);
    }
  }

  lemma {:induction false} NamespaceSegments(c: string, ns: string)
    ensures NamespaceParentID(c, ns) == Join([c, "namespace", ns], "/")
  {
    hide Join;
    Join2(c, "namespace");
    JoinMore([c, "namespace"], ns);
    assert [c, "namespace"] + [ns] == [c, "namespace", ns];
    assert "/namespace/" == "/" + "namespace" + "/";
  }

  lemma {:induction false} ApplicationSegments(c: string, ns: string, app: string)
    ensures ApplicationParentID(c, ns, app) == Join([c, "namespace", ns, "application", app], "/")
  {
    hide Join, NamespaceParentID;
    NamespaceSegments(c, ns);
    var base := [c, "namespace", ns];
    JoinMore(base, "application");
    JoinMore(base + ["application"], app);
    assert base + ["application"] + [app] == [c, "namespace", ns, "application", app];
    assert "/application/" == "/" + "application" + "/";
  }

  lemma {:induction false} UnderController(base: seq<string>, kind: string, name: string)
    requires base != []
    ensures Join(base, "/") + "/controller/" + kind + "/" + name == Join(base + ["controller", kind, name], "/")
  {
    hide Join;
    JoinMore(base, "controller");
    JoinMore(base + ["controller"], kind);
    JoinMore(base + ["controller"] + [kind], name);
    assert base + ["controller"] + [kind] + [name] == base + ["controller", kind, name];
    assert "/controller/" == "/" + "controller" + "/";
  }

  lemma {:induction false} IDIsSegments(g: Group)
    ensures GroupID(g) == Join(Segments(g), "/")
  {
    hide Join, ApplicationParentID, NamespaceParentID;
    match g
    case ClusterGroup(c) =>
      Join2("cluster", c);
      assert "cluster/" == "cluster" + "/";
    case StorageGroup(oc) =>
      Join2("storage-cluster", oc);
      assert "storage-cluster/" == "storage-cluster" + "/";
    case NamespaceGroup(c, ns) => NamespaceSegments(c, ns);
    case ApplicationGroup(c, ns, app) => ApplicationSegments(c, ns, app);
    case ControllerGroup(c, ns, app, kind, name) =>
      NamespaceSegments(c, ns);
      ApplicationSegments(c, ns, app);
      var base := if app != "" then [c, "namespace", ns, "application", app] else [c, "namespace", ns];
      UnderController(base, kind, name);
      assert base + ["controller", kind, name] == Segments(g);
  }

  // Groups of different keys never share an id, as long as no name holds a slash.
  lemma {:induction false} GroupIDsDistinct(a: Group, b: Group)
    requires NoSlash(Segments(a)) && NoSlash(Segments(b)) && GroupID(a) == GroupID(b)
    ensures a == b
  {
    hide GroupID, Join;
    IDIsSegments(a);
    IDIsSegments(b);
    JoinInjective(Segments(a), Segments(b));
    SegmentsDistinct(a, b);
  }

  lemma SegmentsDistinct(a: Group, b: Group)
    requires Segments(a) == Segments(b)
    ensures a == b
  {
    var s, t := Segments(a), Segments(b);
    assert |s| == |t| && forall i :: 0 <= i < |s| ==> s[i] == t[i];
    assert |"cluster"| != |"storage-cluster"|;
  }

  // ---- which groups a node brings ----

  predicate Placed(n: Node) {
    Label(n.labels, "cluster") != "" && Label(n.labels, "namespace") != ""
  }

  function GroupsOf(n: Node): set<Group> {
    var c, oc, ns := Label(n.labels, "cluster"), Label(n.labels, "ontap_cluster"), Label(n.labels, "namespace");
    var grouped := n.kind == Pod || n.kind == Service || n.kind == PVC;
    (if c != "" then {ClusterGroup(c)} else {})
    + (if oc != "" then {StorageGroup(oc)} else {})
    + (if grouped && Placed(n) then {NamespaceGroup(c, ns)} else {})
    + (if grouped && Placed(n) && n.application != "" then {ApplicationGroup(c, ns, n.application)} else {})
    + (if n.kind == Pod && Placed(n) && n.owner.Some?
       then {ControllerGroup(c, ns, n.application, n.owner.value.kind, n.owner.value.name)} else {})
  }

  function ParentGroup(g: Group): Option<Group> {
    match g
    case ClusterGroup(_) => None
    case StorageGroup(_) => None
    case NamespaceGroup(c, _) => Some(ClusterGroup(c))
    case ApplicationGroup(c, ns, _) => Some(NamespaceGroup(c, ns))
    case ControllerGroup(c, ns, app, _, _) =>
      Some(if app != "" then ApplicationGroup(c, ns, app) else NamespaceGroup(c, ns))
  }

  // compoundParent: the id of a real node's parent, or none.
  function CompoundParent(n: Node): string {
    var c, ns, oc := Label(n.labels, "cluster"), Label(n.labels, "namespace"), Label(n.labels, "ontap_cluster");
    var fallback := if c != "" then ClusterParentID(c) else "";
    match n.kind
    case Pod =>
      if !Placed(n) then fallback
      else if n.owner.Some? then ControllerParentID(c, ns, n.application, n.owner.value.kind, n.owner.value.name)
      else if n.application != "" then ApplicationParentID(c, ns, n.application)
      else NamespaceParentID(c, ns)
    case Service =>
      if !Placed(n) then fallback
      else if n.application != "" then ApplicationParentID(c, ns, n.application)
      else NamespaceParentID(c, ns)
    case PVC =>
      if !Placed(n) then fallback
      else if n.application != "" then ApplicationParentID(c, ns, n.application)
      else NamespaceParentID(c, ns)
    case NetAppNode => if oc != "" then StorageClusterParentID(oc) else ""
    case NetAppSVM => if oc != "" then StorageClusterParentID(oc) else ""
    case NetAppAggr =>
      if oc == "" then ""
      else if Label(n.labels, "node") != "" then NetAppNodeID(oc, Label(n.labels, "node"))
      else StorageClusterParentID(oc)
    case _ => fallback
  }

  // The group directly above a node, unless a real controller or nothing is.
  function GroupAbove(n: Node): Option<Group> {
    var c, ns, oc := Label(n.labels, "cluster"), Label(n.labels, "namespace"), Label(n.labels, "ontap_cluster");
    if IsNetApp(n.kind) then
      if oc == "" || OwnerID(n) != "" then None else Some(StorageGroup(oc))
    else if !(n.kind == Pod || n.kind == Service || n.kind == PVC) || !Placed(n) then
      if c == "" then None else Some(ClusterGroup(c))
    else if n.kind == Pod && n.owner.Some? then
      Some(ControllerGroup(c, ns, n.application, n.owner.value.kind, n.owner.value.name))
    else if n.application != "" then Some(ApplicationGroup(c, ns, n.application))
    else Some(NamespaceGroup(c, ns))
  }

  predicate IsNetApp(k: Kind) {
    k == NetAppAggr || k == NetAppNode || k == NetAppSVM
  }

  // ---- the body ----

  datatype BodyNode = Real(node: Node) | Synthetic(group: Group)

  function IdOf(b: BodyNode): string {
    match b
    case Real(n) => n.id
    case Synthetic(g) => GroupID(g)
  }

  function ParentOf(b: BodyNode): string {
    match b
    case Real(n) => CompoundParent(n)
    case Synthetic(g) => if ParentGroup(g).Some? then GroupID(ParentGroup(g).value) else ""
  }

  function Groups(nodes: seq<Node>): set<Group> {
    if nodes == [] then {} else Groups(nodes[..|nodes| - 1]) + GroupsOf(nodes[|nodes| - 1])
  }

  // What one node adds to the five seen-sets.
  method SeenAt(n: Node) returns (clusters: set<Group>, storage: set<Group>, namespaces: set<Group>, apps: set<Group>, ctrls: set<Group>)
    ensures clusters + storage + namespaces + apps + ctrls == GroupsOf(n)
  {
    hide Label;
    clusters, storage, namespaces, apps, ctrls := {}, {}, {}, {}, {};
    var c, oc, ns := Label(n.labels, "cluster"), Label(n.labels, "ontap_cluster"), Label(n.labels, "namespace");
    if c != "" {
      clusters := {ClusterGroup(c)};
    }
    if oc != "" {
      storage := {StorageGroup(oc)};
    }
    if !(n.kind == Pod || n.kind == Service || n.kind == PVC) || c == "" || ns == "" {
      return;
    }
    namespaces := {NamespaceGroup(c, ns)};
    if n.application != "" {
      apps := {ApplicationGroup(c, ns, n.application)};
    }
    if n.kind == Pod && n.owner.Some? {
      ctrls := {ControllerGroup(c, ns, n.application, n.owner.value.kind, n.owner.value.name)};
    }
  }

  // Five seen-sets filled in one pass over the view.
  method CollectGroups(nodes: seq<Node>) returns (groups: set<Group>)
    ensures groups == Groups(nodes)
  {
    hide GroupsOf;
    var clusters, storage, namespaces, apps, ctrls: set<Group> := {}, {}, {}, {}, {};
    for i := 0 to |nodes|
      invariant clusters + storage + namespaces + apps + ctrls == Groups(nodes[..i])
    {
      assert nodes[..i + 1][..i] == nodes[..i];
      var c, s, n, a, k := SeenAt(nodes[i]);
      clusters, storage, namespaces, apps, ctrls := clusters + c, storage + s, namespaces + n, apps + a, ctrls + k;
    }
    assert nodes[..|nodes|] == nodes;
    groups := clusters + storage + namespaces + apps + ctrls;
  }

  ghost predicate InBody(nodes: seq<Node>, b: BodyNode) {
    match b
    case Real(n) => n in nodes
    case Synthetic(g) => g in Groups(nodes)
  }

  lemma {:induction false} GroupsMembers(nodes: seq<Node>, g: Group)
    ensures g in Groups(nodes) <==> exists i :: 0 <= i < |nodes| && g in GroupsOf(nodes[i])
  {
    hide GroupsOf;
    if nodes != [] {
      var init := nodes[..|nodes| - 1];
      GroupsMembers(init, g);
      assert forall i :: 0 <= i < |init| ==> init[i] == nodes[i];
      if g in Groups(init) {
        var i :| 0 <= i < |init| && g in GroupsOf(init[i]);
        assert g in GroupsOf(nodes[i]);
      }
    }
  }

  // A group brings its own parent along.
  lemma {:induction false} GroupsClosed(n: Node, g: Group)
    requires g in GroupsOf(n) && ParentGroup(g).Some?
    ensures ParentGroup(g).value in GroupsOf(n)
  {
    hide Label;
  }

  lemma {:induction false} GroupAboveIs(n: Node)
    ensures GroupAbove(n).Some? ==> GroupAbove(n).value in GroupsOf(n) && CompoundParent(n) == GroupID(GroupAbove(n).value)
    ensures GroupAbove(n).None? ==> CompoundParent(n) == OwnerID(n)
  {
    hide Label, ControllerParentID, ApplicationParentID, NamespaceParentID, StorageClusterParentID, ClusterParentID;
    assert forall oc, node :: |NetAppNodeID(oc, node)| > 0;
  }

  // Every aggregate that names an owner finds it among the nodes.
  ghost predicate ControllersHeld(nodes: seq<Node>) {
    forall i :: 0 <= i < |nodes| && OwnerID(nodes[i]) != "" ==>
      exists j :: 0 <= j < |nodes| && nodes[j].id == OwnerID(nodes[i]) && nodes[j].kind == NetAppNode
  }

  // How deep a body node may sit.
  function Rank(b: BodyNode): nat {
    match b
    case Synthetic(ClusterGroup(_)) => 0
    case Synthetic(StorageGroup(_)) => 0
    case Synthetic(NamespaceGroup(_, _)) => 1
    case Synthetic(ApplicationGroup(_, _, _)) => 2
    case Synthetic(ControllerGroup(_, _, _, _, _)) => 3
    case Real(n) => if n.kind == NetAppNode then 1 else 4
  }

  // Every parent named in the body is a node of the body, and sits higher.
  lemma {:induction false} ParentsInBody(nodes: seq<Node>, b: BodyNode)
    requires ControllersHeld(nodes) && InBody(nodes, b) && ParentOf(b) != ""
    ensures exists p: BodyNode :: InBody(nodes, p) && IdOf(p) == ParentOf(b) && Rank(p) < Rank(b)
  {
    hide GroupsOf, GroupID, CompoundParent, OwnerID, Groups;
    match b
    case Synthetic(g) =>
      GroupsMembers(nodes, g);
      var i :| 0 <= i < |nodes| && g in GroupsOf(nodes[i]);
      GroupsClosed(nodes[i], g);
      GroupsMembers(nodes, ParentGroup(g).value);
      var p := Synthetic(ParentGroup(g).value);
      assert InBody(nodes, p) && IdOf(p) == ParentOf(b) && Rank(p) < Rank(b);
    case Real(n) =>
      var i :| 0 <= i < |nodes| && nodes[i] == n;
      GroupAboveIs(n);
      if GroupAbove(n).Some? {
        GroupsMembers(nodes, GroupAbove(n).value);
        var p := Synthetic(GroupAbove(n).value);
        AboveRank(n);
        assert InBody(nodes, p) && IdOf(p) == ParentOf(b) && Rank(p) < Rank(b);
      } else {
        var j :| 0 <= j < |nodes| && nodes[j].id == OwnerID(n) && nodes[j].kind == NetAppNode;
        var p := Real(nodes[j]);
        OwnedIsAggr(n);
        assert InBody(nodes, p) && IdOf(p) == ParentOf(b) && Rank(p) < Rank(b);
      }
  }

  lemma AboveRank(n: Node)
    requires GroupAbove(n).Some?
    ensures Rank(Synthetic(GroupAbove(n).value)) < Rank(Real(n))
  {
    hide Label;
  }

  lemma OwnedIsAggr(n: Node)
    requires OwnerID(n) != ""
    ensures n.kind == NetAppAggr
  {
    hide Label;
  }

  // ---- no empty group ----

  // g is b or above it, following parents within the body.
  ghost predicate Above(g: Group, h: Group) {
    g == h
    || (ParentGroup(h).Some? && (g == ParentGroup(h).value || (ParentGroup(ParentGroup(h).value).Some? &&
         (g == ParentGroup(ParentGroup(h).value).value || ParentGroup(ParentGroup(ParentGroup(h).value).value) == Some(g)))))
  }

  // NetApp nodes belong to no Kubernetes cluster and nothing else to a filer;
  // an aggregate's controller belongs to the aggregate's own filer.
  ghost predicate LabelsTyped(nodes: seq<Node>) {
    && (forall i :: 0 <= i < |nodes| ==>
          if IsNetApp(nodes[i].kind) then Label(nodes[i].labels, "cluster") == "" else Label(nodes[i].labels, "ontap_cluster") == "")
    && (forall i, j :: 0 <= i < |nodes| && 0 <= j < |nodes| && nodes[j].kind == NetAppNode && nodes[j].id == OwnerID(nodes[i]) ==>
          Label(nodes[j].labels, "ontap_cluster") == Label(nodes[i].labels, "ontap_cluster"))
  }

  lemma {:induction false} BroughtIsAbove(n: Node, g: Group)
    requires g in GroupsOf(n)
    requires if IsNetApp(n.kind) then Label(n.labels, "cluster") == "" else Label(n.labels, "ontap_cluster") == ""
    ensures GroupAbove(n).Some? ==> Above(g, GroupAbove(n).value)
    ensures GroupAbove(n).None? ==> g == StorageGroup(Label(n.labels, "ontap_cluster")) && OwnerID(n) != ""
  {
    hide Label, NetAppNodeID;
    if n.kind == NetAppAggr { AggrOwner(n); }
  }

  lemma AggrOwner(n: Node)
    ensures Label(n.labels, "ontap_cluster") == "" ==> OwnerID(n) == ""
  {
  }

  // Every synthesised group has a real node below it: directly, through the
  // groups between, or through the controller of an aggregate.
  lemma {:induction false} GroupsHaveNodes(nodes: seq<Node>, g: Group)
    requires ControllersHeld(nodes) && LabelsTyped(nodes) && g in Groups(nodes)
    ensures exists n :: n in nodes && GroupAbove(n).Some? && Above(g, GroupAbove(n).value)
  {
    hide GroupsOf, OwnerID, GroupAbove, Above, Groups;
    GroupsMembers(nodes, g);
    var i :| 0 <= i < |nodes| && g in GroupsOf(nodes[i]);
    BroughtIsAbove(nodes[i], g);
    if GroupAbove(nodes[i]).Some? {
      assert nodes[i] in nodes;
    } else {
      var j :| 0 <= j < |nodes| && nodes[j].id == OwnerID(nodes[i]) && nodes[j].kind == NetAppNode;
      assert Label(nodes[j].labels, "ontap_cluster") == Label(nodes[i].labels, "ontap_cluster");
      ControllerAbove(nodes[i], nodes[j]);
      assert nodes[j] in nodes;
    }
  }

  lemma ControllerAbove(aggr: Node, ctrl: Node)
    requires OwnerID(aggr) != "" && ctrl.kind == NetAppNode
    requires Label(ctrl.labels, "ontap_cluster") == Label(aggr.labels, "ontap_cluster")
    ensures GroupAbove(ctrl) == Some(StorageGroup(Label(aggr.labels, "ontap_cluster")))
    ensures Above(StorageGroup(Label(aggr.labels, "ontap_cluster")), GroupAbove(ctrl).value)
  {
    hide Label, NetAppNodeID;
  }

  // ---- over a projected view ----

  ghost predicate Lists(nodes: seq<Node>, view: Projection.View) {
    forall n :: n in nodes <==> exists id :: id in view.nodes && view.nodes[id] == n
  }

  // Every labelled controller of the graph is loaded, and is a controller.
  ghost predicate HoldsControllers(g: Graph) {
    forall id :: id in g.nodes && OwnerID(g.nodes[id]) != "" ==>
      OwnerID(g.nodes[id]) in g.nodes && g.nodes[OwnerID(g.nodes[id])].kind == NetAppNode
  }

  lemma {:induction false} ViewHoldsControllers(g: Graph, scope: Projection.Scope, nodes: seq<Node>)
    requires Keyed(g) && HoldsControllers(g) && "" !in g.nodes && Lists(nodes, Projection.ViewOf(g, scope))
    ensures ControllersHeld(nodes)
  {
    hide Projection.InView, OwnerID;
    var view := Projection.ViewOf(g, scope);
    forall i | 0 <= i < |nodes| && OwnerID(nodes[i]) != ""
      ensures exists j :: 0 <= j < |nodes| && nodes[j].id == OwnerID(nodes[i]) && nodes[j].kind == NetAppNode
    {
      assert nodes[i] in nodes;
      var id :| id in view.nodes && view.nodes[id] == nodes[i];
      OwnedIsAggr(nodes[i]);
      Projection.ControllersPresent(g, scope, id);
      var ctrl := view.nodes[OwnerID(nodes[i])];
      assert ctrl in nodes;
      var j :| 0 <= j < |nodes| && nodes[j] == ctrl;
    }
  }

  // The body of a projected view never names a parent it does not hold.
  lemma {:induction false} ProjectedParentsHold(g: Graph, scope: Projection.Scope, nodes: seq<Node>, b: BodyNode)
    requires Keyed(g) && HoldsControllers(g) && "" !in g.nodes && Lists(nodes, Projection.ViewOf(g, scope))
    requires InBody(nodes, b) && ParentOf(b) != ""
    ensures exists p: BodyNode :: InBody(nodes, p) && IdOf(p) == ParentOf(b) && Rank(p) < Rank(b)
  {
    hide InBody, IdOf, ParentOf, Rank, ControllersHeld, Lists, HoldsControllers;
    ViewHoldsControllers(g, scope, nodes);
    ParentsInBody(nodes, b);
  }
}
