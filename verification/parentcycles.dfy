// When following parents of the compound tree comes back to where it began:
// exactly where a node's names spell the id of a group above it.
module ParentCycles {
  import opened Common
  import opened Graphs
  import opened Matchers
  import opened CompoundTree
  import Projection

  // ---- nodes as the build mints them ----

  predicate Plain(name: string) {
    '/' !in name
  }

  // No name that goes into an id holds a slash; an external's value may.
  ghost predicate PlainNames(n: Node) {
    && Plain(Label(n.labels, "cluster")) && Plain(Label(n.labels, "namespace")) && Plain(Label(n.labels, "ontap_cluster"))
    && (n.kind == NetAppAggr ==> Plain(Label(n.labels, "node")))
    && (n.kind != External ==> Plain(n.name))
    && Plain(n.application)
    && (n.owner.Some? ==> Plain(n.owner.value.kind) && Plain(n.owner.value.name))
  }

  // A pod's id is minted from its uid, every other from the node's name; an
  // external belongs to no cluster.
  ghost predicate Minted(n: Node) {
    var c, ns, oc := Label(n.labels, "cluster"), Label(n.labels, "namespace"), Label(n.labels, "ontap_cluster");
    match n.kind
    case Pod => exists uid :: Plain(uid) && n.id == PodID(c, uid)
    case K8sNode => n.id == K8sNodeID(c, n.name)
    case PVC => n.id == PVCID(c, ns, n.name)
    case Service => n.id == ServiceID(c, ns, n.name)
    case External => n.id == ExternalID(n.name) && n.labels == map[]
    case NetAppAggr => n.id == NetAppAggrID(oc, n.name)
    case NetAppNode => n.id == NetAppNodeID(oc, n.name)
    case NetAppSVM => n.id == NetAppSVMID(oc, n.name)
  }

  ghost predicate AllMinted(nodes: seq<Node>) {
    forall i :: 0 <= i < |nodes| ==> PlainNames(nodes[i]) && Minted(nodes[i])
  }

  // Its id is also the id of a group above it: a claim or Service called
  // "namespace" in the namespace "namespace", or a Kubernetes node called
  // "cluster", or a pod of that uid, in the cluster "cluster".
  predicate Namesake(n: Node) {
    var c, ns := Label(n.labels, "cluster"), Label(n.labels, "namespace");
    match n.kind
    case PVC => c != "" && ns == "namespace" && n.name == "namespace"
    case Service => c != "" && ns == "namespace" && n.name == "namespace"
    case K8sNode => c == "cluster" && n.name == "cluster"
    case Pod => c == "cluster" && n.id == PodID("cluster", "cluster")
    case _ => false
  }

  // ---- following parents ----

  // Each id of the chain is the parent its predecessor names.
  ghost predicate ParentChain(nodes: seq<Node>, chain: seq<BodyNode>) {
    && (forall i :: 0 <= i < |chain| ==> InBody(nodes, chain[i]))
    && forall i :: 0 <= i < |chain| - 1 ==> Links(chain[i], chain[i + 1])
  }

  ghost predicate Links(b: BodyNode, above: BodyNode) {
    ParentOf(b) != "" && IdOf(above) == ParentOf(b)
  }

  // The chain leaves an id and comes back to it.
  ghost predicate Returns(nodes: seq<Node>, chain: seq<BodyNode>) {
    |chain| > 1 && ParentChain(nodes, chain) && IdOf(chain[|chain| - 1]) == IdOf(chain[0])
  }

  // The inputs at which it does: a claim that is its own parent, the same claim
  // in an Application, whose group's parent is the claim, and a Kubernetes node.
  lemma {:induction false} ClaimAboveItself(c: string, app: string)
    requires c != ""
    ensures var n := Node(PVCID(c, "namespace", "namespace"), "namespace", PVC, map["cluster" := c, "namespace" := "namespace"], app, None);
            && Minted(n)
            && (app == "" ==> CompoundParent(n) == n.id)
            && (app != "" ==> CompoundParent(n) == ApplicationParentID(c, "namespace", app)
                              && ParentOf(Synthetic(ApplicationGroup(c, "namespace", app))) == n.id)
  {
    NamespaceNamesake(c);
  }

  lemma NamespaceNamesake(c: string)
    ensures PVCID(c, "namespace", "namespace") == ServiceID(c, "namespace", "namespace") == NamespaceParentID(c, "namespace")
  {
    assert "/namespace/" == "/" + "namespace" + "/";
  }

  lemma NodeAboveItself()
    ensures var n := Node(K8sNodeID("cluster", "cluster"), "cluster", K8sNode, map["cluster" := "cluster"], "", None);
            Minted(n) && CompoundParent(n) == n.id
  {
    ClusterNamesake();
  }

  lemma ClusterNamesake()
    ensures K8sNodeID("cluster", "cluster") == PodID("cluster", "cluster") == ClusterParentID("cluster")
  {
    assert "cluster" + "/" == "cluster/";
  }

  // ---- a namesake closes a chain ----

  // The group and all above it, innermost first.
  function UpFrom(g: Group): (up: seq<BodyNode>)
    ensures up != [] && up[0] == Synthetic(g)
    decreases Rank(Synthetic(g))
  {
    if ParentGroup(g).Some? then [Synthetic(g)] + UpFrom(ParentGroup(g).value) else [Synthetic(g)]
  }

  lemma {:induction false} UpFromIsChain(nodes: seq<Node>, i: nat, g: Group)
    requires i < |nodes| && g in GroupsOf(nodes[i])
    ensures ParentChain(nodes, UpFrom(g))
    ensures forall c :: (g == ClusterGroup(c) || (!g.ClusterGroup? && !g.StorageGroup? && g.cluster == c)) ==>
                UpFrom(g)[|UpFrom(g)| - 1] == Synthetic(ClusterGroup(c))
    decreases Rank(Synthetic(g))
  {
    hide GroupsOf, GroupID, Groups, ClusterParentID, NamespaceParentID, ApplicationParentID;
    GroupsMembers(nodes, g);
    if ParentGroup(g).Some? {
      var p := ParentGroup(g).value;
      GroupsClosed(nodes[i], g);
      UpFromIsChain(nodes, i, p);
      GroupNamed(p);
      assert Links(Synthetic(g), UpFrom(p)[0]);
      ChainUnder(nodes, Synthetic(g), UpFrom(p));
    }
  }

  lemma GroupNamed(g: Group)
    ensures GroupID(g) != ""
  {
  }

  lemma ChainUnder(nodes: seq<Node>, b: BodyNode, chain: seq<BodyNode>)
    requires InBody(nodes, b) && chain != [] && ParentChain(nodes, chain) && Links(b, chain[0])
    ensures ParentChain(nodes, [b] + chain)
  {
    hide InBody, Links;
    var more := [b] + chain;
    forall i | 0 <= i < |more| ensures InBody(nodes, more[i]) {
      assert i > 0 ==> InBody(nodes, chain[i - 1]);
    }
    forall i | 0 <= i < |more| - 1 ensures Links(more[i], more[i + 1]) {
      assert i > 0 ==> Links(chain[i - 1], chain[i - 1 + 1]);
    }
  }

  lemma {:induction false} NamesakeReturns(nodes: seq<Node>, i: nat)
    requires i < |nodes| && Minted(nodes[i]) && Namesake(nodes[i])
    ensures exists chain :: Returns(nodes, chain)
  {
    hide GroupsOf, Groups, Label, GroupID;
    var n := nodes[i];
    var c := Label(n.labels, "cluster");
    GroupAboveIs(n);
    NamesakeAbove(n);
    var g := GroupAbove(n).value;
    var up := UpFrom(g);
    UpFromIsChain(nodes, i, g);
    GroupNamed(g);
    assert Links(Real(n), up[0]);
    ChainUnder(nodes, Real(n), up);
    var chain := [Real(n)] + up;
    if n.kind == PVC || n.kind == Service {
      NamespaceNamesake(c);
      if n.application == "" {
        assert Returns(nodes, chain[..2]) by { NamespaceID(c); }
      } else {
        assert UpFrom(ParentGroup(g).value)[0] == chain[2];
        assert Returns(nodes, chain[..3]) by { NamespaceID(c); }
      }
    } else {
      ClusterNamesake();
      assert chain[|chain| - 1] == Synthetic(ClusterGroup("cluster"));
      assert Returns(nodes, chain) by { ClusterID(); }
    }
  }

  lemma NamesakeAbove(n: Node)
    requires Namesake(n)
    ensures GroupAbove(n).Some?
    ensures var c := Label(n.labels, "cluster");
            if n.kind == PVC || n.kind == Service then
              GroupAbove(n).value == if n.application != "" then ApplicationGroup(c, "namespace", n.application) else NamespaceGroup(c, "namespace")
            else GroupAbove(n).value == ClusterGroup("cluster")
                 || (!GroupAbove(n).value.ClusterGroup? && !GroupAbove(n).value.StorageGroup? && GroupAbove(n).value.cluster == "cluster")
  {
    hide Label;
  }

  lemma NamespaceID(c: string)
    ensures GroupID(NamespaceGroup(c, "namespace")) == NamespaceParentID(c, "namespace")
  {
  }

  lemma ClusterID()
    ensures GroupID(ClusterGroup("cluster")) == ClusterParentID("cluster")
  {
  }

  // ---- and nothing else does ----

  // What stands after the cluster and its slash in a pod's id.
  function UidOf(n: Node): string {
    var from := |Label(n.labels, "cluster")| + 1;
    if from <= |n.id| then n.id[from..] else ""
  }

  // The segments of a node's id.
  function NodePath(n: Node): seq<string> {
    var c, ns, oc := Label(n.labels, "cluster"), Label(n.labels, "namespace"), Label(n.labels, "ontap_cluster");
    match n.kind
    case Pod => [c, UidOf(n)]
    case K8sNode => [c, n.name]
    case PVC => [c, ns, n.name]
    case Service => [c, ns, n.name]
    case External => []
    case NetAppAggr => ["netapp", oc, "aggr", n.name]
    case NetAppNode => ["netapp", oc, n.name]
    case NetAppSVM => ["netapp", oc, "svm", n.name]
  }

  function Path(b: BodyNode): seq<string> {
    match b
    case Real(n) => NodePath(n)
    case Synthetic(g) => Segments(g)
  }

  // The segments of the parent's id, where one is named.
  function ParentPath(b: BodyNode): seq<string> {
    match b
    case Real(n) =>
      if GroupAbove(n).Some? then Segments(GroupAbove(n).value)
      else ["netapp", Label(n.labels, "ontap_cluster"), Label(n.labels, "node")]
    case Synthetic(g) => if ParentGroup(g).Some? then Segments(ParentGroup(g).value) else []
  }

  lemma {:induction false} PathOfID(n: Node)
    requires PlainNames(n) && Minted(n) && n.kind != External
    ensures NodePath(n) != [] && NoSlash(NodePath(n)) && n.id == Join(NodePath(n), "/")
  {
    hide Join, Label;
    var c, ns, oc := Label(n.labels, "cluster"), Label(n.labels, "namespace"), Label(n.labels, "ontap_cluster");
    match n.kind
    case Pod =>
      var uid :| Plain(uid) && n.id == PodID(c, uid);
      assert n.id[|c| + 1..] == uid;
      Join2(c, uid);
    case K8sNode => Join2(c, n.name);
    case PVC => Join3(c, ns, n.name);
    case Service => Join3(c, ns, n.name);
    case NetAppAggr => Join4("netapp", oc, "aggr", n.name);
      assert "netapp/" == "netapp" + "/" && "/aggr/" == "/" + "aggr" + "/";
    case NetAppNode => Join3("netapp", oc, n.name);
      assert "netapp/" == "netapp" + "/";
    case NetAppSVM => Join4("netapp", oc, "svm", n.name);
      assert "netapp/" == "netapp" + "/" && "/svm/" == "/" + "svm" + "/";
  }

  lemma Join3(a: string, b: string, c: string)
    ensures Join([a, b, c], "/") == a + "/" + b + "/" + c
  {
    hide Join;
    Join2(a, b);
    JoinMore([a, b], c);
    assert [a, b] + [c] == [a, b, c];
  }

  lemma Join4(a: string, b: string, c: string, d: string)
    ensures Join([a, b, c, d], "/") == a + "/" + b + "/" + c + "/" + d
  {
    hide Join;
    Join3(a, b, c);
    JoinMore([a, b, c], d);
    assert [a, b, c] + [d] == [a, b, c, d];
  }

  // Ids are ranked by their first segment, then by where they can stand in a
  // chain; a group's id that a node may share is ranked by its own segments.
  function FirstRank(first: string): nat {
    if first == "cluster" then 0 else if first == "storage-cluster" then 1 else 2
  }

  function Height(p: seq<string>): nat
    requires p != []
  {
    if |p| == 2 then (if p[0] == "cluster" && p[1] == "cluster" then 0 else 8)
    else if |p| == 3 then (if p[1] != "namespace" then 5 else if p[2] != "namespace" then 3 else 1)
    else if |p| == 4 then 6
    else if |p| == 5 then (if p[2] != "namespace" then 4 else 2)
    else 7
  }

  function Weight(p: seq<string>): nat
    requires p != []
  {
    10 * FirstRank(p[0]) + Height(p)
  }

  lemma GroupWeighsMore(g: Group)
    requires ParentGroup(g).Some?
    ensures Segments(g) != [] && Segments(ParentGroup(g).value) != []
    ensures Weight(Segments(ParentGroup(g).value)) < Weight(Segments(g))
  {
  }

  lemma {:induction false} NodeWeighsMore(n: Node)
    requires PlainNames(n) && Minted(n) && !Namesake(n) && CompoundParent(n) != ""
    ensures NodePath(n) != [] && ParentPath(Real(n)) != [] && Weight(ParentPath(Real(n))) < Weight(NodePath(n))
  {
    hide Label, Join, GroupID;
    GroupAboveIs(n);
    NoExternalParent(n);
    if n.kind == Pod && Label(n.labels, "cluster") == "cluster" {
      assert UidOf(n) != "cluster" by {
        var uid :| Plain(uid) && n.id == PodID("cluster", uid);
        assert n.id[|"cluster"| + 1..] == uid;
      }
    }
  }

  lemma NoExternalParent(n: Node)
    requires Minted(n) && CompoundParent(n) != ""
    ensures n.kind != External
  {
  }

  lemma {:induction false} GroupPlain(n: Node, g: Group)
    requires PlainNames(n) && g in GroupsOf(n)
    ensures NoSlash(Segments(g)) && Segments(g) != []
  {
    hide Label;
  }

  // A parent link of the body, read off the segments, goes to a lighter id
  // unless a namesake makes it.
  lemma {:induction false} LinkDescends(nodes: seq<Node>, b: BodyNode)
    requires AllMinted(nodes) && InBody(nodes, b) && ParentOf(b) != ""
    requires b.Real? ==> !Namesake(b.node)
    ensures Path(b) != [] && NoSlash(Path(b)) && IdOf(b) == Join(Path(b), "/")
    ensures ParentPath(b) != [] && NoSlash(ParentPath(b)) && ParentOf(b) == Join(ParentPath(b), "/")
    ensures Weight(ParentPath(b)) < Weight(Path(b))
  {
    hide GroupsOf, Groups, Join, Segments, NodePath, Weight, GroupID, NoSlash, PlainNames, Minted;
    match b
    case Synthetic(g) =>
      GroupsMembers(nodes, g);
      var i :| 0 <= i < |nodes| && g in GroupsOf(nodes[i]);
      GroupsClosed(nodes[i], g);
      GroupPlain(nodes[i], g);
      GroupPlain(nodes[i], ParentGroup(g).value);
      IDIsSegments(g);
      IDIsSegments(ParentGroup(g).value);
      GroupWeighsMore(g);
    case Real(n) =>
      var i :| 0 <= i < |nodes| && nodes[i] == n;
      NoExternalParent(n);
      PathOfID(n);
      NodeWeighsMore(n);
      GroupAboveIs(n);
      if GroupAbove(n).Some? {
        GroupPlain(n, GroupAbove(n).value);
        IDIsSegments(GroupAbove(n).value);
      } else {
        OwnerPath(n);
      }
  }

  lemma OwnerPath(n: Node)
    requires PlainNames(n) && OwnerID(n) != ""
    ensures var p := ["netapp", Label(n.labels, "ontap_cluster"), Label(n.labels, "node")];
            NoSlash(p) && OwnerID(n) == Join(p, "/")
  {
    hide Label, Join;
    Join3("netapp", Label(n.labels, "ontap_cluster"), Label(n.labels, "node"));
    assert "netapp/" == "netapp" + "/";
  }

  ghost predicate NoNamesake(nodes: seq<Node>) {
    forall i :: 0 <= i < |nodes| ==> !Namesake(nodes[i])
  }

  lemma {:induction false} ChainDescends(nodes: seq<Node>, chain: seq<BodyNode>, i: nat)
    requires AllMinted(nodes) && NoNamesake(nodes) && ParentChain(nodes, chain) && i < |chain| - 1
    ensures Path(chain[0]) != [] && Path(chain[i]) != [] && Weight(Path(chain[i])) <= Weight(Path(chain[0]))
  {
    hide AllMinted, InBody, ParentOf, IdOf, Path, ParentPath, Weight, NoSlash, Join;
    assert Links(chain[i], chain[i + 1]);
    BodyNotNamesake(nodes, chain[i]);
    LinkDescends(nodes, chain[i]);
    if i > 0 {
      ChainDescends(nodes, chain, i - 1);
      assert Links(chain[i - 1], chain[i - 1 + 1]);
      BodyNotNamesake(nodes, chain[i - 1]);
      LinkDescends(nodes, chain[i - 1]);
      JoinInjective(Path(chain[i]), ParentPath(chain[i - 1]));
    }
  }

  lemma BodyNotNamesake(nodes: seq<Node>, b: BodyNode)
    requires NoNamesake(nodes) && InBody(nodes, b)
    ensures b.Real? ==> !Namesake(b.node)
  {
    hide Namesake;
  }

  lemma {:induction false} NoNamesakeNoReturn(nodes: seq<Node>, chain: seq<BodyNode>)
    requires AllMinted(nodes) && NoNamesake(nodes)
    ensures !Returns(nodes, chain)
  {
    hide AllMinted, NoNamesake, InBody, ParentOf, IdOf, Path, ParentPath, Weight, NoSlash, Join;
    if Returns(nodes, chain) {
      var k := |chain| - 2;
      ChainDescends(nodes, chain, k);
      assert Links(chain[k], chain[k + 1]) && Links(chain[0], chain[1]);
      BodyNotNamesake(nodes, chain[k]);
      LinkDescends(nodes, chain[k]);
      BodyNotNamesake(nodes, chain[0]);
      LinkDescends(nodes, chain[0]);
      JoinInjective(Path(chain[0]), ParentPath(chain[k]));
      assert false;
    }
  }

  // Following parents comes back to an id it left exactly when the body holds a
  // namesake.
  lemma {:induction false} ParentsAreAcyclic(nodes: seq<Node>)
    requires AllMinted(nodes)
    ensures (forall chain :: !Returns(nodes, chain)) <==> (forall i :: 0 <= i < |nodes| ==> !Namesake(nodes[i]))
  {
    hide Returns, Namesake;
    if forall i :: 0 <= i < |nodes| ==> !Namesake(nodes[i]) {
      forall chain ensures !Returns(nodes, chain) {
        NoNamesakeNoReturn(nodes, chain);
      }
    } else {
      var i :| 0 <= i < |nodes| && Namesake(nodes[i]);
      NamesakeReturns(nodes, i);
    }
  }

  // ---- over every view of a graph ----

  ghost predicate GraphMinted(g: Graph) {
    forall id :: id in g.nodes ==> PlainNames(g.nodes[id]) && Minted(g.nodes[id])
  }

  ghost predicate ViewsAcyclic(g: Graph) {
    forall scope, nodes, chain :: Lists(nodes, Projection.ViewOf(g, scope)) ==> !Returns(nodes, chain)
  }

  lemma {:induction false} Listing(ids: set<string>, of: map<string, Node>) returns (nodes: seq<Node>)
    requires ids <= of.Keys
    ensures forall n :: n in nodes <==> exists id :: id in ids && of[id] == n
  {
    nodes := [];
    if ids != {} {
      var id :| id in ids;
      nodes := Listing(ids - {id}, of);
      var rest := nodes;
      nodes := rest + [of[id]];
      forall n ensures n in nodes <==> exists x :: x in ids && of[x] == n {
        if exists x :: x in ids && of[x] == n {
          var x :| x in ids && of[x] == n;
          assert x != id ==> x in ids - {id};
        }
      }
    }
  }

  // The unfiltered inventory draws every node.
  lemma {:induction false} InventoryDrawsAll(g: Graph, id: string)
    requires id in g.nodes
    ensures var view := Projection.ViewOf(g, Projection.Scope({}, {}, true)); id in view.nodes && view.nodes[id] == g.nodes[id]
  {
    hide Projection.Ends, Projection.ViewEdges, Projection.Stores, Projection.Hosts, Projection.OwnsAdmitted, Owners;
    var scope := Projection.Scope({}, {}, true);
    assert Projection.IsPrimary(g, scope, id);
    assert id in Projection.Primary(g, scope);
  }

  // No request draws a cyclic tree exactly when the graph holds no namesake.
  lemma {:induction false} ViewsAreAcyclicIff(g: Graph)
    requires GraphMinted(g)
    ensures ViewsAcyclic(g) <==> forall id :: id in g.nodes ==> !Namesake(g.nodes[id])
  {
    hide Returns, Namesake, PlainNames, Minted, Projection.InView, Projection.ViewEdges;
    if forall id :: id in g.nodes ==> !Namesake(g.nodes[id]) {
      forall scope, nodes, chain | Lists(nodes, Projection.ViewOf(g, scope)) ensures !Returns(nodes, chain) {
        ListedMinted(g, scope, nodes);
        NoNamesakeNoReturn(nodes, chain);
      }
    } else {
      var id :| id in g.nodes && Namesake(g.nodes[id]);
      var view := Projection.ViewOf(g, Projection.Scope({}, {}, true));
      InventoryDrawsAll(g, id);
      var nodes := Listing(view.nodes.Keys, view.nodes);
      assert Lists(nodes, view);
      assert g.nodes[id] in nodes;
      var i :| 0 <= i < |nodes| && nodes[i] == g.nodes[id];
      NamesakeReturns(nodes, i);
    }
  }

  lemma {:induction false} ListedMinted(g: Graph, scope: Projection.Scope, nodes: seq<Node>)
    requires GraphMinted(g) && Lists(nodes, Projection.ViewOf(g, scope))
    ensures AllMinted(nodes)
    ensures (forall id :: id in g.nodes ==> !Namesake(g.nodes[id])) ==> NoNamesake(nodes)
  {
    hide Namesake, PlainNames, Minted, Projection.InView, Projection.ViewEdges;
    var view := Projection.ViewOf(g, scope);
    forall i | 0 <= i < |nodes| ensures exists id :: id in g.nodes && g.nodes[id] == nodes[i] {
      assert nodes[i] in nodes;
      var id :| id in view.nodes && view.nodes[id] == nodes[i];
      assert g.nodes[id] == nodes[i];
    }
  }
}
