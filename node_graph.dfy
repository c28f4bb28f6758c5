/**
 * The shader node tree of a material, as the host application exposes it to
 * the add-on: an ordered collection of nodes (each with a type tag, a size, a
 * location, named input sockets and possibly an image) and the links between
 * their sockets.
 *
 * An input socket accepts at most one incoming link, and creating a link into
 * an input that is already linked replaces the old link.  The links are
 * therefore a map from the input socket a link ends at to the output socket
 * it starts from: an input's list of links is empty when the socket is not a
 * key, and its first link is the map's value otherwise.
 */
module NodeGraph {

  datatype Option<T> = None | Some(value: T)

  /** The identity of a node within its tree. */
  type NodeId = int

  datatype Point = Point(x: int, y: int)

  /** An image created for a bake: name, pixel size, and whether it has an alpha channel. */
  datatype Image = Image(name: string, width: int, height: int, alpha: bool)

  /** A node: its type tag, size, the names of its input sockets and its image. */
  datatype Node = Node(kind: string, width: int, height: int, inputs: seq<string>, image: Option<Image>)

  /** A socket, given by its node and its position among that node's inputs (or outputs). */
  datatype Socket = Socket(node: NodeId, index: nat)

  /**
   * `order` is the enumeration order of the nodes, `nodes` gives each node's
   * data, `locations` each node's position in the editor, and `links` maps
   * each linked input socket to the output socket that feeds it.
   */
  datatype NodeTree = NodeTree(order: seq<NodeId>, nodes: map<NodeId, Node>, locations: map<NodeId, Point>,
                               links: map<Socket, Socket>)

  // Type tags the host reports for the node kinds the add-on looks at or creates.
  const OUTPUT_MATERIAL := "OUTPUT_MATERIAL"
  const UVMAP := "UVMAP"
  const TEX_IMAGE := "TEX_IMAGE"

  /**
   * The enumeration lists exactly the nodes of the tree, every node has a
   * location, and every link joins two nodes of the tree.
   */
  ghost predicate WellFormed(t: NodeTree) {
    t.locations.Keys == t.nodes.Keys &&
    (forall i :: 0 <= i < |t.order| ==> t.order[i] in t.nodes) &&
    (forall id :: id in t.nodes ==> id in t.order) &&
    (forall s :: s in t.links ==> s.node in t.nodes && t.links[s].node in t.nodes)
  }

  /**
   * A material-output node has input sockets only, so no link starts at one.
   * This holds of every material's tree.
   */
  predicate NoLinksFromOutputs(t: NodeTree) {
    forall s :: s in t.links ==> !IsOutputNode(t, t.links[s].node)
  }

  predicate IsOutputNode(t: NodeTree, id: NodeId) {
    id in t.nodes && t.nodes[id].kind == OUTPUT_MATERIAL
  }

  /** The input socket has at least one incoming link. */
  predicate IsLinked(t: NodeTree, input: Socket) {
    input in t.links
  }

  /** The names of a node's input sockets, in declaration order. */
  function InputsOf(t: NodeTree, id: NodeId): (r: seq<string>) {
    if id in t.nodes then t.nodes[id].inputs else []
  }

  /** An identity larger than every identity in `ids`, for a node the host creates. */
  function FreshId(ids: seq<NodeId>): (r: NodeId)
    ensures forall i :: 0 <= i < |ids| ==> ids[i] < r
  {
    if ids == [] then 0
    else
      var rest := FreshId(ids[1..]);
      if ids[0] < rest then rest else ids[0] + 1
  }

  lemma FreshIdIsNew(t: NodeTree)
    requires WellFormed(t)
    ensures FreshId(t.order) !in t.nodes
  {
  }

  /** `nodes.new(...)`: the new node comes last in the enumeration order, at the origin, unlinked. */
  function AddNode(t: NodeTree, id: NodeId, n: Node): (r: NodeTree)
    requires id !in t.nodes
    ensures WellFormed(t) ==> WellFormed(r)
  {
    NodeTree(t.order + [id], t.nodes[id := n], t.locations[id := Point(0, 0)], t.links)
  }

  /** `links.new(from, to)`: any earlier link into `to` is replaced. */
  function Connect(t: NodeTree, from: Socket, to: Socket): (r: NodeTree)
    ensures WellFormed(t) && from.node in t.nodes && to.node in t.nodes ==> WellFormed(r)
  {
    t.(links := t.links[to := from])
  }

  /**
   * `nodes.remove(n)` for every node `n` outside `kept`: the node goes, and so
   * does every link into or out of it.
   */
  function RemoveAllBut(t: NodeTree, kept: seq<NodeId>): (r: NodeTree)
    ensures r.order == kept
    ensures forall id :: id in r.nodes <==> id in t.nodes && id in kept
    ensures forall id :: id in r.nodes ==> r.nodes[id] == t.nodes[id]
    ensures forall id :: id in r.locations <==> id in t.locations && id in kept
    ensures forall id :: id in r.locations ==> r.locations[id] == t.locations[id]
    ensures forall s :: s in r.links <==> s in t.links && s.node in r.nodes && t.links[s].node in r.nodes
    ensures forall s :: s in r.links ==> r.links[s] == t.links[s]
  {
    var nodes := map id | id in t.nodes && id in kept :: t.nodes[id];
    var locations := map id | id in t.locations && id in kept :: t.locations[id];
    NodeTree(kept, nodes, locations, map s | s in t.links && s.node in nodes && t.links[s].node in nodes :: t.links[s])
  }

  lemma RemoveAllButWellFormed(t: NodeTree, kept: seq<NodeId>)
    requires WellFormed(t)
    requires forall i :: 0 <= i < |kept| ==> kept[i] in t.nodes
    ensures WellFormed(RemoveAllBut(t, kept))
  {
  }

  /** Moves one node; nothing else changes. */
  function SetLocation(t: NodeTree, id: NodeId, p: Point): (r: NodeTree)
    requires id in t.locations
    ensures SameShape(t, r) && r.locations[id] == p
    ensures forall other :: other in t.locations && other != id ==> r.locations[other] == t.locations[other]
  {
    t.(locations := t.locations[id := p])
  }

  /** `t2` differs from `t1` at most in where its nodes are. */
  ghost predicate SameShape(t1: NodeTree, t2: NodeTree) {
    t1.order == t2.order && t1.nodes == t2.nodes && t1.links == t2.links && t1.locations.Keys == t2.locations.Keys
  }
}
