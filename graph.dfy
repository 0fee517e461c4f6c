/**
 * The abstract property-graph store the adaptor talks to: labelled nodes with
 * property maps, addressed by an internal handle, and typed directed edges.
 * Ownership edges (`OWNS_OBJECT`, `OWNED_BY`) and role edges share the one
 * relationship-type namespace, as they do in the store.
 */
module Graph {
  import opened Values

  /** The store's internal identity of a node (not its `id` property). */
  type Handle = nat

  datatype Node = Node(labelName: string, props: Props)

  datatype Edge = Edge(src: Handle, rel: string, dst: Handle)

  /** `next` is the handle the next created node receives. */
  datatype Graph = Graph(nodes: map<Handle, Node>, edges: set<Edge>, next: Handle)

  const TenantLabel := "Tenant"
  const OwnsObject := "OWNS_OBJECT"
  const OwnedBy := "OWNED_BY"

  /** Handles are below `next`, edges join existing nodes, no property is null. */
  predicate Valid(g: Graph) {
    && (forall h :: h in g.nodes ==> h < g.next && NoNulls(g.nodes[h].props))
    && (forall e :: e in g.edges ==> e.src in g.nodes && e.dst in g.nodes)
  }

  /** The pattern `{id: $v}`: a null parameter matches nothing. */
  predicate HasId(n: Node, v: Value) {
    v != Null && "id" in n.props && n.props["id"] == v
  }

  /** `n.id` as a query returns it: null when the node has no id. */
  function IdOf(n: Node): Value {
    if "id" in n.props then n.props["id"] else Null
  }

  /** The pattern `(t:Tenant {id: $tenant_id})`. */
  predicate IsTenant(g: Graph, t: Handle, tid: Value) {
    t in g.nodes && g.nodes[t].labelName == TenantLabel && HasId(g.nodes[t], tid)
  }

  /** Every node whose `id` property is `v`, whatever its label. */
  function WithId(g: Graph, v: Value): (r: set<Handle>)
    ensures forall h :: h in r <==> h in g.nodes && HasId(g.nodes[h], v)
  {
    set h | h in g.nodes && HasId(g.nodes[h], v)
  }

  /** The tenant nodes with id `tid`. */
  function Tenants(g: Graph, tid: Value): (r: set<Handle>)
    ensures forall t :: t in r <==> IsTenant(g, t, tid)
  {
    set t | t in g.nodes && IsTenant(g, t, tid)
  }

  /** The pattern `(t:Tenant {id: $tid})<-[:rel]-(n:label)`, for the node `n`. */
  predicate OwnedVia(g: Graph, rel: string, tid: Value, h: Handle) {
    exists t :: t in g.nodes && Edge(h, rel, t) in g.edges && IsTenant(g, t, tid)
  }

  /** A `labelName` node that tenant `tid` owns through an `OWNS_OBJECT` edge: what the collection queries see. */
  predicate Visible(g: Graph, labelName: string, tid: Value, h: Handle) {
    h in g.nodes && g.nodes[h].labelName == labelName && OwnedVia(g, OwnsObject, tid, h)
  }

  /** The handles of `s` in `[lo, hi)`, in increasing order. */
  function Ordered(s: set<Handle>, lo: nat, hi: nat): (r: seq<Handle>)
    ensures forall i :: 0 <= i < |r| ==> r[i] in s && lo <= r[i] < hi
    ensures forall h :: h in s && lo <= h < hi ==> h in r
    ensures forall i, j :: 0 <= i < j < |r| ==> r[i] < r[j]
    decreases hi - lo
  {
    if lo >= hi then [] else (if lo in s then [lo] else []) + Ordered(s, lo + 1, hi)
  }

  /** No handle of `s` lies in `[lo, hi)`: nothing is listed. */
  lemma {:induction false} OrderedNone(s: set<Handle>, lo: nat, hi: nat)
    requires forall h :: h in s ==> !(lo <= h < hi)
    ensures Ordered(s, lo, hi) == []
    decreases hi - lo
  {
    if lo < hi {
      OrderedNone(s, lo + 1, hi);
    }
  }

  /** A one-element set lists as that one handle. */
  lemma {:induction false} OrderedSingleton(t: Handle, lo: nat, hi: nat)
    requires lo <= t < hi
    ensures Ordered({t}, lo, hi) == [t]
    decreases hi - lo
  {
    if lo < t {
      OrderedSingleton(t, lo + 1, hi);
    } else {
      OrderedNone({t}, lo + 1, hi);
    }
  }

  /** A freshly created node, and the graph that holds it. */
  function AddNode(g: Graph, n: Node): (r: (Graph, Handle))
    requires Valid(g) && NoNulls(n.props)
    ensures Valid(r.0) && r.1 == g.next && r.0.next == g.next + 1
    ensures r.1 !in g.nodes && r.0.nodes == g.nodes[r.1 := n] && r.0.edges == g.edges
  {
    (Graph(g.nodes[g.next := n], g.edges, g.next + 1), g.next)
  }

  /** `DETACH DELETE` of the nodes `d`: the nodes and every edge touching one of them go. */
  function DetachDelete(g: Graph, d: set<Handle>): (r: Graph)
    requires Valid(g)
    ensures Valid(r) && r.next == g.next
    ensures forall h :: h in r.nodes <==> h in g.nodes && h !in d
    ensures forall h :: h in r.nodes ==> r.nodes[h] == g.nodes[h]
    ensures forall e :: e in r.edges <==> e in g.edges && e.src !in d && e.dst !in d
  {
    Graph(g.nodes - d, (set e | e in g.edges && e.src !in d && e.dst !in d), g.next)
  }

  /** `SET n += $p` on every node of `d`. */
  function MergeInto(g: Graph, d: set<Handle>, p: Props): (r: Graph)
    requires Valid(g)
    ensures Valid(r) && r.next == g.next && r.edges == g.edges && r.nodes.Keys == g.nodes.Keys
    ensures forall h :: h in g.nodes && h in d ==>
      r.nodes[h] == Node(g.nodes[h].labelName, MergeProps(g.nodes[h].props, p))
    ensures forall h :: h in g.nodes && h !in d ==> r.nodes[h] == g.nodes[h]
  {
    var nodes := map h | h in g.nodes ::
      if h in d then Node(g.nodes[h].labelName, MergeProps(g.nodes[h].props, p)) else g.nodes[h];
    Graph(nodes, g.edges, g.next)
  }

  /** A `SET` that matched no node leaves the store as it was. */
  lemma UnmatchedSetIsNoOp(g: Graph, p: Props)
    requires Valid(g)
    ensures MergeInto(g, {}, p) == g && ReplaceIn(g, {}, p) == g
  {
    assert MergeInto(g, {}, p).nodes == g.nodes;
    assert ReplaceIn(g, {}, p).nodes == g.nodes;
  }

  /** `SET n = $p` on every node of `d`: the old properties are dropped. */
  function ReplaceIn(g: Graph, d: set<Handle>, p: Props): (r: Graph)
    requires Valid(g)
    ensures Valid(r) && r.next == g.next && r.edges == g.edges && r.nodes.Keys == g.nodes.Keys
    ensures forall h :: h in g.nodes && h in d ==> r.nodes[h] == Node(g.nodes[h].labelName, Stored(p))
    ensures forall h :: h in g.nodes && h !in d ==> r.nodes[h] == g.nodes[h]
  {
    var nodes := map h | h in g.nodes :: if h in d then Node(g.nodes[h].labelName, Stored(p)) else g.nodes[h];
    Graph(nodes, g.edges, g.next)
  }
}
