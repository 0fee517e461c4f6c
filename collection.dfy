/**
 * What the collection operations do to the store: `_create_node` and the
 * meaning of the queries the builders assemble, stated against the nodes of a
 * label that the active tenant owns and that satisfy the criteria.
 */
module Collection {
  import opened Values
  import opened Graph
  import opened Cypher
  import opened QueryBuilder

  /** Every criteria item holds on the properties: the meaning of `WHERE n.k1 = $k1 AND ...`. */
  predicate Satisfies(p: Props, criteria: seq<Entry>) {
    forall i :: 0 <= i < |criteria| ==> criteria[i].1 != Null && criteria[i].0 in p && p[criteria[i].0] == criteria[i].1
  }

  /** The `labelName` nodes owned by tenant `tid` through `OWNS_OBJECT` that satisfy `criteria`. */
  function Selected(g: Graph, labelName: string, tid: Value, criteria: seq<Entry>): (r: set<Handle>)
    ensures forall h :: h in r <==> Visible(g, labelName, tid, h) && Satisfies(g.nodes[h].props, criteria)
  {
    set h | h in g.nodes && Visible(g, labelName, tid, h) && Satisfies(g.nodes[h].props, criteria)
  }

  /** When every key of `d` is bound to its own value, the equality WHERE selects exactly the nodes satisfying `d`. */
  lemma MatchedSelected(g: Graph, labelName: string, d: seq<Entry>, params: Params)
    requires forall i :: 0 <= i < |d| ==> d[i].0 in params && params[d[i].0] == PVal(d[i].1)
    ensures Matched(g, labelName, EqsOf(d), params) == Selected(g, labelName, TenantParam(params), d)
  {
    forall h ensures h in Matched(g, labelName, EqsOf(d), params) <==> h in Selected(g, labelName, TenantParam(params), d) {
      if Visible(g, labelName, TenantParam(params), h) {
        var n := g.nodes[h];
        if forall e :: e in EqsOf(d) ==> EqHolds(n, e, params) {
          forall i | 0 <= i < |d| ensures d[i].1 != Null && d[i].0 in n.props && n.props[d[i].0] == d[i].1 {
            assert EqsOf(d)[i] in EqsOf(d);
          }
        }
        if Satisfies(n.props, d) {
          forall e | e in EqsOf(d) ensures EqHolds(n, e, params) {
            var i :| 0 <= i < |d| && EqsOf(d)[i] == e;
          }
        }
      }
    }
  }

  /** An item of a dict with distinct keys is bound, after the writes, to its own value. */
  lemma ItemBound(base: Params, d: seq<Entry>, i: nat)
    requires DistinctKeys(d) && i < |d|
    ensures d[i].0 in Overwrite(base, d) && Overwrite(base, d)[d[i].0] == PVal(d[i].1)
  {
    LookupDistinct(d, i);
    OverwriteLookup(base, d, d[i].0);
  }

  /** A key no item of `d` has keeps its value in `base`. */
  lemma NotWritten(base: Params, d: seq<Entry>, k: string)
    requires k in base && k !in KeySet(d)
    ensures k in Overwrite(base, d) && Overwrite(base, d)[k] == base[k]
  {
    ToMapLookup(d, k);
    OverwriteLookup(base, d, k);
  }

  /** `$tenant_id` of a find is the criteria's `tenant_id` item when there is one. */
  lemma MatchTenant(tenantId: Value, criteria: seq<Entry>)
    ensures TenantParam(MatchParams(tenantId, criteria)) == TenantFor(tenantId, criteria)
  {
    OverwriteLookup(map["tenant_id" := PVal(tenantId)], criteria, "tenant_id");
  }

  /**
   * `find` reads exactly the label's nodes owned by the tenant `$tenant_id`
   * names and satisfying every criteria item, whatever projection, order or
   * limit is asked for.
   */
  lemma FindSelects(g: Graph, labelName: string, criteria: seq<Entry>, onlyCols: seq<string>, orderBy: seq<string>,
                    limit: Option<int>, tenantId: Value)
    requires DistinctKeys(criteria)
    ensures Matched(g, labelName, WhereList(MatchQuery(labelName, criteria, onlyCols, orderBy, limit).where),
                    MatchParams(tenantId, criteria))
         == Selected(g, labelName, TenantFor(tenantId, criteria), criteria)
  {
    var params := MatchParams(tenantId, criteria);
    forall i | 0 <= i < |criteria| ensures criteria[i].0 in params && params[criteria[i].0] == PVal(criteria[i].1) {
      ItemBound(map["tenant_id" := PVal(tenantId)], criteria, i);
    }
    MatchedSelected(g, labelName, criteria, params);
    MatchTenant(tenantId, criteria);
  }

  /** The parameters a find names are all passed. */
  lemma MatchParamsBound(labelName: string, criteria: seq<Entry>, onlyCols: seq<string>, orderBy: seq<string>,
                         limit: Option<int>, tenantId: Value)
    requires DistinctKeys(criteria)
    ensures ParamNames(MatchQuery(labelName, criteria, onlyCols, orderBy, limit)) <= MatchParams(tenantId, criteria).Keys
  {
    var params := MatchParams(tenantId, criteria);
    OverwriteLookup(map["tenant_id" := PVal(tenantId)], criteria, "tenant_id");
    forall i | 0 <= i < |criteria| ensures criteria[i].0 in params {
      ItemBound(map["tenant_id" := PVal(tenantId)], criteria, i);
    }
  }

  // ---------------------------------------------------------------- refusals by the driver

  /** A dict holds a key that `tx.run(query, **params)` takes for its own argument. */
  predicate Reserved(d: seq<Entry>) {
    "self" in KeySet(d) || "query" in KeySet(d) || "parameters" in KeySet(d)
  }

  /**
   * What the driver refuses for the map `_match_nodes` spreads: a reserved
   * criteria key, else an integer beyond 64 bits among the tenant id the
   * query ends up with and the criteria values.
   */
  function FindRefusal(tenantId: Value, criteria: seq<Entry>): Option<Error>
  {
    if Reserved(criteria) then Some(ArgumentClash)
    else if !(Fits(TenantFor(tenantId, criteria)) && DictFits(criteria)) then Some(IntegerOverflow)
    else None
  }

  /** The same for a partial `_update_nodes`: mods keys are spread too, and a mods value hides the criteria value of its key. */
  function PartialRefusal(tenantId: Value, criteria: seq<Entry>, mods: seq<Entry>): Option<Error>
  {
    if Reserved(criteria) || Reserved(mods) then Some(ArgumentClash)
    else if !(Fits(TenantFor(TenantFor(tenantId, criteria), mods)) && DictFits(Rebound(criteria, mods)) && DictFits(mods))
    then Some(IntegerOverflow)
    else None
  }

  /** The same for a full `_update_nodes`: the mods dict travels whole under `mods`, hiding a criteria item `mods`. */
  function FullRefusal(tenantId: Value, criteria: seq<Entry>, mods: seq<Entry>): Option<Error>
  {
    if Reserved(criteria) then Some(ArgumentClash)
    else if !(&& Fits(TenantFor(tenantId, criteria))
              && (forall i :: 0 <= i < |criteria| && criteria[i].0 != "mods" ==> Fits(criteria[i].1))
              && PropsFit(ToMap(mods)))
    then Some(IntegerOverflow)
    else None
  }

  /** The same for `_delete_nodes`: a key target sends only `tenant_id` and `id`. */
  function RemoveRefusal(tenantId: Value, target: Target): Option<Error>
  {
    match target
    case ByKey(k) => if Fits(tenantId) && Fits(k) then None else Some(IntegerOverflow)
    case ByCriteria(c) => FindRefusal(tenantId, c)
  }

  /** A key is in the map after the writes iff it was before or some item has it. */
  lemma OverwriteKeys(base: Params, d: seq<Entry>, k: string)
    ensures k in Overwrite(base, d) <==> k in base || k in KeySet(d)
  {
    OverwriteLookup(base, d, k);
    ToMapLookup(d, k);
  }

  /** The driver refuses a find's map exactly as `FindRefusal` says. */
  lemma MatchRefusal(tenantId: Value, criteria: seq<Entry>)
    requires DistinctKeys(criteria)
    ensures Refusal(MatchParams(tenantId, criteria)) == FindRefusal(tenantId, criteria)
  {
    var base := map["tenant_id" := PVal(tenantId)];
    var params := MatchParams(tenantId, criteria);
    OverwriteKeys(base, criteria, "self");
    OverwriteKeys(base, criteria, "query");
    OverwriteKeys(base, criteria, "parameters");
    OverwriteLookup(base, criteria, "tenant_id");
    assert params["tenant_id"] == PVal(TenantFor(tenantId, criteria));
    forall i | 0 <= i < |criteria| ensures criteria[i].0 in params && params[criteria[i].0] == PVal(criteria[i].1) {
      ItemBound(base, criteria, i);
    }
    if Fits(TenantFor(tenantId, criteria)) && DictFits(criteria) {
      forall k | k in params ensures match params[k] case PVal(v) => Fits(v) case PMap(m) => PropsFit(m) {
        OverwriteKeys(base, criteria, k);
        if k in KeySet(criteria) {
          var i :| 0 <= i < |criteria| && criteria[i].0 == k;
        }
      }
      assert ParamsFit(params);
    }
    if ParamsFit(params) {
      forall i | 0 <= i < |criteria| ensures Fits(criteria[i].1) {
        assert params[criteria[i].0] == PVal(criteria[i].1);
      }
      assert Fits(TenantFor(tenantId, criteria));
    }
  }

  /** The driver refuses a partial update's map exactly as `PartialRefusal` says. */
  lemma PartialRefusalOf(tenantId: Value, criteria: seq<Entry>, mods: seq<Entry>)
    requires DistinctKeys(criteria) && DistinctKeys(mods)
    ensures Refusal(UpdateParams(tenantId, criteria, mods, true)) == PartialRefusal(tenantId, criteria, mods)
  {
    var params := UpdateParams(tenantId, criteria, mods, true);
    PartialReservedOf(tenantId, criteria, mods);
    PartialFitsOf(tenantId, criteria, mods);
  }

  /** A partial update's map has a reserved key iff the criteria or the mods have one. */
  lemma PartialReservedOf(tenantId: Value, criteria: seq<Entry>, mods: seq<Entry>)
    ensures var params := UpdateParams(tenantId, criteria, mods, true);
            ("self" in params || "query" in params || "parameters" in params) <==> Reserved(criteria) || Reserved(mods)
  {
    var base0 := map["tenant_id" := PVal(tenantId)];
    var base := MatchParams(tenantId, criteria);
    forall k | k in {"self", "query", "parameters"}
      ensures k in UpdateParams(tenantId, criteria, mods, true) <==> k in KeySet(criteria) || k in KeySet(mods)
    {
      OverwriteKeys(base, mods, k);
      OverwriteKeys(base0, criteria, k);
    }
  }

  /** Every value of a partial update's map packs iff the tenant, the rebound criteria and the mods do. */
  lemma PartialFitsOf(tenantId: Value, criteria: seq<Entry>, mods: seq<Entry>)
    requires DistinctKeys(criteria) && DistinctKeys(mods)
    ensures ParamsFit(UpdateParams(tenantId, criteria, mods, true))
            <==> Fits(TenantFor(TenantFor(tenantId, criteria), mods)) && DictFits(Rebound(criteria, mods)) && DictFits(mods)
  {
    var base0 := map["tenant_id" := PVal(tenantId)];
    var base := MatchParams(tenantId, criteria);
    var params := UpdateParams(tenantId, criteria, mods, true);
    var rb := Rebound(criteria, mods);
    PartialParams(tenantId, criteria, mods);
    OverwriteLookup(base0, criteria, "tenant_id");
    OverwriteLookup(base, mods, "tenant_id");
    assert params["tenant_id"] == PVal(TenantFor(TenantFor(tenantId, criteria), mods));
    if Fits(TenantFor(TenantFor(tenantId, criteria), mods)) && DictFits(rb) && DictFits(mods) {
      forall k | k in params ensures match params[k] case PVal(v) => Fits(v) case PMap(m) => PropsFit(m) {
        OverwriteKeys(base, mods, k);
        OverwriteKeys(base0, criteria, k);
        if k in KeySet(mods) {
          var i :| 0 <= i < |mods| && mods[i].0 == k;
        } else if k in KeySet(criteria) {
          var i :| 0 <= i < |criteria| && criteria[i].0 == k;
          assert rb[i].0 == k;
        }
      }
    }
    if ParamsFit(params) {
      forall i | 0 <= i < |rb| ensures Fits(rb[i].1) {
        assert params[rb[i].0] == PVal(rb[i].1);
      }
      forall i | 0 <= i < |mods| ensures Fits(mods[i].1) {
        assert params[mods[i].0] == PVal(mods[i].1);
      }
    }
  }

  /** The driver refuses a full update's map exactly as `FullRefusal` says. */
  lemma FullRefusalOf(tenantId: Value, criteria: seq<Entry>, mods: seq<Entry>)
    requires DistinctKeys(criteria)
    ensures Refusal(UpdateParams(tenantId, criteria, mods, false)) == FullRefusal(tenantId, criteria, mods)
  {
    var base := map["tenant_id" := PVal(tenantId)];
    var params := UpdateParams(tenantId, criteria, mods, false);
    OverwriteKeys(base, criteria, "self");
    OverwriteKeys(base, criteria, "query");
    OverwriteKeys(base, criteria, "parameters");
    OverwriteLookup(base, criteria, "tenant_id");
    assert params["tenant_id"] == PVal(TenantFor(tenantId, criteria));
    assert params["mods"] == PMap(ToMap(mods));
    forall i | 0 <= i < |criteria| && criteria[i].0 != "mods"
      ensures criteria[i].0 in params && params[criteria[i].0] == PVal(criteria[i].1)
    {
      ItemBound(base, criteria, i);
    }
    var tenantOk := Fits(TenantFor(tenantId, criteria));
    var criteriaOk := forall i :: 0 <= i < |criteria| && criteria[i].0 != "mods" ==> Fits(criteria[i].1);
    if tenantOk && criteriaOk && PropsFit(ToMap(mods)) {
      forall k | k in params ensures match params[k] case PVal(v) => Fits(v) case PMap(m) => PropsFit(m) {
        OverwriteKeys(base, criteria, k);
        if k != "mods" && k in KeySet(criteria) {
          var i :| 0 <= i < |criteria| && criteria[i].0 == k;
        }
      }
      assert ParamsFit(params);
    }
    if ParamsFit(params) {
      forall i | 0 <= i < |criteria| && criteria[i].0 != "mods" ensures Fits(criteria[i].1) {
        assert params[criteria[i].0] == PVal(criteria[i].1);
      }
      assert tenantOk;
    }
  }

  /** The driver refuses a remove's map exactly as `RemoveRefusal` says. */
  lemma DeleteRefusal(tenantId: Value, target: Target)
    requires target.ByCriteria? ==> DistinctKeys(target.criteria)
    ensures Refusal(DeleteParams(tenantId, target)) == RemoveRefusal(tenantId, target)
  {
    match target {
      case ByCriteria(c) => MatchRefusal(tenantId, c);
      case ByKey(k) =>
        var params := DeleteParams(tenantId, target);
        if Fits(tenantId) && Fits(k) {
          forall x | x in params ensures match params[x] case PVal(v) => Fits(v) case PMap(m) => PropsFit(m) {
          }
        }
        assert params["tenant_id"] == PVal(tenantId) && params["id"] == PVal(k);
    }
  }

  /**
   * A criteria key `self` is a second value for the bound `self` of the
   * driver's `run`: the find raises before the store is reached, whatever
   * the other criteria, columns and limit.
   */
  lemma SelfKeyRefused(g: Graph, labelName: string, criteria: seq<Entry>, onlyCols: seq<string>,
                       orderBy: seq<string>, limit: Option<int>, tenantId: Value)
    requires Valid(g) && DistinctKeys(criteria) && "self" in KeySet(criteria)
    ensures RunRead(g, MatchQuery(labelName, criteria, onlyCols, orderBy, limit), MatchParams(tenantId, criteria))
            == Err(ArgumentClash)
  {
    FindRows(g, labelName, criteria, onlyCols, orderBy, limit, tenantId);
  }

  /**
   * The rows of `find`: the driver refuses a reserved criteria key or an
   * integer beyond 64 bits, the store refuses a column named twice and a
   * negative limit; otherwise one row per selected node, in creation order,
   * cut to a truthy limit; 0 or None means no cut.
   */
  lemma FindRows(g: Graph, labelName: string, criteria: seq<Entry>, onlyCols: seq<string>, orderBy: seq<string>,
                 limit: Option<int>, tenantId: Value)
    requires Valid(g) && DistinctKeys(criteria)
    ensures var r := RunRead(g, MatchQuery(labelName, criteria, onlyCols, orderBy, limit), MatchParams(tenantId, criteria));
            var hs := Ordered(Selected(g, labelName, TenantFor(tenantId, criteria), criteria), 0, g.next);
            var refused := FindRefusal(tenantId, criteria);
            && (r.Err? <==> refused.Some? || Repeats(onlyCols) || (limit.Some? && limit.value < 0))
            && (r.Err? ==> r.error == if refused.Some? then refused.value
                                      else if Repeats(onlyCols) then SyntaxError else NegativeLimit)
            && (r.Ok? ==>
                  && |r.value| == (if limit.Some? && 0 < limit.value < |hs| then limit.value else |hs|)
                  && forall i :: 0 <= i < |r.value| ==>
                       r.value[i] == Project(g.nodes[hs[i]], if |onlyCols| == 0 then WholeNode else Columns(onlyCols)))
  {
    var q := MatchQuery(labelName, criteria, onlyCols, orderBy, limit);
    FindSelects(g, labelName, criteria, onlyCols, orderBy, limit, tenantId);
    MatchParamsBound(labelName, criteria, onlyCols, orderBy, limit, tenantId);
    MatchRefusal(tenantId, criteria);
    assert Malformed(q) <==> Repeats(onlyCols);
    assert q.limit.Some? ==> q.limit == limit && limit.value != 0;
    if FindRefusal(tenantId, criteria) == None && !Repeats(onlyCols) && !(limit.Some? && limit.value < 0) {
      ReadRows(g, q, MatchParams(tenantId, criteria));
    }
  }

  /**
   * Tenant isolation: a node whose every `OWNS_OBJECT` edge leads to a tenant
   * node of `t1` is never read by a find under another tenant `t2`, as long as
   * the criteria have no `tenant_id` key.
   */
  lemma FindIsolation(g: Graph, labelName: string, criteria: seq<Entry>, onlyCols: seq<string>, orderBy: seq<string>,
                      limit: Option<int>, t1: Value, t2: Value, h: Handle)
    requires DistinctKeys(criteria) && "tenant_id" !in KeySet(criteria)
    requires t1 != t2
    requires forall t :: t in g.nodes && Edge(h, OwnsObject, t) in g.edges ==> IsTenant(g, t, t1)
    ensures h !in Matched(g, labelName, WhereList(MatchQuery(labelName, criteria, onlyCols, orderBy, limit).where),
                          MatchParams(t2, criteria))
  {
    FindSelects(g, labelName, criteria, onlyCols, orderBy, limit, t2);
    ToMapLookup(criteria, "tenant_id");
    assert TenantFor(t2, criteria) == t2;
    forall t | t in g.nodes && Edge(h, OwnsObject, t) in g.edges ensures !IsTenant(g, t, t2) {
      assert IsTenant(g, t, t1);
    }
  }

  /**
   * The shared parameter map breaks isolation the other way: a criteria item
   * `tenant_id` replaces `$tenant_id`, so a find under any tenant `t2` with
   * criteria `{tenant_id: t1}` reads tenant `t1`'s nodes that store that id.
   */
  lemma FindCriteriaTenantOverrides(g: Graph, labelName: string, onlyCols: seq<string>, orderBy: seq<string>,
                                    limit: Option<int>, t1: Value, t2: Value, h: Handle)
    requires Visible(g, labelName, t1, h) && t1 != Null
    requires "tenant_id" in g.nodes[h].props && g.nodes[h].props["tenant_id"] == t1
    ensures h in Matched(g, labelName, WhereList(MatchQuery(labelName, [("tenant_id", t1)], onlyCols, orderBy, limit).where),
                         MatchParams(t2, [("tenant_id", t1)]))
  {
    var criteria := [("tenant_id", t1)];
    FindSelects(g, labelName, criteria, onlyCols, orderBy, limit, t2);
    assert TenantFor(t2, criteria) == t1;
    assert Satisfies(g.nodes[h].props, criteria);
  }

  // ---------------------------------------------------------------- insert

  /** `count` new nodes `Node(labelName, p)` at the handles from `g.next` on. */
  function CreatedNodes(g: Graph, labelName: string, p: Props, count: nat): (r: map<Handle, Node>)
    requires Valid(g)
    ensures forall h :: h in r <==> h in g.nodes || g.next <= h < g.next + count
    ensures forall h :: h in g.nodes ==> r[h] == g.nodes[h]
    ensures forall h :: h !in g.nodes && g.next <= h < g.next + count ==> r[h] == Node(labelName, p)
  {
    map h: nat | h < g.next + count && (h in g.nodes || g.next <= h) :: if h in g.nodes then g.nodes[h] else Node(labelName, p)
  }

  /** The `OWNS_OBJECT` edge of the `i`-th new node to the `i`-th tenant row. */
  function CreatedEdges(first: Handle, ts: seq<Handle>): (r: set<Edge>)
    ensures forall e :: e in r <==> first <= e.src < first + |ts| && e.rel == OwnsObject && e.dst == ts[e.src - first]
  {
    var created := set i | 0 <= i < |ts| :: Edge(first + i, OwnsObject, ts[i]);
    assert forall e: Edge :: first <= e.src < first + |ts| && e.rel == OwnsObject && e.dst == ts[e.src - first] ==> e in created by {
      forall e: Edge | first <= e.src < first + |ts| && e.rel == OwnsObject && e.dst == ts[e.src - first] ensures e in created {
        assert e == Edge(first + (e.src - first), OwnsObject, ts[e.src - first]);
      }
    }
    created
  }

  /** `CREATE (n:labelName $p)` and `CREATE (n)-[:OWNS_OBJECT]->(t)` once per tenant row of `ts`, in row order. */
  function CreatePer(g: Graph, labelName: string, p: Props, ts: seq<Handle>): (r: Graph)
    requires Valid(g) && NoNulls(p)
    requires forall i :: 0 <= i < |ts| ==> ts[i] in g.nodes
    ensures Valid(r) && r.next == g.next + |ts|
    ensures forall h :: h in r.nodes <==> h in g.nodes || g.next <= h < r.next
    ensures forall h :: h in g.nodes ==> r.nodes[h] == g.nodes[h]
    ensures forall h :: g.next <= h < r.next ==> r.nodes[h] == Node(labelName, p)
    ensures forall e :: e in r.edges <==>
      e in g.edges || (g.next <= e.src < r.next && e.rel == OwnsObject && e.dst == ts[e.src - g.next])
  {
    var nodes := CreatedNodes(g, labelName, p, |ts|);
    var created := CreatedEdges(g.next, ts);
    assert forall h :: h in nodes ==> h < g.next + |ts| && NoNulls(nodes[h].props);
    Graph(nodes, g.edges + created, g.next + |ts|)
  }

  /**
   * `_create_node`: MATCH the tenant, CREATE the node and its `OWNS_OBJECT`
   * edge for each tenant row, and return the node of the first row; with no
   * tenant node `result.single()` is None and `[0]` raises. Before that, the
   * driver refuses an integer beyond 64 bits in the tenant id or the
   * properties.
   */
  function CreateNode(g: Graph, labelName: string, properties: Props, tenantId: Value): (r: Result<(Graph, Node)>)
    requires Valid(g)
    ensures r.Ok? ==> Valid(r.value.0)
  {
    var ts := Ordered(Tenants(g, tenantId), 0, g.next);
    if !(Fits(tenantId) && PropsFit(properties)) then Err(IntegerOverflow)
    else if ts == [] then Err(NoRecord)
    else Ok((CreatePer(g, labelName, Stored(properties), ts), Node(labelName, Stored(properties))))
  }

  /**
   * Insert fails exactly when the driver cannot pack an integer or no tenant
   * node has the adaptor's tenant id (the missing record), and then writes
   * nothing; otherwise it returns the node with the stored properties.
   */
  lemma InsertOutcome(g: Graph, labelName: string, properties: Props, tenantId: Value)
    requires Valid(g)
    ensures var r := CreateNode(g, labelName, properties, tenantId);
            && (r.Err? <==> !(Fits(tenantId) && PropsFit(properties)) || Tenants(g, tenantId) == {})
            && (r.Err? ==> r.error == if Fits(tenantId) && PropsFit(properties) then NoRecord else IntegerOverflow)
            && (r.Ok? ==> r.value.1 == Node(labelName, Stored(properties)))
  {
    if Tenants(g, tenantId) == {} {
      OrderedNone({}, 0, g.next);
    } else {
      var t :| t in Tenants(g, tenantId);
      assert t < g.next;
      assert t in Ordered(Tenants(g, tenantId), 0, g.next);
    }
  }

  /**
   * Round trip: with one tenant node for `tenantId` and values the driver can
   * pack, insert succeeds, returns the stored properties, and adds the new
   * node to the selection of a find of that label exactly when the find runs
   * under that tenant (a `tenant_id` criteria item may name another) and its
   * criteria hold on the stored properties; no other node is added.
   */
  lemma InsertThenFind(g: Graph, labelName: string, properties: Props, tenantId: Value, t: Handle,
                       criteria: seq<Entry>)
    requires Valid(g) && Tenants(g, tenantId) == {t} && Fits(tenantId) && PropsFit(properties)
    ensures CreateNode(g, labelName, properties, tenantId).Ok?
    ensures CreateNode(g, labelName, properties, tenantId).value.1 == Node(labelName, Stored(properties))
    ensures var g' := CreateNode(g, labelName, properties, tenantId).value.0;
            var tid := TenantFor(tenantId, criteria);
            Selected(g', labelName, tid, criteria)
              == Selected(g, labelName, tid, criteria)
                 + (if tid == tenantId && Satisfies(Stored(properties), criteria) then {g.next} else {})
  {
    assert t in Tenants(g, tenantId);
    assert t < g.next;
    OrderedSingleton(t, 0, g.next);
    var g' := CreateNode(g, labelName, properties, tenantId).value.0;
    assert g' == CreatePer(g, labelName, Stored(properties), [t]);
    var tid := TenantFor(tenantId, criteria);
    assert IsTenant(g, t, tid) <==> tid == tenantId;
    forall h ensures h in Selected(g', labelName, tid, criteria) <==>
                     h in Selected(g, labelName, tid, criteria)
                     || (h == g.next && tid == tenantId && Satisfies(Stored(properties), criteria)) {
      CreateOneVisible(g, labelName, Stored(properties), t, tid, h);
    }
  }

  /** Creating one node owned by the node `t` makes it visible to the tenant `t` is a tenant node of, and changes no other visibility. */
  lemma CreateOneVisible(g: Graph, labelName: string, p: Props, t: Handle, tid: Value, h: Handle)
    requires Valid(g) && NoNulls(p) && t in g.nodes
    ensures var g' := CreatePer(g, labelName, p, [t]);
            Visible(g', labelName, tid, h) <==> Visible(g, labelName, tid, h) || (h == g.next && IsTenant(g, t, tid))
  {
    var g' := CreatePer(g, labelName, p, [t]);
    if h == g.next {
      assert Edge(h, OwnsObject, t) in g'.edges;
      if IsTenant(g, t, tid) {
        assert IsTenant(g', t, tid);
      }
      if Visible(g', labelName, tid, h) {
        var u :| u in g'.nodes && Edge(h, OwnsObject, u) in g'.edges && IsTenant(g', u, tid);
        assert u == t;
      }
    } else {
      if Visible(g', labelName, tid, h) {
        var u :| u in g'.nodes && Edge(h, OwnsObject, u) in g'.edges && IsTenant(g', u, tid);
        assert Edge(h, OwnsObject, u) in g.edges;
        assert IsTenant(g, u, tid);
      }
      if Visible(g, labelName, tid, h) {
        var u :| u in g.nodes && Edge(h, OwnsObject, u) in g.edges && IsTenant(g, u, tid);
        assert IsTenant(g', u, tid);
      }
    }
  }

  // ---------------------------------------------------------------- update

  /**
   * The criteria as a partial `_update_nodes` really compares them: the mods
   * items are written into the same map later, so a key present in both is
   * compared with its mods value.
   */
  function Rebound(criteria: seq<Entry>, mods: seq<Entry>): (r: seq<Entry>)
    ensures |r| == |criteria|
    ensures forall i :: 0 <= i < |r| ==> r[i].0 == criteria[i].0
  {
    seq(|criteria|, i requires 0 <= i < |criteria| =>
      (criteria[i].0, match Lookup(mods, criteria[i].0) case Some(v) => v case None => criteria[i].1))
  }

  /** The SET list of a partial update writes exactly the mods dict. */
  lemma {:induction false} ItemsMapOf(d: seq<Entry>, params: Params)
    requires forall i :: 0 <= i < |d| ==> d[i].0 in params && params[d[i].0] == PVal(d[i].1)
    ensures ItemsMap(EqsOf(d), params) == Ok(ToMap(d))
  {
    if d != [] {
      var p := d[..|d| - 1];
      assert EqsOf(d)[..|d| - 1] == EqsOf(p);
      ItemsMapOf(p, params);
    }
  }

  /**
   * A partial update the driver refuses (`PartialRefusal`) fails with that
   * error; one with no mods is a syntax error (`SET ` with nothing after it);
   * otherwise every node selected by the rebound criteria, under the tenant a
   * `tenant_id` item of mods or criteria may substitute, has the mods merged
   * into its properties, and nothing else changes.
   */
  lemma PartialUpdateEffect(g: Graph, labelName: string, criteria: seq<Entry>, mods: seq<Entry>, tenantId: Value)
    requires Valid(g) && DistinctKeys(criteria) && DistinctKeys(mods)
    ensures var r := RunWrite(g, UpdateQuery(labelName, criteria, mods, true), UpdateParams(tenantId, criteria, mods, true));
            var refused := PartialRefusal(tenantId, criteria, mods);
            if refused.Some? then r == Err(refused.value)
            else if |mods| == 0 then r == Err(SyntaxError)
            else r == Ok(MergeInto(g, Selected(g, labelName, TenantFor(TenantFor(tenantId, criteria), mods),
                                               Rebound(criteria, mods)), ToMap(mods)))
  {
    var params := UpdateParams(tenantId, criteria, mods, true);
    var q := UpdateQuery(labelName, criteria, mods, true);
    PartialParams(tenantId, criteria, mods);
    PartialRefusalOf(tenantId, criteria, mods);
    UpdateParamsBound(labelName, criteria, mods, true, tenantId);
    if PartialRefusal(tenantId, criteria, mods).Some? {
    } else if |mods| > 0 {
      PartialMerge(g, labelName, criteria, mods, params);
    } else {
      assert Malformed(q);
    }
  }

  /** The merge step of a partial update, for any parameter map binding what the query names. */
  lemma PartialMerge(g: Graph, labelName: string, criteria: seq<Entry>, mods: seq<Entry>, params: Params)
    requires Valid(g) && |mods| > 0
    requires ParamNames(UpdateQuery(labelName, criteria, mods, true)) <= params.Keys
    requires var rb := Rebound(criteria, mods);
             forall i :: 0 <= i < |rb| ==> rb[i].0 in params && params[rb[i].0] == PVal(rb[i].1)
    requires forall i :: 0 <= i < |mods| ==> mods[i].0 in params && params[mods[i].0] == PVal(mods[i].1)
    ensures RunWrite(g, UpdateQuery(labelName, criteria, mods, true), params)
         == if Refusal(params).Some? then Err(Refusal(params).value)
            else Ok(MergeInto(g, Selected(g, labelName, TenantParam(params), Rebound(criteria, mods)), ToMap(mods)))
  {
    var q := UpdateQuery(labelName, criteria, mods, true);
    var rb := Rebound(criteria, mods);
    assert EqsOf(rb) == EqsOf(criteria);
    assert WhereList(q.where) == EqsOf(rb);
    MatchedSelected(g, labelName, rb, params);
    ItemsMapOf(mods, params);
    WriteMerges(g, q, params, ToMap(mods));
  }

  /**
   * A well-formed `SET n.k = $p, ...` whose items are all property values,
   * sent by the driver, merges them into every matched node.
   */
  lemma WriteMerges(g: Graph, q: Query, params: Params, m: Props)
    requires Valid(g) && q.Write? && q.assign.SetItems? && ParamNames(q) <= params.Keys && !Malformed(q)
    requires ItemsMap(q.assign.items, params) == Ok(m)
    ensures RunWrite(g, q, params) == if Refusal(params).Some? then Err(Refusal(params).value)
                                      else Ok(MergeInto(g, Matched(g, q.labelName, WhereList(q.where), params), m))
  {
    UnmatchedSetIsNoOp(g, m);
  }

  /** A well-formed `SET n = $p` with a map bound to `p`, sent by the driver, replaces the properties of every matched node. */
  lemma WriteReplaces(g: Graph, q: Query, params: Params, m: Props)
    requires Valid(g) && q.Write? && q.assign.ReplaceAll? && ParamNames(q) <= params.Keys && !Malformed(q)
    requires params[q.assign.param] == PMap(m)
    ensures RunWrite(g, q, params) == if Refusal(params).Some? then Err(Refusal(params).value)
                                      else Ok(ReplaceIn(g, Matched(g, q.labelName, WhereList(q.where), params), m))
  {
    UnmatchedSetIsNoOp(g, m);
  }

  /** Every parameter an update query names is passed. */
  lemma UpdateParamsBound(labelName: string, criteria: seq<Entry>, mods: seq<Entry>, partial: bool, tenantId: Value)
    ensures ParamNames(UpdateQuery(labelName, criteria, mods, partial)) <= UpdateParams(tenantId, criteria, mods, partial).Keys
  {
    var q := UpdateQuery(labelName, criteria, mods, partial);
    var base := MatchParams(tenantId, criteria);
    var params := UpdateParams(tenantId, criteria, mods, partial);
    assert base.Keys <= params.Keys by {
      if partial {
        forall k | k in base ensures k in params { OverwriteLookup(base, mods, k); }
      }
    }
    OverwriteLookup(map["tenant_id" := PVal(tenantId)], criteria, "tenant_id");
    forall e | e in WhereList(q.where) ensures e.param in params {
      var i :| 0 <= i < |criteria| && EqsOf(criteria)[i] == e;
      PresentKey(criteria, i);
      OverwriteLookup(map["tenant_id" := PVal(tenantId)], criteria, e.param);
    }
    if partial {
      forall e | e in q.assign.items ensures e.param in params {
        var i :| 0 <= i < |mods| && EqsOf(mods)[i] == e;
        PresentKey(mods, i);
        OverwriteLookup(base, mods, e.param);
      }
    }
  }

  /** The key of an item is found in the dict. */
  lemma PresentKey(d: seq<Entry>, i: nat)
    requires i < |d|
    ensures Lookup(d, d[i].0).Some?
  {
    ToMapLookup(d, d[i].0);
    assert d[i].0 in KeySet(d);
  }

  /** The parameter map of a partial update binds the rebound criteria, the mods and the substituted tenant. */
  lemma PartialParams(tenantId: Value, criteria: seq<Entry>, mods: seq<Entry>)
    requires DistinctKeys(criteria) && DistinctKeys(mods)
    ensures var params := UpdateParams(tenantId, criteria, mods, true);
            && (var rb := Rebound(criteria, mods);
                forall i :: 0 <= i < |rb| ==> rb[i].0 in params && params[rb[i].0] == PVal(rb[i].1))
            && (forall i :: 0 <= i < |mods| ==> mods[i].0 in params && params[mods[i].0] == PVal(mods[i].1))
            && TenantParam(params) == TenantFor(TenantFor(tenantId, criteria), mods)
  {
    var base := MatchParams(tenantId, criteria);
    var params := Overwrite(base, mods);
    var rb := Rebound(criteria, mods);
    forall i | 0 <= i < |rb| ensures rb[i].0 in params && params[rb[i].0] == PVal(rb[i].1) {
      ItemBound(map["tenant_id" := PVal(tenantId)], criteria, i);
      OverwriteLookup(base, mods, criteria[i].0);
    }
    forall i | 0 <= i < |mods| ensures mods[i].0 in params && params[mods[i].0] == PVal(mods[i].1) {
      ItemBound(base, mods, i);
    }
    MatchTenant(tenantId, criteria);
    OverwriteLookup(map["tenant_id" := PVal(tenantId)], criteria, "tenant_id");
    OverwriteLookup(base, mods, "tenant_id");
  }

  /**
   * When criteria and mods share no key and neither names `tenant_id`, a
   * partial update the driver does not refuse merges the mods into exactly
   * the nodes `find` would read.
   */
  lemma PartialUpdateDisjoint(g: Graph, labelName: string, criteria: seq<Entry>, mods: seq<Entry>, tenantId: Value)
    requires Valid(g) && DistinctKeys(criteria) && DistinctKeys(mods) && |mods| > 0
    requires KeySet(criteria) !! KeySet(mods)
    requires "tenant_id" !in KeySet(criteria) && "tenant_id" !in KeySet(mods)
    ensures var refused := PartialRefusal(tenantId, criteria, mods);
            var r := RunWrite(g, UpdateQuery(labelName, criteria, mods, true), UpdateParams(tenantId, criteria, mods, true));
            r == if refused.Some? then Err(refused.value)
                 else Ok(MergeInto(g, Selected(g, labelName, tenantId, criteria), ToMap(mods)))
  {
    PartialUpdateEffect(g, labelName, criteria, mods, tenantId);
    ReboundDisjoint(criteria, mods);
    ToMapLookup(criteria, "tenant_id");
    ToMapLookup(mods, "tenant_id");
  }

  /** With no key in common, the mods leave the criteria as they are. */
  lemma ReboundDisjoint(criteria: seq<Entry>, mods: seq<Entry>)
    requires KeySet(criteria) !! KeySet(mods)
    ensures Rebound(criteria, mods) == criteria
  {
    forall i | 0 <= i < |criteria| ensures Rebound(criteria, mods)[i] == criteria[i] {
      assert criteria[i].0 in KeySet(criteria);
      ToMapLookup(mods, criteria[i].0);
    }
  }

  /**
   * A full replace (`SET n = $mods`) the driver does not refuse
   * (`FullRefusal`) gives every selected node exactly the non-null mods as
   * its properties; a criteria key `mods` is compared with the mods map
   * itself and so selects nothing.
   */
  lemma FullReplaceEffect(g: Graph, labelName: string, criteria: seq<Entry>, mods: seq<Entry>, tenantId: Value)
    requires Valid(g) && DistinctKeys(criteria)
    ensures var refused := FullRefusal(tenantId, criteria, mods);
            var r := RunWrite(g, UpdateQuery(labelName, criteria, mods, false), UpdateParams(tenantId, criteria, mods, false));
            r == if refused.Some? then Err(refused.value)
                 else Ok(ReplaceIn(g, if "mods" in KeySet(criteria) then {}
                                      else Selected(g, labelName, TenantFor(tenantId, criteria), criteria), ToMap(mods)))
  {
    FullRefusalOf(tenantId, criteria, mods);
    var base := MatchParams(tenantId, criteria);
    var params := base["mods" := PMap(ToMap(mods))];
    var q := UpdateQuery(labelName, criteria, mods, false);
    OverwriteLookup(map["tenant_id" := PVal(tenantId)], criteria, "tenant_id");
    MatchTenant(tenantId, criteria);
    assert TenantParam(params) == TenantFor(tenantId, criteria);
    forall i | 0 <= i < |criteria| ensures criteria[i].0 in params {
      ItemBound(map["tenant_id" := PVal(tenantId)], criteria, i);
    }
    assert ParamNames(q) <= params.Keys;
    if "mods" in KeySet(criteria) {
      var j :| 0 <= j < |criteria| && criteria[j].0 == "mods";
      assert EqsOf(criteria)[j] in WhereList(q.where);
      assert Matched(g, labelName, WhereList(q.where), params) == {};
    } else {
      forall i | 0 <= i < |criteria| ensures params[criteria[i].0] == PVal(criteria[i].1) {
        assert criteria[i].0 in KeySet(criteria);
        ItemBound(map["tenant_id" := PVal(tenantId)], criteria, i);
      }
      MatchedSelected(g, labelName, criteria, params);
    }
    UnmatchedSetIsNoOp(g, ToMap(mods));
  }

  /**
   * A full replace does not carry the `id` forward: when the driver sends
   * it, afterwards a selected node has an `id` only if the mods dict itself
   * holds a non-null one.
   */
  lemma FullReplaceDropsId(g: Graph, labelName: string, criteria: seq<Entry>, mods: seq<Entry>, tenantId: Value,
                           h: Handle)
    requires Valid(g) && DistinctKeys(criteria) && "mods" !in KeySet(criteria)
    requires h in Selected(g, labelName, TenantFor(tenantId, criteria), criteria)
    ensures var r := RunWrite(g, UpdateQuery(labelName, criteria, mods, false), UpdateParams(tenantId, criteria, mods, false));
            && (r.Ok? <==> FullRefusal(tenantId, criteria, mods) == None)
            && (r.Ok? ==>
                  && h in r.value.nodes
                  && r.value.nodes[h].props == Stored(ToMap(mods))
                  && ("id" in r.value.nodes[h].props <==> Lookup(mods, "id").Some? && Lookup(mods, "id").value != Null))
  {
    FullReplaceEffect(g, labelName, criteria, mods, tenantId);
    ToMapLookup(mods, "id");
  }

  // ---------------------------------------------------------------- remove

  /**
   * `remove` fails with the driver's refusal (`RemoveRefusal`) when there is
   * one. Otherwise, by id it deletes the tenant's nodes of the label with that
   * id; by a criteria dict, the nodes `find` would read, and an empty dict is
   * a syntax error (`WHERE` with nothing after it). A deleted node takes every
   * edge touching it along.
   */
  lemma RemoveEffect(g: Graph, labelName: string, target: Target, tenantId: Value)
    requires Valid(g) && (target.ByCriteria? ==> DistinctKeys(target.criteria))
    ensures var r := RunDelete(g, DeleteQuery(labelName, target), DeleteParams(tenantId, target));
            var refused := RemoveRefusal(tenantId, target);
            if refused.Some? then r == Err(refused.value)
            else match target
            case ByKey(k) => r == Ok(DetachDelete(g, Selected(g, labelName, tenantId, [("id", k)])))
            case ByCriteria(c) =>
              r == if |c| == 0 then Err(SyntaxError)
                   else Ok(DetachDelete(g, Selected(g, labelName, TenantFor(tenantId, c), c)))
  {
    DeleteRefusal(tenantId, target);
    match target {
      case ByKey(k) =>
        var params := DeleteParams(tenantId, target);
        assert EqsOf([("id", k)]) == [Eq("id", "id")];
        MatchedSelected(g, labelName, [("id", k)], params);
      case ByCriteria(c) =>
        FindSelects(g, labelName, c, [], [], None, tenantId);
        MatchParamsBound(labelName, c, [], [], None, tenantId);
    }
  }
}
