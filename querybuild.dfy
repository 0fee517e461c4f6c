/**
 * The query builders of `Neo4jCollection`: `_create_node`, `_match_nodes`,
 * `_update_nodes` and `_delete_nodes`. Each builder assembles the query text
 * clause by clause and fills one parameter map in a loop; criteria values,
 * mods values and `tenant_id` all share that map, so a later write overwrites
 * an earlier one with the same key.
 */
module QueryBuilder {
  import opened Values
  import opened Graph
  import opened Cypher

  // ---------------------------------------------------------------- parameter maps

  /** `params[k] = v` for every item of `d`, in order, starting from `base`. */
  function Overwrite(base: Params, d: seq<Entry>): Params
  {
    if d == [] then base else Overwrite(base, d[..|d| - 1])[d[|d| - 1].0 := PVal(d[|d| - 1].1)]
  }

  /** After the writes, a key holds the value of the last item that wrote it, or else its value in `base`. */
  lemma {:induction false} OverwriteLookup(base: Params, d: seq<Entry>, k: string)
    ensures k in Overwrite(base, d) <==> k in base || Lookup(d, k).Some?
    ensures Lookup(d, k).Some? ==> Overwrite(base, d)[k] == PVal(Lookup(d, k).value)
    ensures Lookup(d, k).None? && k in base ==> Overwrite(base, d)[k] == base[k]
  {
    if d != [] {
      OverwriteLookup(base, d[..|d| - 1], k);
    }
  }

  /** The map `_match_nodes` passes: `{tenant_id}` overwritten by every criteria item. */
  function MatchParams(tenantId: Value, criteria: seq<Entry>): Params
  {
    Overwrite(map["tenant_id" := PVal(tenantId)], criteria)
  }

  /** The map `_update_nodes` passes: the criteria map, then every mods item (partial) or `mods` itself. */
  function UpdateParams(tenantId: Value, criteria: seq<Entry>, mods: seq<Entry>, partial: bool): Params
  {
    if partial then Overwrite(MatchParams(tenantId, criteria), mods)
    else MatchParams(tenantId, criteria)["mods" := PMap(ToMap(mods))]
  }

  /** The argument of `remove`: a single id, or a criteria dict. */
  datatype Target = ByKey(key: Value) | ByCriteria(criteria: seq<Entry>)

  /** The map `_delete_nodes` passes. */
  function DeleteParams(tenantId: Value, target: Target): Params
  {
    match target
    case ByKey(k) => map["tenant_id" := PVal(tenantId), "id" := PVal(k)]
    case ByCriteria(c) => MatchParams(tenantId, c)
  }

  /** The tenant the MATCH head really selects: a `tenant_id` item of `d` replaces the adaptor's. */
  function TenantFor(tenantId: Value, d: seq<Entry>): Value
  {
    match Lookup(d, "tenant_id")
    case Some(v) => v
    case None => tenantId
  }

  // ---------------------------------------------------------------- query structure

  /** One `n.<key> = $<key>` per item, in the dict's order. */
  function EqsOf(d: seq<Entry>): (r: seq<Eq>)
    ensures |r| == |d| && forall i :: 0 <= i < |d| ==> r[i] == Eq(d[i].0, d[i].0)
  {
    seq(|d|, i requires 0 <= i < |d| => Eq(d[i].0, d[i].0))
  }

  /** The WHERE part of `_match_nodes` and `_update_nodes`: none for empty criteria. */
  function CriteriaWhere(criteria: seq<Entry>): Option<seq<Eq>>
  {
    if |criteria| == 0 then None else Some(EqsOf(criteria))
  }

  /** The query `_match_nodes` assembles; LIMIT only for a truthy limit, RETURN n for no columns. */
  function MatchQuery(labelName: string, criteria: seq<Entry>, onlyCols: seq<string>, orderBy: seq<string>,
                      limit: Option<int>): (q: Query)
  {
    Read(labelName, CriteriaWhere(criteria),
         if |onlyCols| == 0 then WholeNode else Columns(onlyCols),
         orderBy,
         if limit.Some? && limit.value != 0 then limit else None)
  }

  /** The query `_update_nodes` assembles. */
  function UpdateQuery(labelName: string, criteria: seq<Entry>, mods: seq<Entry>, partial: bool): Query
  {
    Write(labelName, CriteriaWhere(criteria), if partial then SetItems(EqsOf(mods)) else ReplaceAll("mods"))
  }

  /** The query `_delete_nodes` assembles: a WHERE is always written. */
  function DeleteQuery(labelName: string, target: Target): Query
  {
    match target
    case ByKey(_) => Delete(labelName, Some([Eq("id", "id")]))
    case ByCriteria(c) => Delete(labelName, Some(EqsOf(c)))
  }

  // ---------------------------------------------------------------- the builders

  /** The `n.<key> = $<key>` texts of `d`, and `d` written into `params`. */
  method EqualityClauses(d: seq<Entry>, base: Params) returns (clauses: seq<string>, params: Params)
    ensures clauses == EqTexts(EqsOf(d))
    ensures params == Overwrite(base, d)
  {
    clauses, params := [], base;
    var i := 0;
    while i < |d|
      invariant 0 <= i <= |d|
      invariant clauses == EqTexts(EqsOf(d[..i]))
      invariant params == Overwrite(base, d[..i])
    {
      var (key, value) := d[i];
      clauses := clauses + ["n." + key + " = $" + key];
      params := params[key := PVal(value)];
      assert d[..i + 1][..i] == d[..i];
      i := i + 1;
    }
    assert d[..i] == d;
  }

  /** The `if criteria:` block shared by `_match_nodes` and `_update_nodes`. */
  method AppendWhere(query0: string, params0: Params, criteria: seq<Entry>) returns (query: string, params: Params)
    ensures query == query0 + WhereText(CriteriaWhere(criteria))
    ensures params == Overwrite(params0, criteria)
  {
    query, params := query0, params0;
    if |criteria| > 0 {
      var whereClauses;
      whereClauses, params := EqualityClauses(criteria, params);
      query := query + " WHERE " + Join(" AND ", whereClauses);
    }
  }

  /** `_match_nodes`: the read query text and its parameters. */
  method MatchNodes(labelName: string, criteria: seq<Entry>, onlyCols: seq<string>, orderBy: seq<string>,
                    limit: Option<int>, tenantId: Value)
    returns (query: string, params: Params)
    ensures query == Render(MatchQuery(labelName, criteria, onlyCols, orderBy, limit))
    ensures params == MatchParams(tenantId, criteria)
  {
    ghost var q := MatchQuery(labelName, criteria, onlyCols, orderBy, limit);
    assert Render(q) == Head(labelName) + WhereText(q.where) + ReturnText(q.ret) + OrderText(orderBy) + LimitText(q.limit);
    query := "MATCH (t:Tenant {id: $tenant_id})<-[:OWNS_OBJECT]-(n:" + labelName + ")";
    params := map["tenant_id" := PVal(tenantId)];
    assert query == Head(labelName);
    query, params := AppendWhere(query, params, criteria);
    if |onlyCols| > 0 {
      query := query + " RETURN " + Join(", ", Qualified(onlyCols));
    } else {
      query := query + " RETURN n";
    }
    assert query == Head(labelName) + WhereText(q.where) + ReturnText(q.ret);
    if |orderBy| > 0 {
      query := query + " ORDER BY " + Join(", ", Qualified(orderBy));
    }
    assert query == Head(labelName) + WhereText(q.where) + ReturnText(q.ret) + OrderText(orderBy);
    if limit.Some? && limit.value != 0 {
      query := query + " LIMIT " + IntText(limit.value);
    }
  }

  /** `_update_nodes`: the write query text and its parameters. */
  method UpdateNodes(labelName: string, criteria: seq<Entry>, mods: seq<Entry>, partial: bool, tenantId: Value)
    returns (query: string, params: Params)
    ensures query == Render(UpdateQuery(labelName, criteria, mods, partial))
    ensures params == UpdateParams(tenantId, criteria, mods, partial)
  {
    ghost var q := UpdateQuery(labelName, criteria, mods, partial);
    query := "MATCH (t:Tenant {id: $tenant_id})<-[:OWNS_OBJECT]-(n:" + labelName + ")";
    params := map["tenant_id" := PVal(tenantId)];
    assert query == Head(labelName);
    query, params := AppendWhere(query, params, criteria);
    assert params == MatchParams(tenantId, criteria);
    ghost var prefix := query;
    assert prefix == Head(labelName) + WhereText(q.where);
    if partial {
      var setClauses;
      setClauses, params := EqualityClauses(mods, params);
      query := query + " SET " + Join(", ", setClauses);
      assert query == prefix + AssignText(SetItems(EqsOf(mods)));
    } else {
      query := query + " SET n = $mods";
      params := params["mods" := PMap(ToMap(mods))];
      assert query == prefix + AssignText(ReplaceAll("mods"));
    }
  }

  /** `_delete_nodes`: the delete query text and its parameters. */
  method DeleteNodes(labelName: string, target: Target, tenantId: Value) returns (query: string, params: Params)
    ensures query == Render(DeleteQuery(labelName, target))
    ensures params == DeleteParams(tenantId, target)
  {
    query := "MATCH (t:Tenant {id: $tenant_id})<-[:OWNS_OBJECT]-(n:" + labelName + ")";
    params := map["tenant_id" := PVal(tenantId)];
    ghost var q := DeleteQuery(labelName, target);
    assert query == Head(labelName);
    match target {
      case ByCriteria(c) =>
        var whereClauses;
        whereClauses, params := EqualityClauses(c, params);
        query := query + " WHERE " + Join(" AND ", whereClauses);
      case ByKey(k) =>
        query := query + " WHERE n.id = $id";
        params := params["id" := PVal(k)];
        assert EqText(Eq("id", "id")) == "n.id = $id";
    }
    assert query == Head(labelName) + WhereText(q.where);
    query := query + " DETACH DELETE n";
  }
}
