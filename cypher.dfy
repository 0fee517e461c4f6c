/**
 * The queries the collection builders produce: their structure, the text they
 * are printed as, and what the store does when it runs one with a parameter
 * map. The engine is modelled on the structure that `Render` prints; query
 * parsing and planning are not modelled.
 */
module Cypher {
  import opened Values
  import opened Graph

  /** A value bound to a query parameter: a property value or a whole map (`$mods`). */
  datatype Param = PVal(v: Value) | PMap(m: Props)

  type Params = map<string, Param>

  /** The predicate or assignment item `n.<key> = $<param>`. */
  datatype Eq = Eq(key: string, param: string)

  /** `RETURN n` or `RETURN n.c1, n.c2, ...`. */
  datatype Projection = WholeNode | Columns(cols: seq<string>)

  /** `SET n.k1 = $p1, ...` or `SET n = $p`. */
  datatype Assignment = SetItems(items: seq<Eq>) | ReplaceAll(param: string)

  /**
   * Every query starts with the tenant-scoped MATCH of `(n:labelName)`;
   * `where` is None when the text has no WHERE clause at all.
   */
  datatype Query =
    | Read(labelName: string, where: Option<seq<Eq>>, ret: Projection, orderBy: seq<string>, limit: Option<int>)
    | Write(labelName: string, where: Option<seq<Eq>>, assign: Assignment)
    | Delete(labelName: string, where: Option<seq<Eq>>)

  /** A row of a read: a whole node, or the projected columns (null where a property is absent). */
  datatype Row = NodeRow(node: Node) | ColumnsRow(values: seq<Value>)

  // ---------------------------------------------------------------- text

  /** Python's `sep.join(items)`. */
  function Join(sep: string, items: seq<string>): string
  {
    if |items| == 0 then ""
    else if |items| == 1 then items[0]
    else Join(sep, items[..|items| - 1]) + sep + items[|items| - 1]
  }

  function DigitText(d: nat): string
    requires d < 10
  {
    ["0123456789"[d]]
  }

  function NatText(n: nat): string
  {
    if n < 10 then DigitText(n) else NatText(n / 10) + DigitText(n % 10)
  }

  /** Python's `f"{n}"` for an int. */
  function IntText(n: int): string
  {
    if n < 0 then "-" + NatText(-n) else NatText(n)
  }

  /** The MATCH clause every collection query starts with. */
  function Head(labelName: string): string
  {
    "MATCH (t:Tenant {id: $tenant_id})<-[:OWNS_OBJECT]-(n:" + labelName + ")"
  }

  function EqText(e: Eq): string
  {
    "n." + e.key + " = $" + e.param
  }

  function EqTexts(es: seq<Eq>): (r: seq<string>)
    ensures |r| == |es| && forall i :: 0 <= i < |es| ==> r[i] == EqText(es[i])
  {
    seq(|es|, i requires 0 <= i < |es| => EqText(es[i]))
  }

  /** `['n.' + col for col in cols]`. */
  function Qualified(cols: seq<string>): (r: seq<string>)
    ensures |r| == |cols| && forall i :: 0 <= i < |cols| ==> r[i] == "n." + cols[i]
  {
    seq(|cols|, i requires 0 <= i < |cols| => "n." + cols[i])
  }

  function WhereText(w: Option<seq<Eq>>): string
  {
    match w
    case None => ""
    case Some(es) => " WHERE " + Join(" AND ", EqTexts(es))
  }

  function ReturnText(p: Projection): string
  {
    match p
    case WholeNode => " RETURN n"
    case Columns(cols) => " RETURN " + Join(", ", Qualified(cols))
  }

  function OrderText(cols: seq<string>): string
  {
    if |cols| == 0 then "" else " ORDER BY " + Join(", ", Qualified(cols))
  }

  function LimitText(l: Option<int>): string
  {
    match l
    case None => ""
    case Some(n) => " LIMIT " + IntText(n)
  }

  function AssignText(a: Assignment): string
  {
    match a
    case SetItems(items) => " SET " + Join(", ", EqTexts(items))
    case ReplaceAll(p) => " SET n = $" + p
  }

  /** The query text: the clauses in the fixed order MATCH, WHERE, RETURN/SET/DELETE, ORDER BY, LIMIT. */
  function Render(q: Query): string
  {
    match q
    case Read(l, w, ret, ob, lim) => Head(l) + WhereText(w) + ReturnText(ret) + OrderText(ob) + LimitText(lim)
    case Write(l, w, a) => Head(l) + WhereText(w) + AssignText(a)
    case Delete(l, w) => Head(l) + WhereText(w) + " DETACH DELETE n"
  }

  // ---------------------------------------------------------------- meaning

  function WhereList(w: Option<seq<Eq>>): seq<Eq>
  {
    match w
    case None => []
    case Some(es) => es
  }

  /** The parameters the query text names. */
  function ParamNames(q: Query): set<string>
  {
    var wh := set e | e in WhereList(q.where) :: e.param;
    match q
    case Read(_, _, _, _, _) => {"tenant_id"} + wh
    case Write(_, _, a) =>
      {"tenant_id"} + wh + (match a
                            case SetItems(items) => set e | e in items :: e.param
                            case ReplaceAll(p) => {p})
    case Delete(_, _) => {"tenant_id"} + wh
  }

  /** Some name occurs twice in `cols`. */
  predicate Repeats(cols: seq<string>) {
    exists i, j :: 0 <= i < j < |cols| && cols[i] == cols[j]
  }

  /**
   * True if the query text is one the engine rejects: an empty WHERE, SET or
   * RETURN list, or a RETURN list naming one column twice (the engine refuses
   * two result columns with the same name).
   */
  predicate Malformed(q: Query)
  {
    || q.where == Some([])
    || (q.Read? && q.ret == Columns([]))
    || (q.Read? && q.ret.Columns? && Repeats(q.ret.cols))
    || (q.Write? && q.assign == SetItems([]))
  }

  /** The driver can pack every value bound in `params`, map entries included. */
  predicate ParamsFit(params: Params) {
    forall k :: k in params ==> match params[k] case PVal(v) => Fits(v) case PMap(m) => PropsFit(m)
  }

  /**
   * What `tx.run(query, **params)` raises before the query reaches the store.
   * The driver's method is `run(self, query, parameters=None, **kwparameters)`:
   * a key `self` or `query` is a second value for one of its arguments. A key
   * `parameters` is taken as the driver's own parameter-map argument: a falsy
   * value is dropped, leaving `$parameters` unbound, and any other value is
   * not a map. Both are reported as `ArgumentClash`. Otherwise packing fails
   * on an integer beyond 64 bits.
   */
  function Refusal(params: Params): (r: Option<Error>)
    ensures r == None <==> "self" !in params && "query" !in params && "parameters" !in params && ParamsFit(params)
    ensures r.Some? ==> r.value in {ArgumentClash, IntegerOverflow}
  {
    if "self" in params || "query" in params || "parameters" in params then Some(ArgumentClash)
    else if !ParamsFit(params) then Some(IntegerOverflow)
    else None
  }

  /** The value bound to `$tenant_id`; a map or a null matches no tenant node. */
  function TenantParam(params: Params): Value
  {
    if "tenant_id" in params && params["tenant_id"].PVal? then params["tenant_id"].v else Null
  }

  /** `n.<key> = $<param>`: a null on either side is not equal to anything. */
  predicate EqHolds(n: Node, e: Eq, params: Params)
  {
    && e.param in params && params[e.param].PVal? && params[e.param].v != Null
    && e.key in n.props && n.props[e.key] == params[e.param].v
  }

  /** The nodes the MATCH ... WHERE part of a query binds to `n`. */
  function Matched(g: Graph, labelName: string, where: seq<Eq>, params: Params): (r: set<Handle>)
    ensures forall h :: h in r <==>
      Visible(g, labelName, TenantParam(params), h) && forall e :: e in where ==> EqHolds(g.nodes[h], e, params)
  {
    set h | h in g.nodes && Visible(g, labelName, TenantParam(params), h) && forall e :: e in where ==> EqHolds(g.nodes[h], e, params)
  }

  function Project(n: Node, p: Projection): Row
  {
    match p
    case WholeNode => NodeRow(n)
    case Columns(cols) =>
      ColumnsRow(seq(|cols|, i requires 0 <= i < |cols| => if cols[i] in n.props then n.props[cols[i]] else Null))
  }

  /** The rows a read the driver sends returns, in creation order, cut to its LIMIT. */
  function RunRead(g: Graph, q: Query, params: Params): (r: Result<seq<Row>>)
    requires Valid(g) && q.Read?
  {
    if Refusal(params).Some? then Err(Refusal(params).value)
    else if !(ParamNames(q) <= params.Keys) then Err(MissingParameter)
    else if Malformed(q) then Err(SyntaxError)
    else if q.limit.Some? && q.limit.value < 0 then Err(NegativeLimit)
    else
      var hs := Ordered(Matched(g, q.labelName, WhereList(q.where), params), 0, g.next);
      var rows := seq(|hs|, i requires 0 <= i < |hs| => Project(g.nodes[hs[i]], q.ret));
      Ok(if q.limit.Some? && q.limit.value < |rows| then rows[..q.limit.value] else rows)
  }

  /**
   * A read the driver sends, naming only bound parameters, well formed and
   * without a negative limit, returns one projected row per matched node in
   * creation order, cut to the limit.
   */
  lemma ReadRows(g: Graph, q: Query, params: Params)
    requires Valid(g) && q.Read? && Refusal(params) == None && ParamNames(q) <= params.Keys && !Malformed(q)
    requires !(q.limit.Some? && q.limit.value < 0)
    ensures var hs := Ordered(Matched(g, q.labelName, WhereList(q.where), params), 0, g.next);
            var r := RunRead(g, q, params);
            && r.Ok?
            && |r.value| == (if q.limit.Some? && q.limit.value < |hs| then q.limit.value else |hs|)
            && forall i :: 0 <= i < |r.value| ==> r.value[i] == Project(g.nodes[hs[i]], q.ret)
  {
  }

  /** The property map a `SET n.k = $p, ...` list writes (items applied in order), or a type error. */
  function ItemsMap(items: seq<Eq>, params: Params): Result<Props>
    requires forall e :: e in items ==> e.param in params
  {
    if items == [] then Ok(map[])
    else
      var last := items[|items| - 1];
      match ItemsMap(items[..|items| - 1], params)
      case Err(e) => Err(e)
      case Ok(m) =>
        match params[last.param]
        case PVal(v) => Ok(m[last.key := v])
        case PMap(_) => Err(TypeMismatch)
  }

  /** The store after a write query; the SET applies to every matched node. */
  function RunWrite(g: Graph, q: Query, params: Params): (r: Result<Graph>)
    requires Valid(g) && q.Write?
    ensures r.Ok? ==> Valid(r.value)
  {
    if Refusal(params).Some? then Err(Refusal(params).value)
    else if !(ParamNames(q) <= params.Keys) then Err(MissingParameter)
    else if Malformed(q) then Err(SyntaxError)
    else
      var d := Matched(g, q.labelName, WhereList(q.where), params);
      if d == {} then Ok(g)
      else
        match q.assign
        case SetItems(items) =>
          (match ItemsMap(items, params)
           case Err(e) => Err(e)
           case Ok(m) => Ok(MergeInto(g, d, m)))
        case ReplaceAll(p) =>
          (match params[p]
           case PMap(m) => Ok(ReplaceIn(g, d, m))
           case PVal(_) => Err(TypeMismatch))
  }

  /** The store after a delete query: `DETACH DELETE` of every matched node. */
  function RunDelete(g: Graph, q: Query, params: Params): (r: Result<Graph>)
    requires Valid(g) && q.Delete?
    ensures r.Ok? ==> Valid(r.value)
  {
    if Refusal(params).Some? then Err(Refusal(params).value)
    else if !(ParamNames(q) <= params.Keys) then Err(MissingParameter)
    else if Malformed(q) then Err(SyntaxError)
    else Ok(DetachDelete(g, Matched(g, q.labelName, WhereList(q.where), params)))
  }
}
