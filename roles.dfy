/**
 * Role relations between objects: `relate`, `unrelate` and `get_roleset`,
 * and the same MERGE and DELETE a changeset's related entries run. Subject
 * and object are found by their `id` property alone, whatever their label;
 * the relationship type is the role's name from the role registry.
 */
module Roles {
  import opened Values
  import opened Graph

  /** The relationship type used for a role the registry does not know. */
  const DefaultRole := "RELATED_TO"

  /** The role registry lookup: the registered name, or `RELATED_TO`. */
  function RoleName(roles: map<Value, string>, roleId: Value): (r: string)
    ensures roleId in roles ==> r == roles[roleId]
    ensures roleId !in roles ==> r == DefaultRole
  {
    if roleId in roles then roles[roleId] else DefaultRole
  }

  /** The edge `e` joins a node with id `sid` to a node with id `oid` by `rel`. */
  predicate Joins(g: Graph, e: Edge, rel: string, sid: Value, oid: Value)
    requires Valid(g) && e in g.edges
  {
    e.rel == rel && HasId(g.nodes[e.src], sid) && HasId(g.nodes[e.dst], oid)
  }

  /**
   * `MATCH (subject {id: $s}), (object {id: $o}) MERGE (subject)-[:rel]->(object)`:
   * every matched pair gets the edge unless it has it already.
   */
  function Relate(g: Graph, rel: string, sid: Value, oid: Value): (r: Graph)
    requires Valid(g)
    ensures Valid(r) && r.nodes == g.nodes && r.next == g.next
    ensures forall e :: e in r.edges <==>
      e in g.edges || (e.rel == rel && e.src in WithId(g, sid) && e.dst in WithId(g, oid))
  {
    var added := set s, o | s in WithId(g, sid) && o in WithId(g, oid) :: Edge(s, rel, o);
    assert forall e :: e in added <==> e.rel == rel && e.src in WithId(g, sid) && e.dst in WithId(g, oid) by {
      forall e: Edge | e.rel == rel && e.src in WithId(g, sid) && e.dst in WithId(g, oid) ensures e in added {
        assert e == Edge(e.src, rel, e.dst);
      }
    }
    Graph(g.nodes, g.edges + added, g.next)
  }

  /**
   * `MATCH (subject {id: $s})-[r:rel]->(object {id: $o}) DELETE r`: every
   * such edge goes, nodes and other edges stay.
   */
  function Unrelate(g: Graph, rel: string, sid: Value, oid: Value): (r: Graph)
    requires Valid(g)
    ensures Valid(r) && r.nodes == g.nodes && r.next == g.next
    ensures forall e :: e in r.edges <==> e in g.edges && !Joins(g, e, rel, sid, oid)
  {
    Graph(g.nodes, (set e | e in g.edges && !Joins(g, e, rel, sid, oid)), g.next)
  }

  /** The edge `e` is a `rel` edge whose subject end has id `subject`: forward from it, or into it when reversed. */
  predicate FromSubject(g: Graph, e: Edge, rel: string, subject: Value, reverse: bool)
    requires Valid(g) && e in g.edges
  {
    e.rel == rel && HasId(g.nodes[if reverse then e.dst else e.src], subject)
  }

  /** The `id` of the far end of `e`, as `object.id` returns it. */
  function FarId(g: Graph, e: Edge, reverse: bool): Value
    requires Valid(g) && e in g.edges
  {
    IdOf(g.nodes[if reverse then e.src else e.dst])
  }

  /**
   * `get_roleset`: the ids of the nodes the subject reaches by `rel`, or that
   * reach it when reversed; a related node without an id contributes null.
   */
  function RoleSet(g: Graph, subject: Value, rel: string, reverse: bool): (r: set<Value>)
    requires Valid(g)
    ensures forall v :: v in r <==> exists e :: e in g.edges && FromSubject(g, e, rel, subject, reverse) && FarId(g, e, reverse) == v
  {
    set e: Edge | e in g.edges && FromSubject(g, e, rel, subject, reverse) :: FarId(g, e, reverse)
  }

  // ---------------------------------------------------------------- properties

  /** Relating twice is relating once (MERGE creates no duplicate). */
  lemma RelateIdempotent(g: Graph, rel: string, sid: Value, oid: Value)
    requires Valid(g)
    ensures Relate(Relate(g, rel, sid, oid), rel, sid, oid) == Relate(g, rel, sid, oid)
  {
    var r1 := Relate(g, rel, sid, oid);
    assert WithId(r1, sid) == WithId(g, sid) && WithId(r1, oid) == WithId(g, oid);
    assert Relate(r1, rel, sid, oid).edges == r1.edges;
  }

  /**
   * After `relate`, the subject's roleset holds the object's id exactly when
   * a node with each id exists or the relation held already.
   */
  lemma RelateReaches(g: Graph, rel: string, sid: Value, oid: Value)
    requires Valid(g)
    ensures oid in RoleSet(Relate(g, rel, sid, oid), sid, rel, false) <==>
            (WithId(g, sid) != {} && WithId(g, oid) != {}) || oid in RoleSet(g, sid, rel, false)
  {
    RelateOnlyAdds(g, rel, sid, oid, sid, rel, false);
    if WithId(g, sid) != {} && WithId(g, oid) != {} {
      RelatePairReached(g, rel, sid, oid);
    }
    if oid in RoleSet(Relate(g, rel, sid, oid), sid, rel, false) && oid !in RoleSet(g, sid, rel, false) {
      RelateNewEdge(g, rel, sid, oid);
    }
  }

  /** When both ids are present, `relate` puts the object into the subject's roleset. */
  lemma RelatePairReached(g: Graph, rel: string, sid: Value, oid: Value)
    requires Valid(g) && WithId(g, sid) != {} && WithId(g, oid) != {}
    ensures oid in RoleSet(Relate(g, rel, sid, oid), sid, rel, false)
  {
    var r := Relate(g, rel, sid, oid);
    var s :| s in WithId(g, sid);
    var o :| o in WithId(g, oid);
    var e := Edge(s, rel, o);
    assert e in r.edges && FromSubject(r, e, rel, sid, false) && FarId(r, e, false) == oid;
  }

  /** An object `relate` newly puts into the subject's roleset comes from an added edge, so both ids are present. */
  lemma RelateNewEdge(g: Graph, rel: string, sid: Value, oid: Value)
    requires Valid(g)
    requires oid in RoleSet(Relate(g, rel, sid, oid), sid, rel, false) && oid !in RoleSet(g, sid, rel, false)
    ensures WithId(g, sid) != {} && WithId(g, oid) != {}
  {
    var r := Relate(g, rel, sid, oid);
    var e :| e in r.edges && FromSubject(r, e, rel, sid, false) && FarId(r, e, false) == oid;
    assert e !in g.edges;
    assert e.src in WithId(g, sid) && e.dst in WithId(g, oid);
  }

  /** `relate` adds only what its pattern names: every other roleset is as it was, or grows by the object. */
  lemma RelateOnlyAdds(g: Graph, rel: string, sid: Value, oid: Value, subject: Value, rel2: string, reverse: bool)
    requires Valid(g)
    ensures RoleSet(g, subject, rel2, reverse) <= RoleSet(Relate(g, rel, sid, oid), subject, rel2, reverse)
    ensures rel2 != rel ==> RoleSet(Relate(g, rel, sid, oid), subject, rel2, reverse) == RoleSet(g, subject, rel2, reverse)
  {
    var r := Relate(g, rel, sid, oid);
    forall v | v in RoleSet(g, subject, rel2, reverse) ensures v in RoleSet(r, subject, rel2, reverse) {
      RelateKeepsEdge(g, rel, sid, oid, subject, rel2, reverse, v);
    }
    if rel2 != rel {
      forall v | v in RoleSet(r, subject, rel2, reverse) ensures v in RoleSet(g, subject, rel2, reverse) {
        RelateOtherRole(g, rel, sid, oid, subject, rel2, reverse, v);
      }
    }
  }

  /** An edge the roleset lists before `relate` is still there after it. */
  lemma RelateKeepsEdge(g: Graph, rel: string, sid: Value, oid: Value, subject: Value, rel2: string, reverse: bool, v: Value)
    requires Valid(g) && v in RoleSet(g, subject, rel2, reverse)
    ensures v in RoleSet(Relate(g, rel, sid, oid), subject, rel2, reverse)
  {
    var r := Relate(g, rel, sid, oid);
    var e :| e in g.edges && FromSubject(g, e, rel2, subject, reverse) && FarId(g, e, reverse) == v;
    assert e in r.edges && FromSubject(r, e, rel2, subject, reverse);
  }

  /** `relate` adds no edge of another role. */
  lemma RelateOtherRole(g: Graph, rel: string, sid: Value, oid: Value, subject: Value, rel2: string, reverse: bool, v: Value)
    requires Valid(g) && rel2 != rel && v in RoleSet(Relate(g, rel, sid, oid), subject, rel2, reverse)
    ensures v in RoleSet(g, subject, rel2, reverse)
  {
    var r := Relate(g, rel, sid, oid);
    var e :| e in r.edges && FromSubject(r, e, rel2, subject, reverse) && FarId(r, e, reverse) == v;
    assert e in g.edges;
  }

  /**
   * After `unrelate`, neither end lists the other under that role (ids are
   * non-null: a null id matches no node).
   */
  lemma UnrelateSeparates(g: Graph, rel: string, sid: Value, oid: Value)
    requires Valid(g) && sid != Null && oid != Null
    ensures oid !in RoleSet(Unrelate(g, rel, sid, oid), sid, rel, false)
    ensures sid !in RoleSet(Unrelate(g, rel, sid, oid), oid, rel, true)
  {
    var r := Unrelate(g, rel, sid, oid);
    forall e | e in r.edges
      ensures !(FromSubject(r, e, rel, sid, false) && FarId(r, e, false) == oid)
      ensures !(FromSubject(r, e, rel, oid, true) && FarId(r, e, true) == sid)
    {
      assert !Joins(g, e, rel, sid, oid);
    }
  }

  /** `unrelate` undoes `relate`: relating then unrelating leaves what unrelating alone leaves. */
  lemma UnrelateUndoesRelate(g: Graph, rel: string, sid: Value, oid: Value)
    requires Valid(g)
    ensures Unrelate(Relate(g, rel, sid, oid), rel, sid, oid) == Unrelate(g, rel, sid, oid)
  {
    var r := Relate(g, rel, sid, oid);
    assert Unrelate(r, rel, sid, oid).edges == Unrelate(g, rel, sid, oid).edges;
  }

  /**
   * Role edges share the relationship namespace with ownership: a role named
   * anything but `OWNS_OBJECT` changes no node's visibility to a collection.
   */
  lemma RolesKeepVisibility(g: Graph, rel: string, sid: Value, oid: Value, labelName: string, tid: Value, h: Handle)
    requires Valid(g) && rel != OwnsObject
    ensures Visible(Relate(g, rel, sid, oid), labelName, tid, h) <==> Visible(g, labelName, tid, h)
    ensures Visible(Unrelate(g, rel, sid, oid), labelName, tid, h) <==> Visible(g, labelName, tid, h)
  {
    var r1 := Relate(g, rel, sid, oid);
    var r2 := Unrelate(g, rel, sid, oid);
    if Visible(g, labelName, tid, h) {
      var t :| t in g.nodes && Edge(h, OwnsObject, t) in g.edges && IsTenant(g, t, tid);
      assert Edge(h, OwnsObject, t) in r1.edges && Edge(h, OwnsObject, t) in r2.edges;
    }
    if Visible(r1, labelName, tid, h) {
      var t :| t in r1.nodes && Edge(h, OwnsObject, t) in r1.edges && IsTenant(r1, t, tid);
      assert Edge(h, OwnsObject, t) in g.edges;
    }
  }

  /**
   * A role named `OWNS_OBJECT` from an object to a tenant node makes the
   * object visible to that tenant's collections.
   */
  lemma OwnsObjectRoleGrantsVisibility(g: Graph, sid: Value, oid: Value, labelName: string, h: Handle, t: Handle)
    requires Valid(g) && h in WithId(g, sid) && g.nodes[h].labelName == labelName
    requires IsTenant(g, t, oid)
    ensures Visible(Relate(g, OwnsObject, sid, oid), labelName, oid, h)
  {
    assert Edge(h, OwnsObject, t) in Relate(g, OwnsObject, sid, oid).edges;
  }

  // ---------------------------------------------------------------- get_roleset outside a transaction

  /**
   * `get_roleset` as written. In a transaction the records are read from the
   * open result. Outside one, `session.run` is called inside a `with` block
   * and the set comprehension iterates the result only after the block has
   * closed the session; closing consumes the records not yet fetched, and the
   * driver (version 5, which the `execute_read` and `execute_write` calls of
   * the collections need) then raises on iteration.
   */
  function RolesetAsWritten(g: Graph, inTransaction: bool, subject: Value, rel: string, reverse: bool): (r: Result<set<Value>>)
    requires Valid(g)
    ensures inTransaction ==> r == Ok(RoleSet(g, subject, rel, reverse))
    ensures !inTransaction ==> r.Err? && r.error == ResultConsumed
  {
    if inTransaction then Ok(RoleSet(g, subject, rel, reverse)) else Err(ResultConsumed)
  }

  /** Two objects `a` and `b`, the first related to the second by the default role. */
  function RoleExample(): (g: Graph)
    ensures Valid(g)
  {
    Graph(map[0 := Node("Person", map["id" := Str("a")]), 1 := Node("Person", map["id" := Str("b")])],
          {Edge(0, DefaultRole, 1)}, 2)
  }

  /**
   * Outside a transaction the call as written loses a non-empty roleset:
   * `a`'s roleset in `RoleExample()` is `{b}`, and the call raises instead.
   */
  lemma RolesetLostOutsideTransaction()
    ensures RoleSet(RoleExample(), Str("a"), DefaultRole, false) == {Str("b")}
    ensures RolesetAsWritten(RoleExample(), false, Str("a"), DefaultRole, false) != Ok({Str("b")})
  {
    var g := RoleExample();
    var e := Edge(0, DefaultRole, 1);
    assert e in g.edges && FromSubject(g, e, DefaultRole, Str("a"), false) && FarId(g, e, false) == Str("b");
    forall v | v in RoleSet(g, Str("a"), DefaultRole, false) ensures v == Str("b") {
      var e' :| e' in g.edges && FromSubject(g, e', DefaultRole, Str("a"), false) && FarId(g, e', false) == v;
      assert e' == e;
    }
  }
}
