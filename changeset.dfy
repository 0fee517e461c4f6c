/**
 * What `apply_changes` runs inside its transaction: the tenant MERGE, then for
 * every kind in the schema's declared order its inserted, modified and
 * deleted entries, then the related entries. The batch is flattened into a
 * plan of steps in exactly the order the nested loops run them, and each
 * step is the effect of one query on the store.
 */
module Changeset {
  import opened Values
  import opened Graph
  import opened Roles

  /** The changes of one kind: `inserted` and `modified` map an id to properties, `deleted` lists ids. */
  datatype KindChanges = KindChanges(inserted: seq<(Value, Props)>, modified: seq<(Value, Props)>, deleted: seq<Value>)

  /** One entry of `changeset.related.inserted` or `.deleted`. */
  datatype RelOp = RelOp(subjectId: Value, assocId: Value, objectId: Value)

  /** A changeset: the changes of every kind it has an attribute for, and the related partition. */
  datatype Changeset = Changeset(kinds: map<string, KindChanges>, relInserted: seq<RelOp>, relDeleted: seq<RelOp>)

  /** One query `apply_changes` runs, or the `getattr` that fails for a kind the changeset lacks. */
  datatype Step =
    | MergeTenant(tid: Value)
    | InsertEntity(labelName: string, key: Value, props: Props, tid: Value)
    | ModifyEntity(labelName: string, key: Value, props: Props, tid: Value)
    | DeleteEntity(labelName: string, key: Value, tid: Value)
    | RelateStep(rel: string, sid: Value, oid: Value)
    | UnrelateStep(rel: string, sid: Value, oid: Value)
    | Missing(kind: string)

  // ---------------------------------------------------------------- labels

  function Upper(c: char): char {
    if 'a' <= c <= 'z' then (c as int - 32) as char else c
  }

  function Lower(c: char): char {
    if 'A' <= c <= 'Z' then (c as int + 32) as char else c
  }

  /** Python's `str.capitalize` on ASCII text: the label of a kind. */
  function Capitalize(s: string): (r: string)
    ensures |r| == |s|
    ensures |s| > 0 ==> r[0] == Upper(s[0])
    ensures forall i :: 0 < i < |s| ==> r[i] == Lower(s[i])
  {
    if s == [] then [] else [Upper(s[0])] + seq(|s| - 1, i requires 0 <= i < |s| - 1 => Lower(s[i + 1]))
  }

  /** Capitalizing a label again changes nothing. */
  lemma CapitalizeIdempotent(s: string)
    ensures Capitalize(Capitalize(s)) == Capitalize(s)
  {
    var c := Capitalize(s);
    forall i | 0 <= i < |s| ensures Capitalize(c)[i] == c[i] {
      if i == 0 {
        assert Upper(Upper(s[0])) == Upper(s[0]);
      } else {
        assert Lower(Lower(s[i])) == Lower(s[i]);
      }
    }
  }

  /** Python's `str.lower` on ASCII text. */
  function LowerText(s: string): (r: string)
    ensures |r| == |s| && forall i :: 0 <= i < |s| ==> r[i] == Lower(s[i])
  {
    seq(|s|, i requires 0 <= i < |s| => Lower(s[i]))
  }

  /** The case a kind is written in does not matter: `person` and `Person` give the label `Person`. */
  lemma CapitalizeIgnoresCase(s: string)
    ensures Capitalize(LowerText(s)) == Capitalize(s)
  {
    var l := LowerText(s);
    forall i | 0 <= i < |s| ensures Capitalize(l)[i] == Capitalize(s)[i] {
      if i == 0 {
        assert Upper(Lower(s[0])) == Upper(s[0]);
      } else {
        assert Lower(Lower(s[i])) == Lower(s[i]);
      }
    }
  }

  // ---------------------------------------------------------------- the store effect of one step

  /** The nodes `MERGE (n:label {id: $key})` matches. */
  function Keyed(g: Graph, labelName: string, key: Value): (r: set<Handle>)
    ensures forall h :: h in r <==> h in g.nodes && g.nodes[h].labelName == labelName && HasId(g.nodes[h], key)
  {
    set h | h in g.nodes && g.nodes[h].labelName == labelName && HasId(g.nodes[h], key)
  }

  /** The nodes `MATCH (t:Tenant {id: $tid})<-[:OWNED_BY]-(n:label {id: $key})` binds to `n`. */
  function OwnedKeyed(g: Graph, labelName: string, key: Value, tid: Value): (r: set<Handle>)
    ensures forall h :: h in r <==> h in Keyed(g, labelName, key) && OwnedVia(g, OwnedBy, tid, h)
  {
    set h | h in Keyed(g, labelName, key) && OwnedVia(g, OwnedBy, tid, h)
  }

  /** `MERGE (t:Tenant {id: $tid})`: create the tenant node unless one with that id exists; a null id fails. */
  function RunMergeTenant(g: Graph, tid: Value): (r: Result<Graph>)
    requires Valid(g)
    ensures r.Ok? ==> Valid(r.value)
    ensures r.Err? <==> tid == Null
  {
    if tid == Null then Err(NullMergeKey)
    else if Tenants(g, tid) != {} then Ok(g)
    else Ok(AddNode(g, Node(TenantLabel, map["id" := tid])).0)
  }

  /**
   * The node the insert's MERGE leaves bound: the existing keyed nodes, or the
   * one node it creates with just the id.
   */
  function MergeNode(g: Graph, labelName: string, key: Value): (r: (Graph, set<Handle>))
    requires Valid(g) && key != Null
    ensures Valid(r.0) && r.1 <= r.0.nodes.Keys && r.0.edges == g.edges
    ensures Keyed(g, labelName, key) != {} ==> r == (g, Keyed(g, labelName, key))
    ensures Keyed(g, labelName, key) == {} ==>
      r.1 == {g.next} && r.0.nodes == g.nodes[g.next := Node(labelName, map["id" := key])] && r.0.next == g.next + 1
  {
    var existing := Keyed(g, labelName, key);
    if existing != {} then (g, existing)
    else
      var (g1, h) := AddNode(g, Node(labelName, map["id" := key]));
      (g1, {h})
  }

  /** Every edge `(n)-[:rel]->(t)` for `n` in `ns` and `t` in `ts` that is not there yet. */
  function Attach(g: Graph, ns: set<Handle>, rel: string, ts: set<Handle>): (r: Graph)
    requires Valid(g) && ns <= g.nodes.Keys && ts <= g.nodes.Keys
    ensures Valid(r) && r.nodes == g.nodes && r.next == g.next
    ensures forall e :: e in r.edges <==> e in g.edges || (e.src in ns && e.rel == rel && e.dst in ts)
  {
    var added := set n, t | n in ns && t in ts :: Edge(n, rel, t);
    assert forall e :: e in added <==> e.src in ns && e.rel == rel && e.dst in ts by {
      forall e: Edge | e.src in ns && e.rel == rel && e.dst in ts ensures e in added {
        assert e == Edge(e.src, rel, e.dst);
      }
    }
    Graph(g.nodes, g.edges + added, g.next)
  }

  /**
   * A changeset insert: for the tenant the MATCH finds, MERGE the keyed node,
   * `SET n += $props`, MERGE its `OWNED_BY` edge to the tenant. No tenant
   * node means no row, so nothing runs; a null key makes the MERGE fail.
   */
  function RunInsert(g: Graph, labelName: string, key: Value, props: Props, tid: Value): (r: Result<Graph>)
    requires Valid(g)
    ensures r.Ok? ==> Valid(r.value)
    ensures r.Err? <==> Tenants(g, tid) != {} && key == Null
    ensures Tenants(g, tid) == {} ==> r == Ok(g)
  {
    var ts := Tenants(g, tid);
    if ts == {} then Ok(g)
    else if key == Null then Err(NullMergeKey)
    else
      var (g1, ns) := MergeNode(g, labelName, key);
      var g2 := MergeInto(g1, ns, props);
      Ok(Attach(g2, ns, OwnedBy, ts))
  }

  /** The store after one step, or the error its query raises. */
  function RunStep(g: Graph, s: Step): (r: Result<Graph>)
    requires Valid(g)
    ensures r.Ok? ==> Valid(r.value)
  {
    match s
    case MergeTenant(tid) => RunMergeTenant(g, tid)
    case InsertEntity(l, key, props, tid) => RunInsert(g, l, key, props, tid)
    case ModifyEntity(l, key, props, tid) => Ok(MergeInto(g, OwnedKeyed(g, l, key, tid), props))
    case DeleteEntity(l, key, tid) => Ok(DetachDelete(g, OwnedKeyed(g, l, key, tid)))
    case RelateStep(rel, sid, oid) => Ok(Relate(g, rel, sid, oid))
    case UnrelateStep(rel, sid, oid) => Ok(Unrelate(g, rel, sid, oid))
    case Missing(kind) => Err(MissingKind(kind))
  }

  /** The steps run in order, stopping at the first that raises. */
  function RunSteps(g: Graph, steps: seq<Step>): (r: Result<Graph>)
    requires Valid(g)
    ensures r.Ok? ==> Valid(r.value)
  {
    if steps == [] then Ok(g)
    else
      match RunSteps(g, steps[..|steps| - 1])
      case Err(e) => Err(e)
      case Ok(g1) => RunStep(g1, steps[|steps| - 1])
  }

  /** Once a step has raised, no later step runs and the error is the one raised. */
  lemma {:induction false} RunStepsStops(g: Graph, a: seq<Step>, b: seq<Step>)
    requires Valid(g) && RunSteps(g, a).Err?
    ensures RunSteps(g, a + b) == RunSteps(g, a)
  {
    if b != [] {
      assert (a + b)[..|a + b| - 1] == a + b[..|b| - 1];
      RunStepsStops(g, a, b[..|b| - 1]);
    } else {
      assert a + b == a;
    }
  }

  /** Running `a` then `b` is running `a + b`. */
  lemma {:induction false} RunStepsAppend(g: Graph, a: seq<Step>, b: seq<Step>)
    requires Valid(g) && RunSteps(g, a).Ok?
    ensures RunSteps(g, a + b) == RunSteps(RunSteps(g, a).value, b)
  {
    if b != [] {
      assert (a + b)[..|a + b| - 1] == a + b[..|b| - 1];
      RunStepsAppend(g, a, b[..|b| - 1]);
    } else {
      assert a + b == a;
    }
  }

  // ---------------------------------------------------------------- the plan

  /** The tenant MERGE, run only for a truthy tenant id. */
  function TenantSteps(tid: Value): seq<Step> {
    if Truthy(tid) then [MergeTenant(tid)] else []
  }

  function InsertSteps(labelName: string, items: seq<(Value, Props)>, tid: Value): (r: seq<Step>)
    ensures |r| == |items| && forall i :: 0 <= i < |items| ==> r[i] == InsertEntity(labelName, items[i].0, items[i].1, tid)
  {
    seq(|items|, i requires 0 <= i < |items| => InsertEntity(labelName, items[i].0, items[i].1, tid))
  }

  function ModifySteps(labelName: string, items: seq<(Value, Props)>, tid: Value): (r: seq<Step>)
    ensures |r| == |items| && forall i :: 0 <= i < |items| ==> r[i] == ModifyEntity(labelName, items[i].0, items[i].1, tid)
  {
    seq(|items|, i requires 0 <= i < |items| => ModifyEntity(labelName, items[i].0, items[i].1, tid))
  }

  function DeleteSteps(labelName: string, keys: seq<Value>, tid: Value): (r: seq<Step>)
    ensures |r| == |keys| && forall i :: 0 <= i < |keys| ==> r[i] == DeleteEntity(labelName, keys[i], tid)
  {
    seq(|keys|, i requires 0 <= i < |keys| => DeleteEntity(labelName, keys[i], tid))
  }

  /** The three loops of one kind: inserted, then modified, then deleted. */
  function KindSteps(labelName: string, ch: KindChanges, tid: Value): seq<Step> {
    InsertSteps(labelName, ch.inserted, tid) + ModifySteps(labelName, ch.modified, tid) + DeleteSteps(labelName, ch.deleted, tid)
  }

  /** The steps of one declared kind; a kind the changeset lacks raises at its `getattr`. */
  function KindStepsOf(kind: string, cs: Changeset, tid: Value): seq<Step> {
    if kind in cs.kinds then KindSteps(Capitalize(kind), cs.kinds[kind], tid) else [Missing(kind)]
  }

  /** The loop over the declared kinds, in their order. */
  function KindsSteps(kinds: seq<string>, cs: Changeset, tid: Value): seq<Step>
  {
    if kinds == [] then []
    else KindsSteps(kinds[..|kinds| - 1], cs, tid) + KindStepsOf(kinds[|kinds| - 1], cs, tid)
  }

  function RelateSteps(ops: seq<RelOp>, roles: map<Value, string>): (r: seq<Step>)
    ensures |r| == |ops| && forall i :: 0 <= i < |ops| ==>
      r[i] == RelateStep(RoleName(roles, ops[i].assocId), ops[i].subjectId, ops[i].objectId)
  {
    seq(|ops|, i requires 0 <= i < |ops| => RelateStep(RoleName(roles, ops[i].assocId), ops[i].subjectId, ops[i].objectId))
  }

  function UnrelateSteps(ops: seq<RelOp>, roles: map<Value, string>): (r: seq<Step>)
    ensures |r| == |ops| && forall i :: 0 <= i < |ops| ==>
      r[i] == UnrelateStep(RoleName(roles, ops[i].assocId), ops[i].subjectId, ops[i].objectId)
  {
    seq(|ops|, i requires 0 <= i < |ops| => UnrelateStep(RoleName(roles, ops[i].assocId), ops[i].subjectId, ops[i].objectId))
  }

  /** Everything `apply_changes` runs before its commit, in order. */
  function Plan(tid: Value, kinds: seq<string>, cs: Changeset, roles: map<Value, string>): seq<Step> {
    TenantSteps(tid) + KindsSteps(kinds, cs, tid) + RelateSteps(cs.relInserted, roles) + UnrelateSteps(cs.relDeleted, roles)
  }

  // ---------------------------------------------------------------- order of the plan

  predicate IsRelation(s: Step) {
    s.RelateStep? || s.UnrelateStep?
  }

  /** Insert, modify, delete: the phase of an entity step within its kind. */
  function Phase(s: Step): nat {
    match s
    case InsertEntity(_, _, _, _) => 0
    case ModifyEntity(_, _, _, _) => 1
    case _ => 2
  }

  /** The kind loop emits no tenant MERGE and no relation step. */
  lemma {:induction false} KindsStepsAreEntitySteps(kinds: seq<string>, cs: Changeset, tid: Value)
    ensures forall s :: s in KindsSteps(kinds, cs, tid) ==> !IsRelation(s) && !s.MergeTenant?
  {
    if kinds != [] {
      KindsStepsAreEntitySteps(kinds[..|kinds| - 1], cs, tid);
      var kind := kinds[|kinds| - 1];
      var last := KindStepsOf(kind, cs, tid);
      forall i | 0 <= i < |last| ensures !IsRelation(last[i]) && !last[i].MergeTenant? {
        if kind in cs.kinds {
          var ch := cs.kinds[kind];
          var a := InsertSteps(Capitalize(kind), ch.inserted, tid);
          var b := ModifySteps(Capitalize(kind), ch.modified, tid);
          var c := DeleteSteps(Capitalize(kind), ch.deleted, tid);
          if i < |a| {
            assert last[i] == a[i];
          } else if i < |a| + |b| {
            assert last[i] == b[i - |a|];
          } else {
            assert last[i] == c[i - |a| - |b|];
          }
        }
      }
    }
  }

  /**
   * The plan's order: the tenant MERGE comes first exactly when the tenant id
   * is truthy and nowhere else, and every relation step comes after every
   * entity step.
   */
  lemma PlanOrder(tid: Value, kinds: seq<string>, cs: Changeset, roles: map<Value, string>)
    ensures var p := Plan(tid, kinds, cs, roles);
            && (Truthy(tid) <==> |p| > 0 && p[0] == MergeTenant(tid))
            && (forall i :: 0 < i < |p| ==> !p[i].MergeTenant?)
            && (forall i, j :: 0 <= i < j < |p| && IsRelation(p[i]) ==> IsRelation(p[j]))
  {
    var p := Plan(tid, kinds, cs, roles);
    var t := TenantSteps(tid);
    var k := KindsSteps(kinds, cs, tid);
    var rel := RelateSteps(cs.relInserted, roles) + UnrelateSteps(cs.relDeleted, roles);
    assert p == t + k + rel;
    KindsStepsAreEntitySteps(kinds, cs, tid);
    forall i | 0 <= i < |p| ensures (i < |t| + |k| ==> !IsRelation(p[i])) && (i >= |t| + |k| ==> IsRelation(p[i])) {
      if i >= |t| + |k| {
        assert p[i] == rel[i - |t| - |k|];
      } else if i >= |t| {
        assert p[i] == k[i - |t|] && k[i - |t|] in k;
      }
    }
    forall i | 0 < i < |p| ensures !p[i].MergeTenant? {
      if i < |t| + |k| {
        assert p[i] == k[i - |t|] && k[i - |t|] in k;
      }
    }
  }

  /** Within one kind, items run inserted, then modified, then deleted. */
  lemma KindOrder(labelName: string, ch: KindChanges, tid: Value)
    ensures var p := KindSteps(labelName, ch, tid);
            forall i, j :: 0 <= i < j < |p| ==> Phase(p[i]) <= Phase(p[j])
  {
    var a := InsertSteps(labelName, ch.inserted, tid);
    var b := ModifySteps(labelName, ch.modified, tid);
    var c := DeleteSteps(labelName, ch.deleted, tid);
    var p := KindSteps(labelName, ch, tid);
    forall i | 0 <= i < |p|
      ensures Phase(p[i]) == if i < |a| then 0 else if i < |a| + |b| then 1 else 2
    {
      if i < |a| {
        assert p[i] == a[i];
      } else if i < |a| + |b| {
        assert p[i] == b[i - |a|];
      } else {
        assert p[i] == c[i - |a| - |b|];
      }
    }
  }

  // ---------------------------------------------------------------- properties of the steps

  /** `SET n += $p` twice is `SET n += $p` once. */
  lemma MergePropsIdempotent(cur: Props, p: Props)
    ensures MergeProps(MergeProps(cur, p), p) == MergeProps(cur, p)
  {
  }

  /** The store after a changeset insert that found its tenant, spelled out. */
  lemma InsertShape(g: Graph, labelName: string, key: Value, props: Props, tid: Value)
    requires Valid(g) && key != Null && Tenants(g, tid) != {}
    ensures var r := RunInsert(g, labelName, key, props, tid);
            var mn := MergeNode(g, labelName, key);
            && r.Ok? && r.value.next == mn.0.next && r.value.nodes.Keys == mn.0.nodes.Keys
            && (forall h :: h in mn.1 ==> r.value.nodes[h] == Node(labelName, MergeProps(mn.0.nodes[h].props, props)))
            && (forall h :: h in mn.0.nodes && h !in mn.1 ==> r.value.nodes[h] == mn.0.nodes[h])
            && (forall e :: e in r.value.edges <==>
                  e in g.edges || (e.src in mn.1 && e.rel == OwnedBy && e.dst in Tenants(g, tid)))
  {
    var mn := MergeNode(g, labelName, key);
    assert forall h :: h in mn.1 ==> mn.0.nodes[h].labelName == labelName;
  }

  /** A changeset insert of a non-tenant label leaves every tenant as it was. */
  lemma InsertKeepsTenants(g: Graph, labelName: string, key: Value, props: Props, tid: Value, t2: Value)
    requires Valid(g) && key != Null && Tenants(g, tid) != {} && labelName != TenantLabel
    ensures Tenants(RunInsert(g, labelName, key, props, tid).value, t2) == Tenants(g, t2)
  {
    InsertShape(g, labelName, key, props, tid);
  }

  /** After a changeset insert whose props keep the id, the keyed nodes are exactly the merged ones. */
  lemma InsertKeyed(g: Graph, labelName: string, key: Value, props: Props, tid: Value)
    requires Valid(g) && key != Null && Tenants(g, tid) != {}
    requires "id" in props ==> props["id"] == key
    ensures Keyed(RunInsert(g, labelName, key, props, tid).value, labelName, key) == MergeNode(g, labelName, key).1
  {
    InsertShape(g, labelName, key, props, tid);
  }

  /**
   * A changeset insert is idempotent: the second run finds the node the first
   * one merged, as long as the props keep its id and the label is not the
   * tenant label.
   */
  lemma InsertIdempotent(g: Graph, labelName: string, key: Value, props: Props, tid: Value)
    requires Valid(g) && key != Null && labelName != TenantLabel
    requires "id" in props ==> props["id"] == key
    requires Tenants(g, tid) != {}
    ensures var r := RunInsert(g, labelName, key, props, tid);
            r.Ok? && RunInsert(r.value, labelName, key, props, tid) == r
  {
    var ts := Tenants(g, tid);
    var ns := MergeNode(g, labelName, key).1;
    var r := RunInsert(g, labelName, key, props, tid).value;
    InsertKeepsTenants(g, labelName, key, props, tid, tid);
    InsertKeyed(g, labelName, key, props, tid);
    assert MergeNode(r, labelName, key) == (r, ns);
    MergeAgainIsNoOp(g, labelName, key, props, tid);
    AttachAgainIsNoOp(g, labelName, key, props, tid);
  }

  /** Merging the same props into the nodes an insert merged changes nothing. */
  lemma MergeAgainIsNoOp(g: Graph, labelName: string, key: Value, props: Props, tid: Value)
    requires Valid(g) && key != Null && Tenants(g, tid) != {}
    ensures var r := RunInsert(g, labelName, key, props, tid).value;
            MergeInto(r, MergeNode(g, labelName, key).1, props) == r
  {
    var mn := MergeNode(g, labelName, key);
    InsertShape(g, labelName, key, props, tid);
    var r := RunInsert(g, labelName, key, props, tid).value;
    forall h | h in r.nodes && h in mn.1 ensures MergeProps(r.nodes[h].props, props) == r.nodes[h].props {
      MergePropsIdempotent(mn.0.nodes[h].props, props);
    }
    MergeIntoFixed(r, mn.1, props);
  }

  /** Merging props that every node of the set already absorbs changes nothing. */
  lemma MergeIntoFixed(g: Graph, d: set<Handle>, p: Props)
    requires Valid(g)
    requires forall h :: h in g.nodes && h in d ==> MergeProps(g.nodes[h].props, p) == g.nodes[h].props
    ensures MergeInto(g, d, p) == g
  {
    assert MergeInto(g, d, p).nodes == g.nodes;
  }

  /** Attaching the nodes an insert attached, to the same tenants, changes nothing. */
  lemma AttachAgainIsNoOp(g: Graph, labelName: string, key: Value, props: Props, tid: Value)
    requires Valid(g) && key != Null && Tenants(g, tid) != {}
    ensures var r := RunInsert(g, labelName, key, props, tid).value;
            var ns := MergeNode(g, labelName, key).1;
            ns <= r.nodes.Keys && Tenants(g, tid) <= r.nodes.Keys && Attach(r, ns, OwnedBy, Tenants(g, tid)) == r
  {
    InsertShape(g, labelName, key, props, tid);
    var r := RunInsert(g, labelName, key, props, tid).value;
    var ns := MergeNode(g, labelName, key).1;
    assert Attach(r, ns, OwnedBy, Tenants(g, tid)).edges == r.edges;
  }

  /**
   * Insert then modify of the same id in one batch converges: the modify
   * finds the node the insert merged and merges its props over the insert's.
   */
  lemma InsertThenModify(g: Graph, labelName: string, key: Value, p1: Props, p2: Props, tid: Value)
    requires Valid(g) && key != Null && labelName != TenantLabel
    requires "id" in p1 ==> p1["id"] == key
    requires Tenants(g, tid) != {}
    ensures var r := RunSteps(g, [InsertEntity(labelName, key, p1, tid), ModifyEntity(labelName, key, p2, tid)]);
            var mn := MergeNode(g, labelName, key);
            && r.Ok?
            && forall h :: h in mn.1 ==>
                 h in r.value.nodes && r.value.nodes[h].props == MergeProps(MergeProps(mn.0.nodes[h].props, p1), p2)
  {
    var s1 := InsertEntity(labelName, key, p1, tid);
    var s2 := ModifyEntity(labelName, key, p2, tid);
    TwoSteps(g, s1, s2);
    InsertOwnsMerged(g, labelName, key, p1, tid);
    InsertMergedProps(g, labelName, key, p1, tid);
  }

  /** Two steps run the second on the store the first leaves. */
  lemma TwoSteps(g: Graph, s1: Step, s2: Step)
    requires Valid(g) && RunStep(g, s1).Ok?
    ensures RunSteps(g, [s1, s2]) == RunStep(RunStep(g, s1).value, s2)
  {
    var steps := [s1, s2];
    assert [s1][..0] == [];
    assert RunSteps(g, [s1]) == RunStep(g, s1);
    assert steps[..1] == [s1] && steps[1] == s2;
  }

  /** The nodes a changeset insert merged hold the insert's props merged over their old ones. */
  lemma InsertMergedProps(g: Graph, labelName: string, key: Value, props: Props, tid: Value)
    requires Valid(g) && key != Null && Tenants(g, tid) != {}
    ensures var r := RunInsert(g, labelName, key, props, tid).value;
            var mn := MergeNode(g, labelName, key);
            forall h :: h in mn.1 ==> h in r.nodes && r.nodes[h].props == MergeProps(mn.0.nodes[h].props, props)
  {
    InsertShape(g, labelName, key, props, tid);
  }

  /** The modify's MATCH after a changeset insert binds exactly the nodes the insert merged. */
  lemma InsertOwnsMerged(g: Graph, labelName: string, key: Value, props: Props, tid: Value)
    requires Valid(g) && key != Null && labelName != TenantLabel
    requires "id" in props ==> props["id"] == key
    requires Tenants(g, tid) != {}
    ensures OwnedKeyed(RunInsert(g, labelName, key, props, tid).value, labelName, key, tid)
            == MergeNode(g, labelName, key).1
  {
    var ts := Tenants(g, tid);
    var ns := MergeNode(g, labelName, key).1;
    InsertShape(g, labelName, key, props, tid);
    var r := RunInsert(g, labelName, key, props, tid).value;
    InsertKeepsTenants(g, labelName, key, props, tid, tid);
    InsertKeyed(g, labelName, key, props, tid);
    forall h | h in ns ensures h in OwnedKeyed(r, labelName, key, tid) {
      var t :| t in ts;
      assert Edge(h, OwnedBy, t) in r.edges;
    }
  }

  /**
   * Modify before insert would not converge: on a store without the node, the
   * modify matches nothing and the created node carries only the insert's props.
   */
  lemma ModifyBeforeInsert(g: Graph, labelName: string, key: Value, p1: Props, p2: Props, tid: Value)
    requires Valid(g) && key != Null && Tenants(g, tid) != {} && Keyed(g, labelName, key) == {}
    ensures var r := RunSteps(g, [ModifyEntity(labelName, key, p2, tid), InsertEntity(labelName, key, p1, tid)]);
            && r.Ok? && g.next in r.value.nodes
            && r.value.nodes[g.next].props == MergeProps(map["id" := key], p1)
  {
    var s1 := ModifyEntity(labelName, key, p2, tid);
    var s2 := InsertEntity(labelName, key, p1, tid);
    assert [s1, s2][..1] == [s1];
    assert [s1][..0] == [];
    assert OwnedKeyed(g, labelName, key, tid) == {};
    UnmatchedSetIsNoOp(g, p2);
    assert RunSteps(g, [s1]) == Ok(g);
    InsertShape(g, labelName, key, p1, tid);
  }

  /**
   * A changeset insert attaches its node by `OWNED_BY`, not `OWNS_OBJECT`:
   * what any collection's `find` can see is unchanged.
   */
  lemma InsertInvisibleToFind(g: Graph, labelName: string, key: Value, props: Props, tid: Value,
                              l2: string, t2: Value, h: Handle)
    requires Valid(g) && labelName != TenantLabel
    requires RunInsert(g, labelName, key, props, tid).Ok?
    ensures Visible(RunInsert(g, labelName, key, props, tid).value, l2, t2, h) <==> Visible(g, l2, t2, h)
  {
    if Tenants(g, tid) != {} {
      var r := RunInsert(g, labelName, key, props, tid).value;
      InsertShape(g, labelName, key, props, tid);
      InsertKeepsTenants(g, labelName, key, props, tid, t2);
      forall t ensures IsTenant(r, t, t2) <==> IsTenant(g, t, t2) {
        assert t in Tenants(r, t2) <==> t in Tenants(g, t2);
      }
      forall t ensures Edge(h, OwnsObject, t) in r.edges <==> Edge(h, OwnsObject, t) in g.edges {
      }
      if h in g.nodes {
        assert r.nodes[h].labelName == g.nodes[h].labelName;
      }
    }
  }

  /** The tenant MERGE is idempotent and creates exactly one tenant node when there was none. */
  lemma MergeTenantOnce(g: Graph, tid: Value)
    requires Valid(g) && tid != Null
    ensures RunMergeTenant(g, tid).Ok? && RunMergeTenant(g, tid).value.edges == g.edges
    ensures Tenants(RunMergeTenant(g, tid).value, tid) != {}
    ensures Tenants(g, tid) != {} ==> RunMergeTenant(g, tid).value == g
    ensures Tenants(g, tid) == {} ==> Tenants(RunMergeTenant(g, tid).value, tid) == {g.next}
    ensures RunMergeTenant(RunMergeTenant(g, tid).value, tid) == RunMergeTenant(g, tid)
  {
    if Tenants(g, tid) == {} {
      var g1 := RunMergeTenant(g, tid).value;
      assert IsTenant(g1, g.next, tid);
    }
  }

  // ---------------------------------------------------------------- running the plan in a transaction

  /** The kinds loop over a prefix of the kinds emits a prefix of the steps. */
  lemma {:induction false} KindsStepsPrefix(kinds: seq<string>, k: nat, cs: Changeset, tid: Value)
    requires k <= |kinds|
    ensures KindsSteps(kinds[..k], cs, tid) <= KindsSteps(kinds, cs, tid)
    decreases |kinds| - k
  {
    if k < |kinds| {
      var init := kinds[..|kinds| - 1];
      assert init[..k] == kinds[..k];
      KindsStepsPrefix(init, k, cs, tid);
    } else {
      assert kinds[..k] == kinds;
    }
  }

  /**
   * The steps as the transaction runs them: the store after the last step
   * that succeeded, and the error that stopped the run. `fault` is the
   * position of a step at which the store itself raises (a lost connection, a
   * server error); a missing kind fails before any query is sent.
   */
  function Exec(g: Graph, steps: seq<Step>, fault: Option<nat>): (r: (Graph, Option<Error>))
    requires Valid(g)
    ensures Valid(r.0)
  {
    if steps == [] then (g, None)
    else
      var prev := Exec(g, steps[..|steps| - 1], fault);
      if prev.1.Some? then prev else Perform(prev.0, steps[|steps| - 1], fault == Some(|steps| - 1))
  }

  /** Running one more step: unfolding `Exec` once. */
  lemma ExecSnoc(g: Graph, pre: seq<Step>, s: Step, fault: Option<nat>)
    requires Valid(g)
    ensures Exec(g, pre + [s], fault)
         == if Exec(g, pre, fault).1.Some? then Exec(g, pre, fault)
            else Perform(Exec(g, pre, fault).0, s, fault == Some(|pre|))
  {
    assert (pre + [s])[..|pre|] == pre;
  }

  /** One `tx.run`: the store afterwards and the error raised, if any; `fails` says the store itself raises. */
  function Perform(g: Graph, s: Step, fails: bool): (r: (Graph, Option<Error>))
    requires Valid(g)
    ensures Valid(r.0)
    ensures r.1.None? <==> !(fails && !s.Missing?) && RunStep(g, s).Ok?
    ensures r.1.None? ==> r.0 == RunStep(g, s).value
    ensures r.1.Some? ==> r.0 == g
  {
    if fails && !s.Missing? then (g, Some(DriverFailure))
    else
      match RunStep(g, s)
      case Err(e) => (g, Some(e))
      case Ok(g1) => (g1, None)
  }

  /** After the run has stopped, later steps change neither the store nor the error. */
  lemma {:induction false} ExecStops(g: Graph, a: seq<Step>, b: seq<Step>, fault: Option<nat>)
    requires Valid(g) && Exec(g, a, fault).1.Some?
    ensures Exec(g, a + b, fault) == Exec(g, a, fault)
  {
    if b != [] {
      assert (a + b)[..|a + b| - 1] == a + b[..|b| - 1];
      ExecStops(g, a, b[..|b| - 1], fault);
    } else {
      assert a + b == a;
    }
  }

  /** Without a store failure, running in the transaction is `RunSteps`: same store, same error. */
  lemma {:induction false} ExecWithoutFault(g: Graph, steps: seq<Step>)
    requires Valid(g)
    ensures Exec(g, steps, None).1.None? <==> RunSteps(g, steps).Ok?
    ensures RunSteps(g, steps).Ok? ==> Exec(g, steps, None).0 == RunSteps(g, steps).value
    ensures RunSteps(g, steps).Err? ==> Exec(g, steps, None).1 == Some(RunSteps(g, steps).error)
  {
    if steps != [] {
      ExecWithoutFault(g, steps[..|steps| - 1]);
    }
  }

  /** A store failure at a position the run never reaches changes nothing. */
  lemma {:induction false} ExecFaultBeyond(g: Graph, steps: seq<Step>, k: nat)
    requires Valid(g) && k >= |steps|
    ensures Exec(g, steps, Some(k)) == Exec(g, steps, None)
  {
    if steps != [] {
      ExecFaultBeyond(g, steps[..|steps| - 1], k);
    }
  }

  /**
   * A store failure at step `k` that the run reaches stops it there with
   * `DriverFailure`, whatever comes after: a batch of inserts followed by a
   * relation that fails is reported as that failure.
   */
  lemma ExecFaultAt(g: Graph, steps: seq<Step>, k: nat)
    requires Valid(g) && k < |steps| && !steps[k].Missing? && RunSteps(g, steps[..k]).Ok?
    ensures Exec(g, steps, Some(k)).1 == Some(DriverFailure)
  {
    var pre := steps[..k];
    ExecFaultBeyond(g, pre, k);
    ExecWithoutFault(g, pre);
    assert steps[..k + 1] == pre + [steps[k]];
    ExecSnoc(g, pre, steps[k], Some(k));
    ExecStops(g, steps[..k + 1], steps[k + 1..], Some(k));
    assert steps[..k + 1] + steps[k + 1..] == steps;
  }

  /** One `tx.run` of the transaction. */
  method RunOne(g: Graph, count: nat, s: Step, fault: Option<nat>, ghost start: Graph, ghost pre: seq<Step>)
    returns (g': Graph, err': Option<Error>, count': nat)
    requires Valid(start) && Exec(start, pre, fault) == (g, None) && count == |pre|
    ensures (g', err') == Exec(start, pre + [s], fault) && count' == count + 1
  {
    ExecSnoc(start, pre, s, fault);
    var res := Perform(g, s, fault == Some(count));
    g', err', count' := res.0, res.1, count + 1;
  }

  /** One more step of a loop: the run so far, then `steps[i]`. */
  lemma LoopStep(done: seq<Step>, steps: seq<Step>, i: nat)
    requires i < |steps|
    ensures done + steps[..i + 1] == (done + steps[..i]) + [steps[i]]
  {
    assert steps[..i + 1] == steps[..i] + [steps[i]];
  }

  /** A loop left at step `i`, because it had run all steps or one raised, stands for the whole loop. */
  lemma LoopExit(start: Graph, done: seq<Step>, steps: seq<Step>, i: nat, fault: Option<nat>)
    requires Valid(start) && i <= |steps|
    requires i < |steps| ==> Exec(start, done + steps[..i], fault).1.Some?
    ensures Exec(start, done + steps, fault) == Exec(start, done + steps[..i], fault)
  {
    if i < |steps| {
      ExecStops(start, done + steps[..i], steps[i..], fault);
      assert done + steps[..i] + steps[i..] == done + steps;
    } else {
      assert steps[..i] == steps;
    }
  }

  /** The queries of `steps` in order on the transaction's store, stopping at the first that raises. */
  method RunLoop(g: Graph, count: nat, steps: seq<Step>, fault: Option<nat>,
                 ghost start: Graph, ghost done: seq<Step>)
    returns (g': Graph, err': Option<Error>, count': nat)
    requires Valid(start) && Exec(start, done, fault) == (g, None) && count == |done|
    ensures (g', err') == Exec(start, done + steps, fault)
    ensures err'.None? ==> count' == count + |steps|
  {
    g', err', count' := g, None, count;
    var i := 0;
    assert done + steps[..0] == done;
    while i < |steps| && err'.None?
      invariant 0 <= i <= |steps|
      invariant (g', err') == Exec(start, done + steps[..i], fault)
      invariant err'.None? ==> count' == count + i
    {
      LoopStep(done, steps, i);
      g', err', count' := RunOne(g', count', steps[i], fault, start, done + steps[..i]);
      i := i + 1;
    }
    LoopExit(start, done, steps, i, fault);
  }

  /**
   * One `for` loop of `apply_changes`: the queries of `steps` in order on the
   * transaction's store, stopping at the first that raises. `err` is the
   * error already raised, if any: then nothing runs.
   */
  method RunAll(g: Graph, err: Option<Error>, count: nat, steps: seq<Step>, fault: Option<nat>,
                ghost start: Graph, ghost done: seq<Step>)
    returns (g': Graph, err': Option<Error>, count': nat)
    requires Valid(start) && Exec(start, done, fault) == (g, err)
    requires err.None? ==> count == |done|
    ensures (g', err') == Exec(start, done + steps, fault)
    ensures err'.None? ==> count' == count + |steps|
    ensures err.Some? ==> g' == g && err' == err
  {
    if err.Some? {
      ExecStops(start, done, steps, fault);
      return g, err, count;
    }
    g', err', count' := RunLoop(g, count, steps, fault, start, done);
  }

  /** Three `for` loops in a row, each left at the first exception. */
  method RunThree(g: Graph, count: nat, first: seq<Step>, second: seq<Step>, third: seq<Step>,
                  fault: Option<nat>, ghost start: Graph, ghost done: seq<Step>)
    returns (g': Graph, err': Option<Error>, count': nat)
    requires Valid(start) && Exec(start, done, fault) == (g, None) && count == |done|
    ensures (g', err') == Exec(start, done + (first + second + third), fault)
    ensures err'.None? ==> count' == count + |first + second + third|
  {
    ghost var afterFirst, afterSecond := done + first, done + first + second;
    g', err', count' := RunAll(g, None, count, first, fault, start, done);
    g', err', count' := RunAll(g', err', count', second, fault, start, afterFirst);
    g', err', count' := RunAll(g', err', count', third, fault, start, afterSecond);
    assert afterSecond + third == done + (first + second + third);
  }

  /** The three loops of one kind: inserted, then modified, then deleted. */
  method RunKindChanges(g: Graph, count: nat, labelName: string, changes: KindChanges, tid: Value,
                        fault: Option<nat>, ghost start: Graph, ghost done: seq<Step>)
    returns (g': Graph, err': Option<Error>, count': nat)
    requires Valid(start) && Exec(start, done, fault) == (g, None) && count == |done|
    ensures (g', err') == Exec(start, done + KindSteps(labelName, changes, tid), fault)
    ensures err'.None? ==> count' == count + |KindSteps(labelName, changes, tid)|
  {
    g', err', count' := RunThree(g, count, InsertSteps(labelName, changes.inserted, tid),
                                 ModifySteps(labelName, changes.modified, tid),
                                 DeleteSteps(labelName, changes.deleted, tid), fault, start, done);
  }

  /** The body of the loop over the kinds, for one kind: its three loops, or the failing `getattr`. */
  method RunKind(g: Graph, count: nat, kind: string, cs: Changeset, tid: Value, fault: Option<nat>,
                 ghost start: Graph, ghost done: seq<Step>)
    returns (g': Graph, err': Option<Error>, count': nat)
    requires Valid(start) && Exec(start, done, fault) == (g, None) && count == |done|
    ensures (g', err') == Exec(start, done + KindStepsOf(kind, cs, tid), fault)
    ensures err'.None? ==> count' == count + |KindStepsOf(kind, cs, tid)|
  {
    if kind !in cs.kinds {
      // `getattr(changeset, kind)` raises before any query is sent
      g', err', count' := RunOne(g, count, Missing(kind), fault, start, done);
    } else {
      g', err', count' := RunKindChanges(g, count, Capitalize(kind), cs.kinds[kind], tid, fault, start, done);
    }
  }

  /** One more kind: `KindsSteps` of a longer prefix, written after what came before. */
  lemma KindsStepsSnoc(done: seq<Step>, kinds: seq<string>, k: nat, cs: Changeset, tid: Value)
    requires k < |kinds|
    ensures done + KindsSteps(kinds[..k + 1], cs, tid) == done + KindsSteps(kinds[..k], cs, tid) + KindStepsOf(kinds[k], cs, tid)
  {
    assert kinds[..k + 1][..k] == kinds[..k];
  }

  /** A prefix `a` of `b`, written after `done`, followed by the rest of `b`. */
  lemma PrefixSplit(done: seq<Step>, a: seq<Step>, b: seq<Step>)
    requires a <= b
    ensures done + a + b[|a|..] == done + b
  {
    assert b == a + b[|a|..];
  }

  /** After an exception in the loop over the kinds, the remaining kinds run nothing. */
  lemma KindsStop(start: Graph, done: seq<Step>, kinds: seq<string>, k: nat, cs: Changeset, tid: Value, fault: Option<nat>)
    requires Valid(start) && k <= |kinds| && Exec(start, done + KindsSteps(kinds[..k], cs, tid), fault).1.Some?
    ensures Exec(start, done + KindsSteps(kinds, cs, tid), fault) == Exec(start, done + KindsSteps(kinds[..k], cs, tid), fault)
  {
    KindsStepsPrefix(kinds, k, cs, tid);
    var prefix := KindsSteps(kinds[..k], cs, tid);
    var all := KindsSteps(kinds, cs, tid);
    var rest := all[|prefix|..];
    PrefixSplit(done, prefix, all);
    ExecStops(start, done + prefix, rest, fault);
  }

  /** The loop over the declared kinds, left at the first exception. */
  method RunKinds(g: Graph, count: nat, kinds: seq<string>, cs: Changeset, tid: Value,
                  fault: Option<nat>, ghost start: Graph, ghost done: seq<Step>)
    returns (g': Graph, err': Option<Error>, count': nat)
    requires Valid(start) && Exec(start, done, fault) == (g, None) && count == |done|
    ensures (g', err') == Exec(start, done + KindsSteps(kinds, cs, tid), fault)
    ensures err'.None? ==> count' == count + |KindsSteps(kinds, cs, tid)|
  {
    g', err', count' := g, None, count;
    var k := 0;
    assert done + KindsSteps(kinds[..0], cs, tid) == done;
    while k < |kinds| && err'.None?
      invariant 0 <= k <= |kinds|
      invariant (g', err') == Exec(start, done + KindsSteps(kinds[..k], cs, tid), fault)
      invariant err'.None? ==> count' == count + |KindsSteps(kinds[..k], cs, tid)|
    {
      KindsStepsSnoc(done, kinds, k, cs, tid);
      g', err', count' := RunKind(g', count', kinds[k], cs, tid, fault, start, done + KindsSteps(kinds[..k], cs, tid));
      k := k + 1;
    }
    if k < |kinds| {
      KindsStop(start, done, kinds, k, cs, tid, fault);
    } else {
      assert kinds[..k] == kinds;
    }
  }

  /** The tenant MERGE for a truthy tenant id, then the loop over the kinds. */
  method RunEntities(start: Graph, tid: Value, kinds: seq<string>, cs: Changeset, fault: Option<nat>)
    returns (g: Graph, err: Option<Error>, count: nat)
    requires Valid(start)
    ensures (g, err) == Exec(start, TenantSteps(tid) + KindsSteps(kinds, cs, tid), fault)
    ensures err.None? ==> count == |TenantSteps(tid) + KindsSteps(kinds, cs, tid)|
  {
    count := 0;
    g, err := start, None;
    if Truthy(tid) {
      g, err, count := RunOne(g, count, MergeTenant(tid), fault, start, []);
    }
    if err.None? {
      g, err, count := RunKinds(g, count, kinds, cs, tid, fault, start, TenantSteps(tid));
    } else {
      ExecStops(start, TenantSteps(tid), KindsSteps(kinds, cs, tid), fault);
    }
  }

  /**
   * Everything `apply_changes` runs before its commit: the tenant MERGE for a
   * truthy tenant id, the loop over the kinds, then the two relation loops,
   * all on the transaction's store and stopping at the first exception.
   */
  method RunPlan(start: Graph, tid: Value, kinds: seq<string>, cs: Changeset, roles: map<Value, string>,
                 fault: Option<nat>)
    returns (g: Graph, err: Option<Error>)
    requires Valid(start)
    ensures Valid(g)
    ensures (g, err) == Exec(start, Plan(tid, kinds, cs, roles), fault)
  {
    var count;
    g, err, count := RunEntities(start, tid, kinds, cs, fault);
    ghost var entities := TenantSteps(tid) + KindsSteps(kinds, cs, tid);
    var related := RelateSteps(cs.relInserted, roles);
    g, err, count := RunAll(g, err, count, related, fault, start, entities);
    g, err, count := RunAll(g, err, count, UnrelateSteps(cs.relDeleted, roles), fault, start, entities + related);
    assert entities + related + UnrelateSteps(cs.relDeleted, roles) == Plan(tid, kinds, cs, roles);
  }
}
