/**
 * The two classes of the adaptor. `Neo4jUOP` holds the committed store and
 * the one transaction slot `_tx`; `apply_changes` runs a changeset in that
 * transaction and commits or rolls back. `Neo4jCollection` is one label,
 * read and written by managed transactions of their own (`execute_read`,
 * `execute_write`), one per call, on the committed store.
 *
 * A transaction is modelled as a working copy of the store taken when it
 * begins: its queries change the copy, commit installs it, rollback drops it.
 * Driver failures, which the model cannot produce itself, are parameters.
 */
module Adaptor {
  import opened Values
  import opened Graph
  import opened Cypher
  import opened QueryBuilder
  import opened Collection
  import Roles
  import opened Changeset

  /** An open transaction: which one it is, and the store as its queries see it. */
  datatype Tx = Tx(serial: nat, work: Graph)

  class Neo4jUOP {
    /** The store as every session outside the transaction sees it. */
    var committed: Graph
    /** `_tx`: the open transaction, if any. */
    var tx: Option<Tx>
    /** How many transactions have been begun: the serial of the next one. */
    var begun: nat
    const tenantId: Value
    /** `id_to_name("roles")`: the role registry. */
    const roles: map<Value, string>

    ghost predicate Consistent()
      reads this
    {
      Valid(committed) && (tx.Some? ==> Valid(tx.value.work) && tx.value.serial < begun)
    }

    /** The store the role operations see: the transaction's when one is open. */
    function View(): Graph
      reads this
    {
      if tx.Some? then tx.value.work else committed
    }

    constructor(tenantId: Value, roles: map<Value, string>, store: Graph)
      requires Valid(store)
      ensures Consistent() && committed == store && tx == None && begun == 0
      ensures this.tenantId == tenantId && this.roles == roles
    {
      this.tenantId := tenantId;
      this.roles := roles;
      committed := store;
      tx := None;
      begun := 0;
    }

    /** `get_raw_collection`: a collection is its label, which needs no creating. */
    function RawCollection(name: string): (labelName: string)
      ensures labelName == name
    {
      name
    }

    /** `begin_transaction`: the open transaction, or a new one over the committed store. */
    method BeginTransaction() returns (handle: Tx)
      requires Consistent()
      modifies this
      ensures Consistent() && committed == old(committed) && tx == Some(handle)
      ensures old(tx).Some? ==> handle == old(tx).value && begun == old(begun)
      ensures old(tx).None? ==> handle == Tx(old(begun), old(committed)) && begun == old(begun) + 1
    {
      if tx.None? {
        tx := Some(Tx(begun, committed));
        begun := begun + 1;
      }
      handle := tx.value;
    }

    /**
     * `commit`: with no open transaction nothing happens. Otherwise the
     * transaction's store becomes the committed one and the slot is cleared;
     * when the driver's commit raises, the slot is not cleared.
     */
    method Commit(fails: bool) returns (outcome: Outcome)
      requires Consistent()
      modifies this
      ensures Consistent() && begun == old(begun)
      ensures old(tx).None? ==> outcome == Pass && committed == old(committed) && tx == None
      ensures old(tx).Some? && !fails ==> outcome == Pass && committed == old(tx).value.work && tx == None
      ensures old(tx).Some? && fails ==> outcome == Fail(DriverFailure) && committed == old(committed) && tx == old(tx)
    {
      outcome := Pass;
      if tx.Some? {
        if fails {
          return Fail(DriverFailure);
        }
        committed := tx.value.work;
        tx := None;
      }
    }

    /**
     * `rollback_transaction`: with no open transaction nothing happens.
     * Otherwise the transaction's store is dropped and the slot is cleared;
     * when the driver's rollback raises, the slot is not cleared.
     */
    method RollbackTransaction(fails: bool) returns (outcome: Outcome)
      requires Consistent()
      modifies this
      ensures Consistent() && begun == old(begun) && committed == old(committed)
      ensures old(tx).None? ==> outcome == Pass && tx == None
      ensures old(tx).Some? && !fails ==> outcome == Pass && tx == None
      ensures old(tx).Some? && fails ==> outcome == Fail(DriverFailure) && tx == old(tx)
    {
      outcome := Pass;
      if tx.Some? {
        if fails {
          return Fail(DriverFailure);
        }
        tx := None;
      }
    }

    /** `relate`: in the open transaction if there is one, else in a session of its own. */
    method Relate(subjectOid: Value, roleId: Value, objectOid: Value)
      requires Consistent()
      modifies this
      ensures Consistent() && begun == old(begun)
      ensures var rel := Roles.RoleName(roles, roleId);
              if old(tx).Some? then
                committed == old(committed)
                && tx == Some(Tx(old(tx).value.serial, Roles.Relate(old(tx).value.work, rel, subjectOid, objectOid)))
              else
                tx == None && committed == Roles.Relate(old(committed), rel, subjectOid, objectOid)
    {
      var rel := Roles.RoleName(roles, roleId);
      if tx.Some? {
        tx := Some(Tx(tx.value.serial, Roles.Relate(tx.value.work, rel, subjectOid, objectOid)));
      } else {
        committed := Roles.Relate(committed, rel, subjectOid, objectOid);
      }
    }

    /** `unrelate`: in the open transaction if there is one, else in a session of its own. */
    method Unrelate(subjectOid: Value, roleId: Value, objectOid: Value)
      requires Consistent()
      modifies this
      ensures Consistent() && begun == old(begun)
      ensures var rel := Roles.RoleName(roles, roleId);
              if old(tx).Some? then
                committed == old(committed)
                && tx == Some(Tx(old(tx).value.serial, Roles.Unrelate(old(tx).value.work, rel, subjectOid, objectOid)))
              else
                tx == None && committed == Roles.Unrelate(old(committed), rel, subjectOid, objectOid)
    {
      var rel := Roles.RoleName(roles, roleId);
      if tx.Some? {
        tx := Some(Tx(tx.value.serial, Roles.Unrelate(tx.value.work, rel, subjectOid, objectOid)));
      } else {
        committed := Roles.Unrelate(committed, rel, subjectOid, objectOid);
      }
    }

    /**
     * `get_roleset`: the ids at the far end of the subject's role edges, as
     * the open transaction sees them if there is one. Changes nothing.
     */
    method GetRoleset(subject: Value, roleId: Value, reverse: bool) returns (r: set<Value>)
      requires Consistent()
      ensures forall v :: v in r <==>
        exists e :: e in View().edges && Roles.FromSubject(View(), e, Roles.RoleName(roles, roleId), subject, reverse)
                    && Roles.FarId(View(), e, reverse) == v
    {
      var rel := Roles.RoleName(roles, roleId);
      r := Roles.RoleSet(View(), subject, rel, reverse);
    }

    /**
     * `apply_changes`: every query of the changeset in one transaction, in the
     * order `Plan` lists them, then commit and reload the metadata. The first
     * exception (a query that raises, a kind the changeset lacks, the commit
     * or the reload) rolls the transaction back and is raised again; an
     * exception of the rollback itself replaces it. `fault` is the position
     * of a query at which the store raises; `commitFails`, `rollbackFails` and
     * `reloadFails` say whether those calls raise.
     */
    method ApplyChanges(cs: Changeset, crudKinds: seq<string>, fault: Option<nat>,
                        commitFails: bool, rollbackFails: bool, reloadFails: bool)
      returns (outcome: Outcome)
      requires Consistent()
      modifies this
      ensures Consistent()
      ensures begun == old(begun) + (if old(tx).None? then 1 else 0)
      ensures var serial := if old(tx).Some? then old(tx).value.serial else old(begun);
              var run := Exec(old(View()), Plan(tenantId, crudKinds, cs, roles), fault);
              if run.1.Some? || commitFails then
                // a query or the commit raised: the transaction is rolled back
                committed == old(committed)
                && (if rollbackFails then outcome == Fail(DriverFailure) && tx == Some(Tx(serial, run.0))
                    else tx == None && outcome == Fail(if run.1.Some? then run.1.value else DriverFailure))
              else
                // committed; a failing reload is raised but cannot undo the commit
                committed == run.0 && tx == None
                && outcome == (if reloadFails then Fail(ReloadFailure) else Pass)
    {
      var handle := BeginTransaction();
      var g, err := RunPlan(handle.work, tenantId, crudKinds, cs, roles, fault);
      tx := Some(Tx(handle.serial, g));
      if err.Some? {
        var rolledBack := RollbackTransaction(rollbackFails);
        return if rolledBack.Fail? then rolledBack else Fail(err.value);
      }
      var committedOk := Commit(commitFails);
      if committedOk.Fail? {
        var rolledBack := RollbackTransaction(rollbackFails);
        return if rolledBack.Fail? then rolledBack else committedOk;
      }
      if reloadFails {
        // the transaction is already closed: this rollback does nothing
        var rolledBack := RollbackTransaction(rollbackFails);
        return if rolledBack.Fail? then rolledBack else Fail(ReloadFailure);
      }
      outcome := Pass;
    }
  }

  /** `Neo4jCollection`: the nodes with one label owned by the adaptor's tenant. */
  class Neo4jCollection {
    const name: string
    const db: Neo4jUOP

    /** `wrap_raw_collection` builds one over a raw collection, its label. */
    constructor(name: string, db: Neo4jUOP)
      ensures this.name == name && this.db == db
    {
      this.name := name;
      this.db := db;
    }

    /**
     * `insert`: one new node per tenant node with the adaptor's tenant id,
     * owned by it, in a write transaction of its own; the call returns the
     * node. A property named `self` is a second value for the method's own
     * `self` argument and is refused before anything runs. An integer beyond
     * 64 bits is refused by the driver; with no such tenant nothing is
     * created and reading the missing record raises.
     */
    method Insert(properties: Props) returns (r: Result<Node>)
      requires db.Consistent()
      modifies db
      ensures db.Consistent() && db.tx == old(db.tx) && db.begun == old(db.begun)
      ensures var packs := Fits(db.tenantId) && PropsFit(properties);
              && (r.Err? <==> "self" in properties || !packs || Tenants(old(db.committed), db.tenantId) == {})
              && (r.Err? ==> r.error == (if "self" in properties then ArgumentClash
                                         else if packs then NoRecord else IntegerOverflow))
      ensures r.Err? ==> db.committed == old(db.committed)
      ensures r.Ok? ==> r.value == Node(name, Stored(properties))
                        && db.committed == CreateNode(old(db.committed), name, properties, db.tenantId).value.0
    {
      if "self" in properties {
        return Err(ArgumentClash);
      }
      InsertOutcome(db.committed, name, properties, db.tenantId);
      var created := CreateNode(db.committed, name, properties, db.tenantId);
      if created.Err? {
        return Err(created.error);
      }
      db.committed := created.value.0;
      r := Ok(created.value.1);
    }

    /**
     * `find`: the rows of the owned nodes of this label that match the
     * criteria, in handle order, cut to the limit and projected to the
     * columns. The driver refuses a reserved criteria key or an integer
     * beyond 64 bits; the store refuses a column named twice and a negative
     * limit. `ids_only` is accepted and ignored. Changes nothing.
     */
    method Find(criteria: seq<Entry>, onlyCols: seq<string>, orderBy: seq<string>, limit: Option<int>, idsOnly: bool)
      returns (r: Result<seq<Row>>)
      requires db.Consistent() && DistinctKeys(criteria)
      ensures var hs := Ordered(Selected(db.committed, name, TenantFor(db.tenantId, criteria), criteria), 0, db.committed.next);
              var refused := FindRefusal(db.tenantId, criteria);
              && (r.Err? <==> refused.Some? || Repeats(onlyCols) || (limit.Some? && limit.value < 0))
              && (r.Err? ==> r.error == if refused.Some? then refused.value
                                        else if Repeats(onlyCols) then SyntaxError else NegativeLimit)
              && (r.Ok? ==>
                    && |r.value| == (if limit.Some? && 0 < limit.value < |hs| then limit.value else |hs|)
                    && forall i :: 0 <= i < |r.value| ==>
                         r.value[i] == Project(db.committed.nodes[hs[i]], if |onlyCols| == 0 then WholeNode else Columns(onlyCols)))
    {
      var query, params := MatchNodes(name, criteria, onlyCols, orderBy, limit, db.tenantId);
      // the store runs the query whose text is `query`
      var q := MatchQuery(name, criteria, onlyCols, orderBy, limit);
      assert query == Render(q);
      FindRows(db.committed, name, criteria, onlyCols, orderBy, limit, db.tenantId);
      r := RunRead(db.committed, q, params);
    }

    /**
     * `update`: in a write transaction of its own, `SET n.k = $k` for the mods
     * items (partial) or `SET n = $mods` (full) on the owned nodes of this
     * label that match the criteria. What the driver refuses fails and writes
     * nothing; so does an empty partial mods, a query the store refuses.
     */
    method Update(criteria: seq<Entry>, mods: seq<Entry>, partial: bool) returns (outcome: Outcome)
      requires db.Consistent() && DistinctKeys(criteria) && DistinctKeys(mods)
      modifies db
      ensures db.Consistent() && db.tx == old(db.tx) && db.begun == old(db.begun)
      ensures var g := old(db.committed);
              var refused := if partial then PartialRefusal(db.tenantId, criteria, mods)
                             else FullRefusal(db.tenantId, criteria, mods);
              if refused.Some? then outcome == Fail(refused.value) && db.committed == g
              else if partial && |mods| == 0 then outcome == Fail(SyntaxError) && db.committed == g
              else if partial then
                outcome == Pass
                && db.committed == MergeInto(g, Selected(g, name, TenantFor(TenantFor(db.tenantId, criteria), mods),
                                                         Rebound(criteria, mods)), ToMap(mods))
              else
                outcome == Pass
                && db.committed == ReplaceIn(g, if "mods" in KeySet(criteria) then {}
                                                else Selected(g, name, TenantFor(db.tenantId, criteria), criteria), ToMap(mods))
    {
      var query, params := UpdateNodes(name, criteria, mods, partial, db.tenantId);
      var q := UpdateQuery(name, criteria, mods, partial);
      assert query == Render(q);
      if partial {
        PartialUpdateEffect(db.committed, name, criteria, mods, db.tenantId);
      } else {
        FullReplaceEffect(db.committed, name, criteria, mods, db.tenantId);
      }
      var written := RunWrite(db.committed, q, params);
      if written.Err? {
        return Fail(written.error);
      }
      db.committed := written.value;
      outcome := Pass;
    }

    /**
     * `remove`: in a write transaction of its own, `DETACH DELETE` the owned
     * nodes of this label with the given id, or matching the given criteria.
     * What the driver refuses fails and writes nothing; so does an empty
     * criteria dict, a query the store refuses.
     */
    method Remove(target: Target) returns (outcome: Outcome)
      requires db.Consistent() && (target.ByCriteria? ==> DistinctKeys(target.criteria))
      modifies db
      ensures db.Consistent() && db.tx == old(db.tx) && db.begun == old(db.begun)
      ensures var g := old(db.committed);
              var refused := RemoveRefusal(db.tenantId, target);
              if refused.Some? then outcome == Fail(refused.value) && db.committed == g
              else match target
              case ByKey(k) =>
                outcome == Pass && db.committed == DetachDelete(g, Selected(g, name, db.tenantId, [("id", k)]))
              case ByCriteria(c) =>
                if |c| == 0 then outcome == Fail(SyntaxError) && db.committed == g
                else outcome == Pass && db.committed == DetachDelete(g, Selected(g, name, TenantFor(db.tenantId, c), c))
    {
      var query, params := DeleteNodes(name, target, db.tenantId);
      var q := DeleteQuery(name, target);
      assert query == Render(q);
      RemoveEffect(db.committed, name, target, db.tenantId);
      var deleted := RunDelete(db.committed, q, params);
      if deleted.Err? {
        return Fail(deleted.error);
      }
      db.committed := deleted.value;
      outcome := Pass;
    }
  }
}
