# Neo4j adaptor of UOP, modelled in Dafny

This project models the Neo4j adaptor of the UOP object store
(`packages/uop-db-neo4j/src/uop/db/neo4j/adaptor.py`) and proves properties
of the model.

The adaptor is tenant-scoped and has two classes.

- `Neo4jCollection` turns CRUD calls on one label into Cypher text plus a
  parameter map.
- `Neo4jUOP` holds the one transaction slot `_tx`. It runs a whole changeset in
  one transaction (`apply_changes`) and manages role relations between objects
  (`relate`, `unrelate`, `get_roleset`).

The model covers three layers.

- **Query assembly** (`QueryBuilder`). The builders are loop methods, as in the
  source. They append `n.<key> = $<key>` texts and write the items into a single
  parameter map.
  - Their contracts give the exact query text: `Cypher.Render` of a query
    structure, with clauses in the order MATCH, WHERE, RETURN or SET or DELETE,
    ORDER BY, LIMIT.
  - They also give the exact parameter map. Criteria values, mods values and
    `tenant_id` share one map, so a later write replaces an earlier one with
    the same key.
- **Store semantics** (`Graph`, `Cypher`, `Collection`, `Roles`, `Changeset`).
  The store is an abstract property graph:
  - labelled nodes with property maps;
  - `Tenant` nodes;
  - ownership edges `OWNS_OBJECT` and `OWNED_BY`;
  - role edges, all in one relationship-type namespace.

  The queries the adaptor sends are given their meaning in Cypher:
  - a null parameter matches nothing;
  - `SET n.k = $k` and `SET n += $p` with a null value remove the key;
  - `SET n = $p` replaces all properties;
  - `MERGE` creates only what is missing;
  - `DETACH DELETE` removes the edges too;
  - an empty WHERE or SET list, and a RETURN list naming a column twice, are
    refused;
  - a `MATCH` with no rows makes the rest of the query do nothing.

  Before a query reaches the store, `tx.run(query, **params)` refuses a map
  with a key `self`, `query` or `parameters` (the names of the arguments of
  the driver's `run(self, query, parameters=None, **kwparameters)`), and the
  driver refuses an integer outside the signed 64-bit range.

  On this store, lemmas state what `find`, `update`, `remove` and `insert` do,
  the effect of each changeset step, and the role properties.
- **State** (`Adaptor`). `Neo4jUOP` is a class whose fields are:
  - the committed store;
  - the transaction slot, holding a working copy of the store;
  - a count of transactions begun.

  Its methods are the transaction state machine, `apply_changes` and the role
  calls. `Neo4jCollection`'s methods run the builders and apply the query to
  the committed store, each call in a managed transaction of its own
  (`execute_read` or `execute_write`).

The database driver's failures cannot arise inside the model, so they are
parameters:
- `fault` is the position of the query at which the store raises;
- `commitFails`, `rollbackFails` and `reloadFails` say whether those calls
  raise.

The role registry `id_to_name("roles")` and the list `crud_kinds` are also
parameters.

The model follows the code at these points, where its behaviour is easy to
miss:
- A full-replace update (`SET n = $mods`, adaptor.py line 102) does not keep the
  node's `id`: the properties become exactly the non-null mods
  (`Collection.FullReplaceDropsId`).
- When the driver's `commit()` raises, `_tx` stays set, because line 178 is
  never reached (`Adaptor.Neo4jUOP.Commit`).
- In `apply_changes`, an exception raised by the rollback replaces the original
  exception.
- A `reload_metacontext` failure after a successful commit is raised, but the
  changes are already committed. The rollback that follows has no transaction
  to roll back (`Adaptor.Neo4jUOP.ApplyChanges`).
- Criteria and mods keys are spread into `tx.run` as keyword arguments, so an
  object with a property named `query` or `parameters` can be inserted but
  never found, updated or removed by that property
  (`Collection.FindRefusal` and its partners). A property named `self` cannot
  even be inserted: `insert(self, **object_data)` refuses it as a second
  value for `self` (`Adaptor.Neo4jCollection.Insert`).

## Model

| member | source | states |
|---|---|---|
| Values.MergeProps | packages/uop-db-neo4j/src/uop/db/neo4j/adaptor.py:218 | `SET n += $p` keeps a key iff `p` holds it non-null or `p` lacks it and the node had it; `p`'s value wins |
| Values.Stored | packages/uop-db-neo4j/src/uop/db/neo4j/adaptor.py:102 | a property map is stored without its null entries, and all other entries unchanged |
| Graph.DetachDelete | packages/uop-db-neo4j/src/uop/db/neo4j/adaptor.py:128 | the deleted nodes go, every edge touching one of them goes, all else stays |
| Graph.MergeInto | packages/uop-db-neo4j/src/uop/db/neo4j/adaptor.py:226 | every node of the set gets the merged properties; other nodes, the edges and the handles are unchanged |
| Graph.ReplaceIn | packages/uop-db-neo4j/src/uop/db/neo4j/adaptor.py:102 | every node of the set has exactly the stored `p` as properties, its label kept; nothing else changes |
| Graph.UnmatchedSetIsNoOp | packages/uop-db-neo4j/src/uop/db/neo4j/adaptor.py:225-226 | a SET whose MATCH found no node leaves the store as it was |
| Cypher.Matched | packages/uop-db-neo4j/src/uop/db/neo4j/adaptor.py:51-59 | a node is bound iff it has the label, is owned through `OWNS_OBJECT` by a tenant node with id `$tenant_id`, and meets every WHERE equality |
| Cypher.Refusal | packages/uop-db-neo4j/src/uop/db/neo4j/adaptor.py:72 | `tx.run(query, **params)` raises before the store is reached iff the map has a key `self`, `query` or `parameters` or a value the driver cannot pack, and only with one of those two errors |
| QueryBuilder.OverwriteLookup | packages/uop-db-neo4j/src/uop/db/neo4j/adaptor.py:56-58 | after the loop of `parameters[key] = value`, a key holds the value of the last item that wrote it, else its earlier value |
| QueryBuilder.EqualityClauses | packages/uop-db-neo4j/src/uop/db/neo4j/adaptor.py:55-58 | the loop yields one `n.<key> = $<key>` text per item, in order, and the map with every item written in order |
| QueryBuilder.AppendWhere | packages/uop-db-neo4j/src/uop/db/neo4j/adaptor.py:54-59 | empty criteria add no WHERE and no parameter; otherwise ` WHERE ` and the equalities joined by ` AND ` |
| QueryBuilder.MatchNodes | packages/uop-db-neo4j/src/uop/db/neo4j/adaptor.py:50-73 | the text is MATCH, optional WHERE, `RETURN n` or `RETURN n.<col>, ...`, ORDER BY only for a non-empty order, LIMIT only for a truthy limit; the map is `{tenant_id}` overwritten by the criteria |
| QueryBuilder.UpdateNodes | packages/uop-db-neo4j/src/uop/db/neo4j/adaptor.py:84-105 | the text is MATCH, optional WHERE, then one SET item per mods entry (partial) or `SET n = $mods`; the map is the criteria map overwritten by the mods items, or with `mods` bound to the whole mods dict |
| QueryBuilder.DeleteNodes | packages/uop-db-neo4j/src/uop/db/neo4j/adaptor.py:114-129 | the text always has a WHERE (`n.id = $id` for a key, the equalities for a dict) and ends in `DETACH DELETE n`; the map binds `id` or the criteria items |
| Collection.Selected | packages/uop-db-neo4j/src/uop/db/neo4j/adaptor.py:51-59 | the label's nodes owned through `OWNS_OBJECT` by the tenant that satisfy every criteria item |
| Collection.MatchTenant | packages/uop-db-neo4j/src/uop/db/neo4j/adaptor.py:52-58 | `$tenant_id` of a find is the criteria's `tenant_id` item when there is one, else the adaptor's tenant id |
| Collection.FindSelects | packages/uop-db-neo4j/src/uop/db/neo4j/adaptor.py:50-73 | the find query binds exactly the selected nodes, under the tenant `$tenant_id` really names |
| Collection.MatchParamsBound | packages/uop-db-neo4j/src/uop/db/neo4j/adaptor.py:50-72 | every parameter the find query names is in its map |
| Collection.MatchRefusal | packages/uop-db-neo4j/src/uop/db/neo4j/adaptor.py:52-72 | the driver refuses a find's map iff a criteria key is `self`, `query` or `parameters` (`ArgumentClash`), else iff the tenant the query ends up with or a criteria value is an integer beyond 64 bits |
| Collection.FindRows | packages/uop-db-neo4j/src/uop/db/neo4j/adaptor.py:50-73 | a find fails iff the driver refuses the map (a `self`, `query` or `parameters` key, an integer beyond 64 bits), a column is named twice, or the limit is negative, with that error; otherwise one row per selected node, in creation order, cut to a positive limit, each projected to the asked columns or the whole node |
| Collection.SelfKeyRefused | packages/uop-db-neo4j/src/uop/db/neo4j/adaptor.py:72 | a find whose criteria have a key `self` raises the argument clash, whatever its other criteria, columns and limit |
| Collection.FindIsolation | packages/uop-db-neo4j/src/uop/db/neo4j/adaptor.py:51 | with no `tenant_id` criteria key, a node owned only by tenant `t1` is never read under another tenant |
| Collection.FindCriteriaTenantOverrides | packages/uop-db-neo4j/src/uop/db/neo4j/adaptor.py:52-58 | criteria `{tenant_id: t1}` make a find under any tenant read `t1`'s nodes that store that id: the shared map lets the criteria override the scope |
| Collection.CreatePer | packages/uop-db-neo4j/src/uop/db/neo4j/adaptor.py:23-27 | one new node with the stored properties per tenant row, each with an `OWNS_OBJECT` edge to its tenant row and to nothing else; old nodes unchanged |
| Collection.CreateNode | packages/uop-db-neo4j/src/uop/db/neo4j/adaptor.py:21-30 | a successful create leaves a valid store; what it returns and when it fails is `Collection.InsertOutcome` |
| Collection.InsertOutcome | packages/uop-db-neo4j/src/uop/db/neo4j/adaptor.py:21-30 | insert fails iff an integer is beyond 64 bits (`IntegerOverflow`) or no tenant node has the id (the missing record), and then writes nothing; otherwise it returns the node with the stored properties |
| Collection.InsertThenFind | packages/uop-db-neo4j/src/uop/db/neo4j/adaptor.py:21-30 | with one tenant node and packable values, insert returns the stored node and adds it to a find's selection exactly when the find runs under the adaptor's tenant (a `tenant_id` criteria item may name another) and its criteria hold on the stored properties |
| Collection.Rebound | packages/uop-db-neo4j/src/uop/db/neo4j/adaptor.py:88-99 | the criteria as a partial update compares them: same keys, each value replaced by the mods value of that key when mods has one |
| Collection.PartialUpdateEffect | packages/uop-db-neo4j/src/uop/db/neo4j/adaptor.py:84-105 | a partial update the driver refuses fails with `PartialRefusal`'s error; with empty mods it is refused by the store; otherwise it merges the mods into the nodes selected by the rebound criteria, under the tenant the last `tenant_id` write names |
| Collection.UpdateParamsBound | packages/uop-db-neo4j/src/uop/db/neo4j/adaptor.py:84-104 | every parameter the update query names is in its map |
| Collection.PartialRefusalOf | packages/uop-db-neo4j/src/uop/db/neo4j/adaptor.py:86-105 | the driver refuses a partial update's map iff a criteria or mods key is reserved, else iff a value the map ends up holding (rebound criteria, mods, tenant) is beyond 64 bits |
| Collection.PartialParams | packages/uop-db-neo4j/src/uop/db/neo4j/adaptor.py:88-99 | in the partial-update map, each criteria key holds its rebound value, each mods key its mods value, and `$tenant_id` the last tenant written |
| Collection.PartialUpdateDisjoint | packages/uop-db-neo4j/src/uop/db/neo4j/adaptor.py:84-105 | when criteria and mods share no key and neither has `tenant_id`, the partial update fails with the driver's refusal if there is one and otherwise merges the mods into exactly the selected nodes |
| Collection.ReboundDisjoint | packages/uop-db-neo4j/src/uop/db/neo4j/adaptor.py:88-99 | mods with no criteria key leave the criteria as given |
| Collection.FullRefusalOf | packages/uop-db-neo4j/src/uop/db/neo4j/adaptor.py:86-105 | the driver refuses a full update's map iff a criteria key is reserved, else iff the tenant, a criteria value not hidden by `mods`, or a mods value is beyond 64 bits |
| Collection.FullReplaceEffect | packages/uop-db-neo4j/src/uop/db/neo4j/adaptor.py:84-105 | a full update fails with `FullRefusal`'s error when the driver refuses the map; otherwise it replaces the properties of the selected nodes by the mods, and a criteria key `mods` is overwritten by the dict and then matches no node |
| Collection.FullReplaceDropsId | packages/uop-db-neo4j/src/uop/db/neo4j/adaptor.py:102-103 | a full update succeeds iff the driver sends it, and then a selected node has `id` iff the mods carry a non-null `id`: the old id is dropped |
| Collection.DeleteRefusal | packages/uop-db-neo4j/src/uop/db/neo4j/adaptor.py:116-129 | the driver refuses a remove's map exactly when `RemoveRefusal` says: by key only for an integer beyond 64 bits, by criteria as for a find |
| Collection.RemoveEffect | packages/uop-db-neo4j/src/uop/db/neo4j/adaptor.py:114-129 | remove fails with `RemoveRefusal`'s error when the driver refuses the map; otherwise by key it deletes the selected nodes with that id, by criteria it is refused when empty and otherwise deletes the selected nodes under the tenant the criteria leave |
| Roles.RoleName | packages/uop-db-neo4j/src/uop/db/neo4j/adaptor.py:269 | a registered role id gives its name, any other gives `RELATED_TO` |
| Roles.Relate | packages/uop-db-neo4j/src/uop/db/neo4j/adaptor.py:270-273 | the edges afterwards are the old ones plus one `rel` edge from every node with the subject id to every node with the object id; nodes unchanged |
| Roles.Unrelate | packages/uop-db-neo4j/src/uop/db/neo4j/adaptor.py:284-287 | every `rel` edge from a subject-id node to an object-id node goes, and only those |
| Roles.RoleSet | packages/uop-db-neo4j/src/uop/db/neo4j/adaptor.py:299-318 | a value is in the roleset iff some `rel` edge leaves the subject (enters it, when reversed) and its far end's id is that value |
| Roles.RelateIdempotent | packages/uop-db-neo4j/src/uop/db/neo4j/adaptor.py:272 | relating twice is relating once |
| Roles.RelateReaches | packages/uop-db-neo4j/src/uop/db/neo4j/adaptor.py:268-280 | after `relate` the object is in the subject's roleset iff both ends exist or it was there already |
| Roles.RelateOnlyAdds | packages/uop-db-neo4j/src/uop/db/neo4j/adaptor.py:268-280 | `relate` only grows rolesets, and leaves those of other roles unchanged |
| Roles.UnrelateSeparates | packages/uop-db-neo4j/src/uop/db/neo4j/adaptor.py:282-294 | after `unrelate`, neither end lists the other under that role |
| Roles.UnrelateUndoesRelate | packages/uop-db-neo4j/src/uop/db/neo4j/adaptor.py:268-294 | relating then unrelating leaves what unrelating alone leaves |
| Roles.RolesKeepVisibility | packages/uop-db-neo4j/src/uop/db/neo4j/adaptor.py:268-294 | a role not named `OWNS_OBJECT` changes no node's visibility to a collection |
| Roles.OwnsObjectRoleGrantsVisibility | packages/uop-db-neo4j/src/uop/db/neo4j/adaptor.py:268-280 | a role named `OWNS_OBJECT` from an object to a tenant node makes the object visible to that tenant's collections |
| Roles.RolesetAsWritten | packages/uop-db-neo4j/src/uop/db/neo4j/adaptor.py:312-318 | as written, the roleset is read in a transaction, and outside one the iteration of the closed session's result raises |
| Roles.RolesetLostOutsideTransaction | packages/uop-db-neo4j/src/uop/db/neo4j/adaptor.py:312-318 | for `a` related to `b`, the roleset is `{b}` but the call as written outside a transaction does not return it |
| Changeset.Capitalize | packages/uop-db-neo4j/src/uop/db/neo4j/adaptor.py:212 | the label keeps the length, its first letter upper-cased and the rest lower-cased |
| Changeset.CapitalizeIdempotent | packages/uop-db-neo4j/src/uop/db/neo4j/adaptor.py:212 | capitalising a label again changes nothing |
| Changeset.CapitalizeIgnoresCase | packages/uop-db-neo4j/src/uop/db/neo4j/adaptor.py:212 | lower-casing a kind first gives the same label: `person` and `Person` name one label |
| Changeset.RunMergeTenant | packages/uop-db-neo4j/src/uop/db/neo4j/adaptor.py:207 | the tenant MERGE fails iff the tenant id is null |
| Changeset.MergeTenantOnce | packages/uop-db-neo4j/src/uop/db/neo4j/adaptor.py:207 | the tenant MERGE leaves exactly one new tenant node when there was none, changes nothing when there was one, and is idempotent |
| Changeset.MergeNode | packages/uop-db-neo4j/src/uop/db/neo4j/adaptor.py:217 | `MERGE` by label and id binds the existing nodes, or creates exactly one new node with that id |
| Changeset.Attach | packages/uop-db-neo4j/src/uop/db/neo4j/adaptor.py:219 | `MERGE` of an edge from each bound node to each tenant row adds exactly the missing ones |
| Changeset.RunInsert | packages/uop-db-neo4j/src/uop/db/neo4j/adaptor.py:215-221 | a changeset insert without a tenant node does nothing; with one it fails iff the key is null |
| Changeset.InsertShape | packages/uop-db-neo4j/src/uop/db/neo4j/adaptor.py:215-221 | a changeset insert merges the node, merges the props into it and attaches it `OWNED_BY` to the tenant |
| Changeset.InsertKeepsTenants | packages/uop-db-neo4j/src/uop/db/neo4j/adaptor.py:215-221 | a changeset insert of a non-tenant label changes no tenant set |
| Changeset.InsertKeyed | packages/uop-db-neo4j/src/uop/db/neo4j/adaptor.py:217-218 | after a changeset insert whose props agree with the key, the nodes with that label and id are the merged ones |
| Changeset.InsertIdempotent | packages/uop-db-neo4j/src/uop/db/neo4j/adaptor.py:215-221 | running the same changeset insert twice is running it once |
| Changeset.InsertThenModify | packages/uop-db-neo4j/src/uop/db/neo4j/adaptor.py:214-228 | an insert then a modify of the same key leaves the node with the props merged in order |
| Changeset.ModifyBeforeInsert | packages/uop-db-neo4j/src/uop/db/neo4j/adaptor.py:214-228 | a modify of a key not yet inserted is lost: the order of the loops matters |
| Changeset.InsertInvisibleToFind | packages/uop-db-neo4j/src/uop/db/neo4j/adaptor.py:215-221 | a changeset insert, which attaches by `OWNED_BY`, changes nothing any collection find can see |
| Changeset.RunStepsStops | packages/uop-db-neo4j/src/uop/db/neo4j/adaptor.py:204-266 | after a step raises, later steps do nothing |
| Changeset.RunStepsAppend | packages/uop-db-neo4j/src/uop/db/neo4j/adaptor.py:204-259 | running two lists of steps is running the second on the result of the first |
| Changeset.KindsStepsAreEntitySteps | packages/uop-db-neo4j/src/uop/db/neo4j/adaptor.py:210-235 | the loop over the kinds runs no tenant MERGE and no relation query |
| Changeset.PlanOrder | packages/uop-db-neo4j/src/uop/db/neo4j/adaptor.py:206-259 | the tenant MERGE comes first iff the tenant id is truthy and nowhere else; the relation queries form a suffix after every entity query |
| Changeset.KindOrder | packages/uop-db-neo4j/src/uop/db/neo4j/adaptor.py:214-235 | within a kind, all inserts precede all modifies, which precede all deletes |
| Changeset.KindsStepsPrefix | packages/uop-db-neo4j/src/uop/db/neo4j/adaptor.py:210 | the steps of the first `k` kinds are a prefix of the steps of all kinds |
| Changeset.Perform | packages/uop-db-neo4j/src/uop/db/neo4j/adaptor.py:221 | one `tx.run` succeeds iff the store does not fail and the query does not raise; on success the store is the step's result, otherwise unchanged |
| Changeset.ExecStops | packages/uop-db-neo4j/src/uop/db/neo4j/adaptor.py:264-266 | once the transaction's run has raised, later steps change neither the store nor the error |
| Changeset.ExecWithoutFault | packages/uop-db-neo4j/src/uop/db/neo4j/adaptor.py:204-259 | without a store failure, running in the transaction agrees with running the steps in order: same store, same error |
| Changeset.ExecFaultBeyond | packages/uop-db-neo4j/src/uop/db/neo4j/adaptor.py:204-259 | a store failure at a position the run never reaches changes nothing |
| Changeset.ExecFaultAt | packages/uop-db-neo4j/src/uop/db/neo4j/adaptor.py:204-266 | a store failure at a query the run reaches is the error reported, whatever follows |
| Changeset.RunOne | packages/uop-db-neo4j/src/uop/db/neo4j/adaptor.py:221 | one `tx.run` advances the transaction's run by exactly one step |
| Changeset.RunAll | packages/uop-db-neo4j/src/uop/db/neo4j/adaptor.py:214-235 | one `for` loop of queries extends the run by its steps, stopping at the first that raises |
| Changeset.RunLoop | packages/uop-db-neo4j/src/uop/db/neo4j/adaptor.py:214-221 | the `tx.run` calls of one loop extend the run by its steps in order, stopping at the first that raises |
| Changeset.RunKindChanges | packages/uop-db-neo4j/src/uop/db/neo4j/adaptor.py:214-235 | a present kind runs its inserted, then its modified, then its deleted entries |
| Changeset.RunKind | packages/uop-db-neo4j/src/uop/db/neo4j/adaptor.py:211-235 | one kind runs its inserts, modifies and deletes, or raises at the `getattr` of a kind the changeset lacks |
| Changeset.RunKinds | packages/uop-db-neo4j/src/uop/db/neo4j/adaptor.py:210-235 | the loop over the kinds runs their steps in `crud_kinds` order and is left at the first exception |
| Changeset.RunEntities | packages/uop-db-neo4j/src/uop/db/neo4j/adaptor.py:206-235 | the tenant MERGE for a truthy tenant id, then the loop over the kinds, stopping at the first exception |
| Changeset.RunPlan | packages/uop-db-neo4j/src/uop/db/neo4j/adaptor.py:206-259 | everything before the commit: the tenant MERGE for a truthy id, the kinds, the relation inserts, then the relation deletes, stopping at the first exception |
| Adaptor.Neo4jUOP.constructor | packages/uop-db-neo4j/src/uop/db/neo4j/adaptor.py:141-146 | a new adaptor has no open transaction |
| Adaptor.Neo4jUOP.RawCollection | packages/uop-db-neo4j/src/uop/db/neo4j/adaptor.py:162-165 | the raw collection of a name is the label of that name |
| Adaptor.Neo4jUOP.BeginTransaction | packages/uop-db-neo4j/src/uop/db/neo4j/adaptor.py:170-173 | an open transaction is returned as it is; otherwise exactly one new transaction over the committed store is opened |
| Adaptor.Neo4jUOP.Commit | packages/uop-db-neo4j/src/uop/db/neo4j/adaptor.py:175-178 | no transaction: nothing happens; a commit installs the transaction's store and clears the slot; a failing commit leaves store and slot as they were |
| Adaptor.Neo4jUOP.RollbackTransaction | packages/uop-db-neo4j/src/uop/db/neo4j/adaptor.py:180-183 | the committed store never changes; the slot is cleared unless the rollback fails or there is none |
| Adaptor.Neo4jUOP.Relate | packages/uop-db-neo4j/src/uop/db/neo4j/adaptor.py:268-280 | `relate` changes the transaction's store when one is open, else the committed store, by the registered role name |
| Adaptor.Neo4jUOP.Unrelate | packages/uop-db-neo4j/src/uop/db/neo4j/adaptor.py:282-294 | `unrelate` changes the transaction's store when one is open, else the committed store |
| Adaptor.Neo4jUOP.GetRoleset | packages/uop-db-neo4j/src/uop/db/neo4j/adaptor.py:296-318 | the far-end ids of the subject's role edges, as the open transaction sees them when there is one; outside a transaction this is the intended result (see Findings) |
| Adaptor.Neo4jUOP.ApplyChanges | packages/uop-db-neo4j/src/uop/db/neo4j/adaptor.py:200-266 | if a query or the commit raises, the committed store is unchanged and the error is raised (the rollback's own failure replacing it); otherwise the committed store is the run of the whole plan and a failing reload is raised after the commit |
| Adaptor.Neo4jCollection.constructor | packages/uop-db-neo4j/src/uop/db/neo4j/adaptor.py:7-10 | a collection is its label over its adaptor |
| Adaptor.Neo4jCollection.Insert | packages/uop-db-neo4j/src/uop/db/neo4j/adaptor.py:12-30 | insert fails iff a property is named `self` (the argument clash), an integer is beyond 64 bits or no tenant node has the id, writing nothing; otherwise it returns the stored node and commits the create |
| Adaptor.Neo4jCollection.Find | packages/uop-db-neo4j/src/uop/db/neo4j/adaptor.py:32-73 | find fails iff the driver refuses the map, a column is named twice or the limit is negative, with that error; otherwise it returns the selected nodes' rows in creation order, cut to a positive limit and projected; `ids_only` is ignored |
| Adaptor.Neo4jCollection.Update | packages/uop-db-neo4j/src/uop/db/neo4j/adaptor.py:75-105 | an update the driver refuses, and a partial update with empty mods, fail and write nothing; otherwise the committed store changes by the merge or the replace of the selected nodes |
| Adaptor.Neo4jCollection.Remove | packages/uop-db-neo4j/src/uop/db/neo4j/adaptor.py:107-129 | a remove the driver refuses, and one by an empty criteria dict, fail and write nothing; otherwise the selected nodes and their edges are deleted from the committed store |

## Left out

- Driver and session plumbing (`open_db`, `close`, `get_session`,
  `drop_database`, `make_named_database`, credential defaults) is network I/O
  over the neo4j library. Sessions are modelled as immediate effects on the
  committed store.
- The retries of `execute_read` and `execute_write` on transient errors are
  left out: the driver does them, and the model has no transient errors.
- `get_metadata` and `reload_metacontext` depend on the external metacontext of
  `uop.core`. The reload only appears as `reloadFails`. `crud_kinds` and the
  role registry are parameters, and the registry is not re-read after a reload.
- The Cypher engine is given meaning only for the query shapes the adaptor
  sends, through a query structure whose text is `Cypher.Render`. Query text is
  not parsed.
- Collection.FindRows: the rows come in creation order even when `order_by`
  is given. The sort the store applies (Neo4j's value ordering, with its own
  rules for mixed types and unspecified order among ties) is not modelled, so
  under `order_by` with a limit the model may keep other nodes than the store.
  A limit beyond 64 bits, which the store rejects in the query text, is not
  refused: the model returns rows.
- Adaptor.Neo4jCollection.Find: the same; its rows follow creation order,
  not `order_by`, and a limit beyond 64 bits is not refused.
- Values.Value: property values are null, strings, integers and booleans.
  Floats, lists, maps and temporal values are not modelled, and with them
  Cypher's equality across numeric types (`1 = 1.0`).
- Changeset.Perform: a changeset query with an integer beyond 64 bits is one
  of the driver failures the `fault` position stands for; the refusal is not
  derived from the values.
- Label and key names are interpolated into the text unchecked. Injection
  through them is left out: names are taken to be plain identifiers.
- The store's edges are a set, so two equal edges cannot coexist. The source
  never creates one: `MERGE` checks first, and `CREATE` creates fresh nodes.
- A find returns one row per node, even when several tenant nodes share the
  id, where Cypher would repeat the row per tenant match.
- Writes a collection makes, in its own managed transaction, while a
  transaction of the adaptor is open go to the committed store. That
  transaction's commit then installs its own working copy over them. The model does not capture locking or the conflicts of
  concurrent transactions.
- `Adaptor.Neo4jUOP.Relate`, `Adaptor.Neo4jUOP.Unrelate` and
  `Adaptor.Neo4jUOP.GetRoleset` do not model a failing driver call, other than
  the consumed result under Findings. No state of the adaptor depends on it.
- `Changeset.Capitalize` models Python's `str.capitalize` on ASCII letters only.
  Unicode case mapping is left out.
- `Adaptor.Neo4jCollection.Find` does not model `ids_only`, which the source
  accepts and ignores.
- Python dicts are modelled as sequences of entries with distinct keys, in
  insertion order. A changeset's `inserted` and `modified` are sequences of
  (key, props) pairs in the same order.
- The tests in `tests/` need a live Neo4j server and are not part of this model.

## Findings

| source | as written | input that shows it | evidently intended | confidence | as-written member | corrected member |
|---|---|---|---|---|---|---|
| packages/uop-db-neo4j/src/uop/db/neo4j/adaptor.py:312-318 | outside a transaction, `session.run` is called in a `with` block and its result is iterated only after the block has closed the session, which consumes the unread records, so the driver raises on iteration (`Roles.RolesetAsWritten`) | `get_roleset("a", role)` with no open transaction, where `a` has one role edge to `b` (`Roles.RoleExample`) | the records are collected inside the `with` block, and the call returns `{"b"}` | medium, not executed; rests on the documented behaviour of version 5 of the driver, which the `execute_read` calls need | Roles.RolesetLostOutsideTransaction | Adaptor.Neo4jUOP.GetRoleset |
