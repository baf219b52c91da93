/**
 * The transaction state machine of ResourceSaver, as pure transitions: the pending queues,
 * the rollback snapshots, the shared resource cache, and what a commit writes to the
 * resource database. The classes in the saver module are proved to perform these steps.
 */
module Transactions {

  import opened Wrappers
  import opened Errors
  import opened Objects
  import opened Pickling
  import opened Schema
  import opened Shelve
  import Names

  /** A queued schema: `(schemaPath, attr, schemaObj)`; the root path has no ID. */
  datatype Queued = Queued(path: Option<string>, attr: string, rel: Relation)

  /** The saver's maps together with the shared cache (the ResourceLoader dict). */
  datatype Tx = Tx(
    cache: map<string, Obj>,
    pending: map<string, Obj>,
    schemas: map<string, Queued>,
    rollback: map<string, Obj>,
    lastData: map<string, Obj>,
    lastSchema: map<string, Queued>)

  /** Each queued schema sits under the ID its path and attribute name. */
  predicate QueuedUnderPath(q: map<string, Queued>) {
    forall k :: k in q ==> k == Names.GetPath(q[k].path, q[k].attr)
  }

  /**
   * What every transition keeps: every object in the cache, the queue, the snapshots and
   * the last commit carries the ID it is held under.
   */
  ghost predicate Consistent(t: Tx) {
    Stamped(t.cache) && Stamped(t.pending) && Stamped(t.rollback) && Stamped(t.lastData)
    && QueuedUnderPath(t.schemas) && QueuedUnderPath(t.lastSchema)
  }

  /** has_pending. */
  predicate Pending(t: Tx) {
    t.pending != map[] || t.schemas != map[]
  }

  /** clear_pending: every queue and snapshot emptied; the cache is not the saver's to clear. */
  function Cleared(t: Tx): (r: Tx)
    ensures !Pending(r) && r.rollback == map[] && r.lastData == map[] && r.lastSchema == map[]
    ensures r.cache == t.cache
  {
    Tx(t.cache, map[], map[], map[], map[], map[])
  }

  /** check_docstring: a resource must carry a docstring of its own, not its class's. */
  function CheckDoc(o: Obj): (r: Outcome<Error>)
    ensures r.Pass? <==> o.head.doc.Some? && o.head.doc != o.head.classDoc
    ensures r.Fail? ==> r.error == MissingDoc
  {
    if HasOwnDoc(o) then Pass else Fail(MissingDoc)
  }

  /** add_resource: validate, stamp, queue, snapshot the cache entry being replaced, cache. */
  function AfterAdd(t: Tx, id: string, o: Obj): (r: Result<Tx, Error>)
    ensures r.Failure? <==> !HasOwnDoc(o)
    ensures r.Failure? ==> r.error == MissingDoc
    ensures r.Success? ==> id in r.value.pending && id in r.value.cache
    ensures r.Success? ==> r.value.pending[id] == r.value.cache[id] == Stamp(o, id)
    ensures r.Success? ==> r.value.cache[id].head.pid == Some(id)
    ensures r.Success? && id in t.cache ==> id in r.value.rollback && r.value.rollback[id] == t.cache[id]
    ensures r.Success? && id !in t.cache ==> r.value.rollback == t.rollback
    ensures r.Success? ==> forall k :: k != id ==>
      Lookup(r.value.pending, k) == Lookup(t.pending, k) && Lookup(r.value.cache, k) == Lookup(t.cache, k)
      && Lookup(r.value.rollback, k) == Lookup(t.rollback, k)
    ensures r.Success? ==> r.value.schemas == t.schemas
    ensures r.Success? ==> r.value.lastData == t.lastData && r.value.lastSchema == t.lastSchema
  {
    if CheckDoc(o).Fail? then Failure(CheckDoc(o).error)
    else
      var s := Stamp(o, id);
      var snap := if id in t.cache then t.rollback[id := t.cache[id]] else t.rollback;
      Success(t.(pending := t.pending[id := s], rollback := snap, cache := t.cache[id := s]))
  }

  /** queue_schema_obj: queue the relation under `schemaPath.getPath(attr)`. */
  function AfterQueue(t: Tx, path: Option<string>, attr: string, rel: Relation): (r: Tx)
    ensures var id := Names.GetPath(path, attr);
      id in r.schemas && r.schemas[id] == Queued(path, attr, rel)
      && (forall k :: k != id ==> Lookup(r.schemas, k) == Lookup(t.schemas, k))
    ensures Pending(r)
    ensures r.cache == t.cache && r.pending == t.pending && r.rollback == t.rollback
  {
    t.(schemas := t.schemas[Names.GetPath(path, attr) := Queued(path, attr, rel)])
  }

  /** rollback: the snapshots go back into the cache (loader.update) and the queues are cleared. */
  function AfterRollback(t: Tx): (r: Result<Tx, Error>)
    ensures r.Failure? <==> !Pending(t)
    ensures r.Failure? ==> r.error == Empty
    ensures r.Success? ==> forall k :: k in t.rollback ==> k in r.value.cache && r.value.cache[k] == t.rollback[k]
    // an ID with no snapshot keeps whatever the cache holds, including an object added since
    ensures r.Success? ==> forall k :: k !in t.rollback ==> Lookup(r.value.cache, k) == Lookup(t.cache, k)
    ensures r.Success? ==> !Pending(r.value) && r.value.rollback == map[]
  {
    if !Pending(t) then Failure(Empty)
    else Success(Cleared(t.(cache := t.cache + t.rollback)))
  }

  /** The state a commit acts on: the resource database, its schema graph and the cache. */
  datatype Phase = Phase(db: Db, graph: SchemaGraph, cache: map<string, Obj>, error: Option<Error>)

  /** save_resource: check the docstring and the stamp, store in the database, then cache. */
  function SaveOne(p: Phase, id: string, o: Obj): (r: Phase)
    requires p.error.None?
    ensures r.error.None? <==> HasOwnDoc(o) && o.head.pid == Some(id) && AfterSetItem(p.db, id, o).error.None?
    ensures !HasOwnDoc(o) ==> r.error == Some(MissingDoc)
    ensures HasOwnDoc(o) && o.head.pid.Some? && o.head.pid != Some(id) ==> r.error == Some(Mismatch)
    // nothing reaches the database or the cache unless every check passed
    ensures HasOwnDoc(o) && o.head.pid == Some(id) ==> r.db == AfterSetItem(p.db, id, o).db
    ensures !(HasOwnDoc(o) && o.head.pid == Some(id)) ==> r.db == p.db
    ensures r.error.None? ==> r.cache == p.cache[id := o]
    ensures r.error.Some? ==> r.cache == p.cache
    ensures r.graph == p.graph
  {
    if !HasOwnDoc(o) then p.(error := Some(MissingDoc))
    else if o.head.pid.None? then p.(error := Some(AttributeError))
    else if o.head.pid.value != id then p.(error := Some(Mismatch))
    else
      var w := AfterSetItem(p.db, id, o);
      if w.error.Some? then p.(db := w.db, error := w.error)
      else p.(db := w.db, cache := p.cache[id := o])
  }

  /** The data loop of save_pending over the IDs in the order visited, stopping at the first error. */
  function SaveData(start: Phase, pending: map<string, Obj>, order: seq<string>): (r: Phase)
    requires forall i :: 0 <= i < |order| ==> order[i] in pending
    ensures r.graph == start.graph
    ensures start.error.Some? ==> r == start
    decreases |order|
  {
    if order == [] then start
    else
      var prev := SaveData(start, pending, order[..|order| - 1]);
      if prev.error.Some? then prev
      else SaveOne(prev, order[|order| - 1], pending[order[|order| - 1]])
  }

  /**
   * `mdb.get_pending_or_find(graphDB)._inverse_schema()`: the pending queue first, then the
   * resources `found` stands for; a graph in neither raises the KeyError of rdb.find_resource.
   */
  function InverseOf(pending: map<string, Obj>, found: map<string, Obj>, graphDB: string): (r: InverseLookup)
    // a pending object takes precedence over a saved one
    ensures graphDB in pending ==> r == Found(pending[graphDB].head.inverseSchema)
    ensures r.LookupFailed? <==> graphDB !in pending && graphDB !in found
    ensures r.LookupFailed? ==> r.e == KeyError
  {
    if graphDB in pending then Found(pending[graphDB].head.inverseSchema)
    else if graphDB in found then Found(found[graphDB].head.inverseSchema)
    else LookupFailed(KeyError)
  }

  /** One queued schema object's saveSchema, applied to the database. */
  function SaveOneSchema(p: Phase, q: Queued, pending: map<string, Obj>, found: map<string, Obj>): (r: Phase)
    requires p.error.None?
    ensures r.cache == p.cache
  {
    var o := SaveSchema(q.rel, q.path, q.attr, InverseOf(pending, found, Names.GetPath(q.path, q.attr)));
    var w := ApplyAll(Store(p.db, p.graph), o.writes);
    Phase(w.store.db, w.store.graph, p.cache, if w.error.Some? then w.error else o.error)
  }

  /** The schema loop of save_pending, stopping at the first error. */
  function SaveSchemas(start: Phase, queue: map<string, Queued>, order: seq<string>,
                       pending: map<string, Obj>, found: map<string, Obj>): (r: Phase)
    requires forall i :: 0 <= i < |order| ==> order[i] in queue
    ensures r.cache == start.cache
    ensures start.error.Some? ==> r == start
    decreases |order|
  {
    if order == [] then start
    else
      var prev := SaveSchemas(start, queue, order[..|order| - 1], pending, found);
      if prev.error.Some? then prev
      else SaveOneSchema(prev, queue[order[|order| - 1]], pending, found)
  }

  /** A duplicate-free sequence. */
  predicate Distinct(s: seq<string>) {
    forall i, j :: 0 <= i < j < |s| ==> s[i] != s[j]
  }

  /** An enumeration of exactly the keys of m, each once. */
  ghost predicate Enumerates<V>(order: seq<string>, m: map<string, V>) {
    Distinct(order) && (forall k :: k in order <==> k in m)
  }

  /** Part way through visiting the keys of a map: order lists the keys visited, each once; rest holds the others. */
  ghost predicate Visiting(keys: set<string>, rest: set<string>, order: seq<string>) {
    rest <= keys && Distinct(order)
    && (forall i :: 0 <= i < |order| ==> order[i] in keys && order[i] !in rest)
    && (forall k :: k in keys ==> (k in rest <==> k !in order))
  }

  lemma VisitStart(keys: set<string>)
    ensures Visiting(keys, keys, [])
  {
  }

  /** Visiting one more key. */
  lemma VisitStep(keys: set<string>, rest: set<string>, order: seq<string>, k: string)
    requires Visiting(keys, rest, order) && k in rest
    ensures Visiting(keys, rest - {k}, order + [k]) && (order + [k])[..|order|] == order
  {
    assert (order + [k])[..|order|] == order;
  }

  /** Every key visited: the order enumerates the map. */
  lemma VisitDone<V>(m: map<string, V>, order: seq<string>)
    requires Visiting(m.Keys, {}, order)
    ensures Enumerates(order, m)
  {
  }

  /** A successful data loop cached every object it visited, and only those. */
  lemma {:induction false} SaveDataCaches(start: Phase, pending: map<string, Obj>, order: seq<string>)
    requires forall i :: 0 <= i < |order| ==> order[i] in pending
    requires SaveData(start, pending, order).error.None?
    ensures var r := SaveData(start, pending, order);
      (forall k :: k in order ==> k in r.cache && r.cache[k] == pending[k])
      && (forall k :: k !in order ==> Lookup(r.cache, k) == Lookup(start.cache, k))
    decreases |order|
  {
    if order != [] {
      var init := order[..|order| - 1];
      SaveDataCaches(start, pending, init);
      forall k | k in order ensures k in init || k == order[|order| - 1] {
        var i :| 0 <= i < |order| && order[i] == k;
        if i < |order| - 1 { assert init[i] == k; }
      }
    }
  }

  /**
   * IDs that cannot overwrite one another's keys: none is another's `__doc__.` key, and none
   * is the root-name record.
   */
  predicate Separate(ids: set<string>) {
    forall a, b :: a in ids && b in ids ==> a != Names.DocKey(b) && a != Names.RootKey
  }

  /** The pickle and docstring a stored resource is found as. */
  predicate FoundAs(db: Db, k: string, o: Obj) {
    Encode(DefaultPickler(o), o).Success?
    && Find(db, k) == Success((Pickled(Encode(DefaultPickler(o), o).value), o.head.doc))
  }

  /** Saving one resource does not disturb the lookup of a separate ID. */
  lemma SaveOneKeepsFind(p: Phase, id: string, o: Obj, k: string)
    requires p.error.None? && k != id
    requires k != Names.DocKey(id) && k != Names.RootKey && id != Names.DocKey(k)
    ensures Find(SaveOne(p, id, o).db, k) == Find(p.db, k)
  {
    var r := SaveOne(p, id, o);
    Names.KeysInjective(k, id);
    assert Names.DocKey(k) != Names.RootKey by {
      assert Names.DocKey(k)[0] == '_';
    }
    assert Lookup(r.db, k) == Lookup(p.db, k);
    assert Lookup(r.db, Names.DocKey(k)) == Lookup(p.db, Names.DocKey(k));
  }

  /**
   * After a successful data loop every visited resource is found in the database as its own
   * pickle with its own docstring, provided the IDs are separate.
   */
  lemma {:induction false} SaveDataStores(start: Phase, pending: map<string, Obj>, order: seq<string>, k: string)
    requires forall i :: 0 <= i < |order| ==> order[i] in pending
    requires Separate(pending.Keys)
    requires SaveData(start, pending, order).error.None?
    requires k in order
    ensures FoundAs(SaveData(start, pending, order).db, k, pending[k])
    decreases |order|
  {
    var init := order[..|order| - 1];
    var last := order[|order| - 1];
    var prev := SaveData(start, pending, init);
    assert prev.error.None?;
    if k == last {
      SetItemThenFind(prev.db, last, pending[last]);
    } else {
      var i :| 0 <= i < |order| && order[i] == k;
      assert init[i] == k;
      SaveDataStores(start, pending, init, k);
      SaveOneKeepsFind(prev, last, pending[last], k);
    }
  }

  /** Adding an ID the cache did not hold, then rolling back, leaves the new object cached. */
  lemma RollbackKeepsNewId(t: Tx, id: string, o: Obj)
    requires id !in t.cache && id !in t.rollback
    requires AfterAdd(t, id, o).Success?
    ensures AfterRollback(AfterAdd(t, id, o).value).Success?
    ensures var c := AfterRollback(AfterAdd(t, id, o).value).value.cache; id in c && c[id] == Stamp(o, id)
  {
    assert Lookup(AfterAdd(t, id, o).value.rollback, id) == None;
  }

  /** Adding an ID the cache held, with no snapshot yet, then rolling back, restores the cached object. */
  lemma RollbackRestores(t: Tx, id: string, o: Obj)
    requires id in t.cache && id !in t.rollback
    requires AfterAdd(t, id, o).Success?
    ensures AfterRollback(AfterAdd(t, id, o).value).Success?
    ensures var c := AfterRollback(AfterAdd(t, id, o).value).value.cache; id in c && c[id] == t.cache[id]
  {
  }

  /**
   * A second add_resource of the same ID snapshots the first pending object, so rolling back
   * brings back that object rather than what the cache held before the transaction.
   */
  lemma SecondAddSnapshotsFirst(t: Tx, id: string, a: Obj, b: Obj)
    requires AfterAdd(t, id, a).Success? && AfterAdd(AfterAdd(t, id, a).value, id, b).Success?
    ensures var t2 := AfterAdd(AfterAdd(t, id, a).value, id, b).value;
      t2.rollback[id] == Stamp(a, id)
      && AfterRollback(t2).Success? && AfterRollback(t2).value.cache[id] == Stamp(a, id)
  {
  }

  lemma AddKeepsConsistent(t: Tx, id: string, o: Obj)
    requires Consistent(t) && AfterAdd(t, id, o).Success?
    ensures Consistent(AfterAdd(t, id, o).value)
  {
    var r := AfterAdd(t, id, o).value;
    forall k | k in r.rollback ensures r.rollback[k].head.pid == Some(k) {
      if k != id { assert Lookup(r.rollback, k) == Lookup(t.rollback, k); }
    }
  }

  lemma QueueKeepsConsistent(t: Tx, path: Option<string>, attr: string, rel: Relation)
    requires Consistent(t)
    ensures Consistent(AfterQueue(t, path, attr, rel))
  {
  }

  lemma RollbackKeepsConsistent(t: Tx)
    requires Consistent(t) && AfterRollback(t).Success?
    ensures Consistent(AfterRollback(t).value)
  {
  }

  /** A data loop over a stamped cache leaves it stamped. */
  lemma {:induction false} SaveDataKeepsStamped(start: Phase, pending: map<string, Obj>, order: seq<string>)
    requires forall i :: 0 <= i < |order| ==> order[i] in pending
    requires Stamped(start.cache)
    ensures Stamped(SaveData(start, pending, order).cache)
    decreases |order|
  {
    if order != [] {
      SaveDataKeepsStamped(start, pending, order[..|order| - 1]);
    }
  }

  /**
   * The auto-download branch of load AS WRITTEN: `saver.addResource` is not a method of
   * ResourceSaver, so the lookup raises AttributeError before anything is queued.
   */
  function LocalBuildAsWritten(t: Tx, id: string, o: Obj): (r: Result<Tx, Error>)
    // whatever the transaction state and the object, the branch never succeeds
    ensures r.Failure?
  {
    Failure(AttributeError)
  }

  /** The object a local build queues: flagged as saved, so it is not saved again. */
  function Built(o: Obj): (r: Obj)
    ensures r.head.saveLocalBuild == false && r.parts == o.parts && r.head.doc == o.head.doc
  {
    o.(head := o.head.(saveLocalBuild := false))
  }

  /**
   * The auto-download branch as intended: add_resource the downloaded object; then commit at
   * once unless a transaction was already pending, in which case it just joins the queue.
   * The commit's own outcome is SaveData/SaveSchemas; this gives the state it starts from.
   */
  function LocalBuild(t: Tx, id: string, o: Obj): (r: Result<(Tx, bool), Error>)
    ensures r.Failure? <==> !HasOwnDoc(o)
    ensures r.Success? ==> r.value.1 == !Pending(t)
    ensures r.Success? ==> r.value.0 == AfterAdd(t, id, Built(o)).value
  {
    match AfterAdd(t, id, Built(o))
    case Failure(e) => Failure(e)
    case Success(t') => Success((t', !Pending(t)))
  }

  /** As written, every locally built download fails; as intended, one with a docstring is queued. */
  lemma LocalBuildDiscrepancy(t: Tx, id: string, o: Obj)
    requires HasOwnDoc(o)
    ensures LocalBuildAsWritten(t, id, o) == Failure(AttributeError)
    ensures LocalBuild(t, id, o).Success?
    ensures var t' := LocalBuild(t, id, o).value.0; id in t'.pending && t'.pending[id] == Stamp(Built(o), id)
  {
  }

  /** addResourceDict: add_resource for each pair in the order visited, stopping at the first error. */
  function AddAll(t: Tx, d: map<string, Obj>, order: seq<string>): (r: Result<Tx, Error>)
    requires forall i :: 0 <= i < |order| ==> order[i] in d
    ensures r.Failure? ==> r.error == MissingDoc
    decreases |order|
  {
    if order == [] then Success(t)
    else
      match AddAll(t, d, order[..|order| - 1])
      case Failure(e) => Failure(e)
      case Success(t') => AfterAdd(t', order[|order| - 1], d[order[|order| - 1]])
  }

  /** A successful addResourceDict queued and cached every pair it visited, stamped. */
  lemma {:induction false} AddAllQueues(t: Tx, d: map<string, Obj>, order: seq<string>, k: string)
    requires forall i :: 0 <= i < |order| ==> order[i] in d
    requires AddAll(t, d, order).Success? && k in order
    ensures var r := AddAll(t, d, order).value;
      k in r.pending && r.pending[k] == Stamp(d[k], k) && k in r.cache && r.cache[k] == Stamp(d[k], k)
    decreases |order|
  {
    var init := order[..|order| - 1];
    if k != order[|order| - 1] {
      var i :| 0 <= i < |order| && order[i] == k;
      assert init[i] == k;
      AddAllQueues(t, d, init, k);
    }
  }

  /** addResourceDict fails exactly when some visited object lacks its own docstring. */
  lemma {:induction false} AddAllFails(t: Tx, d: map<string, Obj>, order: seq<string>)
    requires forall i :: 0 <= i < |order| ==> order[i] in d
    ensures AddAll(t, d, order).Failure? <==> exists i :: 0 <= i < |order| && !HasOwnDoc(d[order[i]])
    decreases |order|
  {
    if order != [] {
      var init := order[..|order| - 1];
      AddAllFails(t, d, init);
      assert forall i :: 0 <= i < |init| ==> init[i] == order[i];
      if exists i :: 0 <= i < |order| && !HasOwnDoc(d[order[i]]) {
        var i :| 0 <= i < |order| && !HasOwnDoc(d[order[i]]);
        if i < |init| { assert !HasOwnDoc(d[init[i]]); }
      }
    }
  }

  /**
   * One rule of delSchema's loop: a `-` rule is a schema object whose delschema runs first;
   * then the rule itself is deleted.
   */
  function DropRule(db: Db, id: string, attr: string, rule: Rule): (w: Written)
    ensures forall i, a :: Bound(w.db, i, a) ==> Bound(db, i, a)
    ensures w.error.None? ==> !Bound(w.db, id, attr)
    ensures w.error.None? && Names.IsRuleAttr(attr) && rule.EdgeRule? ==>
      Unbind(rule.rel).Success? && forall j :: 0 <= j < |Unbind(rule.rel).value| ==>
        Unbind(rule.rel).value[j].id.Some?
        && !Bound(w.db, Unbind(rule.rel).value[j].id.value, Unbind(rule.rel).value[j].attr)
    ensures w.error.None? ==> !Names.IsRuleAttr(attr) || rule.EdgeRule?
  {
    var first :=
      if !Names.IsRuleAttr(attr) then Written(db, None)
      else if rule.Binding? then Written(db, Some(AttributeError))
      else match Unbind(rule.rel)
        case Failure(e) => Written(db, Some(e))
        case Success(ds) => AfterDeletes(db, ds);
    DelSchemaShrinks(first.db, id, attr);
    if first.error.Some? then first else AfterDelSchema(first.db, id, attr)
  }

  /** delSchema's loop over the resource's rules in the order visited, stopping at the first error. */
  function Cascade(db: Db, id: string, rules: map<string, Rule>, order: seq<string>): (w: Written)
    requires forall i :: 0 <= i < |order| ==> order[i] in rules
    ensures forall i, a :: Bound(w.db, i, a) ==> Bound(db, i, a)
    decreases |order|
  {
    if order == [] then Written(db, None)
    else
      var prev := Cascade(db, id, rules, order[..|order| - 1]);
      if prev.error.Some? then prev
      else DropRule(prev.db, id, order[|order| - 1], rules[order[|order| - 1]])
  }

  /**
   * A successful cascade leaves no visited rule of the resource bound, and no binding that
   * a visited schema object's delschema names.
   */
  lemma {:induction false} CascadeUnbinds(db: Db, id: string, rules: map<string, Rule>, order: seq<string>, attr: string)
    requires forall i :: 0 <= i < |order| ==> order[i] in rules
    requires Cascade(db, id, rules, order).error.None? && attr in order
    ensures !Bound(Cascade(db, id, rules, order).db, id, attr)
    ensures Names.IsRuleAttr(attr) ==> rules[attr].EdgeRule? && Unbind(rules[attr].rel).Success?
    ensures Names.IsRuleAttr(attr) ==> forall j :: 0 <= j < |Unbind(rules[attr].rel).value| ==>
      Unbind(rules[attr].rel).value[j].id.Some?
      && !Bound(Cascade(db, id, rules, order).db, Unbind(rules[attr].rel).value[j].id.value, Unbind(rules[attr].rel).value[j].attr)
    decreases |order|
  {
    var init := order[..|order| - 1];
    var last := order[|order| - 1];
    var prev := Cascade(db, id, rules, init);
    assert prev.error.None?;
    if attr != last {
      var i :| 0 <= i < |order| && order[i] == attr;
      assert init[i] == attr;
      CascadeUnbinds(db, id, rules, init, attr);
    }
  }

  /**
   * delete_resource undoes a graph relation's commit: after the cascade over the graph's
   * ID succeeds on a record holding the relation, none of the bindings its saveSchema wrote
   * is left.
   */
  lemma CascadeUndoesGraphSave(db: Db, rel: Relation, path: Option<string>, attr: string,
                               lookup: InverseLookup, order: seq<string>)
    requires rel.Graph?
    requires GraphSave(rel, path, attr, lookup).error.None?
    requires var graphDB := Names.GetPath(path, attr);
      Rules(db, graphDB).Some? && Enumerates(order, Rules(db, graphDB).value)
      && SchemaEdgeAttr in Rules(db, graphDB).value
      && Rules(db, graphDB).value[SchemaEdgeAttr] == EdgeRule(Named(rel, graphDB))
    requires var graphDB := Names.GetPath(path, attr);
      Cascade(db, graphDB, Rules(db, graphDB).value, order).error.None?
    ensures var graphDB := Names.GetPath(path, attr);
      forall k :: k in RuleKeys(GraphSave(rel, path, attr, lookup).writes) ==>
        !Bound(Cascade(db, graphDB, Rules(db, graphDB).value, order).db, k.0, k.1)
  {
    var graphDB := Names.GetPath(path, attr);
    GraphDeleteUndoesSave(rel, path, attr, lookup);
    CascadeClearsGraph(db, rel, graphDB, order);
  }

  /** The cascade over a graph's ID clears the graph's own bindings and everything its delschema names. */
  lemma CascadeClearsGraph(db: Db, rel: Relation, graphDB: string, order: seq<string>)
    requires rel.Graph?
    requires Rules(db, graphDB).Some? && Enumerates(order, Rules(db, graphDB).value)
      && SchemaEdgeAttr in Rules(db, graphDB).value
      && Rules(db, graphDB).value[SchemaEdgeAttr] == EdgeRule(Named(rel, graphDB))
    requires Cascade(db, graphDB, Rules(db, graphDB).value, order).error.None?
    ensures Unbind(Named(rel, graphDB)).Success?
    ensures forall k :: k in GraphOwnKeys(rel, graphDB) + DeleteKeys(Unbind(Named(rel, graphDB)).value) ==>
      !Bound(Cascade(db, graphDB, Rules(db, graphDB).value, order).db, k.0, k.1)
  {
    var rules := Rules(db, graphDB).value;
    CascadeClearsOwn(db, graphDB, rules, order, GraphOwnKeys(rel, graphDB));
    CascadeClearsUnbound(db, graphDB, rules, order);
  }

  /** A cascade over a whole record leaves none of the record's own bindings on its ID. */
  lemma CascadeClearsOwn(db: Db, graphDB: string, rules: map<string, Rule>, order: seq<string>, keys: set<(string, string)>)
    requires Rules(db, graphDB) == Some(rules) && Enumerates(order, rules)
    requires Cascade(db, graphDB, rules, order).error.None?
    requires forall k :: k in keys ==> k.0 == graphDB
    ensures forall k :: k in keys ==> !Bound(Cascade(db, graphDB, rules, order).db, k.0, k.1)
  {
    forall k | k in keys ensures !Bound(Cascade(db, graphDB, rules, order).db, k.0, k.1) {
      if k.1 in order {
        CascadeUnbinds(db, graphDB, rules, order, k.1);
      } else {
        assert !Bound(db, k.0, k.1);
      }
    }
  }

  /** A cascade over a record holding a relation object runs that object's delschema. */
  lemma CascadeClearsUnbound(db: Db, graphDB: string, rules: map<string, Rule>, order: seq<string>)
    requires Enumerates(order, rules) && SchemaEdgeAttr in rules && rules[SchemaEdgeAttr].EdgeRule?
    requires Cascade(db, graphDB, rules, order).error.None?
    ensures Unbind(rules[SchemaEdgeAttr].rel).Success?
    ensures forall k :: k in DeleteKeys(Unbind(rules[SchemaEdgeAttr].rel).value) ==>
      !Bound(Cascade(db, graphDB, rules, order).db, k.0, k.1)
  {
    CascadeUnbinds(db, graphDB, rules, order, SchemaEdgeAttr);
    var ds := Unbind(rules[SchemaEdgeAttr].rel).value;
    forall k | k in DeleteKeys(ds) ensures !Bound(Cascade(db, graphDB, rules, order).db, k.0, k.1) {
      var j :| 0 <= j < |ds| && ds[j].id.Some? && k == (ds[j].id.value, ds[j].attr);
    }
  }
}
