/**
 * ResourceLoader, the shared cache of loaded resources and schema records, and
 * ResourceSaver, the transaction queue of one writeable metabase. Each method is proved to
 * perform the matching transition of the transactions module on the objects' fields.
 */
module Saver {

  import opened Wrappers
  import opened Errors
  import opened Objects
  import opened Schema
  import opened Shelve
  import opened Transactions
  import Names

  class ResourceLoader {
    var cache: map<string, Obj>
    var schemaCache: map<string, map<string, Rule>>

    constructor()
      ensures cache == map[] && schemaCache == map[]
    {
      cache := map[];
      schemaCache := map[];
    }

    /** clear: both the resource cache and the schema cache. */
    method Clear()
      modifies this
      ensures cache == map[] && schemaCache == map[]
    {
      cache := map[];
      schemaCache := map[];
    }
  }

  class ResourceSaver {
    var pendingData: map<string, Obj>
    var pendingSchema: map<string, Queued>
    var lastData: map<string, Obj>
    var lastSchema: map<string, Queued>
    var rollbackData: map<string, Obj>
    const loader: ResourceLoader
    const rdb: ResourceDBShelve

    /** The transaction state: this saver's maps and the shared cache. */
    ghost function State(): Tx
      reads this, loader
    {
      Tx(loader.cache, pendingData, pendingSchema, rollbackData, lastData, lastSchema)
    }

    /** ResourceSaver(mdb): a saver of the metabase whose cache is loader and whose database is rdb. */
    constructor(loader: ResourceLoader, rdb: ResourceDBShelve)
      ensures this.loader == loader && this.rdb == rdb
      ensures State() == Cleared(State())
    {
      this.loader := loader;
      this.rdb := rdb;
      pendingData, pendingSchema, lastData, lastSchema, rollbackData := map[], map[], map[], map[], map[];
    }

    method ClearPending()
      modifies this
      ensures State() == Cleared(old(State()))
    {
      pendingData, pendingSchema, lastData, lastSchema, rollbackData := map[], map[], map[], map[], map[];
    }

    method AddResource(id: string, obj: Obj) returns (error: Option<Error>)
      modifies this, loader
      ensures error.None? <==> AfterAdd(old(State()), id, obj).Success?
      ensures error.None? ==> State() == AfterAdd(old(State()), id, obj).value
      ensures error.Some? ==> error == Some(MissingDoc) && State() == old(State())
      ensures loader.schemaCache == old(loader.schemaCache)
    {
      var c := CheckDoc(obj);
      if c.Fail? {
        return Some(c.error);
      }
      var s := Stamp(obj, id);
      pendingData := pendingData[id := s];
      if id in loader.cache {
        rollbackData := rollbackData[id := loader.cache[id]];
      }
      loader.cache := loader.cache[id := s];
      error := None;
    }

    /** addResourceDict: add_resource for every pair, in the dict's iteration order. */
    method AddResourceDict(d: map<string, Obj>) returns (error: Option<Error>, ghost order: seq<string>)
      modifies this, loader
      ensures forall i :: 0 <= i < |order| ==> order[i] in d
      ensures Distinct(order)
      ensures error.None? ==> Enumerates(order, d) && AddAll(old(State()), d, order) == Success(State())
      ensures error.Some? ==> AddAll(old(State()), d, order) == Failure(error.value)
      ensures error.Some? <==> exists k :: k in d && !HasOwnDoc(d[k])
    {
      var rest := d.Keys;
      order := [];
      VisitStart(d.Keys);
      while rest != {}
        invariant Visiting(d.Keys, rest, order)
        invariant AddAll(old(State()), d, order) == Success(State())
        invariant forall k :: k in d && k !in rest ==> HasOwnDoc(d[k])
        decreases rest
      {
        var k :| k in rest;
        VisitStep(d.Keys, rest, order, k);
        error := AddResource(k, d[k]);
        order := order + [k];
        if error.Some? {
          return;
        }
        rest := rest - {k};
      }
      VisitDone(d, order);
      error := None;
    }

    method QueueSchemaObj(path: Option<string>, attr: string, rel: Relation)
      modifies this
      ensures State() == AfterQueue(old(State()), path, attr, rel)
    {
      pendingSchema := pendingSchema[Names.GetPath(path, attr) := Queued(path, attr, rel)];
    }

    /** save_resource. */
    method SaveResource(id: string, obj: Obj) returns (error: Option<Error>)
      modifies rdb, loader
      ensures Phase(rdb.db, rdb.graph, loader.cache, error)
        == SaveOne(Phase(old(rdb.db), old(rdb.graph), old(loader.cache), None), id, obj)
      ensures rdb.writeable == old(rdb.writeable) && loader.schemaCache == old(loader.schemaCache)
    {
      if !HasOwnDoc(obj) {
        return Some(MissingDoc);
      }
      if obj.head.pid.None? {
        return Some(AttributeError);
      }
      if obj.head.pid.value != id {
        return Some(Mismatch);
      }
      error := rdb.SetItem(id, obj);
      if error.None? {
        loader.cache := loader.cache[id := obj];
      }
    }

    method HasPending() returns (b: bool)
      ensures b == Pending(State())
    {
      b := pendingData != map[] || pendingSchema != map[];
    }

    /** The data loop of save_pending: every pending object saved, in the dict's iteration order. */
    method SaveAllData() returns (error: Option<Error>, ghost order: seq<string>)
      modifies rdb, loader
      ensures forall i :: 0 <= i < |order| ==> order[i] in pendingData
      ensures Distinct(order)
      ensures Phase(rdb.db, rdb.graph, loader.cache, error)
        == SaveData(Phase(old(rdb.db), old(rdb.graph), old(loader.cache), None), pendingData, order)
      ensures error.None? ==> Enumerates(order, pendingData)
      ensures rdb.writeable == old(rdb.writeable) && loader.schemaCache == old(loader.schemaCache)
    {
      ghost var start := Phase(rdb.db, rdb.graph, loader.cache, None);
      var pending := pendingData;
      var rest := pending.Keys;
      order := [];
      error := None;
      VisitStart(pending.Keys);
      while rest != {}
        invariant Visiting(pending.Keys, rest, order)
        invariant Phase(rdb.db, rdb.graph, loader.cache, None) == SaveData(start, pending, order)
        invariant error.None?
        invariant rdb.writeable == old(rdb.writeable) && loader.schemaCache == old(loader.schemaCache)
        decreases rest
      {
        var k :| k in rest;
        VisitStep(pending.Keys, rest, order, k);
        error := SaveResource(k, pending[k]);
        assert SaveData(start, pending, order + [k]) == SaveOne(SaveData(start, pending, order), k, pending[k]);
        order := order + [k];
        if error.Some? {
          return;
        }
        rest := rest - {k};
      }
      VisitDone(pending, order);
    }

    /** The schema loop of save_pending: every queued schema object's saveSchema, in iteration order. */
    method SaveAllSchemas(found: map<string, Obj>) returns (error: Option<Error>, ghost order: seq<string>)
      modifies rdb
      ensures forall i :: 0 <= i < |order| ==> order[i] in pendingSchema
      ensures Distinct(order)
      ensures Phase(rdb.db, rdb.graph, loader.cache, error)
        == SaveSchemas(Phase(old(rdb.db), old(rdb.graph), loader.cache, None), pendingSchema, order, pendingData, found)
      ensures error.None? ==> Enumerates(order, pendingSchema)
      ensures rdb.writeable == old(rdb.writeable)
    {
      ghost var start := Phase(rdb.db, rdb.graph, loader.cache, None);
      var queue, pending := pendingSchema, pendingData;
      var rest := queue.Keys;
      order := [];
      error := None;
      VisitStart(queue.Keys);
      while rest != {}
        invariant Visiting(queue.Keys, rest, order)
        invariant Phase(rdb.db, rdb.graph, loader.cache, None) == SaveSchemas(start, queue, order, pending, found)
        invariant error.None?
        invariant rdb.writeable == old(rdb.writeable)
        decreases rest
      {
        var k :| k in rest;
        VisitStep(queue.Keys, rest, order, k);
        var q := queue[k];
        var o := SaveSchema(q.rel, q.path, q.attr, InverseOf(pending, found, Names.GetPath(q.path, q.attr)));
        error := rdb.ApplyWrites(o.writes);
        if error.None? {
          error := o.error;
        }
        assert SaveSchemas(start, queue, order + [k], pending, found) == SaveOneSchema(SaveSchemas(start, queue, order, pending, found), q, pending, found);
        order := order + [k];
        if error.Some? {
          return;
        }
        rest := rest - {k};
      }
      VisitDone(queue, order);
    }

    /**
     * save_pending: all pending data, then all pending schema, then the queues are cleared and
     * kept as lastData / lastSchema. `found` is what resolving an ID not in the queue gives.
     */
    method SavePending(found: map<string, Obj>) returns (error: Option<Error>, ghost dataOrder: seq<string>, ghost schemaOrder: seq<string>)
      modifies this, loader, rdb
      ensures forall i :: 0 <= i < |dataOrder| ==> dataOrder[i] in old(pendingData)
      ensures forall i :: 0 <= i < |schemaOrder| ==> schemaOrder[i] in old(pendingSchema)
      ensures !Pending(old(State())) ==>
        error == Some(Empty) && State() == old(State()) && rdb.db == old(rdb.db) && rdb.graph == old(rdb.graph)
      // the schema loop starts from the database the data loop left
      ensures Pending(old(State())) ==>
        var data := SaveData(Phase(old(rdb.db), old(rdb.graph), old(loader.cache), None), old(pendingData), dataOrder);
        var all := SaveSchemas(data, old(pendingSchema), schemaOrder, old(pendingData), found);
        rdb.db == all.db && rdb.graph == all.graph && loader.cache == all.cache && error == all.error
      ensures error.None? ==> Enumerates(dataOrder, old(pendingData)) && Enumerates(schemaOrder, old(pendingSchema))
      ensures error.None? ==> !Pending(State()) && rollbackData == map[]
      ensures error.None? ==> lastData == old(pendingData) && lastSchema == old(pendingSchema)
      ensures error.Some? ==> pendingData == old(pendingData) && pendingSchema == old(pendingSchema)
      ensures error.Some? ==> rollbackData == old(rollbackData) && lastData == old(lastData) && lastSchema == old(lastSchema)
      ensures rdb.writeable == old(rdb.writeable) && loader.schemaCache == old(loader.schemaCache)
    {
      dataOrder, schemaOrder := [], [];
      if pendingData == map[] && pendingSchema == map[] {
        return Some(Empty), dataOrder, schemaOrder;
      }
      var d, schemaDict := pendingData, pendingSchema;
      error, dataOrder := SaveAllData();
      if error.Some? {
        return;
      }
      error, schemaOrder := SaveAllSchemas(found);
      if error.Some? {
        return;
      }
      ClearPending();
      lastData, lastSchema := d, schemaDict;
    }

    method Rollback() returns (error: Option<Error>)
      modifies this, loader
      ensures error.None? <==> AfterRollback(old(State())).Success?
      ensures error.None? ==> State() == AfterRollback(old(State())).value
      ensures error.Some? ==> error == Some(Empty) && State() == old(State())
    {
      if pendingData == map[] && pendingSchema == map[] {
        return Some(Empty);
      }
      loader.cache := loader.cache + rollbackData;
      ClearPending();
      error := None;
    }

    /**
     * delSchema: when the database holds a schema record for id, clear the schema cache and
     * delete each rule in the record's iteration order, running a schema object's own
     * delschema first.
     */
    method DelSchema(id: string) returns (error: Option<Error>, ghost order: seq<string>)
      modifies loader, rdb
      ensures SchemaOf(old(rdb.db), id).Failure? ==>
        error.None? && rdb.db == old(rdb.db) && loader.schemaCache == old(loader.schemaCache)
      ensures SchemaOf(old(rdb.db), id).Success? ==>
        var rules := SchemaOf(old(rdb.db), id).value;
        (forall i :: 0 <= i < |order| ==> order[i] in rules)
        && Written(rdb.db, error) == Cascade(old(rdb.db), id, rules, order)
        && (error.None? ==> Enumerates(order, rules))
        && loader.schemaCache == map[]
      ensures Distinct(order)
      ensures rdb.graph == old(rdb.graph) && rdb.writeable == old(rdb.writeable) && loader.cache == old(loader.cache)
    {
      order := [];
      var s := rdb.GetSchema(id);
      if s.Failure? {
        return None, order;
      }
      loader.schemaCache := map[];
      var rules := s.value;
      var rest := rules.Keys;
      error := None;
      VisitStart(rules.Keys);
      while rest != {}
        invariant Visiting(rules.Keys, rest, order)
        invariant Written(rdb.db, None) == Cascade(old(rdb.db), id, rules, order)
        invariant error.None?
        invariant rdb.graph == old(rdb.graph) && rdb.writeable == old(rdb.writeable)
        invariant loader.cache == old(loader.cache) && loader.schemaCache == map[]
        decreases rest
      {
        var attr :| attr in rest;
        VisitStep(rules.Keys, rest, order, attr);
        var rule := rules[attr];
        if Names.IsRuleAttr(attr) {
          if rule.Binding? {
            error := Some(AttributeError);
          } else {
            var ds := Unbind(rule.rel);
            if ds.Failure? {
              error := Some(ds.error);
            } else {
              error := rdb.ApplyDeletes(ds.value);
            }
          }
        }
        if error.None? {
          error := rdb.DelSchema(id, attr);
        }
        order := order + [attr];
        if error.Some? {
          return;
        }
        rest := rest - {attr};
      }
      VisitDone(rules, order);
    }

    /**
     * delete_resource: delete from the database (NotFound when absent), drop from the cache
     * and the queue, then delete its schema bindings.
     */
    method DeleteResource(id: string) returns (error: Option<Error>, ghost order: seq<string>)
      modifies this, loader, rdb
      ensures id !in old(rdb.db) ==>
        error == Some(NotFound) && State() == old(State()) && rdb.db == old(rdb.db)
      ensures id in old(rdb.db) ==>
        var db1 := AfterDelItem(old(rdb.db), id).db;
        loader.cache == old(loader.cache) - {id} && pendingData == old(pendingData) - {id}
        && (SchemaOf(db1, id).Failure? ==> error.None? && rdb.db == db1)
        && (SchemaOf(db1, id).Success? ==>
              (forall i :: 0 <= i < |order| ==> order[i] in SchemaOf(db1, id).value)
              && Written(rdb.db, error) == Cascade(db1, id, SchemaOf(db1, id).value, order))
      ensures pendingSchema == old(pendingSchema) && rollbackData == old(rollbackData)
      ensures lastData == old(lastData) && lastSchema == old(lastSchema)
      ensures rdb.graph == old(rdb.graph)
    {
      order := [];
      error := rdb.DelItem(id);
      if error.Some? {
        return;
      }
      loader.cache := loader.cache - {id};
      pendingData := pendingData - {id};
      error, order := DelSchema(id);
    }
  }
}
