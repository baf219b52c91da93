/**
 * ResourceDBShelve: one resource database file. The shelve is a flat key/value store
 * holding, side by side, each resource's pickle under its ID, its info record under
 * `__doc__.<id>`, its schema record under `SCHEMA.<id>`, the root names under `0root` and a
 * version stamp under `0version`; next to it lives the schema graph. Each operation is a
 * pure transition on that state, and the class's methods are proved to perform it.
 */
module Shelve {

  import opened Wrappers
  import opened Errors
  import opened Objects
  import opened Pickling
  import opened Schema
  import Names

  /** What one shelve key holds. */
  datatype Entry =
    | Pickled(p: Pickle)
    | Info(doc: Option<string>)
    | RootNames(names: set<string>)
    | Version(v: seq<nat>)
    | SchemaRecord(rules: map<string, Rule>)

  type Db = map<string, Entry>

  /** The schema graph: source ID -> target ID -> the relation's ID. */
  type SchemaGraph = map<string, map<string, string>>

  /** ResourceDBShelve._pygr_data_version. */
  const DataVersion: seq<nat> := [0, 1, 0]

  /** `m.get(k)`. */
  function Lookup<V>(m: map<string, V>, k: string): Option<V> {
    if k in m then Some(m[k]) else None
  }

  /** The root names recorded under `0root`; an entry of another kind reads as empty. */
  function Roots(db: Db): set<string> {
    if Names.RootKey in db && db[Names.RootKey].RootNames? then db[Names.RootKey].names else {}
  }

  /** The schema record of id, if the shelve has one; an entry of another kind reads as empty. */
  function Rules(db: Db, id: string): Option<map<string, Rule>> {
    var k := Names.SchemaKey(id);
    if k !in db then None
    else if db[k].SchemaRecord? then Some(db[k].rules)
    else Some(map[])
  }

  /** The database a new shelve file starts as: a version stamp and no root names. */
  function NewDb(): (db: Db)
    ensures Lookup(db, Names.VersionKey) == Some(Version(DataVersion))
    ensures Roots(db) == {} && Names.RootKey in db
    ensures forall k :: k in db ==> Names.Reserved(k)
  {
    map[Names.VersionKey := Version(DataVersion), Names.RootKey := RootNames({})]
  }

  /** A database after a write, and the exception the write raised. */
  datatype Written = Written(db: Db, error: Option<Error>)

  /** find_resource: the stored data and its docstring; KeyError when the ID is absent. */
  function Find(db: Db, id: string): (r: Result<(Entry, Option<string>), Error>)
    ensures r.Success? <==> id in db && (Names.DocKey(id) in db ==> db[Names.DocKey(id)].Info?)
    ensures id !in db ==> r == Failure(KeyError)
    ensures r.Success? ==> r.value.0 == db[id]
    ensures r.Success? ==> r.value.1 == (if Names.DocKey(id) in db then db[Names.DocKey(id)].doc else None)
  {
    if id !in db then Failure(KeyError)
    else match Lookup(db, Names.DocKey(id))
      case None => Success((db[id], None))
      case Some(e) => if e.Info? then Success((db[id], e.doc)) else Failure(TypeError)
  }

  /**
   * __setitem__: pickle obj as its own root, store it under id, its info record under
   * `__doc__.<id>`, and add the root of id to `0root` when it is new.
   */
  function AfterSetItem(db: Db, id: string, obj: Obj): (w: Written)
    ensures Encode(DefaultPickler(obj), obj).Failure? ==>
      w == Written(db, Some(Encode(DefaultPickler(obj), obj).error))
    ensures w.error.None? <==> Encode(DefaultPickler(obj), obj).Success?
    ensures w.error.None? ==> Lookup(w.db, Names.DocKey(id)) == Some(Info(obj.head.doc))
    ensures w.error.None? && id != Names.RootKey ==>
      Lookup(w.db, id) == Some(Pickled(Encode(DefaultPickler(obj), obj).value))
      && Roots(w.db) == Roots(db) + {Names.RootName(id)}
    ensures forall k :: k != id && k != Names.DocKey(id) && k != Names.RootKey ==> Lookup(w.db, k) == Lookup(db, k)
  {
    match Encode(DefaultPickler(obj), obj)
    case Failure(e) => Written(db, Some(e))
    case Success(p) =>
      var d := db[id := Pickled(p)][Names.DocKey(id) := Info(obj.head.doc)];
      var root := Names.RootName(id);
      if root in Roots(d) then Written(d, None)
      else Written(d[Names.RootKey := RootNames(Roots(d) + {root})], None)
  }

  /** __delitem__: remove the ID and its info record; PygrDataNotFoundError when absent. */
  function AfterDelItem(db: Db, id: string): (w: Written)
    ensures id !in db ==> w == Written(db, Some(NotFound))
    ensures id in db ==> w.error.None? && id !in w.db && Names.DocKey(id) !in w.db
    ensures forall k :: k != id && k != Names.DocKey(id) ==> Lookup(w.db, k) == Lookup(db, k)
  {
    if id !in db then Written(db, Some(NotFound))
    else Written(db - {id, Names.DocKey(id)}, None)
  }

  /** setschema: store rule under id.attr; a real attribute's rule must name its targetID. */
  function AfterSetSchema(db: Db, id: string, attr: string, rule: Rule): (w: Written)
    ensures w.error.Some? <==> !Names.IsRuleAttr(attr) && !(rule.Binding? && "targetID" in rule.args)
    ensures w.error.Some? ==> w.db == db && w.error.value in {KeyError, TypeError}
    ensures w.error.None? ==> Rules(w.db, id).Some? && attr in Rules(w.db, id).value && Rules(w.db, id).value[attr] == rule
    ensures w.error.None? ==> forall a :: a != attr && Rules(db, id).Some? && a in Rules(db, id).value ==>
      a in Rules(w.db, id).value && Rules(w.db, id).value[a] == Rules(db, id).value[a]
    ensures w.error.None? ==> forall a :: a != attr && a in Rules(w.db, id).value ==>
      Rules(db, id).Some? && a in Rules(db, id).value
    ensures forall k :: k != Names.SchemaKey(id) ==> Lookup(w.db, k) == Lookup(db, k)
  {
    if !Names.IsRuleAttr(attr) && rule.EdgeRule? then Written(db, Some(TypeError))
    else if !Names.IsRuleAttr(attr) && "targetID" !in rule.args then Written(db, Some(KeyError))
    else
      var d := if Rules(db, id).Some? then Rules(db, id).value else map[];
      Written(db[Names.SchemaKey(id) := SchemaRecord(d[attr := rule])], None)
  }

  /** getschema: the whole schema record of id; KeyError when it has none. */
  function SchemaOf(db: Db, id: string): (r: Result<map<string, Rule>, Error>)
    ensures r.Success? <==> Names.SchemaKey(id) in db
    ensures r.Failure? ==> r.error == KeyError
    ensures r.Success? ==> Rules(db, id) == Some(r.value)
  {
    match Rules(db, id)
    case None => Failure(KeyError)
    case Some(d) => Success(d)
  }

  /** delschema: remove id.attr; KeyError when the record or the attribute is missing. */
  function AfterDelSchema(db: Db, id: string, attr: string): (w: Written)
    ensures w.error.None? <==> Rules(db, id).Some? && attr in Rules(db, id).value
    ensures w.error.Some? ==> w == Written(db, Some(KeyError))
    ensures w.error.None? ==> Rules(w.db, id) == Some(Rules(db, id).value - {attr})
    ensures forall k :: k != Names.SchemaKey(id) ==> Lookup(w.db, k) == Lookup(db, k)
  {
    match Rules(db, id)
    case None => Written(db, Some(KeyError))
    case Some(d) =>
      if attr !in d then Written(db, Some(KeyError))
      else Written(db[Names.SchemaKey(id) := SchemaRecord(d - {attr})], None)
  }

  /** A relation's delschema: each binding removed in turn, until one raises. */
  function AfterDeletes(db: Db, ds: seq<Delete>): (w: Written)
    ensures forall id, a :: Bound(w.db, id, a) ==> Bound(db, id, a)
    ensures forall k :: !Names.StartsWith(k, Names.SchemaPrefix) ==> Lookup(w.db, k) == Lookup(db, k)
    ensures w.error.None? ==> forall j :: 0 <= j < |ds| ==> ds[j].id.Some? && !Bound(w.db, ds[j].id.value, ds[j].attr)
    ensures w.error.Some? ==> w.error.value in {KeyError, TypeError}
    decreases |ds|
  {
    if ds == [] then Written(db, None)
    else if ds[0].id.None? then Written(db, Some(TypeError))
    else
      var first := AfterDelSchema(db, ds[0].id.value, ds[0].attr);
      DelSchemaShrinks(db, ds[0].id.value, ds[0].attr);
      if first.error.Some? then first
      else
        var rest := AfterDeletes(first.db, ds[1..]);
        assert forall j :: 1 <= j < |ds| ==> ds[j] == ds[1..][j - 1];
        rest
  }

  /** delschema only ever removes bindings, and removes the one it names. */
  lemma DelSchemaShrinks(db: Db, id: string, attr: string)
    ensures var w := AfterDelSchema(db, id, attr);
      (forall i, a :: Bound(w.db, i, a) ==> Bound(db, i, a))
      && (w.error.None? ==> !Bound(w.db, id, attr))
  {
    var w := AfterDelSchema(db, id, attr);
    forall i, a | Bound(w.db, i, a) ensures Bound(db, i, a) {
      Names.KeysInjective(i, id);
    }
  }

  /** `graph += source; graph[source][target] = name`. */
  function WithEdge(g: SchemaGraph, source: string, target: string, name: string): (r: SchemaGraph)
    ensures source in r && target in r[source] && r[source][target] == name
    ensures forall t :: t != target && source in g && t in g[source] ==> t in r[source] && r[source][t] == g[source][t]
    ensures forall s :: s != source ==> (s in r <==> s in g) && (s in g ==> r[s] == g[s])
  {
    var out := if source in g then g[source] else map[];
    g[source := out[target := name]]
  }

  /** The shelve state a sequence of schema writes acts on. */
  datatype Store = Store(db: Db, graph: SchemaGraph)

  /** The state after one schema write, or the exception it raised. */
  function Apply(st: Store, w: Write): Result<Store, Error> {
    match w
    case SetRule(id, attr, rule) =>
      var r := AfterSetSchema(st.db, id, attr, rule);
      if r.error.Some? then Failure(r.error.value) else Success(Store(r.db, st.graph))
    case AddEdge(s, t, n) => Success(Store(st.db, WithEdge(st.graph, s, t, n)))
  }

  /** A sequence of writes, applied in order until the first exception. */
  function ApplyAll(st: Store, ws: seq<Write>): (r: Written2)
    ensures |r.applied| <= |ws|
    decreases |ws|
  {
    if ws == [] then Written2(st, [], None)
    else match Apply(st, ws[0])
      case Failure(e) => Written2(st, [], Some(e))
      case Success(st') =>
        var rest := ApplyAll(st', ws[1..]);
        Written2(rest.store, [ws[0]] + rest.applied, rest.error)
  }

  /** The store after a write sequence, the writes that took effect, and the stopping error. */
  datatype Written2 = Written2(store: Store, applied: seq<Write>, error: Option<Error>)

  /** One step of ApplyAll on the writes from position i on. */
  lemma ApplyAllUnfold(st: Store, ws: seq<Write>, i: nat)
    requires i < |ws|
    ensures Apply(st, ws[i]).Failure? ==> ApplyAll(st, ws[i..]) == Written2(st, [], Some(Apply(st, ws[i]).error))
    ensures Apply(st, ws[i]).Success? ==>
      var rest := ApplyAll(Apply(st, ws[i]).value, ws[i + 1..]);
      ApplyAll(st, ws[i..]) == Written2(rest.store, [ws[i]] + rest.applied, rest.error)
  {
    assert ws[i..][0] == ws[i] && ws[i..][1..] == ws[i + 1..];
  }

  /** The (id, attribute) pairs bound in a database. */
  predicate Bound(db: Db, id: string, attr: string) {
    Rules(db, id).Some? && attr in Rules(db, id).value
  }

  /** Well-formed writes never fail, and afterwards every pair they bind is bound. */
  lemma {:induction false} ApplyWellFormed(st: Store, ws: seq<Write>)
    requires forall j :: 0 <= j < |ws| ==> WellFormed(ws[j])
    ensures ApplyAll(st, ws).error.None? && ApplyAll(st, ws).applied == ws
    ensures forall k :: k in RuleKeys(ws) ==> Bound(ApplyAll(st, ws).store.db, k.0, k.1)
    ensures forall id, a :: Bound(st.db, id, a) ==> Bound(ApplyAll(st, ws).store.db, id, a)
    decreases |ws|
  {
    if ws != [] {
      var w := ws[0];
      var st' := Apply(st, w).value;
      assert forall j :: 0 <= j < |ws[1..]| ==> WellFormed(ws[1..][j]) by {
        forall j | 0 <= j < |ws[1..]| ensures WellFormed(ws[1..][j]) { assert ws[1..][j] == ws[j + 1]; }
      }
      ApplyWellFormed(st', ws[1..]);
      RuleKeysCons(w, ws[1..]);
      assert ws == [w] + ws[1..];
      forall id, a | Bound(st.db, id, a) ensures Bound(st'.db, id, a) {
        if w.SetRule? { SetSchemaKeepsOthers(st.db, w.id, w.attr, w.rule, id, a); }
      }
    }
  }

  lemma SetSchemaKeepsOthers(db: Db, id: string, attr: string, rule: Rule, id2: string, a: string)
    requires AfterSetSchema(db, id, attr, rule).error.None?
    requires Bound(db, id2, a)
    ensures Bound(AfterSetSchema(db, id, attr, rule).db, id2, a)
  {
    var w := AfterSetSchema(db, id, attr, rule);
    if id2 != id {
      assert Names.SchemaKey(id2)[|Names.SchemaPrefix|..] == id2;
      assert Names.SchemaKey(id)[|Names.SchemaPrefix|..] == id;
      assert Lookup(w.db, Names.SchemaKey(id2)) == Lookup(db, Names.SchemaKey(id2));
    }
  }

  /** What one resource lookup gives back after __setitem__: the pickle and the docstring. */
  lemma SetItemThenFind(db: Db, id: string, obj: Obj)
    requires id != Names.RootKey
    requires AfterSetItem(db, id, obj).error.None?
    ensures Find(AfterSetItem(db, id, obj).db, id) == Success((Pickled(Encode(DefaultPickler(obj), obj).value), obj.head.doc))
  {
  }

  /** The stored pickle loads back as the object when its references resolve in the catalog. */
  lemma {:induction false} SetItemThenLoad(db: Db, id: string, obj: Obj, catalog: map<string, Obj>)
    requires id != Names.RootKey
    requires AfterSetItem(db, id, obj).error.None?
    requires RefsResolve(DefaultPickler(obj), obj, catalog)
    ensures Find(AfterSetItem(db, id, obj).db, id).Success?
    ensures Find(AfterSetItem(db, id, obj).db, id).value.0.Pickled?
    ensures Decode(Find(AfterSetItem(db, id, obj).db, id).value.0.p, catalog) == Success(obj)
  {
    SetItemThenFind(db, id, obj);
    DecodeEncode(DefaultPickler(obj), obj, catalog);
  }

  /** After __delitem__ a lookup raises KeyError; the root names are kept. */
  lemma DelItemThenFind(db: Db, id: string)
    requires id in db && id != Names.RootKey
    ensures Find(AfterDelItem(db, id).db, id) == Failure(KeyError)
    ensures Roots(AfterDelItem(db, id).db) == Roots(db)
  {
    assert Lookup(AfterDelItem(db, id).db, Names.RootKey) == Lookup(db, Names.RootKey);
  }

  /** setschema then delschema of the same binding leaves the other bindings of the record as they were. */
  lemma SetThenDelSchema(db: Db, id: string, attr: string, rule: Rule)
    requires AfterSetSchema(db, id, attr, rule).error.None?
    ensures var w := AfterDelSchema(AfterSetSchema(db, id, attr, rule).db, id, attr);
      w.error.None? && Rules(w.db, id) == Some(if Rules(db, id).Some? then Rules(db, id).value - {attr} else map[])
  {
    var d := if Rules(db, id).Some? then Rules(db, id).value else map[];
    assert d[attr := rule] - {attr} == d - {attr};
  }

  /** os.path.join(dbpath, '.pygr_data'). */
  function DbFile(dbpath: string): string {
    if dbpath == [] then ".pygr_data"
    else if dbpath[|dbpath| - 1] == '/' then dbpath + ".pygr_data"
    else dbpath + "/.pygr_data"
  }

  class ResourceDBShelve {
    const dbpath: string
    var db: Db
    var graph: SchemaGraph
    var writeable: bool

    /**
     * Opens the shelve file; `existing` is its contents when it exists (None: it could not be
     * opened, and a new file is created). The schema graph file's contents are `schemaGraph`.
     */
    constructor(dbpath: string, existing: Option<Db>, schemaGraph: SchemaGraph)
      ensures this.dbpath == DbFile(dbpath)
      ensures db == (if existing.Some? then existing.value else NewDb())
      ensures graph == schemaGraph && writeable
    {
      this.dbpath := DbFile(dbpath);
      db := if existing.Some? then existing.value else NewDb();
      graph := schemaGraph;
      writeable := true;
    }

    /** find_resource: the stored entry and docstring; KeyError when the ID is absent. */
    function FindResource(id: string): (r: Result<(Entry, Option<string>), Error>)
      reads this
      ensures id !in db ==> r == Failure(KeyError)
      ensures r.Success? ==> id in db && r.value.0 == db[id]
      ensures r.Success? ==>
        (Names.DocKey(id) in db ==> db[Names.DocKey(id)].Info?)
        && r.value.1 == (if Names.DocKey(id) in db then db[Names.DocKey(id)].doc else None)
    {
      Find(db, id)
    }

    method SetItem(id: string, obj: Obj) returns (error: Option<Error>)
      modifies this
      ensures Written(db, error) == AfterSetItem(old(db), id, obj)
      ensures graph == old(graph) && writeable == old(writeable)
    {
      var w := AfterSetItem(db, id, obj);
      db := w.db;
      error := w.error;
    }

    method DelItem(id: string) returns (error: Option<Error>)
      modifies this
      ensures Written(db, error) == AfterDelItem(old(db), id)
      ensures graph == old(graph) && writeable == old(writeable)
    {
      var w := AfterDelItem(db, id);
      db := w.db;
      error := w.error;
    }

    /** dir(prefix): every key of the shelve that starts with prefix, each once. */
    method Dir(prefix: string) returns (names: seq<string>)
      ensures forall k :: k in names <==> k in db && Names.StartsWith(k, prefix)
      ensures forall i, j :: 0 <= i < j < |names| ==> names[i] != names[j]
    {
      names := [];
      var rest := db.Keys;
      while rest != {}
        invariant rest <= db.Keys
        invariant forall k :: k in names <==> k in db && k !in rest && Names.StartsWith(k, prefix)
        invariant forall i, j :: 0 <= i < j < |names| ==> names[i] != names[j]
        decreases rest
      {
        var k :| k in rest;
        if Names.StartsWith(k, prefix) {
          names := names + [k];
        }
        rest := rest - {k};
      }
    }

    /** dir(prefix, asDict=True): those keys, each mapped to its info record if it has one. */
    method DirDict(prefix: string) returns (d: map<string, Option<Entry>>)
      ensures forall k :: k in d <==> k in db && Names.StartsWith(k, prefix)
      ensures forall k :: k in d ==> d[k] == Lookup(db, Names.DocKey(k))
    {
      var names := Dir(prefix);
      d := map[];
      var i := 0;
      while i < |names|
        invariant 0 <= i <= |names|
        invariant forall k :: k in d <==> k in names[..i]
        invariant forall k :: k in d ==> d[k] == Lookup(db, Names.DocKey(k))
      {
        d := d[names[i] := Lookup(db, Names.DocKey(names[i]))];
        i := i + 1;
      }
      assert names[..i] == names;
    }

    method SetSchema(id: string, attr: string, rule: Rule) returns (error: Option<Error>)
      modifies this
      ensures Written(db, error) == AfterSetSchema(old(db), id, attr, rule)
      ensures graph == old(graph) && writeable == old(writeable)
    {
      var w := AfterSetSchema(db, id, attr, rule);
      db := w.db;
      error := w.error;
    }

    /** getschema: the schema record of id; KeyError when there is none. */
    function GetSchema(id: string): (r: Result<map<string, Rule>, Error>)
      reads this
      ensures r.Success? <==> Names.SchemaKey(id) in db
      ensures r.Failure? ==> r.error == KeyError
      ensures r.Success? ==> Rules(db, id) == Some(r.value)
    {
      SchemaOf(db, id)
    }

    method DelSchema(id: string, attr: string) returns (error: Option<Error>)
      modifies this
      ensures Written(db, error) == AfterDelSchema(old(db), id, attr)
      ensures graph == old(graph) && writeable == old(writeable)
    {
      var w := AfterDelSchema(db, id, attr);
      db := w.db;
      error := w.error;
    }

    /** Metabase.saveSchema / saveSchemaEdge applied to this shelve, write by write, until one raises. */
    method ApplyWrites(ws: seq<Write>) returns (error: Option<Error>)
      modifies this
      ensures var r := ApplyAll(Store(old(db), old(graph)), ws);
        Store(db, graph) == r.store && error == r.error
      ensures writeable == old(writeable)
    {
      var st := Store(db, graph);
      var i := 0;
      error := None;
      while i < |ws|
        invariant 0 <= i <= |ws|
        invariant ApplyAll(Store(old(db), old(graph)), ws).store == ApplyAll(st, ws[i..]).store
        invariant ApplyAll(Store(old(db), old(graph)), ws).error == ApplyAll(st, ws[i..]).error
        invariant unchanged(this)
        decreases |ws| - i
      {
        ApplyAllUnfold(st, ws, i);
        var r := Apply(st, ws[i]);
        if r.Failure? {
          error := Some(r.error);
          break;
        }
        st := r.value;
        i := i + 1;
      }
      db, graph := st.db, st.graph;
    }

    /** A relation's delschema run against this shelve. */
    method ApplyDeletes(ds: seq<Delete>) returns (error: Option<Error>)
      modifies this
      ensures Written(db, error) == AfterDeletes(old(db), ds)
      ensures graph == old(graph) && writeable == old(writeable)
    {
      var i := 0;
      error := None;
      while i < |ds|
        invariant 0 <= i <= |ds|
        invariant AfterDeletes(old(db), ds) == AfterDeletes(db, ds[i..])
        invariant graph == old(graph) && writeable == old(writeable)
        decreases |ds| - i
      {
        assert ds[i..][0] == ds[i] && ds[i..][1..] == ds[i + 1..];
        if ds[i].id.None? {
          error := Some(TypeError);
          return;
        }
        var e := DelSchema(ds[i].id.value, ds[i].attr);
        if e.Some? {
          error := e;
          return;
        }
        i := i + 1;
      }
    }
  }
}
