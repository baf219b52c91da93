/**
 * Resource resolution over a list of metabases (MetabaseList): building the list from the
 * PYGRDATAPATH string, searching it for a resource ID cache first and backend by backend,
 * loading a resource whose pickle refers to other resources, binding its schema, and
 * looking up schema records and schema attributes.
 */
module Resolver {

  import opened Wrappers
  import opened Errors
  import opened Objects
  import opened Pickling
  import opened Schema
  import opened Shelve
  import opened Transactions
  import opened Saver
  import opened Descriptors
  import opened Layers
  import Names

  /** What opening a backend's files gives: the shelve's contents if it exists, and the graph file's. */
  datatype Files = Files(existing: Option<Db>, graph: SchemaGraph)

  /** The database a backend starts with: the file's contents, or a fresh shelve. */
  function Contents(f: Files): Db {
    if f.existing.Some? then f.existing.value else NewDb()
  }

  /** One metabase: its database, and the saver that records transactions against it. */
  class Metabase {
    const dbpath: string
    const layer: Layer
    const rdb: ResourceDBShelve
    const saver: ResourceSaver
    const writeable: bool
    /** What opening its files gave. */
    ghost const files: Files

    /** Metabase.__init__ for a path that opened: a shelve database is always writeable. */
    constructor(dbpath: string, files: Files, loader: ResourceLoader, env: PathEnv)
      ensures this.dbpath == dbpath && layer == LayerOf(dbpath, env) && this.files == files
      ensures fresh(rdb) && fresh(saver) && saver.loader == loader && saver.rdb == rdb
      ensures rdb.db == Contents(files)
      ensures rdb.graph == files.graph && rdb.dbpath == DbFile(OpenedPath(dbpath, env))
      ensures writeable && rdb.writeable
      ensures !Pending(saver.State())
    {
      this.dbpath := dbpath;
      this.files := files;
      layer := LayerOf(dbpath, env);
      var r := new ResourceDBShelve(OpenedPath(dbpath, env), files.existing, files.graph);
      rdb := r;
      writeable := r.writeable;
      saver := new ResourceSaver(loader, r);
    }
  }

  /** MetabaseList.defaultPath: home directory, current directory, then the public index. */
  const DefaultPath: seq<string> := ["~", ".", "http://biodb2.bioinformatics.ucla.edu:5000"]

  /** With the default separator the default path string splits back into its three entries. */
  lemma DefaultPathSplits()
    ensures Names.Split(Names.Join(DefaultPath, ','), ',') == DefaultPath
  {
    assert forall i :: 0 <= i < |DefaultPath| ==> ',' !in DefaultPath[i];
    Names.SplitJoin(DefaultPath, ',');
  }

  /**
   * MetabaseList.__call__ as written: its loop unpacks what MetabaseList.find_resource
   * yields, which is each backend's own find_resource generator rather than the
   * (data, docstring) pair; unpacking the first one runs the first backend's lookup, whose
   * KeyError is not caught there, and a one-item generator does not unpack into two names.
   */
  function CallAsWritten(dbs: seq<Db>, id: string): (r: Result<Obj, Error>)
    ensures r.Failure?
  {
    if |dbs| == 0 then Failure(NotFound)
    else match Find(dbs[0], id)
      case Failure(e) => Failure(e)
      case Success(_) => Failure(UnpackError)
  }

  /** As written, a resource held by the first backend is never loaded, one held by a later backend is a KeyError. */
  lemma CallAsWrittenFails(dbs: seq<Db>, id: string)
    requires |dbs| >= 2 && id in dbs[1]
    ensures id in dbs[0] && Find(dbs[0], id).Success? ==> CallAsWritten(dbs, id) == Failure(UnpackError)
    ensures id !in dbs[0] ==> CallAsWritten(dbs, id) == Failure(KeyError)
  {
  }

  /**
   * The backends built from the pieces of a path: ms[k] was opened from pieces[used[k]], and
   * each piece before `stop` was kept exactly when it opened.
   */
  ghost predicate EnumeratedOf(ms: seq<Metabase>, opener: string -> Result<Files, Error>,
                               pieces: seq<string>, used: seq<nat>, stop: nat) {
    |used| == |ms| && stop <= |pieces|
    && (forall k :: 0 <= k < |used| ==> used[k] < stop)
    && (forall k, k' :: 0 <= k < k' < |used| ==> used[k] < used[k'])
    && (forall k :: 0 <= k < |ms| ==>
          ms[k].dbpath == pieces[used[k]] && opener(pieces[used[k]]) == Success(ms[k].files))
    && (forall j :: 0 <= j < stop ==> (opener(pieces[j]).Success? <==> j in used))
  }

  /** A piece that fails to open is passed over. */
  lemma EnumerateSkip(ms: seq<Metabase>, opener: string -> Result<Files, Error>,
                      pieces: seq<string>, used: seq<nat>, i: nat)
    requires EnumeratedOf(ms, opener, pieces, used, i) && i < |pieces| && opener(pieces[i]).Failure?
    ensures EnumeratedOf(ms, opener, pieces, used, i + 1)
  {
  }

  /** A piece that opens becomes the next backend. */
  lemma EnumerateAdd(ms: seq<Metabase>, m: Metabase, opener: string -> Result<Files, Error>,
                     pieces: seq<string>, used: seq<nat>, i: nat)
    requires EnumeratedOf(ms, opener, pieces, used, i) && i < |pieces|
    requires m.dbpath == pieces[i] && opener(pieces[i]) == Success(m.files)
    ensures EnumeratedOf(ms + [m], opener, pieces, used + [i], i + 1)
  {
    var ms', used' := ms + [m], used + [i];
    assert ms'[|ms|] == m && used'[|used|] == i;
    assert forall k :: 0 <= k < |ms| ==> ms'[k] == ms[k] && used'[k] == used[k];
  }

  /** The writer is the first writeable backend, and there is none only when no backend is writeable. */
  ghost predicate WriterFirstOf(ms: seq<Metabase>, writer: Option<Metabase>) {
    (writer.None? <==> forall k :: 0 <= k < |ms| ==> !ms[k].writeable)
    && (writer.Some? ==> exists k :: 0 <= k < |ms| && writer.value == ms[k] && ms[k].writeable
                                     && forall j :: 0 <= j < k ==> !ms[j].writeable)
  }

  /** Each layer present records the database of the first backend of that layer. */
  ghost predicate LayersFirstOf(ms: seq<Metabase>, layer: map<Layer, ResourceDBShelve>) {
    (forall l :: l in layer <==> exists k :: 0 <= k < |ms| && ms[k].layer == l)
    && (forall l :: l in layer ==> exists k :: 0 <= k < |ms| && ms[k].layer == l && layer[l] == ms[k].rdb
                                                && forall j :: 0 <= j < k ==> ms[j].layer != l)
  }

  lemma AppendLayer(ms: seq<Metabase>, layer: map<Layer, ResourceDBShelve>, m: Metabase)
    requires LayersFirstOf(ms, layer)
    ensures LayersFirstOf(ms + [m], if m.layer in layer then layer else layer[m.layer := m.rdb])
  {
    var ms' := ms + [m];
    var layer' := if m.layer in layer then layer else layer[m.layer := m.rdb];
    assert ms'[|ms|] == m;
    forall l | l in layer'
      ensures exists k :: 0 <= k < |ms'| && ms'[k].layer == l && layer'[l] == ms'[k].rdb
                          && forall j :: 0 <= j < k ==> ms'[j].layer != l
    {
      if l in layer {
        var k :| 0 <= k < |ms| && ms[k].layer == l && layer[l] == ms[k].rdb
                 && forall j :: 0 <= j < k ==> ms[j].layer != l;
        assert ms'[k] == ms[k];
      }
    }
    forall l | exists k :: 0 <= k < |ms'| && ms'[k].layer == l
      ensures l in layer'
    {
      var k :| 0 <= k < |ms'| && ms'[k].layer == l;
      if k < |ms| {
        assert ms'[k] == ms[k];
      }
    }
  }

  lemma AppendWriter(ms: seq<Metabase>, writer: Option<Metabase>, m: Metabase)
    requires WriterFirstOf(ms, writer)
    ensures WriterFirstOf(ms + [m], if m.writeable && writer.None? then Some(m) else writer)
  {
    var ms' := ms + [m];
    assert ms'[|ms|] == m;
    assert forall k :: 0 <= k < |ms| ==> ms'[k] == ms[k];
    if writer.Some? {
      var k :| 0 <= k < |ms| && writer.value == ms[k] && ms[k].writeable
               && forall j :: 0 <= j < k ==> !ms[j].writeable;
      assert ms'[k] == ms[k];
    }
  }

  /** The databases of a list of metabases, in order. */
  ghost function DbsOf(ms: seq<Metabase>): (dbs: seq<Db>)
    reads set m | m in ms :: m.rdb
    ensures |dbs| == |ms| && forall j :: 0 <= j < |ms| ==> dbs[j] == ms[j].rdb.db
  {
    if ms == [] then [] else DbsOf(ms[..|ms| - 1]) + [ms[|ms| - 1].rdb.db]
  }

  /** None of the first n databases holds id. */
  ghost predicate Misses(dbs: seq<Db>, id: string, n: nat)
    requires n <= |dbs|
  {
    forall j :: 0 <= j < n ==> id !in dbs[j]
  }

  /** Database f is the first of dbs to hold id. */
  ghost predicate FirstHolder(dbs: seq<Db>, id: string, f: nat) {
    f < |dbs| && id in dbs[f] && Misses(dbs, id, f)
  }

  /** getschema over the databases in order: the first schema record of id; KeyError when none has one. */
  function FirstSchema(dbs: seq<Db>, id: string): (r: Result<map<string, Rule>, Error>)
    ensures r.Failure? <==> forall j :: 0 <= j < |dbs| ==> Names.SchemaKey(id) !in dbs[j]
    ensures r.Failure? ==> r.error == KeyError
  {
    if dbs == [] then Failure(KeyError)
    else if Names.SchemaKey(id) in dbs[0] then SchemaOf(dbs[0], id)
    else
      var r := FirstSchema(dbs[1..], id);
      assert forall j :: 1 <= j < |dbs| ==> dbs[j] == dbs[1..][j - 1];
      r
  }

  /** The record FirstSchema gives is that of the first database holding one. */
  lemma {:induction false} FirstSchemaIsFirst(dbs: seq<Db>, id: string, f: nat)
    requires f < |dbs| && Names.SchemaKey(id) in dbs[f]
    requires forall j :: 0 <= j < f ==> Names.SchemaKey(id) !in dbs[j]
    ensures FirstSchema(dbs, id) == SchemaOf(dbs[f], id)
  {
    if f > 0 {
      assert Names.SchemaKey(id) !in dbs[0];
      assert forall j :: 0 <= j < f - 1 ==> dbs[1..][j] == dbs[j + 1];
      FirstSchemaIsFirst(dbs[1..], id, f - 1);
    }
  }

  /** The schema record get_schema_attr works from: the schema cache's, else getschema's. */
  function CachedOrFirst(schemaCache: map<string, map<string, Rule>>, dbs: seq<Db>, id: string): Result<map<string, Rule>, Error> {
    if id in schemaCache then Success(schemaCache[id]) else FirstSchema(dbs, id)
  }

  class MetabaseList {
    const loader: ResourceLoader
    const registry: TypeRegistry
    const separator: char
    const env: PathEnv
    /** `os.environ['PYGRDATAPATH']`, if set. */
    const environPath: Option<string>
    /** What opening the backend at each path gives, or the error its constructor raises. */
    const opener: string -> Result<Files, Error>
    var mdb: seq<Metabase>
    var layer: map<Layer, ResourceDBShelve>
    var dbstr: Option<string>
    var writer: Option<Metabase>
    var debug: bool
    var download: bool
    ghost var Repr: set<object>

    ghost predicate Owned(m: Metabase)
      reads this
    {
      m in Repr && m.rdb in Repr && m.saver in Repr && m.saver.loader == loader && m.saver.rdb == m.rdb
    }

    ghost predicate Valid()
      reads this
    {
      this in Repr && loader in Repr && registry in Repr
      && (forall i :: 0 <= i < |mdb| ==> Owned(mdb[i]))
      && (writer.Some? ==> Owned(writer.value))
    }

    /** The resolution settings and the backend list, which a nested resolution leaves as they were. */
    ghost function Config(): (seq<Metabase>, map<Layer, ResourceDBShelve>, Option<string>, Option<Metabase>, bool, bool, set<object>)
      reads this
    {
      (mdb, layer, dbstr, writer, debug, download, Repr)
    }

    /** MetabaseList(loader, separator): no backend is connected until the first update. */
    constructor(loader: ResourceLoader, registry: TypeRegistry, separator: char, env: PathEnv,
                environPath: Option<string>, opener: string -> Result<Files, Error>)
      ensures Valid() && fresh(Repr - {loader, registry})
      ensures this.loader == loader && this.registry == registry && this.separator == separator
      ensures this.env == env && this.environPath == environPath && this.opener == opener
      ensures mdb == [] && layer == map[] && dbstr.None? && writer.None? && !debug && !download
    {
      this.loader := loader;
      this.registry := registry;
      this.separator := separator;
      this.env := env;
      this.environPath := environPath;
      this.opener := opener;
      mdb, layer, dbstr, writer := [], map[], None, None;
      debug, download := false, false;
      Repr := {this, loader, registry};
    }

    /** get_pygr_data_path: the environment variable, else the default path joined by the separator. */
    function PygrDataPath(): (p: string)
      ensures environPath.Some? ==> p == environPath.value
      ensures environPath.None? && separator == ',' ==> Names.Split(p, separator) == DefaultPath
    {
      if environPath.Some? then environPath.value
      else
        DefaultPathSplits();
        Names.Join(DefaultPath, separator)
    }

    /** The backend list update builds from the pieces of the path, as EnumeratedOf says. */
    ghost predicate Enumerated(pieces: seq<string>, used: seq<nat>, stop: nat)
      reads this
    {
      EnumeratedOf(mdb, opener, pieces, used, stop)
    }

    ghost predicate WriterIsFirst()
      reads this
    {
      WriterFirstOf(mdb, writer)
    }

    ghost predicate LayersAreFirst()
      reads this
    {
      LayersFirstOf(mdb, layer)
    }

    /** The path string update works from: the current one when asked to keep it, else the one given, else the default. */
    function TargetPath(path: Option<string>, keepCurrentPath: bool): string
      reads this
    {
      var p := if keepCurrentPath then dbstr else path;
      if p.Some? then p.value else PygrDataPath()
    }

    /** The backends connected from the pieces of a path, up to the first failure in debug mode. */
    ghost predicate Connected(pieces: seq<string>, dbg: bool, used: seq<nat>, stop: nat, error: Option<Error>)
      reads this
    {
      Enumerated(pieces, used, stop) && WriterIsFirst() && LayersAreFirst()
      && (error.None? ==> stop == |pieces|)
      && (error.Some? ==> dbg && stop < |pieces| && opener(pieces[stop]) == Failure(error.value))
    }

    /**
     * update: reconnect when the path string differs from the current one. A backend that
     * fails to open is skipped, unless debug, when the error ends the update.
     */
    method Update(path: Option<string>, debugArg: Option<bool>, keepCurrentPath: bool)
      returns (error: Option<Error>, ghost used: seq<nat>, ghost stop: nat)
      requires Valid()
      modifies this
      ensures Valid() && old(Repr) <= Repr && fresh(Repr - old(Repr))
      ensures debug == old(debug) && download == old(download)
      ensures dbstr == Some(old(TargetPath(path, keepCurrentPath)))
      ensures old(dbstr) == Some(old(TargetPath(path, keepCurrentPath))) ==> Config() == old(Config()) && error.None?
      ensures old(dbstr) != Some(old(TargetPath(path, keepCurrentPath))) ==>
        Connected(Names.Split(old(TargetPath(path, keepCurrentPath)), separator),
                  if debugArg.Some? then debugArg.value else old(debug), used, stop, error)
    {
      var p := TargetPath(path, keepCurrentPath);
      var dbg := if debugArg.Some? then debugArg.value else debug;
      used, stop := [], 0;
      if dbstr == Some(p) {
        return None, used, stop;
      }
      dbstr := Some(p);
      error, used, stop := Connect(Names.Split(p, separator), dbg);
    }

    /** The loop of update: connect to each piece in turn, starting from an empty list. */
    method Connect(pieces: seq<string>, dbg: bool) returns (error: Option<Error>, ghost used: seq<nat>, ghost stop: nat)
      requires Valid()
      modifies this
      ensures Valid() && old(Repr) <= Repr && fresh(Repr - old(Repr))
      ensures dbstr == old(dbstr) && debug == old(debug) && download == old(download)
      ensures Connected(pieces, dbg, used, stop, error)
    {
      mdb, writer, layer := [], None, map[];
      used := [];
      var i := 0;
      while i < |pieces|
        invariant 0 <= i <= |pieces|
        invariant Valid() && old(Repr) <= Repr && fresh(Repr - old(Repr))
        invariant dbstr == old(dbstr) && debug == old(debug) && download == old(download)
        invariant Enumerated(pieces, used, i) && WriterIsFirst() && LayersAreFirst()
      {
        var files := opener(pieces[i]);
        if files.Failure? {
          if dbg {
            return Some(files.error), used, i;
          }
          EnumerateSkip(mdb, opener, pieces, used, i);
        } else {
          Open(pieces, used, i, files.value);
          used := used + [i];
        }
        i := i + 1;
      }
      error, stop := None, i;
    }

    /** The piece at i opened: a new metabase over what it gave joins the list. */
    method Open(pieces: seq<string>, ghost used: seq<nat>, i: nat, files: Files)
      requires Valid() && Enumerated(pieces, used, i) && WriterIsFirst() && LayersAreFirst()
      requires i < |pieces| && opener(pieces[i]) == Success(files)
      modifies this
      ensures Valid() && old(Repr) <= Repr && fresh(Repr - old(Repr))
      ensures dbstr == old(dbstr) && debug == old(debug) && download == old(download)
      ensures Enumerated(pieces, used + [i], i + 1) && WriterIsFirst() && LayersAreFirst()
    {
      var m := new Metabase(pieces[i], files, loader, env);
      ghost var added := {m, m.rdb, m.saver};
      assert fresh(added);
      EnumerateAdd(mdb, m, opener, pieces, used, i);
      AppendLayer(mdb, layer, m);
      AppendWriter(mdb, writer, m);
      Append(m);
      assert Repr - old(Repr) <= added;
    }

    /** One connected backend added to the list: it records a layer and the writer if it is the first. */
    method Append(m: Metabase)
      requires Valid() && m.saver.loader == loader && m.saver.rdb == m.rdb
      modifies this
      ensures Valid() && mdb == old(mdb) + [m] && Repr == old(Repr) + {m, m.rdb, m.saver}
      ensures layer == if m.layer in old(layer) then old(layer) else old(layer)[m.layer := m.rdb]
      ensures writer == if m.writeable && old(writer).None? then Some(m) else old(writer)
      ensures dbstr == old(dbstr) && debug == old(debug) && download == old(download)
    {
      var layer' := if m.layer in layer then layer else layer[m.layer := m.rdb];
      var writer' := if m.writeable && writer.None? then Some(m) else writer;
      ghost var ms := mdb;
      mdb, layer, writer, Repr := mdb + [m], layer', writer', Repr + {m, m.rdb, m.saver};
      forall i | 0 <= i < |mdb|
        ensures Owned(mdb[i])
      {
        if i < |ms| {
          assert mdb[i] == ms[i] && old(Owned(ms[i]));
        }
      }
    }

    /** get_writer: the writeable metabase, once the backend list is loaded. */
    method GetWriter() returns (r: Result<Metabase, Error>)
      requires Valid()
      modifies this
      ensures Valid() && old(Repr) <= Repr && fresh(Repr - old(Repr))
      ensures r.Success? ==> writer == Some(r.value) && Owned(r.value)
      ensures r.Failure? && dbstr == old(dbstr) ==> r == Failure(ReadOnly) && writer.None?
    {
      var e, _, _ := Update(None, None, true);
      if e.Some? {
        return Failure(e.value);
      }
      if writer.None? {
        return Failure(ReadOnly);
      }
      r := Success(writer.value);
    }

    /** getschema: the first backend holding a schema record for id gives it; none: KeyError. */
    method GetSchema(id: string) returns (r: Result<map<string, Rule>, Error>, ghost at: nat)
      requires Valid()
      ensures r.Failure? <==> forall j :: 0 <= j < |mdb| ==> Names.SchemaKey(id) !in mdb[j].rdb.db
      ensures r.Failure? ==> r.error == KeyError
      ensures r.Success? ==> at < |mdb| && r == SchemaOf(mdb[at].rdb.db, id)
                             && forall j :: 0 <= j < at ==> Names.SchemaKey(id) !in mdb[j].rdb.db
      ensures r == FirstSchema(DbsOf(mdb), id)
    {
      ghost var dbs := DbsOf(mdb);
      var i := 0;
      while i < |mdb|
        invariant 0 <= i <= |mdb|
        invariant forall j :: 0 <= j < i ==> Names.SchemaKey(id) !in mdb[j].rdb.db
        invariant FirstSchema(dbs, id) == FirstSchema(dbs[i..], id)
      {
        var s := mdb[i].rdb.GetSchema(id);
        if s.Success? {
          assert dbs[i..][0] == dbs[i];
          return s, i;
        }
        assert dbs[i..][1..] == dbs[i + 1..];
        i := i + 1;
      }
      r, at := Failure(KeyError), 0;
    }

    /** The schema record get_schema_attr works from: the cached one, else the backends', then cached. */
    method SchemaFor(id: string) returns (r: Result<map<string, Rule>, Error>)
      requires Valid()
      modifies loader
      ensures loader.cache == old(loader.cache)
      ensures r == CachedOrFirst(old(loader.schemaCache), old(DbsOf(mdb)), id)
      ensures id in old(loader.schemaCache) ==> unchanged(loader)
      ensures id !in old(loader.schemaCache) && r.Success? ==>
        loader.schemaCache == old(loader.schemaCache)[id := r.value]
      ensures r.Failure? ==> r == Failure(KeyError) && unchanged(loader)
    {
      if id in loader.schemaCache {
        return Success(loader.schemaCache[id]);
      }
      ghost var dbs := DbsOf(mdb);
      ghost var at;
      r, at := GetSchema(id);
      assert r == FirstSchema(dbs, id);
      if r.Success? {
        loader.schemaCache := loader.schemaCache[id := r.value];
      }
    }

    /**
     * get_schema_attr: the rule for attr in the resource's schema record (AttributeError when it
     * has none), then the resource its targetID names, resolved like any other.
     */
    method GetSchemaAttr(id: string, attr: string, depth: nat) returns (r: Result<Obj, Error>)
      requires Valid() && dbstr.Some?
      modifies Repr
      decreases depth, 7
      ensures Valid() && Config() == old(Config())
      // no schema record, cached or stored: getschema's KeyError, and nothing changes
      ensures old(CachedOrFirst(loader.schemaCache, DbsOf(mdb), id)).Failure? ==>
        r == Failure(KeyError) && unchanged(Repr)
      // a record without attr: AttributeError, with the record now in the schema cache
      ensures var rec := old(CachedOrFirst(loader.schemaCache, DbsOf(mdb), id));
        rec.Success? && attr !in rec.value ==>
          r == Failure(AttributeError) && loader.cache == old(loader.cache)
          && loader.schemaCache == old(loader.schemaCache)[id := rec.value]
      ensures id in old(loader.schemaCache) && attr !in old(loader.schemaCache[id]) ==> unchanged(Repr)
      // otherwise the resource the rule's targetID names, resolved and cached by __call__
      ensures var rec := old(CachedOrFirst(loader.schemaCache, DbsOf(mdb), id));
        r.Success? ==>
          rec.Success? && attr in rec.value
          && var rule := rec.value[attr];
          rule.Binding? && "targetID" in rule.args && rule.args["targetID"].Text?
          && rule.args["targetID"].s in loader.cache && loader.cache[rule.args["targetID"].s] == r.value
          && (rule.args["targetID"].s in old(loader.cache) ==> r.value == old(loader.cache[rule.args["targetID"].s]))
    {
      var s := SchemaFor(id);
      if s.Failure? {
        return Failure(s.error);
      }
      if attr !in s.value {
        return Failure(AttributeError);
      }
      var rule := s.value[attr];
      if rule.EdgeRule? {
        return Failure(TypeError);
      }
      if "targetID" !in rule.args {
        return Failure(KeyError);
      }
      if rule.args["targetID"].Flag? {
        return Failure(TypeError);
      }
      r := Call(rule.args["targetID"].s, None, None, depth);
    }

    /**
     * __call__: a cached resource as it is; otherwise connect if need be and search the
     * backends. debug and download are put back on every exit.
     */
    method Call(id: string, debugArg: Option<bool>, downloadArg: Option<bool>, depth: nat) returns (r: Result<Obj, Error>)
      requires Valid()
      modifies Repr
      decreases depth, 6
      ensures Valid() && old(Repr) <= Repr && fresh(Repr - old(Repr))
      ensures debug == old(debug) && download == old(download)
      ensures old(id in loader.cache) ==> Config() == old(Config()) && unchanged(Repr) && r == Success(old(loader.cache[id]))
      ensures old(dbstr).Some? ==> Config() == old(Config())
      ensures old(id !in loader.cache) ==> dbstr.Some?
      ensures r.Success? ==> id in loader.cache && loader.cache[id] == r.value
      ensures r.Success? && old(id !in loader.cache) ==> r.value.head.pid == Some(id)
    {
      if id in loader.cache {
        return Success(loader.cache[id]);
      }
      r := ResolveWith(id, debugArg, downloadArg, depth);
    }

    /** The uncached part of __call__ under the debug and download settings asked for, which are then put back. */
    method ResolveWith(id: string, debugArg: Option<bool>, downloadArg: Option<bool>, depth: nat) returns (r: Result<Obj, Error>)
      requires Valid() && id !in loader.cache
      modifies Repr
      decreases depth, 5
      ensures Valid() && old(Repr) <= Repr && fresh(Repr - old(Repr))
      ensures debug == old(debug) && download == old(download)
      ensures old(dbstr).Some? ==> Config() == old(Config())
      ensures dbstr.Some?
      ensures r.Success? ==> id in loader.cache && loader.cache[id] == r.value && r.value.head.pid == Some(id)
    {
      var debugState, downloadState := debug, download;
      SetFlags(if debugArg.Some? then debugArg.value else debug, if downloadArg.Some? then downloadArg.value else download);
      r := Resolve(id, depth);
      SetFlags(debugState, downloadState);
    }

    /** Sets debug and download, and nothing else. */
    method SetFlags(d: bool, w: bool)
      requires Valid()
      modifies this
      ensures Valid() && debug == d && download == w
      ensures mdb == old(mdb) && layer == old(layer) && dbstr == old(dbstr) && writer == old(writer) && Repr == old(Repr)
    {
      debug, download := d, w;
    }

    /** The uncached part of __call__: connect if not yet connected, search, and cache what was found. */
    method Resolve(id: string, depth: nat) returns (r: Result<Obj, Error>)
      requires Valid() && id !in loader.cache
      modifies Repr
      decreases depth, 4
      ensures Valid() && old(Repr) <= Repr && fresh(Repr - old(Repr))
      ensures debug == old(debug) && download == old(download)
      ensures old(dbstr).Some? ==> Config() == old(Config())
      ensures dbstr.Some?
      ensures r.Success? ==> id in loader.cache && loader.cache[id] == r.value && r.value.head.pid == Some(id)
    {
      var e, _, _ := Update(None, Some(debug), true);
      if e.Some? {
        return Failure(e.value);
      }
      ghost var from;
      r, from := Search(id, depth);
      if r.Success? {
        loader.cache := loader.cache[id := r.value];
      }
    }

    /**
     * The backend loop of __call__ over find_resource: a backend without the ID is skipped, and
     * so is one whose load raises KeyError or IOError unless debug; no backend left: NotFound.
     */
    method Search(id: string, depth: nat) returns (r: Result<Obj, Error>, ghost from: nat)
      requires Valid() && dbstr.Some?
      modifies Repr
      decreases depth, 3
      ensures Valid() && Config() == old(Config())
      ensures r.Success? ==> from < |mdb| && id in loader.cache && loader.cache[id] == r.value && r.value.head.pid == Some(id)
      // every backend misses: NotFound, and nothing was loaded
      ensures Misses(old(DbsOf(mdb)), id, |mdb|) ==> r == Failure(NotFound) && unchanged(Repr)
      // the first backend holding the ID supplies it, unless its load fails outside debug mode
      ensures forall f: nat :: FirstHolder(old(DbsOf(mdb)), id, f) && r.Success? ==>
        f <= from && (debug ==> from == f)
        && (from == f && old(DbsOf(mdb))[f][id].Pickled? && old(DbsOf(mdb))[f][id].p.Full? ==>
              r.value.head.oid == old(DbsOf(mdb))[f][id].p.head.oid)
    {
      ghost var dbs := DbsOf(mdb);
      var i := 0;
      while i < |mdb|
        invariant 0 <= i <= |mdb|
        invariant Valid() && Config() == old(Config())
        invariant Misses(dbs, id, i) ==> unchanged(Repr)
        invariant forall f: nat :: f < i && FirstHolder(dbs, id, f) ==> !debug
      {
        var next;
        r, next := TryBackend(id, i, depth);
        if !next {
          return r, i;
        }
        i := i + 1;
      }
      r, from := Failure(NotFound), 0;
    }

    /**
     * One backend of that loop: `next` says the search goes on to the following backend, which
     * it does when the backend lacks the ID, or when loading it raises KeyError or IOError
     * outside debug mode.
     */
    method TryBackend(id: string, i: nat, depth: nat) returns (r: Result<Obj, Error>, next: bool)
      requires Valid() && dbstr.Some? && i < |mdb|
      modifies Repr
      decreases depth, 2
      ensures Valid() && Config() == old(Config())
      ensures id !in old(mdb[i].rdb.db) ==> next && unchanged(Repr)
      ensures id in old(mdb[i].rdb.db) && debug ==> !next
      ensures r.Success? ==> !next && id in old(mdb[i].rdb.db)
                             && id in loader.cache && loader.cache[id] == r.value && r.value.head.pid == Some(id)
      ensures r.Success? && old(mdb[i].rdb.db[id]).Pickled? && old(mdb[i].rdb.db[id]).p.Full? ==>
        r.value.head.oid == old(mdb[i].rdb.db[id]).p.head.oid
    {
      var found := mdb[i].rdb.FindResource(id);
      if found.Failure? {
        return Failure(found.error), found.error == KeyError;
      }
      r := Load(id, found.value.0, found.value.1, depth);
      next := r.Failure? && (IsKeyError(r.error) || r.error == IOError) && !debug;
    }

    /**
     * load: unpickle, set the docstring, then either record an auto-built download with the
     * writer's saver (committing it at once when nothing else is pending) or stamp it with its
     * ID; cache it and bind its schema.
     */
    method Load(id: string, entry: Entry, doc: Option<string>, depth: nat) returns (r: Result<Obj, Error>)
      requires Valid() && dbstr.Some?
      modifies Repr
      decreases depth, 1
      ensures Valid() && Config() == old(Config())
      ensures !entry.Pickled? ==> r == Failure(TypeError) && unchanged(Repr)
      ensures r.Success? ==>
        entry.Pickled? && r.value.head.pid == Some(id) && r.value.head.doc == doc
        && id in loader.cache && loader.cache[id] == r.value
        && (entry.p.Full? ==> r.value.head.oid == entry.p.head.oid && |r.value.parts| == |entry.p.parts|)
      // an auto-built download is recorded on the writer and is not saved again
      ensures r.Success? && entry.p.Full? && entry.p.head.saveLocalBuild ==> writer.Some? && !r.value.head.saveLocalBuild
    {
      if !entry.Pickled? {
        return Failure(TypeError);
      }
      var d := DecodeM(entry.p, depth);
      if d.Failure? {
        return d;
      }
      var b := Register(id, WithDoc(d.value, doc));
      if b.Failure? {
        return b;
      }
      var o := b.value;
      loader.cache := loader.cache[id := o];
      var e3, _, _ := BindSchema(id, o);
      if e3.Some? {
        return Failure(e3.value);
      }
      r := Success(o);
    }

    /**
     * The middle of load: an auto-built download is recorded with the writer's saver and
     * committed at once when nothing else was pending; any other object is stamped with its ID.
     */
    method Register(id: string, o: Obj) returns (r: Result<Obj, Error>)
      requires Valid()
      modifies Repr
      ensures Valid() && Config() == old(Config())
      ensures !o.head.saveLocalBuild ==> r == Success(Stamp(o, id)) && unchanged(Repr)
      ensures o.head.saveLocalBuild && r.Success? ==> writer.Some? && r.value == Stamp(Built(o), id)
      ensures o.head.saveLocalBuild && writer.None? ==> r == Failure(AttributeError) && unchanged(Repr)
      // the writer's saver performs the corrected auto-download step: queue, then commit unless already pending
      ensures o.head.saveLocalBuild && writer.Some? ==>
        var lb := LocalBuild(old(writer.value.saver.State()), id, o);
        (lb.Failure? ==> r == Failure(MissingDoc))
        && (lb.Success? && !lb.value.1 ==> r.Success? && writer.value.saver.State() == lb.value.0)
        && (lb.Success? && lb.value.1 && r.Success? ==>
              !Pending(writer.value.saver.State()) && writer.value.saver.lastData == lb.value.0.pending)
    {
      if !o.head.saveLocalBuild {
        return Success(Stamp(o, id));
      }
      if writer.None? {
        return Failure(AttributeError);
      }
      var saver := writer.value.saver;
      var hadPending := saver.HasPending();
      var e := saver.AddResource(id, Built(o));
      if e.Some? {
        return Failure(e.value);
      }
      if !hadPending {
        var e2, _, _ := saver.SavePending(map[]);
        if e2.Some? {
          return Failure(e2.value);
        }
      }
      r := Success(Stamp(Built(o), id));
    }

    /** The unpickler with persistent_load: every reference token is resolved by __call__. */
    method DecodeM(p: Pickle, depth: nat) returns (r: Result<Obj, Error>)
      requires Valid() && dbstr.Some?
      modifies Repr
      decreases depth, 0, p
      ensures Valid() && Config() == old(Config())
      ensures r.Success? && p.Full? ==> r.value.head == p.head && |r.value.parts| == |p.parts|
      ensures p.Ref? && ParseToken(p.token).None? ==> r == Failure(Unpickling) && unchanged(Repr)
      ensures p.Ref? && ParseToken(p.token).Some? && old(ParseToken(p.token).value in loader.cache) ==>
        r == Success(old(loader.cache[ParseToken(p.token).value]))
      // a resolved reference is the catalog's instance of the resource its token names
      ensures p.Ref? && ParseToken(p.token).Some? && r.Success? ==>
        ParseToken(p.token).value in loader.cache && loader.cache[ParseToken(p.token).value] == r.value
    {
      match p {
        case Ref(tok) =>
          var sub := ParseToken(tok);
          if sub.None? {
            return Failure(Unpickling);
          }
          if sub.value in loader.cache {
            return Success(loader.cache[sub.value]);
          }
          if depth == 0 {
            return Failure(RecursionLimit);
          }
          r := Call(sub.value, None, None, depth - 1);
        case Full(h, ps) =>
          var os: seq<Obj> := [];
          var k := 0;
          while k < |ps|
            invariant 0 <= k <= |ps| && |os| == k
            invariant Valid() && Config() == old(Config())
          {
            var o := DecodeM(ps[k], depth);
            if o.Failure? {
              return Failure(o.error);
            }
            os := os + [o.value];
            k := k + 1;
          }
          r := Success(Obj(h, os));
      }
    }

    /**
     * bind_schema: no schema record anywhere, nothing to do; otherwise cache the record and
     * bind each real attribute in the order visited.
     */
    method BindSchema(id: string, obj: Obj)
      returns (error: Option<Error>, ghost order: seq<string>, ghost schema: Option<map<string, Rule>>)
      requires Valid()
      modifies loader, registry
      ensures loader.cache == old(loader.cache)
      // no backend holds a schema record: nothing changes
      ensures schema.None? <==> old(FirstSchema(DbsOf(mdb), id)).Failure?
      ensures schema.None? ==> error.None? && unchanged(loader, registry)
      // the record bound is getschema's, the first backend's, and it is cached
      ensures schema.Some? ==>
        old(FirstSchema(DbsOf(mdb), id)) == Success(schema.value)
        && loader.schemaCache == old(loader.schemaCache)[id := schema.value]
      ensures schema.Some? ==>
        (forall i :: 0 <= i < |order| ==> order[i] in schema.value)
        && (registry.State(), error) == BindAll(old(registry.State()), obj.head, schema.value, order)
        && (error.None? ==> Enumerates(order, schema.value))
    {
      var s, _ := GetSchema(id);
      order := [];
      if s.Failure? {
        return None, order, None;
      }
      schema := Some(s.value);
      loader.schemaCache := loader.schemaCache[id := s.value];
      ghost var cached := loader.schemaCache;
      assert loader.cache == old(loader.cache);
      error, order := BindRules(obj.head, s.value);
      assert loader.cache == old(loader.cache) && loader.schemaCache == cached;
    }

    /** The loop of bind_schema: each attribute of the record in turn, `-` ones skipped; the first error ends it. */
    method BindRules(obj: Head, rules: map<string, Rule>) returns (error: Option<Error>, ghost order: seq<string>)
      modifies registry
      ensures forall i :: 0 <= i < |order| ==> order[i] in rules
      ensures (registry.State(), error) == BindAll(old(registry.State()), obj, rules, order)
      ensures error.None? ==> Enumerates(order, rules)
    {
      ghost var reg := registry.State();
      var rest := rules.Keys;
      order := [];
      VisitStart(rules.Keys);
      while rest != {}
        invariant Visiting(rules.Keys, rest, order)
        invariant (registry.State(), None) == BindAll(reg, obj, rules, order)
        decreases rest
      {
        var a :| a in rest;
        VisitStep(rules.Keys, rest, order, a);
        ghost var prev := registry.State();
        order := order + [a];
        if !Names.IsRuleAttr(a) {
          if rules[a].EdgeRule? {
            assert BindAll(reg, obj, rules, order) == (prev, Some(TypeError));
            return Some(TypeError), order;
          }
          error := registry.BindProperty(obj, a, rules[a].args);
          assert BindAll(reg, obj, rules, order) == AfterBind(prev, obj, a, rules[a].args);
          if error.Some? {
            return;
          }
        } else {
          assert BindAll(reg, obj, rules, order) == (prev, None);
        }
        rest := rest - {a};
      }
      VisitDone(rules, order);
      error := None;
    }

    /** dir(prefix, layer): the named layer's own listing, unmerged and unsorted. */
    method DirIn(prefix: string, l: Layer) returns (r: Result<seq<string>, Error>)
      requires Valid()
      modifies this
      ensures Valid() && old(Repr) <= Repr && fresh(Repr - old(Repr))
      ensures r.Success? ==> l in layer && forall k :: k in r.value <==> k in layer[l].db && Names.StartsWith(k, prefix)
      ensures r.Failure? && dbstr == old(dbstr) ==> r == Failure(KeyError) && l !in layer
    {
      var e, _, _ := Update(None, None, true);
      if e.Some? {
        return Failure(e.value);
      }
      if l !in layer {
        return Failure(KeyError);
      }
      var names := layer[l].Dir(prefix);
      r := Success(names);
    }
  }
}
