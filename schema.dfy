/**
 * The schema relation model: DirectRelation, ItemRelation, the graph relations
 * (ManyToManyRelation and its one:many, one:one, many:one variants) and InverseRelation.
 * Saving a relation is the list of schema-store writes it performs, in order, and the
 * error (if any) that stopped it; deleting one is the list of bindings it removes.
 */
module Schema {

  import opened Wrappers
  import opened Errors
  import opened Objects
  import Names

  datatype RelationCode = ManyToMany | OneToMany | OneToOne | ManyToOne

  datatype Relation =
    | Direct(targetID: string)
    | Item(targetID: string)
    | Graph(code: RelationCode, sourceDB: string, targetDB: string, edgeDB: Option<string>,
            bindAttrs: Option<seq<Option<string>>>, name: Option<string>)
    | Inverse(targetID: string, name: Option<string>)

  /** The relation with `name` set, as saveSchema records it under its own ID. */
  function Named(rel: Relation, n: string): Relation {
    match rel
    case Graph(code, s, t, e, b, _) => Graph(code, s, t, e, b, Some(n))
    case Inverse(t, _) => Inverse(t, Some(n))
    case _ => rel
  }

  /** One attribute's entry in a SCHEMA.<id> record: binding arguments, or (under -schemaEdge) the relation. */
  datatype Rule = Binding(args: Args) | EdgeRule(rel: Relation)

  /** A write to the schema store: Metabase.saveSchema, or the schema-graph edge of saveSchemaEdge. */
  datatype Write =
    | SetRule(id: string, attr: string, rule: Rule)
    | AddEdge(source: string, target: string, name: string)

  /** A binding a relation's delschema removes; no ID where getID had nothing to work on. */
  datatype Delete = Delete(id: Option<string>, attr: string)

  /** The writes a saveSchema call performed, and the error that ended it early. */
  datatype SaveOutcome = SaveOutcome(writes: seq<Write>, error: Option<Error>)

  /** What `mdb.get_pending_or_find(graphDB)._inverse_schema()` gave: a custom inverse binding, none, or an error. */
  datatype InverseLookup = Found(custom: Option<Args>) | LookupFailed(e: Error)

  const SchemaEdgeAttr := "-schemaEdge"
  const InverseAttr := "inverseDB"

  /** getID on an argument value: an ID string is its own ID. */
  function ArgId(a: Arg): Result<string, Error> {
    match a
    case Text(s) => Success(s)
    case Flag(_) => Failure(AttributeError)
  }

  /** getID on a SchemaPath: its dotted path; the root path has none. */
  function PathId(path: Option<string>): Result<string, Error> {
    if path.Some? then Success(path.value) else Failure(AttributeError)
  }

  /** DirectRelation.schemaDict / ItemRelation.schemaDict. */
  function SchemaDict(targetID: string, itemRule: bool): Args {
    if itemRule then map["targetID" := Text(targetID), "itemRule" := Flag(true)]
    else map["targetID" := Text(targetID)]
  }

  /** The target a binding names: a targetDB kwarg first, then a targetID kwarg, then the relation's own. */
  function TargetOf(targetID: string, kwargs: Args): Arg {
    if "targetDB" in kwargs then kwargs["targetDB"]
    else if "targetID" in kwargs then kwargs["targetID"]
    else Text(targetID)
  }

  /**
   * The argument dict DirectRelation.saveSchema stores: schemaDict updated by the caller's
   * kwargs, with a targetDB kwarg turned into the targetID it names.
   */
  function DirectArgs(targetID: string, itemRule: bool, kwargs: Args): (r: Result<Args, Error>)
    ensures r.Success? ==> "targetID" in r.value && "targetDB" !in r.value
    ensures r.Success? ==> r.value["targetID"] == TargetOf(targetID, kwargs)
    // a target named by targetDB is stored as its ID string
    ensures r.Success? && "targetDB" in kwargs ==> r.value["targetID"].Text?
    ensures r.Success? ==> forall k :: k in kwargs && k != "targetDB" && k != "targetID" ==>
      k in r.value && r.value[k] == kwargs[k]
    ensures r.Success? && itemRule && "itemRule" !in kwargs ==> "itemRule" in r.value && r.value["itemRule"] == Flag(true)
    // only getID of a targetDB that is not a resource fails; a targetID kwarg is stored as given
    ensures r.Failure? <==> "targetDB" in kwargs && kwargs["targetDB"].Flag?
  {
    var d := SchemaDict(targetID, itemRule) + kwargs;
    if "targetDB" in d then
      match ArgId(d["targetDB"])
      case Failure(e) => Failure(e)
      case Success(id) => Success(d["targetID" := Text(id)] - {"targetDB"})
    else Success(d)
  }

  /** A SetRule write on a real attribute carries the targetID setschema demands. */
  predicate WellFormed(w: Write) {
    w.SetRule? && !Names.IsRuleAttr(w.attr) ==> w.rule.Binding? && "targetID" in w.rule.args
  }

  /** The saveSchema of a DirectRelation (itemRule false) or ItemRelation (true) binding source.attr. */
  function BindWrite(targetID: string, itemRule: bool, source: string, attr: string, kwargs: Args): (r: Result<Write, Error>)
    ensures r.Success? ==> r.value.SetRule? && r.value.id == source && r.value.attr == attr && r.value.rule.Binding?
  {
    match DirectArgs(targetID, itemRule, kwargs)
    case Failure(e) => Failure(e)
    case Success(d) => Success(SetRule(source, attr, Binding(d)))
  }

  /** Metabase.saveSchemaEdge: the relation under -schemaEdge of its own name, then a schema-graph edge. */
  function EdgeWrites(rel: Relation, name: string, source: string, target: string): (ws: seq<Write>)
    // the relation is stored under its own name's -schemaEdge rule and nowhere else
    ensures RuleKeys(ws) == {(name, SchemaEdgeAttr)}
    ensures SetRule(name, SchemaEdgeAttr, EdgeRule(rel)) in ws && AddEdge(source, target, name) in ws
  {
    var ws := [SetRule(name, SchemaEdgeAttr, EdgeRule(rel)), AddEdge(source, target, name)];
    RuleKeysCons(ws[0], [ws[1]]);
    RuleKeysCons(ws[1], []);
    assert ws == [ws[0]] + [ws[1]] && [ws[1]] == [ws[1]] + [];
    ws
  }

  /** ManyToManyRelation.save_graph_bindings: the edge, then sourceDB, targetDB and edgeDB bindings on the graph. */
  function GraphBindings(rel: Relation, graphDB: string): (ws: seq<Write>)
    requires rel.Graph?
    // every binding sits on the graph's own ID and is well formed for setschema
    ensures forall j :: 0 <= j < |ws| ==> WellFormed(ws[j])
    ensures forall j :: 0 <= j < |ws| && ws[j].SetRule? ==> ws[j].id == graphDB
    ensures AddEdge(rel.sourceDB, rel.targetDB, graphDB) in ws
  {
    var named := Named(rel, graphDB);
    EdgeWrites(named, graphDB, rel.sourceDB, rel.targetDB)
    + [SetRule(graphDB, "sourceDB", Binding(SchemaDict(rel.sourceDB, false))),
       SetRule(graphDB, "targetDB", Binding(SchemaDict(rel.targetDB, false)))]
    + (if rel.edgeDB.Some? then [SetRule(graphDB, "edgeDB", Binding(SchemaDict(rel.edgeDB.value, false)))] else [])
  }

  /** The object that bindAttrs[i] is bound on: sourceDB, targetDB, edgeDB. */
  function BindObj(rel: Relation, i: nat): Option<string>
    requires rel.Graph? && i < 3
  {
    if i == 0 then Some(rel.sourceDB) else if i == 1 then Some(rel.targetDB) else rel.edgeDB
  }

  /** The item-binding kwargs for position i: {}, {invert: True} unless the target overrides it, {getEdges: True}. */
  function BindArgs(custom: Option<Args>, i: nat): Args
    requires i < 3
  {
    if i == 0 then map[]
    else if i == 1 then (if custom.Some? then custom.value else map["invert" := Flag(true)])
    else map["getEdges" := Flag(true)]
  }

  /** The attribute bindAttrs asks for at position i, if any. */
  function BindAttr(rel: Relation, i: nat): Option<string>
    requires rel.Graph? && rel.bindAttrs.Some?
  {
    if i < |rel.bindAttrs.value| then rel.bindAttrs.value[i] else None
  }

  /** The item bindings of ManyToManyRelation.saveSchema, positions i to 2. */
  function ItemBindings(rel: Relation, graphDB: string, custom: Option<Args>, i: nat): (r: SaveOutcome)
    requires rel.Graph? && rel.bindAttrs.Some? && i <= 3
    ensures forall j :: 0 <= j < |r.writes| ==> WellFormed(r.writes[j])
    decreases 3 - i
  {
    if i == 3 then SaveOutcome([], None)
    else if BindAttr(rel, i).None? then ItemBindings(rel, graphDB, custom, i + 1)
    else if BindObj(rel, i).None? then SaveOutcome([], Some(AttributeError))
    else
      match BindWrite(graphDB, true, BindObj(rel, i).value, BindAttr(rel, i).value, BindArgs(custom, i))
      case Failure(e) => SaveOutcome([], Some(e))
      case Success(w) =>
        var rest := ItemBindings(rel, graphDB, custom, i + 1);
        SaveOutcome([w] + rest.writes, rest.error)
  }

  /** ManyToManyRelation.saveSchema (and its three subclasses). */
  function GraphSave(rel: Relation, path: Option<string>, attr: string, lookup: InverseLookup): (r: SaveOutcome)
    requires rel.Graph?
    // save_graph_bindings runs first, whatever follows
    ensures GraphBindings(rel, Names.GetPath(path, attr)) <= r.writes
    // without bindAttrs nothing else is written and nothing fails
    ensures rel.bindAttrs.None? ==> r == SaveOutcome(GraphBindings(rel, Names.GetPath(path, attr)), None)
    // a failed inverse lookup stops it after the graph's own bindings, before any item binding
    ensures rel.bindAttrs.Some? && lookup.LookupFailed? ==>
      r == SaveOutcome(GraphBindings(rel, Names.GetPath(path, attr)), Some(lookup.e))
  {
    var graphDB := Names.GetPath(path, attr);
    var bindings := GraphBindings(rel, graphDB);
    if rel.bindAttrs.None? then SaveOutcome(bindings, None)
    else
      match lookup
      case LookupFailed(e) => SaveOutcome(bindings, Some(e))
      case Found(custom) =>
        var items := ItemBindings(rel, graphDB, custom, 0);
        SaveOutcome(bindings + items.writes, items.error)
  }

  /**
   * InverseRelation.saveSchema AS WRITTEN: saveSchemaEdge stores the relation under
   * -schemaEdge, then reads `schema.sourceDB`, an attribute InverseRelation does not have.
   */
  function InverseSaveAsWritten(rel: Relation, path: Option<string>, attr: string): (r: SaveOutcome)
    requires rel.Inverse?
    ensures r.error.Some?
  {
    var source := Names.GetPath(path, attr);
    SaveOutcome([SetRule(source, SchemaEdgeAttr, EdgeRule(Named(rel, source)))], Some(AttributeError))
  }

  /**
   * InverseRelation.saveSchema as evidently intended: the schema edge from the relation's
   * own ID to its target, then source.inverseDB -> target and target.inverseDB -> source.
   */
  function InverseSave(rel: Relation, path: Option<string>, attr: string): (r: SaveOutcome)
    requires rel.Inverse?
    ensures r.error.None?
    // only the -schemaEdge rule and the two inverseDB bindings are written
    ensures forall j :: 0 <= j < |r.writes| && r.writes[j].SetRule? ==>
      r.writes[j].attr == SchemaEdgeAttr || r.writes[j].attr == InverseAttr
  {
    var source := Names.GetPath(path, attr);
    SaveOutcome(
      EdgeWrites(Named(rel, source), source, source, rel.targetID)
      + [SetRule(source, InverseAttr, Binding(SchemaDict(rel.targetID, false))),
         SetRule(rel.targetID, InverseAttr, Binding(SchemaDict(source, false)))],
      None)
  }

  /** `schemaObj.saveSchema(schemaPath, attr, mdb)` as ResourceSaver.save_pending calls it. */
  function SaveSchema(rel: Relation, path: Option<string>, attr: string, lookup: InverseLookup): (r: SaveOutcome)
    ensures forall j :: 0 <= j < |r.writes| ==> WellFormed(r.writes[j])
  {
    match rel
    case Direct(t) =>
      (match PathId(path)
       case Failure(e) => SaveOutcome([], Some(e))
       case Success(src) => SaveOutcome([BindWrite(t, false, src, attr, map[]).value], None))
    case Item(t) =>
      (match PathId(path)
       case Failure(e) => SaveOutcome([], Some(e))
       case Success(src) => SaveOutcome([BindWrite(t, true, src, attr, map[]).value], None))
    case Graph(_, _, _, _, _, _) => GraphSave(rel, path, attr, lookup)
    case Inverse(_, _) => InverseSave(rel, path, attr)
  }

  /** A relation's delschema: the bindings it removes; Direct and Item relations have no delschema. */
  function Unbind(rel: Relation): Result<seq<Delete>, Error> {
    match rel
    case Direct(_) => Failure(AttributeError)
    case Item(_) => Failure(AttributeError)
    case Graph(_, _, _, _, _, _) => Success(if rel.bindAttrs.None? then [] else ItemDeletes(rel, 0))
    case Inverse(t, _) => Success([Delete(Some(t), InverseAttr)])
  }

  /** ManyToManyRelation.delschema, positions i to 2: one delschema per bindAttrs entry that is set. */
  function ItemDeletes(rel: Relation, i: nat): (ds: seq<Delete>)
    requires rel.Graph? && rel.bindAttrs.Some? && i <= 3
    ensures |ds| <= 3 - i
    ensures forall j :: 0 <= j < |ds| ==> Some(ds[j].attr) in rel.bindAttrs.value
    decreases 3 - i
  {
    if i == 3 then []
    else if BindAttr(rel, i).None? then ItemDeletes(rel, i + 1)
    else [Delete(BindObj(rel, i), BindAttr(rel, i).value)] + ItemDeletes(rel, i + 1)
  }

  /** The (id, attribute) pairs a list of writes binds. */
  function RuleKeys(ws: seq<Write>): set<(string, string)> {
    set j | 0 <= j < |ws| && ws[j].SetRule? :: (ws[j].id, ws[j].attr)
  }

  function DeleteKeys(ds: seq<Delete>): set<(string, string)> {
    set j | 0 <= j < |ds| && ds[j].id.Some? :: (ds[j].id.value, ds[j].attr)
  }

  /** The bindings a graph relation keeps on its own ID, which the cascade over that ID removes. */
  function GraphOwnKeys(rel: Relation, graphDB: string): set<(string, string)>
    requires rel.Graph?
  {
    {(graphDB, SchemaEdgeAttr), (graphDB, "sourceDB"), (graphDB, "targetDB")}
    + (if rel.edgeDB.Some? then {(graphDB, "edgeDB")} else {})
  }

  lemma {:induction false} ItemBindingsMatchDeletes(rel: Relation, graphDB: string, custom: Option<Args>, i: nat)
    requires rel.Graph? && rel.bindAttrs.Some? && i <= 3
    requires ItemBindings(rel, graphDB, custom, i).error.None?
    ensures RuleKeys(ItemBindings(rel, graphDB, custom, i).writes) == DeleteKeys(ItemDeletes(rel, i))
    ensures forall j :: 0 <= j < |ItemDeletes(rel, i)| ==> ItemDeletes(rel, i)[j].id.Some?
    decreases 3 - i
  {
    if i < 3 {
      ItemBindingsMatchDeletes(rel, graphDB, custom, i + 1);
      if BindAttr(rel, i).Some? {
        var w := BindWrite(graphDB, true, BindObj(rel, i).value, BindAttr(rel, i).value, BindArgs(custom, i)).value;
        var rest := ItemBindings(rel, graphDB, custom, i + 1).writes;
        var drest := ItemDeletes(rel, i + 1);
        var d := Delete(BindObj(rel, i), BindAttr(rel, i).value);
        RuleKeysCons(w, rest);
        DeleteKeysCons(d, drest);
      }
    }
  }

  lemma RuleKeysCons(w: Write, ws: seq<Write>)
    ensures RuleKeys([w] + ws) == (if w.SetRule? then {(w.id, w.attr)} else {}) + RuleKeys(ws)
  {
    var all := [w] + ws;
    forall k | k in RuleKeys(all) ensures k in (if w.SetRule? then {(w.id, w.attr)} else {}) + RuleKeys(ws) {
      var j :| 0 <= j < |all| && all[j].SetRule? && k == (all[j].id, all[j].attr);
      if j > 0 { assert all[j] == ws[j - 1]; }
    }
    forall k | k in RuleKeys(ws) ensures k in RuleKeys(all) {
      var j :| 0 <= j < |ws| && ws[j].SetRule? && k == (ws[j].id, ws[j].attr);
      assert all[j + 1] == ws[j];
    }
    if w.SetRule? { assert all[0] == w; }
  }

  lemma DeleteKeysCons(d: Delete, ds: seq<Delete>)
    ensures DeleteKeys([d] + ds) == (if d.id.Some? then {(d.id.value, d.attr)} else {}) + DeleteKeys(ds)
  {
    var all := [d] + ds;
    forall k | k in DeleteKeys(all) ensures k in (if d.id.Some? then {(d.id.value, d.attr)} else {}) + DeleteKeys(ds) {
      var j :| 0 <= j < |all| && all[j].id.Some? && k == (all[j].id.value, all[j].attr);
      if j > 0 { assert all[j] == ds[j - 1]; }
    }
    forall k | k in DeleteKeys(ds) ensures k in DeleteKeys(all) {
      var j :| 0 <= j < |ds| && ds[j].id.Some? && k == (ds[j].id.value, ds[j].attr);
      assert all[j + 1] == ds[j];
    }
    if d.id.Some? { assert all[0] == d; }
  }

  lemma RuleKeysAppend(a: seq<Write>, b: seq<Write>)
    ensures RuleKeys(a + b) == RuleKeys(a) + RuleKeys(b)
  {
    var all := a + b;
    forall k | k in RuleKeys(all) ensures k in RuleKeys(a) + RuleKeys(b) {
      var j :| 0 <= j < |all| && all[j].SetRule? && k == (all[j].id, all[j].attr);
      if j >= |a| { assert all[j] == b[j - |a|]; } else { assert all[j] == a[j]; }
    }
    forall k | k in RuleKeys(a) ensures k in RuleKeys(all) {
      var j :| 0 <= j < |a| && a[j].SetRule? && k == (a[j].id, a[j].attr);
      assert all[j] == a[j];
    }
    forall k | k in RuleKeys(b) ensures k in RuleKeys(all) {
      var j :| 0 <= j < |b| && b[j].SetRule? && k == (b[j].id, b[j].attr);
      assert all[j + |a|] == b[j];
    }
  }

  /**
   * A graph relation that saved without error is undone exactly by the delete cascade over
   * its ID: the bindings it wrote are its own bindings on the graph ID plus exactly the
   * item bindings its delschema removes.
   */
  lemma GraphDeleteUndoesSave(rel: Relation, path: Option<string>, attr: string, lookup: InverseLookup)
    requires rel.Graph?
    requires GraphSave(rel, path, attr, lookup).error.None?
    ensures var graphDB := Names.GetPath(path, attr);
      var stored := Named(rel, graphDB);
      Unbind(stored).Success?
      && RuleKeys(GraphSave(rel, path, attr, lookup).writes) == GraphOwnKeys(rel, graphDB) + DeleteKeys(Unbind(stored).value)
  {
    var graphDB := Names.GetPath(path, attr);
    var stored := Named(rel, graphDB);
    var bindings := GraphBindings(rel, graphDB);
    GraphBindingsKeys(rel, graphDB);
    if rel.bindAttrs.None? {
      assert Unbind(stored) == Success([]);
      assert DeleteKeys([]) == {};
    } else {
      var custom := lookup.custom;
      var items := ItemBindings(rel, graphDB, custom, 0);
      assert GraphSave(rel, path, attr, lookup).writes == bindings + items.writes;
      ItemBindingsRename(rel, graphDB, custom, 0);
      ItemDeletesRename(rel, graphDB, 0);
      assert items.error.None?;
      ItemBindingsMatchDeletes(stored, graphDB, custom, 0);
      RuleKeysAppend(bindings, items.writes);
    }
  }

  /** The bindings save_graph_bindings writes all sit on the graph's own ID. */
  lemma GraphBindingsKeys(rel: Relation, graphDB: string)
    requires rel.Graph?
    ensures RuleKeys(GraphBindings(rel, graphDB)) == GraphOwnKeys(rel, graphDB)
  {
    var named := Named(rel, graphDB);
    var e := EdgeWrites(named, graphDB, rel.sourceDB, rel.targetDB);
    var sd := [SetRule(graphDB, "sourceDB", Binding(SchemaDict(rel.sourceDB, false))),
               SetRule(graphDB, "targetDB", Binding(SchemaDict(rel.targetDB, false)))];
    var ed := if rel.edgeDB.Some? then [SetRule(graphDB, "edgeDB", Binding(SchemaDict(rel.edgeDB.value, false)))] else [];
    assert GraphBindings(rel, graphDB) == e + sd + ed;
    RuleKeysAppend(e, sd);
    RuleKeysAppend(e + sd, ed);
    RuleKeysCons(sd[0], [sd[1]]);
    RuleKeysCons(sd[1], []);
    assert sd == [sd[0]] + [sd[1]] && [sd[1]] == [sd[1]] + [];
    if rel.edgeDB.Some? { RuleKeysCons(ed[0], []); assert ed == [ed[0]] + []; }
    else { assert RuleKeys(ed) == {}; }
  }

  /** Naming the relation does not change its item bindings. */
  lemma {:induction false} ItemBindingsRename(rel: Relation, graphDB: string, custom: Option<Args>, i: nat)
    requires rel.Graph? && rel.bindAttrs.Some? && i <= 3
    ensures ItemBindings(Named(rel, graphDB), graphDB, custom, i) == ItemBindings(rel, graphDB, custom, i)
    decreases 3 - i
  {
    if i < 3 { ItemBindingsRename(rel, graphDB, custom, i + 1); }
  }

  lemma {:induction false} ItemDeletesRename(rel: Relation, graphDB: string, i: nat)
    requires rel.Graph? && rel.bindAttrs.Some? && i <= 3
    ensures ItemDeletes(Named(rel, graphDB), i) == ItemDeletes(rel, i)
    decreases 3 - i
  {
    if i < 3 { ItemDeletesRename(rel, graphDB, i + 1); }
  }

  /** As written, saving an InverseRelation always stops with AttributeError before either inverseDB binding. */
  lemma InverseSaveAsWrittenFails(rel: Relation, path: Option<string>, attr: string)
    requires rel.Inverse?
    ensures InverseSaveAsWritten(rel, path, attr).error == Some(AttributeError)
    ensures forall j :: 0 <= j < |InverseSaveAsWritten(rel, path, attr).writes| ==>
      InverseSaveAsWritten(rel, path, attr).writes[j].attr != InverseAttr
  {
  }

  /**
   * The corrected InverseRelation binds source and target as each other's inverse, and its
   * delschema together with the cascade over the source removes exactly what it wrote.
   */
  lemma InverseSaveBindsBothWays(rel: Relation, path: Option<string>, attr: string)
    requires rel.Inverse?
    ensures var source := Names.GetPath(path, attr);
      var ws := InverseSave(rel, path, attr).writes;
      InverseSave(rel, path, attr).error.None?
      && SetRule(source, InverseAttr, Binding(map["targetID" := Text(rel.targetID)])) in ws
      && SetRule(rel.targetID, InverseAttr, Binding(map["targetID" := Text(source)])) in ws
      && RuleKeys(ws) == {(source, SchemaEdgeAttr), (source, InverseAttr)}
           + DeleteKeys(Unbind(Named(rel, source)).value)
  {
    var source := Names.GetPath(path, attr);
    var e := EdgeWrites(Named(rel, source), source, source, rel.targetID);
    var b1 := SetRule(source, InverseAttr, Binding(SchemaDict(rel.targetID, false)));
    var b2 := SetRule(rel.targetID, InverseAttr, Binding(SchemaDict(source, false)));
    var ws := InverseSave(rel, path, attr).writes;
    assert ws == e + [b1, b2];
    assert ws[|e|] == b1 && ws[|e| + 1] == b2;
    var ds := Unbind(Named(rel, source)).value;
    assert DeleteKeys(ds) == {(rel.targetID, InverseAttr)} by {
      assert ds == [Delete(Some(rel.targetID), InverseAttr)];
      assert ds[0].id.Some?;
    }
    RuleKeysAppend(e, [b1, b2]);
    RuleKeysCons(b1, [b2]);
    RuleKeysCons(b2, []);
    assert [b1, b2] == [b1] + [b2] && [b2] == [b2] + [];
  }
}
