/**
 * Lazy schema binding. bind_property installs descriptors in a per-class attribute table
 * (the classes get_bound_subclass hands out for a resource, its items and its item slices);
 * addSpecialMethod binds a shadow special method on one object; the descriptors resolve a
 * schema attribute on first access and cache the answer in the instance's __dict__.
 */
module Descriptors {

  import opened Wrappers
  import opened Errors
  import opened Objects
  import opened Schema
  import Names

  /** A value a descriptor hands out: None, or a handle on some object. */
  datatype Value = NoneValue | Handle(h: nat)

  datatype Descriptor =
    | OneTime(attr: string)
    | ItemDescr(attr: string, invert: bool, getEdges: bool, mapAttr: Option<string>,
                targetAttr: Option<string>, uniqueMapping: bool, rw: bool)
    | SpecialMethod(attr: string)

  /** A descriptor with __set__ (ItemDescriptorRW) takes precedence over the instance __dict__. */
  predicate IsDataDescriptor(d: Descriptor) {
    d.ItemDescr? && d.rw
  }

  /** The class get_bound_subclass gives for a resource, for its items, or for its item slices. */
  datatype Slot = SelfClass | ItemClass | ItemSliceClass
  datatype ClassKey = ClassKey(oid: ObjId, slot: Slot)

  /** A function bound as a shadow special method. */
  type FuncId = string
  const GetInverseDB: FuncId := "getInverseDB"
  const InvertAttr := "__invert__"

  /** The class attribute tables and, per object, the special methods bound in its __dict__. */
  datatype Registry = Registry(classes: map<ClassKey, map<string, Descriptor>>, bound: map<ObjId, map<string, FuncId>>)

  function Table(reg: Registry, k: ClassKey): map<string, Descriptor> {
    if k in reg.classes then reg.classes[k] else map[]
  }

  function BoundOf(reg: Registry, oid: ObjId): map<string, FuncId> {
    if oid in reg.bound then reg.bound[oid] else map[]
  }

  /** `setattr(targetClass, attr, descr)`. */
  function SetClassAttr(reg: Registry, k: ClassKey, attr: string, d: Descriptor): (r: Registry)
    ensures attr in Table(r, k) && Table(r, k)[attr] == d
    ensures forall a :: a != attr ==> (a in Table(r, k) <==> a in Table(reg, k))
    ensures forall a :: a != attr && a in Table(reg, k) ==> Table(r, k)[a] == Table(reg, k)[a]
    ensures forall k2 :: k2 != k ==> Table(r, k2) == Table(reg, k2)
    ensures r.bound == reg.bound
  {
    reg.(classes := reg.classes[k := Table(reg, k)[attr := d]])
  }

  /** A keyword argument's truth value. */
  function FlagArg(kwargs: Args, k: string): bool {
    k in kwargs && Truthy(kwargs[k])
  }

  function TextArg(kwargs: Args, k: string): Option<string> {
    if k in kwargs && kwargs[k].Text? then Some(kwargs[k].s) else None
  }

  /** ItemDescriptor(attr, mdb, **kwargs): unknown keyword arguments are ignored. */
  function MakeItemDescriptor(attr: string, kwargs: Args): (d: Descriptor)
    ensures d.ItemDescr? && d.attr == attr && !d.rw
    ensures d.invert == FlagArg(kwargs, "invert") && d.getEdges == FlagArg(kwargs, "getEdges")
    ensures d.uniqueMapping == FlagArg(kwargs, "uniqueMapping")
  {
    ItemDescr(attr, FlagArg(kwargs, "invert"), FlagArg(kwargs, "getEdges"), TextArg(kwargs, "mapAttr"),
              TextArg(kwargs, "targetAttr"), FlagArg(kwargs, "uniqueMapping"), false)
  }

  /** What `getattr(obj, attr)` finds, as addSpecialMethod sees it. */
  datatype Current = Absent | BoundTo(f: FuncId) | Other

  function CurrentAttr(reg: Registry, obj: Head, attr: string): Current {
    if attr in BoundOf(reg, obj.oid) then BoundTo(BoundOf(reg, obj.oid)[attr])
    else if attr in Table(reg, ClassKey(obj.oid, SelfClass)) then
      // a SpecialMethodDescriptor raises AttributeError when the __dict__ has no entry
      if Table(reg, ClassKey(obj.oid, SelfClass))[attr].SpecialMethod? then Absent else Other
    else if attr in obj.nativeAttrs then Other
    else Absent
  }

  /** addSpecialMethod: bind f, do nothing if f is already bound, refuse any other binding. */
  function AfterSpecial(reg: Registry, obj: Head, attr: string, f: FuncId): (r: Result<Registry, Error>)
    ensures r.Success? <==> CurrentAttr(reg, obj, attr) in {Absent, BoundTo(f)}
    ensures r.Failure? ==> r.error == AttributeError
    ensures r.Success? ==> CurrentAttr(r.value, obj, attr) == BoundTo(f)
    ensures CurrentAttr(reg, obj, attr) == BoundTo(f) ==> r == Success(reg)
    ensures r.Success? ==> forall k: ClassKey :: k.oid != obj.oid ==> Table(r.value, k) == Table(reg, k)
    ensures r.Success? ==> forall k: ClassKey, a: string :: a != attr ==>
      (a in Table(r.value, k) <==> a in Table(reg, k)) && (a in Table(reg, k) ==> Table(r.value, k)[a] == Table(reg, k)[a])
    ensures r.Success? && CurrentAttr(reg, obj, attr) == Absent ==>
      attr in Table(r.value, ClassKey(obj.oid, SelfClass))
      && Table(r.value, ClassKey(obj.oid, SelfClass))[attr] == SpecialMethod(attr)
  {
    match CurrentAttr(reg, obj, attr)
    case BoundTo(g) => if g == f then Success(reg) else Failure(AttributeError)
    case Other => Failure(AttributeError)
    case Absent =>
      var withMethod := reg.(bound := reg.bound[obj.oid := BoundOf(reg, obj.oid)[attr := f]]);
      Success(SetClassAttr(withMethod, ClassKey(obj.oid, SelfClass), attr, SpecialMethod(attr)))
  }

  lemma SpecialIdempotent(reg: Registry, obj: Head, attr: string, f: FuncId)
    requires AfterSpecial(reg, obj, attr, f).Success?
    ensures AfterSpecial(AfterSpecial(reg, obj, attr, f).value, obj, attr, f) == AfterSpecial(reg, obj, attr, f)
  {
  }

  lemma SpecialConflict(reg: Registry, obj: Head, attr: string, f: FuncId, g: FuncId)
    requires f != g && AfterSpecial(reg, obj, attr, f).Success?
    ensures AfterSpecial(AfterSpecial(reg, obj, attr, f).value, obj, attr, g) == Failure(AttributeError)
  {
  }

  /** The descriptor bind_property installs, on the class it belongs to and the item-slice class. */
  function Install(reg: Registry, obj: Head, attr: string, rules: Args): (r: Registry)
    ensures FlagArg(rules, "itemRule") ==>
      attr in Table(r, ClassKey(obj.oid, ItemClass))
      && Table(r, ClassKey(obj.oid, ItemClass))[attr] == MakeItemDescriptor(attr, rules)
      && (obj.hasItemSliceClass ==>
            (attr in Table(r, ClassKey(obj.oid, ItemSliceClass))
             && Table(r, ClassKey(obj.oid, ItemSliceClass))[attr] == MakeItemDescriptor(attr, rules)))
      && Table(r, ClassKey(obj.oid, SelfClass)) == Table(reg, ClassKey(obj.oid, SelfClass))
    ensures !FlagArg(rules, "itemRule") ==>
      attr in Table(r, ClassKey(obj.oid, SelfClass)) && Table(r, ClassKey(obj.oid, SelfClass))[attr] == OneTime(attr)
    ensures forall k: ClassKey :: k.oid != obj.oid ==> Table(r, k) == Table(reg, k)
    ensures forall k: ClassKey, a: string :: a != attr ==>
      (a in Table(r, k) <==> a in Table(reg, k)) && (a in Table(reg, k) ==> Table(r, k)[a] == Table(reg, k)[a])
    ensures r.bound == reg.bound
  {
    if FlagArg(rules, "itemRule") then
      var d := MakeItemDescriptor(attr, rules);
      var r1 := SetClassAttr(reg, ClassKey(obj.oid, ItemClass), attr, d);
      if obj.hasItemSliceClass then SetClassAttr(r1, ClassKey(obj.oid, ItemSliceClass), attr, d) else r1
    else SetClassAttr(reg, ClassKey(obj.oid, SelfClass), attr, OneTime(attr))
  }

  /** bind_property: install the descriptor, then give an `inverseDB` attribute a shadow __invert__. */
  function AfterBind(reg: Registry, obj: Head, attr: string, rules: Args): (r: (Registry, Option<Error>))
    // an attribute the object asks to skip is not bound at all
    ensures attr in obj.ignoreShadowAttr ==> r == (reg, None)
    ensures attr !in obj.ignoreShadowAttr && FlagArg(rules, "itemRule") && !obj.hasItemClass ==>
      r == (reg, Some(AttributeError))
    ensures attr !in obj.ignoreShadowAttr && r.1.None? ==>
      if FlagArg(rules, "itemRule") then
        attr in Table(r.0, ClassKey(obj.oid, ItemClass))
        && Table(r.0, ClassKey(obj.oid, ItemClass))[attr] == MakeItemDescriptor(attr, rules)
        && (obj.hasItemSliceClass ==>
              (attr in Table(r.0, ClassKey(obj.oid, ItemSliceClass))
               && Table(r.0, ClassKey(obj.oid, ItemSliceClass))[attr] == MakeItemDescriptor(attr, rules)))
      else attr in Table(r.0, ClassKey(obj.oid, SelfClass)) && Table(r.0, ClassKey(obj.oid, SelfClass))[attr] == OneTime(attr)
    ensures r.1.None? && attr == "inverseDB" && attr !in obj.ignoreShadowAttr ==>
      CurrentAttr(r.0, obj, InvertAttr) == BoundTo(GetInverseDB)
    ensures r.1.Some? ==> r.1.value == AttributeError
    ensures forall k: ClassKey :: k.oid != obj.oid ==> Table(r.0, k) == Table(reg, k)
    // every other attribute keeps its binding
    ensures forall k: ClassKey, a: string :: a != attr && a != InvertAttr ==>
      (a in Table(r.0, k) <==> a in Table(reg, k)) && (a in Table(reg, k) ==> Table(r.0, k)[a] == Table(reg, k)[a])
  {
    if attr in obj.ignoreShadowAttr then (reg, None)
    else if FlagArg(rules, "itemRule") && !obj.hasItemClass then (reg, Some(AttributeError))
    else
      var bound := Install(reg, obj, attr, rules);
      if attr == "inverseDB" then
        match AfterSpecial(bound, obj, InvertAttr, GetInverseDB)
        case Failure(e) => (bound, Some(e))
        case Success(r2) => (r2, None)
      else (bound, None)
  }

  /**
   * bind_schema's loop over a resource's schema record, in the order visited: each real
   * attribute is bound with its rule's arguments; the first error ends the loop.
   */
  function BindAll(reg: Registry, obj: Head, schema: map<string, Rule>, order: seq<string>): (r: (Registry, Option<Error>))
    requires forall i :: 0 <= i < |order| ==> order[i] in schema
    // a missing itemClass, or a relation object where argument dicts belong
    ensures r.1.Some? ==> r.1.value == AttributeError || r.1.value == TypeError
    // only the resource's own classes are touched
    ensures forall k: ClassKey :: k.oid != obj.oid ==> Table(r.0, k) == Table(reg, k)
    decreases |order|
  {
    if order == [] then (reg, None)
    else
      var prev := BindAll(reg, obj, schema, order[..|order| - 1]);
      var a := order[|order| - 1];
      if prev.1.Some? || Names.IsRuleAttr(a) then prev
      else if schema[a].EdgeRule? then (prev.0, Some(TypeError))  // `**rules` of a relation object
      else AfterBind(prev.0, obj, a, schema[a].args)
  }

  /** bind_schema never binds a `-` attribute: whatever class held one still holds it unchanged. */
  lemma {:induction false} BindAllSkipsRuleAttrs(reg: Registry, obj: Head, schema: map<string, Rule>, order: seq<string>,
                                                 k: ClassKey, a: string)
    requires forall i :: 0 <= i < |order| ==> order[i] in schema
    requires Names.IsRuleAttr(a)
    ensures var r := BindAll(reg, obj, schema, order).0;
      (a in Table(r, k) <==> a in Table(reg, k)) && (a in Table(reg, k) ==> Table(r, k)[a] == Table(reg, k)[a])
    decreases |order|
  {
    if order != [] {
      BindAllSkipsRuleAttrs(reg, obj, schema, order[..|order| - 1], k, a);
      assert InvertAttr[0] != '-';
    }
  }

  /** Python's attribute lookup on an instance: data descriptor, then __dict__, then other descriptors. */
  datatype Lookup = FromDict(v: Value) | ViaDescriptor(d: Descriptor) | NoAttr

  function LookupAttr(table: map<string, Descriptor>, dict: map<string, Value>, attr: string): (r: Lookup)
    ensures attr in table && IsDataDescriptor(table[attr]) ==> r == ViaDescriptor(table[attr])
    ensures attr in dict && !(attr in table && IsDataDescriptor(table[attr])) ==> r == FromDict(dict[attr])
    ensures r == NoAttr <==> attr !in table && attr !in dict
  {
    if attr in table && IsDataDescriptor(table[attr]) then ViaDescriptor(table[attr])
    else if attr in dict then FromDict(dict[attr])
    else if attr in table then ViaDescriptor(table[attr])
    else NoAttr
  }

  /** The mapping objects a descriptor reads: `~m`, `m.edges`, `m[k]`, and `getattr(v, a)`. */
  datatype World = World(
    inverse: map<nat, Value>,
    edges: map<nat, Value>,
    index: map<(nat, Value), Value>,
    attrs: map<(Value, string), Value>)

  /** ItemDescriptor.get_target, given what get_schema_attr resolved the container's attribute to. */
  function ItemTarget(d: Descriptor, dbPid: Option<string>, target: Result<Value, Error>, w: World): (r: Result<Value, Error>)
    requires d.ItemDescr?
    ensures dbPid.None? ==> r == Failure(AttributeError)
    ensures r.Success? && !d.invert && !d.getEdges ==> target == r
  {
    if dbPid.None? then Failure(AttributeError)
    else if target.Failure? then target
    else
      var t := target.value;
      var inv :=
        if !d.invert then Success(t)
        else if t.Handle? && t.h in w.inverse then Success(w.inverse[t.h])
        else Failure(TypeError);
      if inv.Failure? || !d.getEdges then inv
      else if inv.value.Handle? && inv.value.h in w.edges then Success(w.edges[inv.value.h])
      else Failure(AttributeError)
  }

  /** `targetDict[key]`. */
  function Index(w: World, m: Value, key: Value): Result<Value, Error> {
    if m.NoneValue? then Failure(TypeError)
    else if (m.h, key) in w.index then Success(w.index[(m.h, key)])
    else Failure(KeyError)
  }

  /** `getattr(v, a)`. */
  function Attr(w: World, v: Value, a: string): Result<Value, Error> {
    if (v, a) in w.attrs then Success(w.attrs[(v, a)]) else Failure(AttributeError)
  }

  /** ItemDescriptor.__get__: the value, and whether it is cached in the instance's __dict__. */
  function ItemValue(d: Descriptor, self: Value, dbPid: Option<string>, target: Result<Value, Error>, w: World)
    : (r: Result<(Value, bool), Error>)
    requires d.ItemDescr?
    // None under mapAttr maps to None and is not cached; every other result is cached
    ensures r.Success? ==> (!r.value.1 <==> d.mapAttr.Some? && Attr(w, self, d.mapAttr.value) == Success(NoneValue))
    ensures r.Success? && !r.value.1 ==> r.value.0 == NoneValue
    ensures r.Success? && d.mapAttr.None? && d.targetAttr.None? ==>
      ItemTarget(d, dbPid, target, w).Success?
      && Index(w, ItemTarget(d, dbPid, target, w).value, self) == Success(r.value.0)
  {
    match ItemTarget(d, dbPid, target, w)
    case Failure(e) => Failure(e)
    case Success(m) =>
      var key :=
        if d.mapAttr.None? then Success(self) else Attr(w, self, d.mapAttr.value);
      if key.Failure? then Failure(key.error)
      else if d.mapAttr.Some? && key.value == NoneValue then Success((NoneValue, false))
      else
        match Index(w, m, key.value)
        case Failure(e) => Failure(e)
        case Success(v) =>
          if d.targetAttr.None? then Success((v, true))
          else
            match Attr(w, v, d.targetAttr.value)
            case Failure(e) => Failure(e)
            case Success(a) => Success((a, true))
  }

  /** An object whose __dict__ the descriptors write. */
  class Instance {
    const self: Value
    const pid: Option<string>
    const dbPid: Option<string>
    var dict: map<string, Value>

    constructor(self: Value, pid: Option<string>, dbPid: Option<string>)
      ensures this.self == self && this.pid == pid && this.dbPid == dbPid && dict == map[]
    {
      this.self := self;
      this.pid := pid;
      this.dbPid := dbPid;
      dict := map[];
    }
  }

  /** The mapping objects, of which `targetDict[obj] = value` updates the index. */
  class Mappings {
    var index: map<(nat, Value), Value>
    const inverse: map<nat, Value>
    const edges: map<nat, Value>
    const attrs: map<(Value, string), Value>

    constructor(w: World)
      ensures State() == w
    {
      index := w.index;
      inverse := w.inverse;
      edges := w.edges;
      attrs := w.attrs;
    }

    ghost function State(): World
      reads this
    {
      World(inverse, edges, index, attrs)
    }
  }

  /** OneTimeDescriptor.__get__: resolve the schema attribute of the resource and cache it. */
  method OneTimeGet(d: Descriptor, obj: Instance, target: Result<Value, Error>) returns (r: Result<Value, Error>)
    requires d.OneTime?
    modifies obj
    ensures obj.pid.None? ==> r == Failure(AttributeError)
    ensures obj.pid.Some? ==> r == target
    ensures r.Success? ==> obj.dict == old(obj.dict)[d.attr := r.value]
    ensures r.Failure? ==> obj.dict == old(obj.dict)
  {
    if obj.pid.None? {
      return Failure(AttributeError);
    }
    if target.Failure? {
      return target;
    }
    obj.dict := obj.dict[d.attr := target.value];
    r := target;
  }

  /** ItemDescriptor.__get__. */
  method ItemGet(d: Descriptor, obj: Instance, target: Result<Value, Error>, m: Mappings) returns (r: Result<Value, Error>)
    requires d.ItemDescr?
    modifies obj
    ensures var v := ItemValue(d, obj.self, obj.dbPid, target, m.State());
      (v.Failure? ==> r == Failure(v.error) && obj.dict == old(obj.dict))
      && (v.Success? ==>
            (r == Success(v.value.0)
             && obj.dict == if v.value.1 then old(obj.dict)[d.attr := v.value.0] else old(obj.dict)))
  {
    var v := ItemValue(d, obj.self, obj.dbPid, target, World(m.inverse, m.edges, m.index, m.attrs));
    if v.Failure? {
      return Failure(v.error);
    }
    if v.value.1 {
      obj.dict := obj.dict[d.attr := v.value.0];
    }
    r := Success(v.value.0);
  }

  /** ItemDescriptorRW.__set__: only a unique mapping may be assigned to. */
  method ItemSet(d: Descriptor, obj: Instance, newTarget: Value, target: Result<Value, Error>, m: Mappings)
    returns (error: Option<Error>)
    requires d.ItemDescr?
    modifies obj, m
    ensures !d.uniqueMapping ==> error == Some(SchemaViolation)
    ensures error.Some? ==> obj.dict == old(obj.dict) && m.index == old(m.index)
    ensures error.None? <==>
      (d.uniqueMapping && ItemTarget(d, obj.dbPid, target, old(m.State())).Success?
       && ItemTarget(d, obj.dbPid, target, old(m.State())).value.Handle?)
    ensures error.None? ==>
      var t := ItemTarget(d, obj.dbPid, target, old(m.State())).value;
      m.index == old(m.index)[(t.h, obj.self) := newTarget] && obj.dict == old(obj.dict)[d.attr := newTarget]
  {
    if !d.uniqueMapping {
      return Some(SchemaViolation);
    }
    var t := ItemTarget(d, obj.dbPid, target, World(m.inverse, m.edges, m.index, m.attrs));
    if t.Failure? {
      return Some(t.error);
    }
    if t.value.NoneValue? {
      return Some(TypeError);
    }
    m.index := m.index[(t.value.h, obj.self) := newTarget];
    obj.dict := obj.dict[d.attr := newTarget];
    error := None;
  }

  /** A cached answer ends the lazy binding: later lookups read __dict__ unless the descriptor has __set__. */
  lemma CachedValueShadowsDescriptor(table: map<string, Descriptor>, dict: map<string, Value>, attr: string, v: Value)
    requires attr in table && table[attr].ItemDescr?
    ensures LookupAttr(table, dict[attr := v], attr) ==
      if table[attr].rw then ViaDescriptor(table[attr]) else FromDict(v)
  {
  }

  /** What __set__ assigns, a later __get__ through the same unique mapping reads back. */
  lemma SetThenGet(d: Descriptor, self: Value, dbPid: Option<string>, target: Result<Value, Error>, w: World, v: Value)
    requires d.ItemDescr? && d.mapAttr.None? && d.targetAttr.None?
    requires ItemTarget(d, dbPid, target, w).Success? && ItemTarget(d, dbPid, target, w).value.Handle?
    ensures var t := ItemTarget(d, dbPid, target, w).value;
      var w' := w.(index := w.index[(t.h, self) := v]);
      ItemValue(d, self, dbPid, target, w') == Success((v, true))
  {
    var t := ItemTarget(d, dbPid, target, w).value;
    var w' := w.(index := w.index[(t.h, self) := v]);
    assert ItemTarget(d, dbPid, target, w') == ItemTarget(d, dbPid, target, w);
  }

  class TypeRegistry {
    var classes: map<ClassKey, map<string, Descriptor>>
    var bound: map<ObjId, map<string, FuncId>>

    ghost function State(): Registry
      reads this
    {
      Registry(classes, bound)
    }

    constructor()
      ensures State() == Registry(map[], map[])
    {
      classes := map[];
      bound := map[];
    }

    method AddSpecialMethod(obj: Head, attr: string, f: FuncId) returns (error: Option<Error>)
      modifies this
      ensures var r := AfterSpecial(old(State()), obj, attr, f);
        (r.Success? ==> error.None? && State() == r.value)
        && (r.Failure? ==> error == Some(r.error) && State() == old(State()))
    {
      var r := AfterSpecial(Registry(classes, bound), obj, attr, f);
      if r.Failure? {
        return Some(r.error);
      }
      classes, bound := r.value.classes, r.value.bound;
      error := None;
    }

    /** bind_property. */
    method BindProperty(obj: Head, attr: string, rules: Args) returns (error: Option<Error>)
      modifies this
      ensures (State(), error) == AfterBind(old(State()), obj, attr, rules)
    {
      if attr in obj.ignoreShadowAttr {
        return None;
      }
      var itemRule := FlagArg(rules, "itemRule");
      if itemRule && !obj.hasItemClass {
        return Some(AttributeError);
      }
      var reg := Registry(classes, bound);
      if itemRule {
        var d := MakeItemDescriptor(attr, rules);
        reg := SetClassAttr(reg, ClassKey(obj.oid, ItemClass), attr, d);
        if obj.hasItemSliceClass {
          reg := SetClassAttr(reg, ClassKey(obj.oid, ItemSliceClass), attr, d);
        }
      } else {
        reg := SetClassAttr(reg, ClassKey(obj.oid, SelfClass), attr, OneTime(attr));
      }
      classes, bound := reg.classes, reg.bound;
      error := None;
      if attr == "inverseDB" {
        error := AddSpecialMethod(obj, InvertAttr, GetInverseDB);
      }
    }
  }
}
