/**
 * The part of a Python object the catalog looks at. A resource or any object in its
 * pickle graph is a `Head` (its own attributes) plus the objects it refers to, in the
 * order pickle visits them.
 */
module Objects {

  import opened Wrappers

  /** `id(obj)`: the identity of a Python object. */
  type ObjId = nat
  type ClassName = string

  const MainModule := "__main__"

  /** A schema binding argument: an ID or attribute name, or a flag such as itemRule=True. */
  datatype Arg = Text(s: string) | Flag(b: bool)

  /** The keyword arguments of one schema binding (`{attr: {args}}` holds one per attribute). */
  type Args = map<string, Arg>

  /** Python truthiness of an argument value. */
  predicate Truthy(a: Arg) {
    match a
    case Text(s) => s != ""
    case Flag(b) => b
  }

  datatype Head = Head(
    oid: ObjId,                        // id(obj)
    isType: bool,                      // isinstance(obj, types.TypeType)
    moduleName: string,                  // obj.__module__
    classes: set<ClassName>,           // every class obj is an instance of
    pid: Option<string>,               // obj._persistent_id (None when absent or None)
    doc: Option<string>,               // obj.__doc__
    classDoc: Option<string>,          // obj.__class__.__doc__
    saveLocalBuild: bool,              // obj._saveLocalBuild, False when absent
    ignoreShadowAttr: set<string>,     // keys of obj._ignoreShadowAttr
    hasItemClass: bool,                // obj.itemClass exists
    hasItemSliceClass: bool,           // obj.itemSliceClass exists
    nativeAttrs: set<string>,          // attributes obj's class defines itself (e.g. __invert__)
    inverseSchema: Option<Args>        // what obj._inverse_schema() returns, if obj has it
  )

  datatype Obj = Obj(head: Head, parts: seq<Obj>)

  /** check_docstring: the object carries a __doc__ of its own, not None and not its class's. */
  predicate HasOwnDoc(o: Obj) {
    o.head.doc.Some? && o.head.doc != o.head.classDoc
  }

  /** `obj._persistent_id = id`. */
  function Stamp(o: Obj, id: string): Obj {
    o.(head := o.head.(pid := Some(id)))
  }

  /** `obj.__doc__ = doc`. */
  function WithDoc(o: Obj, doc: Option<string>): Obj {
    o.(head := o.head.(doc := doc))
  }

  /** Every entry of a name -> object map carries its own name as _persistent_id. */
  predicate Stamped(m: map<string, Obj>) {
    forall k :: k in m ==> m[k].head.pid == Some(k)
  }

}
