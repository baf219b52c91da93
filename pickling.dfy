/**
 * The reference-aware pickling protocol: PygrPickler.setRoot / persistent_id decide,
 * object by object, whether pickle writes a `PYGR_ID:` reference, writes the object in
 * full, or fails; MetabaseBase.persistent_load expands a reference again. The pickle
 * byte stream is a tree of `Pickle` tokens.
 */
module Pickling {

  import opened Wrappers
  import opened Errors
  import opened Objects
  import Names

  /** The pickle stream: an object written in full, or a persistent-ID reference token. */
  datatype Pickle = Full(head: Head, parts: seq<Pickle>) | Ref(token: string)

  const RefPrefix := "PYGR_ID:"

  /** `'PYGR_ID:%s' % id`. */
  function RefToken(id: string): (t: string)
    ensures Names.StartsWith(t, RefPrefix) && t[|RefPrefix|..] == id
  {
    RefPrefix + id
  }

  /** The test and slice of persistent_load: `persid[8:]` when it starts with PYGR_ID:. */
  function ParseToken(t: string): (r: Option<string>)
    ensures r.Some? <==> Names.StartsWith(t, RefPrefix)
    ensures r.Some? ==> RefToken(r.value) == t
  {
    if Names.StartsWith(t, RefPrefix) then Some(t[|RefPrefix|..]) else None
  }

  lemma TokenRoundTrip(id: string)
    ensures ParseToken(RefToken(id)) == Some(id)
  {
  }

  /** The state setRoot gives a PygrPickler: the root, the id substitution table, the classes
      that mark a local dependency. */
  datatype Pickler = Pickler(root: ObjId, sourceIDs: map<ObjId, string>, badClasses: set<ClassName>)

  function SetRoot(root: Obj, sourceIDs: map<ObjId, string>, badClasses: set<ClassName>): (p: Pickler)
    ensures p.root == root.head.oid && p.sourceIDs == sourceIDs && p.badClasses == badClasses
  {
    Pickler(root.head.oid, sourceIDs, badClasses)
  }

  /** `dumps(obj)` with no keyword arguments, as ResourceDBShelve.__setitem__ calls it. */
  function DefaultPickler(root: Obj): Pickler {
    SetRoot(root, map[], {})
  }

  /** True when persistent_id may emit a reference for h: not a type object and not the root. */
  predicate MayReference(p: Pickler, h: Head) {
    !h.isType && h.oid != p.root
  }

  /** The ID a referencable object is written as: its sourceIDs entry, else its _persistent_id. */
  function ReferenceId(p: Pickler, h: Head): Option<string> {
    if h.oid in p.sourceIDs then Some(p.sourceIDs[h.oid]) else h.pid
  }

  /**
   * PygrPickler.persistent_id: Success(Some(token)) replaces the object by a reference,
   * Success(None) pickles it in full.
   */
  function PersistentId(p: Pickler, h: Head): (r: Result<Option<string>, Error>)
    // a class defined in __main__ is refused, whatever else holds
    ensures r == Failure(NoModule) <==> h.isType && h.moduleName == MainModule
    // the root and type objects are never replaced by a reference
    ensures r.Success? && r.value.Some? ==> MayReference(p, h)
    // a reference names the sourceIDs entry first and the object's own _persistent_id second
    ensures r.Success? && r.value.Some? ==>
      ReferenceId(p, h).Some? && ParseToken(r.value.value) == ReferenceId(p, h)
    ensures !(h.isType && h.moduleName == MainModule) && MayReference(p, h) && ReferenceId(p, h).Some? ==>
      r == Success(Some(RefToken(ReferenceId(p, h).value)))
    // a local dependency aborts only an object that is pickled in full
    ensures r == Failure(NotPortable) <==>
      !(h.isType && h.moduleName == MainModule) && !(MayReference(p, h) && ReferenceId(p, h).Some?)
      && h.classes * p.badClasses != {}
    ensures r.Failure? ==> r.error in {NoModule, NotPortable}
  {
    if h.isType && h.moduleName == MainModule then Failure(NoModule)
    else if MayReference(p, h) && h.oid in p.sourceIDs then Success(Some(RefToken(p.sourceIDs[h.oid])))
    else if MayReference(p, h) && h.pid.Some? then Success(Some(RefToken(h.pid.value)))
    else if h.classes * p.badClasses != {} then Failure(NotPortable)
    else Success(None)
  }

  /** pickler.dump(obj): every object visited is first offered to persistent_id. */
  function Encode(p: Pickler, o: Obj): (r: Result<Pickle, Error>)
    // only persistent_id's own refusals can stop a dump
    ensures r.Failure? ==> r.error in {NoModule, NotPortable}
    // an object written in full keeps its head and its number of parts
    ensures r.Success? && r.value.Full? ==> r.value.head == o.head && |r.value.parts| == |o.parts|
    // a reference is the token of the object's catalog ID
    ensures r.Success? && r.value.Ref? ==>
      MayReference(p, o.head) && ReferenceId(p, o.head).Some? && ParseToken(r.value.token) == ReferenceId(p, o.head)
    decreases o, 1
  {
    match PersistentId(p, o.head)
    case Failure(e) => Failure(e)
    case Success(Some(tok)) => Success(Ref(tok))
    case Success(None) =>
      match EncodeParts(p, o.parts)
      case Failure(e) => Failure(e)
      case Success(ps) => Success(Full(o.head, ps))
  }

  function EncodeParts(p: Pickler, os: seq<Obj>): (r: Result<seq<Pickle>, Error>)
    ensures r.Success? ==> |r.value| == |os|
    ensures r.Failure? ==> r.error in {NoModule, NotPortable}
    decreases os, 0
  {
    if os == [] then Success([])
    else
      match Encode(p, os[0])
      case Failure(e) => Failure(e)
      case Success(t) =>
        match EncodeParts(p, os[1..])
        case Failure(e) => Failure(e)
        case Success(ts) => Success([t] + ts)
  }

  /** MetabaseBase.persistent_load against a catalog of resolvable resources. */
  function PersistentLoad(token: string, catalog: map<string, Obj>): (r: Result<Obj, Error>)
    ensures r.Success? <==> ParseToken(token).Some? && ParseToken(token).value in catalog
    ensures r.Success? ==> r.value == catalog[ParseToken(token).value]
    ensures ParseToken(token).None? ==> r == Failure(Unpickling)
  {
    match ParseToken(token)
    case None => Failure(Unpickling)
    case Some(id) => if id in catalog then Success(catalog[id]) else Failure(NotFound)
  }

  /** MetabaseBase.loads: unpickle, expanding every reference through the catalog. */
  function Decode(t: Pickle, catalog: map<string, Obj>): (r: Result<Obj, Error>)
    // only persistent_load can refuse a stream
    ensures r.Failure? ==> r.error in {Unpickling, NotFound}
    ensures r.Success? && t.Full? ==> r.value.head == t.head && |r.value.parts| == |t.parts|
    // a reference loads as the catalog's instance of the ID its token names
    ensures r.Success? && t.Ref? ==>
      ParseToken(t.token).Some? && ParseToken(t.token).value in catalog && r.value == catalog[ParseToken(t.token).value]
    decreases t, 1
  {
    match t
    case Ref(tok) => PersistentLoad(tok, catalog)
    case Full(h, ps) =>
      match DecodeParts(ps, catalog)
      case Failure(e) => Failure(e)
      case Success(os) => Success(Obj(h, os))
  }

  function DecodeParts(ts: seq<Pickle>, catalog: map<string, Obj>): (r: Result<seq<Obj>, Error>)
    ensures r.Success? ==> |r.value| == |ts|
    ensures r.Failure? ==> r.error in {Unpickling, NotFound}
    decreases ts, 0
  {
    if ts == [] then Success([])
    else
      match Decode(ts[0], catalog)
      case Failure(e) => Failure(e)
      case Success(o) =>
        match DecodeParts(ts[1..], catalog)
        case Failure(e) => Failure(e)
        case Success(os) => Success([o] + os)
  }

  /** Every object that encoding replaces by a reference is what the catalog holds under that ID. */
  ghost predicate RefsResolve(p: Pickler, o: Obj, catalog: map<string, Obj>)
    decreases o
  {
    match PersistentId(p, o.head)
    case Failure(_) => true
    case Success(Some(_)) => ReferenceId(p, o.head).value in catalog && catalog[ReferenceId(p, o.head).value] == o
    case Success(None) => forall i :: 0 <= i < |o.parts| ==> RefsResolve(p, o.parts[i], catalog)
  }

  /** Round trip: loading what dumps wrote gives the object graph back. */
  lemma {:induction false} DecodeEncode(p: Pickler, o: Obj, catalog: map<string, Obj>)
    requires Encode(p, o).Success?
    requires RefsResolve(p, o, catalog)
    ensures Decode(Encode(p, o).value, catalog) == Success(o)
    decreases o, 1
  {
    match PersistentId(p, o.head)
    case Success(Some(tok)) =>
    case Success(None) =>
      DecodeEncodeParts(p, o.parts, catalog);
  }

  lemma {:induction false} DecodeEncodeParts(p: Pickler, os: seq<Obj>, catalog: map<string, Obj>)
    requires EncodeParts(p, os).Success?
    requires forall i :: 0 <= i < |os| ==> RefsResolve(p, os[i], catalog)
    ensures DecodeParts(EncodeParts(p, os).value, catalog) == Success(os)
    decreases os, 0
  {
    if os != [] {
      DecodeEncode(p, os[0], catalog);
      assert forall i :: 0 <= i < |os[1..]| ==> RefsResolve(p, os[1..][i], catalog) by {
        forall i | 0 <= i < |os[1..]| ensures RefsResolve(p, os[1..][i], catalog) {
          assert os[1..][i] == os[i + 1];
        }
      }
      DecodeEncodeParts(p, os[1..], catalog);
      var ts := EncodeParts(p, os).value;
      assert ts[1..] == EncodeParts(p, os[1..]).value;
      assert ts[0] == Encode(p, os[0]).value;
      assert os == [os[0]] + os[1..];
    }
  }

  /** The root is written in full even when it already carries a _persistent_id. */
  lemma RootWrittenInFull(root: Obj, sourceIDs: map<ObjId, string>, badClasses: set<ClassName>)
    requires Encode(SetRoot(root, sourceIDs, badClasses), root).Success?
    ensures Encode(SetRoot(root, sourceIDs, badClasses), root).value.Full?
  {
  }

  /**
   * A non-root object that carries a _persistent_id (and has no sourceIDs entry) is written
   * as a reference, and loading that reference gives the catalog's instance, not a copy.
   */
  lemma {:induction false} ReferenceLoadsCatalogInstance(p: Pickler, o: Obj, catalog: map<string, Obj>)
    requires MayReference(p, o.head) && o.head.oid !in p.sourceIDs && o.head.pid.Some?
    requires o.head.pid.value in catalog
    ensures Encode(p, o) == Success(Ref(RefToken(o.head.pid.value)))
    ensures Decode(Encode(p, o).value, catalog) == Success(catalog[o.head.pid.value])
  {
    TokenRoundTrip(o.head.pid.value);
  }

  /** One part that cannot be encoded makes the whole dump fail: nothing is silently left out. */
  lemma {:induction false} FailingPartAbortsEncode(p: Pickler, o: Obj, i: nat)
    requires i < |o.parts|
    requires PersistentId(p, o.head) == Success(None)
    requires Encode(p, o.parts[i]).Failure?
    ensures Encode(p, o).Failure?
  {
    FailingPartAbortsParts(p, o.parts, i);
  }

  lemma {:induction false} FailingPartAbortsParts(p: Pickler, os: seq<Obj>, i: nat)
    requires i < |os|
    requires Encode(p, os[i]).Failure?
    ensures EncodeParts(p, os).Failure?
    decreases i
  {
    if i > 0 && Encode(p, os[0]).Success? {
      FailingPartAbortsParts(p, os[1..], i - 1);
    }
  }
}
