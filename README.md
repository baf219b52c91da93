# pygr metabase: a verified model

`pygr/metabase.py` is pygr's resource catalog (pygr.Data). It maps dotted resource names such as
`Bio.Seq.Genome.HUMAN.hg18` to live Python objects. Each object is stored as a pickle in one of
several resource databases ("metabases") on a search path. When the catalog writes an object, any
object it refers to that is itself a catalog resource becomes a `PYGR_ID:` reference token. When
it loads an object, those tokens are resolved again through the catalog. Stored schema relations
become lazily bound attributes of the loaded objects. Writes are queued in a transaction that is
committed or rolled back.

This project models that core in Dafny and proves what the code promises about it. The model is
split into modules:

- **Wrappers**, **Errors** and **Objects** hold the common vocabulary.
  - `Option`, `Result` and `Outcome`.
  - The exceptions, including the Python built-ins the code lets through.
  - The abstract object: a `Head` carrying `id(obj)`, its classes, `_persistent_id`, `__doc__`
    and the class's docstring, plus the objects it refers to, in the order pickle visits them.
- **Names** models the string operations on resource names.
  - `ResourcePath.getPath`.
  - `str.split` and `join` with a one-character separator.
  - The root name kept in `0root`, and the reserved shelve keys.
  - `str.isalpha`, and Python's ordering of strings.
- **Pickling** models the reference-token rule of `PygrPickler.persistent_id` and `setRoot`, and
  its inverse `persistent_load`.
  - The pickle stream is a tree of `Full` and `Ref` tokens.
  - `Encode` is `dumps`, and `Decode` is `loads` against a catalog of resolvable resources.
- **Schema** models the relation classes.
  - The classes are `DirectRelation`, `ItemRelation`, `ManyToManyRelation` (with its one:many,
    one:one and many:one variants) and `InverseRelation`.
  - Saving a relation is the ordered list of schema-store writes it performs, plus the error that
    stopped it.
  - Deleting a relation is the list of bindings it removes.
- **Shelve** models `ResourceDBShelve` as a flat key/value map.
  - The map holds the pickle under the ID, the info record under `__doc__.<id>`, the schema
    record under `SCHEMA.<id>`, and the `0root` and `0version` records. The schema graph sits
    beside it.
  - Each operation is a pure transition. The class's methods are proved to perform it.
- **Transactions** and **Saver**: `ResourceSaver` and `ResourceLoader`.
  - Transactions holds the transaction state machine, written as pure transitions over the
    pending queues, the rollback snapshots and the shared cache. It also holds the data and
    schema loops of a commit and the delete cascade.
  - Saver holds the two classes, whose methods update their fields in place. Each method is
    proved to perform the matching transition.
- **Descriptors** models lazy binding as an explicit attribute table per class.
  - It covers `bind_property`, `addSpecialMethod` and the three descriptors.
  - A descriptor's cached answer in the instance `__dict__` is modelled.
- **Layers** models the layer classification of `Metabase.__init__`. `expanduser` and `isabs`
  are given functions.
- **Listing**: the merge of `MetabaseList.dir`. The earliest backend wins. A name that does not
  start with a letter is dropped, and an empty one raises IndexError. The result is sorted.
- **Resolver** models `Metabase` and `MetabaseList`.
  - It builds the backend list from the path string.
  - `__call__` resolves a resource: the cache first, then each backend in order. It saves and
    restores `debug`/`download`.
  - `load` unpickles through `__call__`, handles the auto-built-download branch, caches, and binds
    the schema.
  - It also covers `getschema`, `get_schema_attr`, `get_writer`, and `dir` for one layer.

How the model stands in for the system:

- **Environment.** The environment, the file system and the network are parameters.
  - `PYGRDATAPATH` is `environPath`.
  - `opener` gives, for each path, the contents the backend's files hold, or the error its
    constructor raises.
  - `expanduser`, `isabs`, `os.sep` and `os.curdir` are a `PathEnv`.
- **Recursion.** Resolution through reference tokens is recursive, as in Python. A `depth`
  parameter stands for Python's recursion limit: a token that must be fetched from a backend
  at depth 0 raises `RecursionLimit`.
- **Iteration order.** Wherever the source iterates over a dict, the model returns the visiting
  order as a ghost output (`order`, `dataOrder`, …). The order is proved to enumerate the
  dict's keys once each.

Where the code's own comments promise more than its statements do, the model follows the
statements:

- **Rollback.** rollback's docstring says it restores the state of the cache
  (pygr/metabase.py:735). The statement is `loader.update(rollbackData)`, which has two effects:
  - An ID that was not cached before `add_resource` stays cached after rollback
    (`Transactions.RollbackKeepsNewId`).
  - A second `add_resource` of the same ID snapshots the first pending object
    (`Transactions.SecondAddSnapshotsFirst`).
- **Commit.** save_pending saves the data queue and then the schema queue, and stops at the
  first `save_resource` or `saveSchema` that raises. The writes already done stay in the
  database, and the queues stay as they were (`Saver.ResourceSaver.SavePending`).
- **Debug mode.** The comment on `self.debug` says that when one load attempt fails, the other
  metabases are tried (pygr/metabase.py:544). The code retries only when a backend's `load`
  raises KeyError or IOError; any other error propagates at once (`Resolver.MetabaseList.Search`).
- **Deleting a resource.** delSchema's docstring says it deletes the schema bindings to and from
  the resource (pygr/metabase.py:749). The code deletes the resource's own schema record. For
  each `-` rule in that record it first runs the relation object's `delschema`
  (`Saver.ResourceSaver.DelSchema`, `Transactions.CascadeUnbinds`). A binding that names the
  resource as its target, made by a relation not held in that record, is left in place.

## Model

| member | source | states |
|---|---|---|
| Names.GetPath | pygr/metabase.py:860-864 | at the root the path is the name itself; under a base it is `base.` followed by the name, so the name can be read back |
| Names.GetPathInjective | pygr/metabase.py:860-864 | two names under the same base give the same path only if they are equal |
| Names.Split | pygr/metabase.py:581 | `split` always returns at least one piece, and no piece contains the separator |
| Names.JoinSplit | pygr/metabase.py:558-563 | joining the pieces of a split with the same separator gives the original string |
| Names.SplitJoin | pygr/metabase.py:558-563 | splitting a join of separator-free pieces gives the pieces back |
| Names.SplitFirst | pygr/metabase.py:484 | the first piece of a split is everything before the first separator |
| Names.RootName | pygr/metabase.py:224 | `id.split('.')[0]` is a dot-free prefix of the ID, and is either the whole ID or followed by a dot |
| Names.RootOfExtendedPath | pygr/metabase.py:224 | a path built by getPath under a base has the same root name as the base |
| Names.KeysInjective | pygr/metabase.py:210-274 | the `__doc__.` and `SCHEMA.` keys of different IDs are different |
| Names.ReservedKeys | pygr/metabase.py:210-274 | info, schema and root-name keys are all reserved keys |
| Names.LexLessTransitive | pygr/metabase.py:650 | Python's string order used by `l.sort()` is transitive |
| Names.LexLessTotal | pygr/metabase.py:650 | any two different strings are ordered one way or the other |
| Names.LexLessAsymmetric | pygr/metabase.py:650 | no two strings are ordered both ways |
| Pickling.RefToken | pygr/metabase.py:149-153 | the token starts with `PYGR_ID:` and the ID follows it |
| Pickling.ParseToken | pygr/metabase.py:301-306 | a token is accepted exactly when it starts with `PYGR_ID:`, and an accepted token is the encoding of the ID it yields |
| Pickling.TokenRoundTrip | pygr/metabase.py:149-153 | parsing the token written for an ID yields that ID |
| Pickling.SetRoot | pygr/metabase.py:159-163 | the pickler records the root's identity, the sourceIDs table and badClasses |
| Pickling.PersistentId | pygr/metabase.py:136-158 | a class defined in `__main__` raises NoModuleError, and nothing else does. A type object or the root is never replaced by a reference. A sourceIDs entry takes precedence over `_persistent_id`. An object that may be referenced and has an ID is written as that ID's token. NotPortable is raised exactly when a badClasses instance would be pickled in full |
| Pickling.Encode | pygr/metabase.py:281-287 | dumps fails only with persistent_id's NoModuleError or NotPortable. An object written in full keeps its head and its number of parts. A reference is the token of the object's catalog ID, and is written only for an object that may be referenced |
| Pickling.Decode | pygr/metabase.py:332-338 | loads fails only with persistent_load's errors. An object written in full keeps its head and its number of parts. A reference loads as the catalog's instance of the ID its token names |
| Pickling.PersistentLoad | pygr/metabase.py:301-306 | it succeeds exactly when the token has the `PYGR_ID:` form and names a catalog resource, and then yields that resource; a token without that form raises UnpicklingError |
| Pickling.DecodeEncode | pygr/metabase.py:136-158 | loading what dumps wrote gives the object graph back when every reference resolves to the object it replaced |
| Pickling.RootWrittenInFull | pygr/metabase.py:159-163 | the root of a dump is written in full, never as a reference |
| Pickling.ReferenceLoadsCatalogInstance | pygr/metabase.py:136-158 | a non-root object with a `_persistent_id` is written as its token, and loads back as the catalog's instance |
| Pickling.FailingPartAbortsEncode | pygr/metabase.py:281-287 | if any part of an object pickled in full cannot be encoded, the whole dump fails |
| Shelve.NewDb | pygr/metabase.py:203-206 | a new shelve holds the version stamp `(0,1,0)` and an empty root-name record, and nothing that is not a reserved key |
| Shelve.Find | pygr/metabase.py:210-216 | a missing ID raises KeyError; a found ID gives its stored data, and its docstring if it has an info record (else None) |
| Shelve.AfterSetItem | pygr/metabase.py:217-230 | a pickling error leaves the database unchanged. Otherwise the pickle is stored under the ID, the docstring under `__doc__.<id>`, and the ID's root is added to `0root`. Every other key is unchanged |
| Shelve.AfterDelItem | pygr/metabase.py:231-244 | a missing ID raises NotFound and changes nothing; otherwise the ID and its info record are gone and every other key is unchanged |
| Shelve.AfterSetSchema | pygr/metabase.py:257-265 | a real attribute without a targetID is refused and changes nothing. Otherwise the rule is stored under id.attr, the record's other rules are kept, and every other key is unchanged |
| Shelve.SchemaOf | pygr/metabase.py:266-268 | the schema record of the ID; KeyError exactly when there is none |
| Shelve.AfterDelSchema | pygr/metabase.py:269-274 | it succeeds exactly when the rule exists, and then removes just that rule; otherwise KeyError and nothing changes |
| Shelve.AfterDeletes | pygr/metabase.py:963-969 | a relation's delschema only ever removes bindings and touches no key other than schema records; on success every binding it names is unbound |
| Shelve.WithEdge | pygr/metabase.py:519-521 | the graph gains the source node and the source→target edge named by the relation; every other edge is kept |
| Shelve.ApplyWellFormed | pygr/metabase.py:514-521 | writes whose real attributes carry a targetID all take effect; afterwards every pair they bind is bound and no earlier binding is lost |
| Shelve.SetItemThenFind | pygr/metabase.py:210-230 | after `__setitem__`, find_resource gives back the stored pickle and the object's docstring |
| Shelve.SetItemThenLoad | pygr/metabase.py:210-230 | the pickle stored by `__setitem__` loads back as the object when its references resolve |
| Shelve.DelItemThenFind | pygr/metabase.py:210-244 | after `__delitem__` the ID raises KeyError, and the root names are kept |
| Shelve.SetThenDelSchema | pygr/metabase.py:257-274 | setschema then delschema of the same binding leaves the record's other rules as they were |
| Shelve.ResourceDBShelve.constructor | pygr/metabase.py:192-206 | the file is `<dbpath>/.pygr_data`; an existing file is opened as is, otherwise a new one is created; the shelve is writeable |
| Shelve.ResourceDBShelve.FindResource | pygr/metabase.py:210-216 | an absent ID raises KeyError; a found one gives its stored data, and the docstring of its info record or None |
| Shelve.ResourceDBShelve.GetSchema | pygr/metabase.py:266-268 | the ID's schema record; KeyError exactly when there is none |
| Shelve.ResourceDBShelve.SetItem | pygr/metabase.py:217-230 | performs `AfterSetItem` on the database |
| Shelve.ResourceDBShelve.DelItem | pygr/metabase.py:231-244 | performs `AfterDelItem` on the database |
| Shelve.ResourceDBShelve.Dir | pygr/metabase.py:245-256 | lists exactly the keys that start with the prefix, each once |
| Shelve.ResourceDBShelve.DirDict | pygr/metabase.py:245-256 | maps exactly the keys that start with the prefix, each to its info record if it has one |
| Shelve.ResourceDBShelve.SetSchema | pygr/metabase.py:257-265 | performs `AfterSetSchema` on the database |
| Shelve.ResourceDBShelve.DelSchema | pygr/metabase.py:269-274 | performs `AfterDelSchema` on the database |
| Shelve.ResourceDBShelve.ApplyWrites | pygr/metabase.py:514-521 | the database and graph end as the writes applied in order up to the first error, which it returns |
| Shelve.ResourceDBShelve.ApplyDeletes | pygr/metabase.py:963-969 | performs `AfterDeletes` on the database |
| Schema.DirectArgs | pygr/metabase.py:898-918 | the stored arguments are schemaDict updated by the kwargs, with a targetDB kwarg replaced by the ID string it names. targetDB never survives, and a targetID kwarg is stored as given. itemRule is set for an ItemRelation. It fails exactly when a targetDB kwarg names no resource |
| Schema.BindWrite | pygr/metabase.py:904-913 | a binding is one setschema of source.attr with its argument dict |
| Schema.EdgeWrites | pygr/metabase.py:517-521 | saveSchemaEdge stores the relation under its own name's `-schemaEdge` rule and binds nothing else, and it adds the source→target edge named by the relation |
| Schema.GraphBindings | pygr/metabase.py:935-947 | every write of save_graph_bindings sits on the graph's own ID and is well formed for setschema, and the sourceDB→targetDB edge is added |
| Schema.GraphSave | pygr/metabase.py:948-962 | save_graph_bindings is written first. Without bindAttrs nothing else is written and nothing fails. A failed inverse lookup stops the save after the graph's own bindings, before any item binding |
| Schema.ItemDeletes | pygr/metabase.py:963-969 | delschema removes at most three bindings, each named by an entry of bindAttrs |
| Schema.InverseSaveAsWritten | pygr/metabase.py:980-987 | as written, saving an InverseRelation never completes |
| Schema.InverseSave | pygr/metabase.py:980-994 | the corrected InverseRelation always saves, writing only its `-schemaEdge` rule and inverseDB bindings |
| Schema.ItemBindings | pygr/metabase.py:948-962 | every item binding carries the targetID setschema demands |
| Schema.SaveSchema | pygr/metabase.py:898-994 | every write any relation's saveSchema performs is well formed for setschema |
| Schema.ItemBindingsMatchDeletes | pygr/metabase.py:948-969 | the item bindings saveSchema writes are exactly those delschema removes |
| Schema.GraphDeleteUndoesSave | pygr/metabase.py:935-969 | a graph relation's saved bindings are exactly its own bindings on the graph ID plus the item bindings its delschema removes |
| Schema.GraphBindingsKeys | pygr/metabase.py:935-947 | save_graph_bindings writes only the graph ID's `-schemaEdge`, sourceDB, targetDB and (if any) edgeDB rules |
| Schema.InverseSaveAsWrittenFails | pygr/metabase.py:517-521 | as written, saving an InverseRelation stops with AttributeError before either inverseDB binding |
| Schema.InverseSaveBindsBothWays | pygr/metabase.py:980-994 | the corrected InverseRelation binds source.inverseDB to the target and target.inverseDB to the source; its delschema, together with the cascade over the source, removes exactly what it wrote |
| Transactions.Cleared | pygr/metabase.py:673-678 | clear_pending empties both queues, the snapshots and the last commit, and leaves the cache alone |
| Transactions.CheckDoc | pygr/metabase.py:679-686 | passes exactly when the object has a docstring that is not its class's; otherwise the ValueError |
| Transactions.AfterAdd | pygr/metabase.py:687-696 | a missing docstring fails and changes nothing. Otherwise the stamped object is queued and cached, and a cached previous value is snapshotted (without one, the snapshots are unchanged). Nothing else changes |
| Transactions.AfterQueue | pygr/metabase.py:701-704 | the relation is queued under `schemaPath.getPath(attr)`; nothing else changes and a transaction is pending |
| Transactions.AfterRollback | pygr/metabase.py:734-739 | with nothing pending it raises EmptyError. Otherwise every snapshot goes back into the cache, any other cached ID keeps its value, and the queues and snapshots are empty |
| Transactions.SaveOne | pygr/metabase.py:705-713 | it succeeds exactly when the docstring and stamp checks pass and the write succeeds. A changed `_persistent_id` raises MismatchError. Nothing is written or cached unless every check passed |
| Transactions.SaveData | pygr/metabase.py:724-725 | the data loop leaves the schema graph alone and does nothing once an error has occurred |
| Transactions.InverseOf | pygr/metabase.py:500-506 | get_pending_or_find takes a pending object ahead of a saved one; a graph that is neither pending nor among the resolvable resources given raises KeyError |
| Transactions.SaveSchemas | pygr/metabase.py:726-727 | the schema loop, with the inverse schema looked up by `InverseOf`, writes only the database and the schema graph; the shared cache is left alone |
| Transactions.SaveDataCaches | pygr/metabase.py:724-725 | after a successful data loop every visited ID is cached as its pending object and every other ID is unchanged |
| Transactions.SaveDataStores | pygr/metabase.py:724-725 | after a successful data loop every visited ID is found in the database as its own pickle and docstring |
| Transactions.RollbackKeepsNewId | pygr/metabase.py:738 | an ID that was not cached before add_resource is still cached, as the new object, after rollback |
| Transactions.RollbackRestores | pygr/metabase.py:687-696 | an ID that was cached before add_resource gets its old object back on rollback |
| Transactions.SecondAddSnapshotsFirst | pygr/metabase.py:693 | a second add_resource of one ID snapshots the first pending object, and rollback brings that object back |
| Transactions.AddKeepsConsistent | pygr/metabase.py:687-696 | add_resource keeps every held object stamped with the ID it is held under |
| Transactions.QueueKeepsConsistent | pygr/metabase.py:701-704 | queue_schema_obj keeps every queued relation under its own path |
| Transactions.RollbackKeepsConsistent | pygr/metabase.py:734-739 | rollback keeps every held object stamped with its ID |
| Transactions.SaveDataKeepsStamped | pygr/metabase.py:705-725 | a data loop over a stamped cache leaves it stamped |
| Transactions.Built | pygr/metabase.py:316 | the downloaded object is marked as saved, and is otherwise the same |
| Transactions.LocalBuildAsWritten | pygr/metabase.py:311-316 | as written the auto-download branch never succeeds, whatever the transaction state and the object |
| Transactions.LocalBuild | pygr/metabase.py:311-326 | the corrected branch adds the object with add_resource (failing only when the docstring is missing), and commits at once exactly when nothing was pending |
| Transactions.LocalBuildDiscrepancy | pygr/metabase.py:315 | as written the branch always raises AttributeError; the corrected branch queues a documented object stamped with its ID |
| Transactions.AddAll | pygr/metabase.py:697-700 | any failure of addResourceDict is the missing-docstring ValueError |
| Transactions.AddAllQueues | pygr/metabase.py:697-700 | after a successful addResourceDict, each visited ID is queued and cached as its object, stamped |
| Transactions.AddAllFails | pygr/metabase.py:697-700 | addResourceDict fails exactly when some visited object lacks its own docstring |
| Transactions.DropRule | pygr/metabase.py:755-759 | one rule of delSchema only removes bindings. On success the rule is gone, and for a `-` rule so is every binding its relation's delschema names |
| Transactions.Cascade | pygr/metabase.py:748-759 | the delSchema loop only ever removes bindings |
| Transactions.CascadeUnbinds | pygr/metabase.py:748-759 | after a successful cascade no visited rule of the resource is bound, and neither is any binding a visited relation's delschema names |
| Transactions.CascadeUndoesGraphSave | pygr/metabase.py:740-759 | when the delete cascade over a graph relation's ID succeeds, none of the bindings its saveSchema wrote is left |
| Saver.ResourceLoader.constructor | pygr/metabase.py:656-660 | both the resource cache and the schema cache start empty |
| Saver.ResourceLoader.Clear | pygr/metabase.py:661-663 | both caches are emptied |
| Saver.ResourceSaver.constructor | pygr/metabase.py:670-672 | a new saver has nothing pending and no snapshots |
| Saver.ResourceSaver.ClearPending | pygr/metabase.py:673-678 | performs `Cleared` on the saver's maps |
| Saver.ResourceSaver.AddResource | pygr/metabase.py:687-696 | performs `AfterAdd` on the saver and the shared cache; on failure nothing changes |
| Saver.ResourceSaver.AddResourceDict | pygr/metabase.py:697-700 | performs `AddAll` in the dict's visiting order; it fails exactly when some object lacks its own docstring |
| Saver.ResourceSaver.QueueSchemaObj | pygr/metabase.py:701-704 | performs `AfterQueue` |
| Saver.ResourceSaver.SaveResource | pygr/metabase.py:705-713 | performs `SaveOne` on the database and the cache |
| Saver.ResourceSaver.HasPending | pygr/metabase.py:714-716 | true exactly when either queue is non-empty |
| Saver.ResourceSaver.SaveAllData | pygr/metabase.py:724-725 | performs `SaveData` over an enumeration of the pending IDs |
| Saver.ResourceSaver.SaveAllSchemas | pygr/metabase.py:726-727 | performs `SaveSchemas` over an enumeration of the queued schemas |
| Saver.ResourceSaver.SavePending | pygr/metabase.py:717-730 | with nothing pending it raises EmptyError and changes nothing. Otherwise it saves all data, then all schemas starting from the database the data loop left. On success the queues and snapshots are empty and lastData/lastSchema are the old queues; on failure the queues are kept |
| Saver.ResourceSaver.Rollback | pygr/metabase.py:734-739 | performs `AfterRollback`; with nothing pending it raises EmptyError and changes nothing |
| Saver.ResourceSaver.DelSchema | pygr/metabase.py:748-759 | with no schema record it does nothing. Otherwise it clears the schema cache and performs `Cascade` over an enumeration of the record's rules |
| Saver.ResourceSaver.DeleteResource | pygr/metabase.py:740-747 | a missing ID raises NotFound and changes nothing. Otherwise the ID leaves the database, the cache and the data queue, and its schema cascade runs |
| Descriptors.SetClassAttr | pygr/metabase.py:389 | `setattr(targetClass, attr, descr)` changes just that attribute of just that class |
| Descriptors.MakeItemDescriptor | pygr/metabase.py:25-33 | the descriptor takes invert, getEdges and uniqueMapping from the kwargs and ignores unknown ones |
| Descriptors.AfterSpecial | pygr/metabase.py:81-105 | it succeeds exactly when the attribute is absent or already bound to the same function, and afterwards is bound to it. Binding the same function again changes nothing. A conflict raises AttributeError. No other attribute or object changes |
| Descriptors.SpecialIdempotent | pygr/metabase.py:97-100 | addSpecialMethod applied twice with the same function has the effect of once |
| Descriptors.SpecialConflict | pygr/metabase.py:101-103 | a second addSpecialMethod with a different function raises AttributeError |
| Descriptors.Install | pygr/metabase.py:383-396 | an itemRule attribute gets an ItemDescriptor on the item class, and on the item-slice class when there is one. Any other attribute gets a OneTimeDescriptor on the resource's own class |
| Descriptors.AfterBind | pygr/metabase.py:377-398 | an `_ignoreShadowAttr` attribute is skipped. An itemRule without an itemClass raises AttributeError. The descriptor is placed as `Install` says, `inverseDB` also binds `__invert__` to getInverseDB, and every other attribute and object keeps its binding |
| Descriptors.BindAll | pygr/metabase.py:367-376 | the loop of bind_schema fails only with AttributeError (an itemRule without itemClass) or TypeError (a relation object where an argument dict belongs), and touches only the resource's own classes |
| Descriptors.BindAllSkipsRuleAttrs | pygr/metabase.py:374-376 | bind_schema never binds a `-` attribute |
| Descriptors.LookupAttr | pygr/metabase.py:56-69 | a data descriptor (ItemDescriptorRW) wins over `__dict__`, and `__dict__` wins over any other descriptor |
| Descriptors.ItemTarget | pygr/metabase.py:34-45 | an object without a database `_persistent_id` raises AttributeError; with neither invert nor getEdges the target is the schema attribute itself |
| Descriptors.ItemValue | pygr/metabase.py:46-58 | None under mapAttr maps to None and is not cached, and every other result is cached. Without mapAttr/targetAttr the value is `targetDict[obj]` |
| Descriptors.Instance.constructor | pygr/metabase.py:14-20 | an instance starts with an empty `__dict__` |
| Descriptors.Mappings.constructor | pygr/metabase.py:34-45 | the mapping objects hold the given world |
| Descriptors.OneTimeGet | pygr/metabase.py:14-20 | an object without `_persistent_id` raises AttributeError; otherwise the schema attribute is returned and cached in `__dict__` (an error caches nothing) |
| Descriptors.ItemGet | pygr/metabase.py:46-58 | returns `ItemValue`'s value and caches it in `__dict__` exactly when ItemValue says so |
| Descriptors.ItemSet | pygr/metabase.py:63-69 | assignment without uniqueMapping raises PygrDataSchemaError. On success the mapping is updated and the value is cached; on failure neither changes |
| Descriptors.CachedValueShadowsDescriptor | pygr/metabase.py:56-58 | once `__dict__` holds the answer, lookups read it, unless the descriptor has `__set__` |
| Descriptors.SetThenGet | pygr/metabase.py:63-69 | what `__set__` assigns through a unique mapping, a later `__get__` reads back |
| Descriptors.TypeRegistry.constructor | pygr/metabase.py:377-398 | no class has any bound attribute yet |
| Descriptors.TypeRegistry.AddSpecialMethod | pygr/metabase.py:91-105 | performs `AfterSpecial`; on failure nothing changes |
| Descriptors.TypeRegistry.BindProperty | pygr/metabase.py:377-398 | performs `AfterBind` |
| Layers.LayerOf | pygr/metabase.py:464-488 | a path is `subdir` exactly when it has no `http://` or `mysql:` scheme and its opened path is not under home, not absolute and does not start with the current directory |
| Layers.OpenedPath | pygr/metabase.py:466-476 | an `http://` path is kept as is, and a `mysql:` path loses its scheme |
| Layers.SchemeLayers | pygr/metabase.py:466-473 | a path is remote exactly when it starts with `http://`, and MySQL exactly when it starts with `mysql:` and not `http://` |
| Layers.FileLayers | pygr/metabase.py:474-488 | a file path is `my` exactly when it is at or under home, `system` exactly when it is absolute and not under home, and `here` exactly when its first component is the current directory and neither of the above holds |
| Layers.CurdirPathIsHere | pygr/metabase.py:484-486 | a relative path starting with the current directory and a separator is `here` |
| Listing.MergeAll | pygr/metabase.py:636-645 | the merge fails only with IndexError, and every merged name starts with a letter |
| Listing.MergeFails | pygr/metabase.py:644 | the merge fails exactly when some listed name is empty |
| Listing.MergeKeys | pygr/metabase.py:636-645 | a name is merged exactly when some backend lists it and it starts with a letter |
| Listing.MergeEarliest | pygr/metabase.py:644 | a name keeps the value of its first occurrence: the earliest backend takes precedence |
| Listing.SortNames | pygr/metabase.py:648-651 | the list holds exactly the merged names, each once, sorted |
| Listing.DirDict | pygr/metabase.py:636-647 | the nested loops compute the merge of the listings in backend order, stopping at the first empty name |
| Listing.MergeListing | pygr/metabase.py:643-645 | merging one backend's listing into what the earlier backends gave is the merge of all of them in order |
| Listing.Dir | pygr/metabase.py:631-651 | dir without a layer raises IndexError when the merge does; otherwise it is the sorted list of exactly the merged names |
| Resolver.Metabase.constructor | pygr/metabase.py:454-495 | the layer is `LayerOf(dbpath)`. The database opens at the opened path and holds the file's contents (or a new shelve). It is writeable and gets a fresh saver with nothing pending |
| Resolver.DefaultPathSplits | pygr/metabase.py:532 | the default path joined by `,` splits back into its three entries |
| Resolver.CallAsWritten | pygr/metabase.py:350-356 | as written, every resolution that reaches the backends fails |
| Resolver.CallAsWrittenFails | pygr/metabase.py:550-557 | as written, a resource held by the first backend raises the unpacking ValueError, and one held only by a later backend raises KeyError |
| Resolver.AppendLayer | pygr/metabase.py:466-488 | recording a new backend keeps each layer mapped to its first backend |
| Resolver.AppendWriter | pygr/metabase.py:597-600 | recording a new backend keeps the writer as the first writeable backend |
| Resolver.MetabaseList.constructor | pygr/metabase.py:533-545 | no backend is connected, there is no writer or path string yet, and debug and download are off |
| Resolver.MetabaseList.PygrDataPath | pygr/metabase.py:558-563 | `PYGRDATAPATH` if set; otherwise the default path, which splits back into its entries with the default separator |
| Resolver.MetabaseList.Update | pygr/metabase.py:564-600 | the path string is the current one (keepCurrentPath), the given one, or the default. An unchanged string changes nothing. Otherwise the list is rebuilt as `Connect` says |
| Resolver.MetabaseList.Connect | pygr/metabase.py:576-600 | a backend is added in order exactly when its path opened; a failure outside debug is skipped, and in debug it ends the update with that error. The writer is the first writeable backend, and each layer maps to its first backend |
| Resolver.MetabaseList.Open | pygr/metabase.py:580-600 | a path that opened becomes the next backend. The list stays exactly the backends opened from the pieces so far, in order; the writer stays the first writeable backend, and each layer its first backend |
| Resolver.MetabaseList.GetWriter | pygr/metabase.py:546-549 | after loading the list, the writer if there is one, else ReadOnlyError |
| Resolver.FirstSchema | pygr/metabase.py:623-630 | getschema over the databases in order fails exactly when none holds a schema record for the ID, and then with KeyError |
| Resolver.FirstSchemaIsFirst | pygr/metabase.py:623-630 | the record getschema gives is that of the first database holding one |
| Resolver.MetabaseList.GetSchema | pygr/metabase.py:623-630 | the record of the first backend holding one, as `FirstSchema` gives it; KeyError exactly when none does |
| Resolver.MetabaseList.SchemaFor | pygr/metabase.py:401-405 | a cached schema record is used as is and nothing changes. Otherwise it is getschema's record, the first backend's, and is cached; KeyError when no backend holds one, and then nothing changes |
| Resolver.MetabaseList.GetSchemaAttr | pygr/metabase.py:399-412 | the backend list is left as it was. No record, cached or stored: KeyError and nothing changes. A record without the attribute: AttributeError, with the record now in the schema cache and the resource cache unchanged. A result comes from a rule naming a targetID string; it is the resource `__call__` resolved and cached under that ID, and a cached target is returned as it is |
| Resolver.MetabaseList.Call | pygr/metabase.py:339-366 | a cached ID is returned without touching anything. debug and download are restored on every exit. The path and backend list change only on the first connection. A result is cached and, when newly loaded, stamped with its ID |
| Resolver.MetabaseList.ResolveWith | pygr/metabase.py:345-366 | debug and download take the values asked for during the search and are put back afterwards, whatever the outcome; a result is cached under its ID and stamped with it |
| Resolver.MetabaseList.Resolve | pygr/metabase.py:353-366 | after connecting, a found resource is cached under its ID, stamped with it |
| Resolver.MetabaseList.Search | pygr/metabase.py:355-361 | if no backend holds the ID it raises NotFound and changes nothing. A result comes from the first backend holding the ID, or, only outside debug mode, from a later one; a result written in full there keeps its identity. A loaded resource is cached and stamped |
| Resolver.MetabaseList.TryBackend | pygr/metabase.py:355-361 | a backend without the ID is passed over and nothing changes. A backend holding it ends the search in debug mode. A result comes from this backend's entry, keeps its identity when written in full, and is cached and stamped |
| Resolver.MetabaseList.Load | pygr/metabase.py:307-331 | a non-pickle entry is refused. A loaded object carries the stored docstring and is stamped with its ID and cached. An auto-built download is recorded on the writer and marked as saved |
| Resolver.MetabaseList.Register | pygr/metabase.py:311-328 | an ordinary object is only stamped with its ID and nothing changes. An auto-built download needs a writer (AttributeError otherwise). The writer's saver takes the `Transactions.LocalBuild` step: a download without its own docstring is refused; with a transaction pending it only joins the queue; otherwise it is committed, leaving nothing pending and the download as the last commit |
| Resolver.MetabaseList.DecodeM | pygr/metabase.py:301-306 | a token not in `PYGR_ID:` form raises UnpicklingError; a cached reference gives the cached object; a resolved reference is the instance cached under the ID its token names; an object written in full keeps its head and its number of parts |
| Resolver.MetabaseList.BindSchema | pygr/metabase.py:367-376 | with no schema record anywhere nothing changes. Otherwise getschema's record (`FirstSchema`, the first backend's) is cached and bound attribute by attribute, as `BindAll` says, over an enumeration of it |
| Resolver.MetabaseList.BindRules | pygr/metabase.py:374-376 | the attributes of a schema record are bound one by one as `BindAll` says, `-` attributes skipped, and a run without error visits every attribute once |
| Resolver.MetabaseList.DirIn | pygr/metabase.py:631-635 | dir for a named layer (through getLayer, which loads the list first) lists exactly the layer database's keys with the prefix; a missing layer raises KeyError |

## Left out

- `ResourceServer` is not part of this model. It is XML-RPC serving with a foreign class table.
- `ResourceDBClient` and `ResourceDBMySQL` are not part of this model. Their code is not in the
  repository's file. Every backend is modelled as an always-writeable shelve, and the remote and
  MySQL paths differ only in their layer and the path they open.
- Shelve file handling (`anydbm`, `reopen`) and the `0root` read at open time
  (`save_root_names`) are left out: the database is an in-memory map.
- The pickle byte format, `StringIO` and `get_info_dict` are left out. The stream is a token tree,
  and the info record keeps only `__doc__`, because the timestamp, size and `USER` are I/O.
- The `ResourceSaver.__del__` auto-commit is left out: it depends on garbage collection.
- Printing, warnings and tracebacks are left out.
- `Metabase.dir` returns None and `resourceDBiter` is never defined, so `MetabaseList.dir` without
  a layer is modelled over an abstract sequence of per-backend listings (`Listing.Dir`).
- `getLayer(None)` (the first metabase) is left out, and so are `registerServer` and
  `list_pending`. `get_pending_or_find` is `Transactions.InverseOf`: the pending queue, then a
  given map `found` in place of resolution.
- The MetabaseBase forwarders (`add_resource`, `commit`, `rollback`, `queue_schema_obj`,
  `add_schema`, `clear_cache`) are left out. They call the writer's saver, which is modelled.
- `ResourcePath.__getattr__/__setattr__/__delattr__` and `SchemaPath` are left out; only
  `getPath` is modelled. The root-name bookkeeping of `__setitem__` is modelled in
  `Shelve.AfterSetItem`.
- `get_bound_subclass` and `new.instancemethod` are modelled as per-class attribute tables keyed by
  the resource's identity and a slot (its own class, itemClass, itemSliceClass).
- Aliasing is not captured: objects are values. One Python object held under two IDs, or mutated
  after caching, is not modelled. A top-level reference that `load` resolves from the cache gets
  its docstring and `_persistent_id` set on a copy, not on the cached object.
- Transactions.SaveSchemas: the `self(graphDB)` fallback of `get_pending_or_find`
  (pygr/metabase.py:505) is not modelled. The resources it would resolve are a given map `found`.
  In the source that fallback can load the graph, cache it in the shared loader, bind its schema
  into the schema cache, and raise the KeyError of `rdb.find_resource`. The model raises that
  KeyError but performs none of the caching or binding, so "the cache is left alone" holds for
  the model only.
- Saver.ResourceSaver.SaveAllSchemas: the same fallback is not modelled. Its `modifies rdb` leaves
  out the writes the fallback makes to the shared cache and the schema cache.
- Saver.ResourceSaver.SavePending: the same fallback is not modelled. Its clauses that the cache
  equals the loops' cache and that the schema cache is unchanged do not cover a graph the
  fallback loads.
- Shelve.AfterSetItem: the ID `0root` is not modelled as the source handles it. The source stores
  the pickle string under `0root` and then reads it back as the root record
  (pygr/metabase.py:225-228). Its `not in` is then a substring test on that string, and
  `d[root]=None` raises TypeError on a string. The model instead overwrites the stored pickle with
  a root record naming `0root`, and its ensures about the stored pickle and the root names exclude
  that ID.
- Descriptors.OneTimeGet: the target `get_schema_attr` returns (pygr/metabase.py:18) is a
  parameter. It is not linked to `Resolver.MetabaseList.GetSchemaAttr`, which models that call
  on its own.
- Dict iteration order is not fixed: each loop over a dict takes its order from a ghost output
  shown to enumerate the keys.
- Resolver.MetabaseList.Search: when a backend holding the ID fails to load it in non-debug mode,
  the contract says only that a later backend supplied the result, not which one.
- Resolver.MetabaseList.Load: the contract does not restate the commit that an auto-built
  download triggers when nothing was pending. That commit is `Saver.ResourceSaver.SavePending`
  with an empty `found` map, and its effect is proved there.
- Resolver.MetabaseList.Register: the contract does not restate what the commit of an auto-built
  download writes to the database; that is `Saver.ResourceSaver.SavePending`.
- Resolver.MetabaseList.DecodeM: a reference fetched from a backend at depth 0 raises
  `RecursionLimit`. This stands in for Python's recursion limit, not for any chosen depth.
- Resolver.MetabaseList.Update: only a one-character separator is modelled.
- Schema.DirectArgs: `getID` is not in the file. It is modelled as the identity on ID strings,
  and a flag value given as targetDB raises AttributeError. A targetID kwarg is stored as given,
  without getID, as the source does.
- Descriptors.ItemValue: `~m`, `m.edges`, `m[k]` and `getattr` are given maps (`World`) rather
  than computed by the mapping classes, which are not part of this model.
- A `-` rule whose value is an argument dict, or a real attribute whose rule is a relation, gives an
  error (AttributeError or TypeError) instead of whatever Python would do with the foreign object.

## Findings

| source | as written | input that shows it | evidently intended | confidence | as-written member | corrected member |
|---|---|---|---|---|---|---|
| pygr/metabase.py:315 | `load` calls `saver.addResource`, but ResourceSaver defines only `add_resource` | any stored resource whose `_saveLocalBuild` is true | queue the downloaded object with `add_resource`, then commit when nothing else was pending | high, not executed | Transactions.LocalBuildAsWritten, shown by Transactions.LocalBuildDiscrepancy | Transactions.LocalBuild, proved by Transactions.LocalBuildDiscrepancy and used by Resolver.MetabaseList.Register |
| pygr/metabase.py:355 | `__call__` unpacks what `MetabaseList.find_resource` yields, which is each backend's `find_resource` generator (pygr/metabase.py:499, 554) rather than a `(data, docstring)` pair | two backends, the ID stored in the first: the unpacking raises ValueError; stored only in the second: KeyError leaks from the first | try each backend's lookup in order and skip one without the ID | high, not executed | Resolver.CallAsWritten, shown by Resolver.CallAsWrittenFails | Resolver.MetabaseList.Search, used by Resolver.MetabaseList.Resolve |
| pygr/metabase.py:517-521 | `saveSchemaEdge` reads `schema.sourceDB`, which an InverseRelation lacks | `InverseRelation(t).saveSchema(path, attr, mdb)` for any target | record the inverse relation's edge and bind both inverseDB attributes | medium, not executed | Schema.InverseSaveAsWritten, shown by Schema.InverseSaveAsWrittenFails | Schema.InverseSave, proved by Schema.InverseSaveBindsBothWays and used by Schema.SaveSchema |
