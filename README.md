# soba class-metadata engine, modelled in Dafny

This project models `soba/core.js`, the class-metadata engine of soba. Classes are
defined by name and version. Each class is described by a frozen `ClassMetadata`
record, which holds:

- its linearised chain of represented classes;
- its own extensions;
- the extensions merged along the chain;
- its attributes, after the extensions' `store` transforms have been applied.

`Basic` builds an instance. It seeds a write-once shared space and sorts the merged
extensions by type. It then runs four phases: preInit, shared modifier,
per-inheritance and complete trigger. The engine defines the class `inheritable`,
whose five extensions give classes protected and static spaces, per-class
constructors, abstract classes and singletons. It defines `objectmanager`, a
singleton inheriting `inheritable`, and returns an instance of it.

Modules, one concept each:

| file | module | what it is |
|---|---|---|
| values.dfy | `JsValues` | JS values, truthiness, `String(v)`, the engine's errors, `Result` |
| enums.dfy | `Enums` | `Enum` and the shared counter `enumManager`, the four extension types |
| classids.dfy | `ClassIds` | `createClassId` and its inverse on numeric versions |
| metadata.dfy | `Metadata` | `ClassExtension`, the own-extension, merge and `store` loops |
| chain.dfy | `Inheritance` | `getInheritanceChain`, as the post-order walk over the table |
| registry.dfy | `Registry` | `ClassMetadata` as a whole, and the `MetadataManager` class and its table |
| static_store.dfy | `StaticStore` | `inheritableStaticDataStorage`: singletons and lazy static spaces |
| basic.dfy | `Construction` | `Basic`: `addToShared`, the type buckets, the four phases |
| builtins.dfy | `Builtins` | `inheritable`, `objectmanager` and the engine's start-up |

How the model is built:

- **Pure parts.** Every loop of the source has a specification function in tail
  form, `XFrom(..., i, acc)`. The imperative method running that loop keeps the
  invariant `XFrom(0, init) == XFrom(i, current)`. Its `ensures` ties its result to
  the specification function, and the lemmas state what the source promises about
  that function.
- **State.** `MetadataManager`, `StaticDataStorage` and `EnumManager` are classes.
  Their methods update the fields that the JS closures update.
- **Object identity.** Extension objects are known by a serial that the registry
  hands out. Other objects are known by a reference number that the storage
  object hands out.
- **Acyclic inheritance.** The source has no cycle check: a parent must already be
  stored when its child is defined. The model therefore keeps a ghost rank as
  part of the registry's invariant, and the chain walk is shown to terminate
  because ranks decrease.
- **Callbacks.** The user callbacks (`create` bodies, other extensions'
  implementations and stores) are an opaque `Host` record of functions. The
  engine's own closures are modelled exactly.
- **Observable behaviour.** The order of the observable steps is an event trace.

The model follows the code in these points, where its behaviour is easy to misread:

- The per-inheritance phase runs every per-inheritance extension of the *merged*
  list for each represented class. It does not run only that class's own
  extensions (core.js:168-172).
- The value returned by a per-inheritance callback is ignored. It is not merged
  into the shared space.
- `addToShared` throws only on a key whose current value is truthy. The shared
  space's properties are non-writable, so defining a key holding a falsy value
  again with a different value throws too; with the same value it changes
  nothing. Contributing the same key twice is therefore not always an error.
- There is no cycle detection, so there is no cycle error. Acyclicity is an
  invariant of the table.
- A result other than `undefined` from a preInit ends construction. Under `new`,
  only an object result replaces the instance. A primitive result is dropped, and
  `new` yields the half-built instance.
- The static space of the `static` extension is keyed by the class being
  instantiated, not by the class declaring the extension.
- `initValues` defaults to a new empty object only when the argument is
  `undefined`.
- `create` writes `shared.protected[name] = {}`. When the protected space is a
  primitive, this assignment is silently lost and the constructor still runs.
  When it is `undefined` or `null`, it throws.

## Model

| member | source | states |
|---|---|---|
| JsValues.NumberTextHasNoColon | soba/core.js:29 | the text of a numeric version never contains the `:` that separates class ids |
| JsValues.NumberTextInjective | soba/core.js:29 | `String(n)` on integers is injective |
| Enums.FirstNonString | soba/core.js:12-13 | the position where `Enum` throws: every argument before it is a string, the one at it is not |
| Enums.EnumTableShape | soba/core.js:11-17 | the enum object's keys are exactly the names given, each numbered from the counter's range at the position of its last occurrence |
| Enums.EnumTableInjective | soba/core.js:11-17 | distinct enum names get distinct numbers |
| Enums.BasicExtensionTypes | soba/core.js:20 | `basicExtensionTypes`, made on the fresh counter, is preInit 1, sharedModifier 2, perInheritance 3, completeTrigger 4 |
| Enums.EnumManager.constructor | soba/core.js:4-5 | the counter starts at 1 |
| Enums.EnumManager.Next | soba/core.js:6-8 | returns the counter and advances it by one |
| Enums.EnumManager.Enum | soba/core.js:11-17 | a non-string argument throws after the names before it used up their numbers; otherwise the result is the enum table and the counter advanced by the number of names |
| ClassIds.CreateClassId | soba/core.js:26-30 | fails on a falsy name (checked first) or a falsy version; otherwise the id is the name text, `:`, the version text |
| ClassIds.SplitCreateClassId | soba/core.js:26-30 | with a numeric version, splitting the id at its last colon gives back the name text and the version text |
| ClassIds.ClassIdInjective | soba/core.js:26-30 | two numeric-version ids are equal exactly when their name texts and versions are |
| Metadata.ClassExtension | soba/core.js:32-42 | succeeds exactly on a valid record; each failure is the one for the first failing check in source order; on success the fields are copied |
| Metadata.OwnExtensionsShape | soba/core.js:66-68 | the own extensions succeed exactly when every declaration is valid, and are then the declarations validated in order with consecutive serials |
| Metadata.BuildOwnExtensions | soba/core.js:62-68 | the own-extension loop computes the specification of the own extensions |
| Metadata.MergeFrom | soba/core.js:71-78 | a merge failure is always an extension-name conflict |
| Metadata.FirstSeenElements | soba/core.js:73 | the first-seen reference list keeps exactly the extension objects of the input |
| Metadata.MergeKeepsFirstSeen | soba/core.js:71-78 | when no two distinct objects share a name, the merge gives the first occurrence of each object in chain order |
| Metadata.MergeSound | soba/core.js:71-78 | a merged list has unique names and unique objects, keeps every object it was given, and invents none |
| Metadata.MergeCharacterized | soba/core.js:71-78 | the merge succeeds exactly when no two distinct objects share a name, and is then the first-seen list (diamonds are de-duplicated) |
| Metadata.MergedHasNoClash | soba/core.js:74 | a successful merge implies no name is shared by two distinct objects |
| Metadata.MergeDistinct | soba/core.js:71-78 | on lists with distinct objects and names the merge is plain concatenation |
| Metadata.MergeExtensions | soba/core.js:71-78 | the merge loop with its two arrays computes the merge specification |
| Metadata.StoredShape | soba/core.js:80-82 | the stored attributes are exactly those named by an extension with a store and given (not undefined), each holding the transform of the given value |
| Metadata.ApplyStores | soba/core.js:80-82 | the `store` loop computes the specification of the stored attributes |
| Inheritance.VisitFacts | soba/core.js:113-122 | the walk from a stored class never fails; it extends `found`, keeps it repeat-free with parents before children, lists the class and adds only lower-ranked classes |
| Inheritance.VisitParentsFacts | soba/core.js:115-120 | the loop over `inherits` succeeds exactly when every parent resolves to a stored class, and then lists every parent |
| Inheritance.InheritanceChainFacts | soba/core.js:111-126 | the chain exists exactly when every parent is stored; it is repeat-free, lists each class after its parents, lists the class's own parents, and ends with the class |
| Registry.BuildRest | soba/core.js:62-84 | the three loops after the chain compute the specification of the rest of the record |
| Registry.BuildMetaFacts | soba/core.js:44-85 | a built record has the created id, a chain that fits the table, the validated own extensions numbered from the counter, the merged extensions (unique names and objects) and exactly the stored attributes its stores apply to |
| Registry.ChainListsFollow | soba/core.js:66-67 | the own extensions are new objects: with the table's objects all older than the counter, every object along the chain is identified by its serial |
| Registry.BuildPartsMerge | soba/core.js:62-84 | after the chain, the build fails with an extension conflict exactly when two distinct objects along the chain share a name; otherwise its extensions are the first-seen objects, the class's own ones among them, and it succeeds exactly when the stores do |
| Registry.BuildMetaMerge | soba/core.js:44-84 | the same for a whole build over a table whose extension objects are all older than the counter |
| Registry.BuiltFitsTable | soba/core.js:44-91 | a built record fits the table it was built from, and its own extension objects are distinct and new to the table |
| Registry.BuildMetaErrors | soba/core.js:44-59 | the failures in the order the constructor meets them: name, version, attributes, `extends`, an unresolved parent |
| Inheritance.VisitParentsFirstError | soba/core.js:115-120 | the loop over `inherits` fails with the error of the first parent that does not resolve: its class-id error, or "not defined" for an id that is not stored |
| Inheritance.InheritanceChainFirstError | soba/core.js:111-126 | the chain fails with the error of the first unresolved parent |
| Registry.BuildMetaParentError | soba/core.js:44-59 | once name, version, attributes and `extends` pass, the build fails with the error of the first unresolved parent, before any extension is looked at |
| Registry.InsertKeepsValid | soba/core.js:87-91 | storing a fitting record under a new id keeps the table ranked (acyclic) with good chains |
| Registry.InsertKeepsObjects | soba/core.js:87-91 | storing a record with new extension objects keeps every stored object recorded under its serial, all older than the counter |
| Registry.MetadataManager.constructor | soba/core.js:22-24 | the table starts empty and valid |
| Registry.MetadataManager.MergeOnDefine | soba/core.js:71-78 | for every class the registry goes on to build, the merge fails with an extension conflict exactly when two distinct objects along its chain share a name, and otherwise keeps the class's own extensions |
| Registry.MetadataManager.GetClassMetadataByClassId | soba/core.js:97-100 | succeeds exactly on a stored id, with its record; otherwise "not defined" |
| Registry.MetadataManager.GetClassMetadata | soba/core.js:102-109 | a record is returned as is; a string with a version is looked up by the created id; a string alone is taken as an id; anything else fails |
| Registry.MetadataManager.ParentLookup | soba/core.js:116-118 | looking up an `inherits` entry finds exactly the stored class the chain walk resolves it to |
| Registry.MetadataManager.FindInheritedMetadata | soba/core.js:113-122 | the recursive walk computes the chain-walk specification |
| Registry.MetadataManager.FindInheritedParents | soba/core.js:115-120 | the loop over `inherits` computes the chain-walk specification |
| Registry.MetadataManager.GetInheritanceChain | soba/core.js:111-126 | computes the chain specification |
| Registry.MetadataManager.NewClassMetadata | soba/core.js:44-85 | computes the record specification; once the chain is built, the counter advances by one serial per extension declaration, and otherwise stays |
| Registry.MetadataManager.Register | soba/core.js:87-91 | a stored id fails and leaves the table as it was; otherwise the record is stored, found by a lookup afterwards, and every other lookup is unchanged |
| Registry.MetadataManager.Insert | soba/core.js:90 | the record is added under its id and the invariant is kept |
| Registry.MetadataManager.Define | soba/core.js:93-95 | build failures pass through with the table unchanged; a duplicate id fails with the table unchanged; otherwise the built record is added; the counter advances as in `NewClassMetadata`, and the invariant (every stored extension object older than the counter) is kept |
| StaticStore.WithSingleton | soba/core.js:189-192 | fails when the class already has a truthy singleton; otherwise records the instance and changes no other entry |
| StaticStore.StaticSpace | soba/core.js:196-199 | returns an existing truthy space unchanged; otherwise creates and records a new one; other classes' spaces are kept |
| StaticStore.StaticSpaceStable | soba/core.js:196-199 | a second call for the same class returns the same space and changes nothing |
| StaticStore.StaticSpacesDistinct | soba/core.js:196-199 | a newly created space differs from every other class's space |
| StaticStore.StaticDataStorage.constructor | soba/core.js:184-187 | both tables start empty |
| StaticStore.StaticDataStorage.RegisterSingleton | soba/core.js:189-192 | the error leaves the state unchanged; success gives the state the specification describes |
| StaticStore.StaticDataStorage.GetSingleton | soba/core.js:193-195 | the registered instance, or undefined |
| StaticStore.StaticDataStorage.GetStaticSpace | soba/core.js:196-199 | result and new state are those of the static-space specification |
| Construction.AddedToSharedKeeps | soba/core.js:137-142 | `addToShared` never changes an existing key, adds every given key and nothing else |
| Construction.AddedToSharedAccepts | soba/core.js:137-142 | with distinct keys, it succeeds exactly when each key is absent or holds the same falsy value, and then maps each key to its value |
| Construction.AddToShared | soba/core.js:137-142 | the loop computes the specification |
| Construction.FirstUnknown | soba/core.js:151-153 | the first extension of an unknown type, where pushing throws |
| Construction.BucketFacts | soba/core.js:151-153 | a bucket holds exactly the extensions of its type, never more often than in the list |
| Construction.BucketStep | soba/core.js:151-152 | each extension is pushed to the end of its type's bucket |
| Construction.BucketsCover | soba/core.js:147-153 | with every type known, the four buckets together are a permutation of the merged list |
| Construction.PartitionFacts | soba/core.js:147-153 | sorting succeeds exactly when every type is known, and then loses and invents nothing and puts each extension in its type's bucket |
| Construction.SortByType | soba/core.js:147-153 | the bucket loop computes the sorting specification |
| Construction.InitValue | soba/core.js:130 | an undefined argument becomes a fresh empty object; any other is kept |
| Construction.StoredSelfNamed | soba/core.js:121 | every represented class of a stored record is stored under its own id |
| Construction.CallPreInitGrows | soba/core.js:156-157 | a preInit call only adds to the singleton and static tables |
| Construction.CallSharedModifierGrows | soba/core.js:163 | a shared-modifier call only adds to the tables |
| Construction.PreInitsFacts | soba/core.js:156-159 | the engine adds nothing to the shared space in the preInit loop, which records only preInit calls and, when it runs through, calls every preInit in merged order |
| Construction.SharedFacts | soba/core.js:162-165 | the shared-modifier loop never interrupts and only extends the shared space and the tables |
| Construction.SharedTrace | soba/core.js:162-165 | when it runs through, every shared modifier was called in merged order |
| Construction.CallPerInheritanceFacts | soba/core.js:170 | the engine adds nothing to the shared space in a per-inheritance call, and the tables stay as they were |
| Construction.PerExtFacts | soba/core.js:169-171 | the inner loop calls every per-inheritance extension in merged order for the class |
| Construction.PerClassFacts | soba/core.js:168-172 | the engine adds nothing to the shared space in the per-inheritance phase, and the tables stay as they were |
| Construction.PerClassCalls | soba/core.js:168-172 | when it runs through, it has called the per-inheritance extensions for each represented class in chain order |
| Construction.CompletesFacts | soba/core.js:175-178 | the complete triggers never interrupt and are called from the last to the first; the engine adds nothing to the shared space in this phase, and the tables stay as they were |
| Construction.SeedAccepted | soba/core.js:144 | seeding always succeeds, with `classMeta`, `self` and `initValues` |
| Construction.InstantiateOrder | soba/core.js:155-178 | a construction that runs through calls all preInits, then all shared modifiers, then per-inheritance per class in chain order, then complete triggers in reverse |
| Construction.PreInitsStop | soba/core.js:156-159 | an interrupted preInit loop stopped at the first preInit whose result was not `undefined`: every earlier one was called and ran through, that result is the status, and no later preInit was called |
| Construction.InstantiateInterrupted | soba/core.js:156-159 | an interrupting preInit means only preInits ran, the engine has added nothing to the shared space beyond the seed, and construction stopped at the first preInit of the merged bucket whose result was not `undefined`, with that result as its status |
| Construction.InstantiateKeeps | soba/core.js:130-179 | whatever happens, the seeded keys keep their values and the tables only grow |
| Construction.SkipAbstract | soba/core.js:233-235 | for a class not marked abstract, the `abstract` preInits do nothing but get called |
| Construction.AbstractRefused | soba/core.js:228-236 | a class marked abstract whose first preInit in merged order is `abstract` cannot be instantiated |
| Construction.SingletonRedirects | soba/core.js:240-245 | for a class not marked abstract whose preInits before `singleton` are all `abstract` ones: with an instance registered, construction stops at `singleton` and yields that instance |
| Construction.SingletonRegisters | soba/core.js:242-246 | for such a class without an instance, the instance being built is registered, whatever happens after |
| Construction.SingletonReuse | soba/core.js:237-249 | for such a singleton class, after one instance `new` gives back the first |
| Construction.StaticSpaceShared | soba/core.js:211-216 | every later `static` call for the class returns the same space |
| Construction.CreatesEveryClass | soba/core.js:217-227 | with `create` as the only per-inheritance extension and an object protected space, the phase gives each represented class in chain order its namespace and then runs its constructor |
| Construction.CreateNeedsProtected | soba/core.js:224 | without a protected space, `create` throws first |
| Construction.CallPreInitOn | soba/core.js:157 | one preInit call over the storage object is the specification's call |
| Construction.RunPreInits | soba/core.js:156-159 | the preInit loop computes the phase specification |
| Construction.CallSharedModifierOn | soba/core.js:163 | one shared-modifier call over the storage object is the specification's call |
| Construction.RunSharedModifiers | soba/core.js:162-165 | the shared-modifier loop computes the phase specification |
| Construction.RunPerInheritance | soba/core.js:168-172 | the nested loops compute the phase specification |
| Construction.RunCompletes | soba/core.js:175-178 | the count-down loop computes the phase specification |
| Construction.Basic | soba/core.js:130-179 | status, instance, shared space, calls and new tables are those of the construction specification |
| Builtins.InheritableExtensionsDistinct | soba/core.js:204-249 | `inheritable`'s five extensions have distinct objects and names |
| Builtins.InheritableOwn | soba/core.js:204-249 | all five declarations are valid extension records |
| Builtins.InheritableChain | soba/core.js:111-126 | with nothing stored, `inheritable`'s chain is the class alone |
| Builtins.InheritableMerged | soba/core.js:71-78 | `inheritable` merges to its five extensions |
| Builtins.InheritableStored | soba/core.js:218-221 | only `create`'s store applies to `inheritable`, and keeps its constructor |
| Builtins.InheritableBuilt | soba/core.js:203-256 | defining `inheritable` in the empty table builds exactly its record |
| Builtins.ObjectManagerChain | soba/core.js:258-259 | `objectmanager`'s chain is `inheritable`, then itself |
| Builtins.ObjectManagerMerged | soba/core.js:258-264 | `objectmanager` gets exactly `inheritable`'s extensions |
| Builtins.ObjectManagerStored | soba/core.js:258-264 | its `singleton` flag is stored as `true` and its constructor kept |
| Builtins.ObjectManagerBuilt | soba/core.js:258-264 | defining `objectmanager` after `inheritable` builds exactly its record |
| Builtins.InheritableBucket | soba/core.js:147-153 | the buckets of `inheritable`'s extensions: `abstract`, `singleton`; `protected`, `static`; `create`; none |
| Builtins.InheritablePartition | soba/core.js:147-153 | sorting succeeds with those buckets, `singleton` after the `abstract` preInit |
| Builtins.ObjectManagerFlags | soba/core.js:258-262 | `objectmanager` is a singleton, not abstract, with its own constructor |
| Builtins.ObjectManagerPreInits | soba/core.js:228-249 | a first `objectmanager` passes `abstract` and is registered by `singleton` |
| Builtins.ObjectManagerShared | soba/core.js:205-216 | `protected` adds a new object, `static` the class's static space |
| Builtins.ObjectManagerCreates | soba/core.js:217-227 | both constructors run, base class first, each after its namespace |
| Builtins.ObjectManagerPhases | soba/core.js:155-178 | the four phases of a first `objectmanager`, step by step |
| Builtins.ObjectManagerInstance | soba/core.js:265 | the instance the engine returns: built through, registered as the singleton, with both spaces, after the calls in the engine's order |
| Builtins.ObjectManagerUnique | soba/core.js:237-249 | a second `objectmanager` gives back the first |
| Builtins.AbstractClassRefused | soba/core.js:228-236 | a class with `inheritable`'s extensions stored as abstract cannot be instantiated |
| Builtins.FlagStores | soba/core.js:229-241 | the `abstract` and `singleton` stores are `!!value`, and applying one again changes nothing |
| Builtins.CreateStoreChecks | soba/core.js:218-221 | the `create` store accepts exactly a function, null or undefined, and keeps it |
| Builtins.SobaInstance | soba/core.js:180-266 | the start-up defines both classes and builds the instance the construction specification describes; with normal constructors it runs through with the engine's calls |

## Left out

- soba/node.js is not part of this model. It is host glue around `vm`, `fs` and
  `require`, and it calls an API that core.js does not expose.
- `console.log` in the constructors of `inheritable` and `objectmanager`, and at the
  end of the file: output only.
- The text of error messages, including the `JSON.stringify` of the arguments at
  core.js:108. Errors are the constructors of the `Error` datatype.
- `Object.freeze` and `Object.defineProperty`:
  - Records are immutable values.
  - The write-once shared space is modelled by `Accepts`.
  - The freeze of each `create` namespace is left out, because nothing in the core
    writes to a namespace afterwards.
- `apply`/`this` binding and the implicit global `ext` (core.js:72): all the model
  needs is which callback runs on what.
- The bodies of user callbacks are the functions of the opaque `Host` record:
  - `create` constructors;
  - foreign extensions' implementations and stores.
  A callback can return or throw; what it does inside is not modelled.
- The engine's own closures are modelled only in the phase that `inheritable`
  declares them for. Placed in another class's extension of a different type, they
  go to the `Host` record.
- The number of arguments a callback receives: only the class ids it acts on are
  passed.
- The enumeration order of `for ... in` over attribute objects:
  - Declarations and `inherits` are sequences in their given order.
  - JS would list integer-like keys first.
- `inherits`, `extends` and extension records that are not objects. The payload is
  a typed record, so `attributes.inherits` is always a list of pairs.
- The `instanceof ClassMetadata` check of `register` (core.js:88) and the metadata
  object branch of `getClassMetadata`. A record built by `ClassMetadata` is what
  `Register` requires (`Fits`); `ClassArg.MetaArg` stands for such an object.
- Numbers are integers, so NaN and fractional versions do not arise. `String` of a
  function is the placeholder text `function`.
- Registry.MetadataManager.Define: does not state the new rank or the new table of
  extension objects. Both are ghost state that only the invariant uses.
- Registry.MetadataManager.Register: requires, besides `Fits`, that the record's own
  extension objects are new to the table (`FreshExtensions`). Every record that
  `new ClassMetadata` builds has them, as `BuiltFitsTable` states.
- JS objects used as dictionaries see the keys they inherit from `Object.prototype`.
  The model assumes that no class id, `inherits` key or shared key is such a name
  (`toString`, `constructor`, `hasOwnProperty` and the like). With one,
  `getClassMetadataByClassId` and the `inherits` lookup would find an inherited
  function, and `addToShared` would refuse the key as already present.
- Stores write their results onto the metadata object itself (core.js:81). The model
  keeps them in a separate `stored` map. It assumes no extension is named after a
  field of the record (`classId`, `name`, `version`, `extends`, `inherits`,
  `representedClasses`, `ownExtensions`, `extensions`). With such a name, the store
  would replace that field, so `register` would file the class under another id or
  `create` would name the namespace differently. The attribute read for such a name
  is then also the payload's own field.
- Callbacks are functions of the callback and the class ids they act on. They are
  assumed not to write to the shared object, and to return the same result for the
  same callback and class ids. The facts that a phase leaves the shared space alone
  are about what the engine adds to it.
- The instance's `metadata` property is not modelled as a field of the instance.
  The engine's closures that read `self.metadata` (soba/core.js:190, 197, 234 and
  243-246) read the class record `meta` instead. soba/core.js:132 defines that
  property as non-writable and non-configurable, holding the class record the
  instance was built from, so the two are the same value.
- The `extends` attribute is carried in the record, but nothing in the core reads it.
