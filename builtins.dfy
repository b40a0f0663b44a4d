/**
 * The classes the engine defines itself: `inheritable`, whose five
 * extensions give every class inheriting it a protected space, a static
 * space, per-class constructors, abstract classes and singletons; and
 * `objectmanager`, a singleton inheriting it, of which the engine builds
 * the instance it returns.
 */
module Builtins {
  import opened JsValues
  import opened Enums
  import opened ClassIds
  import opened Metadata
  import opened Inheritance
  import opened Registry
  import opened StaticStore
  import opened Construction

  /** The `extensions` attribute of `inheritable`, in declaration order. */
  const InheritableDecls: seq<(string, ExtensionMeta)> := [
    ("protected", ExtensionMeta(Fn(Native(ProtectedImpl)), Undefined, Num(SharedModifier))),
    ("static", ExtensionMeta(Fn(Native(StaticImpl)), Undefined, Num(SharedModifier))),
    ("create", ExtensionMeta(Fn(Native(CreateImpl)), Fn(Native(CreateStore)), Num(PerInheritance))),
    ("abstract", ExtensionMeta(Fn(Native(AbstractImpl)), Fn(Native(AbstractStore)), Num(PreInit))),
    ("singleton", ExtensionMeta(Fn(Native(SingletonImpl)), Fn(Native(SingletonStore)), Num(PreInit)))]

  /** `inheritable`'s attributes; `create` is its own constructor, a user callback. */
  function InheritableAttributes(create: FnRef): Attributes {
    Attributes(Undefined, [], InheritableDecls, map["create" := Fn(create)])
  }

  /** `objectmanager`'s attributes: it inherits `inheritable` version 1 and is a singleton. */
  function ObjectManagerAttributes(create: FnRef): Attributes {
    Attributes(Undefined, [("inheritable", Num(1))], [], map["singleton" := Bool(true), "create" := Fn(create)])
  }

  const InheritableId: string := "inheritable:1"
  const ObjectManagerId: string := "objectmanager:1"

  /** The extension objects of `inheritable`, numbered from `base`. */
  function InheritableExtensions(base: nat): seq<Extension> {
    [Extension(base, "protected", Undefined, Native(ProtectedImpl), SharedModifier),
     Extension(base + 1, "static", Undefined, Native(StaticImpl), SharedModifier),
     Extension(base + 2, "create", Fn(Native(CreateStore)), Native(CreateImpl), PerInheritance),
     Extension(base + 3, "abstract", Fn(Native(AbstractStore)), Native(AbstractImpl), PreInit),
     Extension(base + 4, "singleton", Fn(Native(SingletonStore)), Native(SingletonImpl), PreInit)]
  }

  /** The metadata `inheritable` is registered with. */
  function InheritableMeta(base: nat, create: FnRef): ClassMeta {
    ClassMeta(InheritableId, Str("inheritable"), Num(1), Undefined, [], [InheritableId],
              InheritableExtensions(base), InheritableExtensions(base), map["create" := Fn(create)])
  }

  /** The metadata `objectmanager` is registered with: `inheritable`'s extensions, a stored `singleton` flag. */
  function ObjectManagerMeta(base: nat, create: FnRef): ClassMeta {
    ClassMeta(ObjectManagerId, Str("objectmanager"), Num(1), Undefined, [("inheritable", Num(1))],
              [InheritableId, ObjectManagerId], [], InheritableExtensions(base),
              map["singleton" := Bool(true), "create" := Fn(create)])
  }

  lemma OneText()
    ensures ToStr(Num(1)) == "1"
  {
    assert Digits(1) == [DigitChar(1)];
  }

  lemma InheritableExtensionsDistinct(base: nat)
    ensures UniqueSerials(InheritableExtensions(base)) && UniqueNames(InheritableExtensions(base))
  {
  }

  lemma InheritableIdBuilt()
    ensures CreateClassId(Str("inheritable"), Num(1)) == Ok(InheritableId)
    ensures CreateClassId(Str("objectmanager"), Num(1)) == Ok(ObjectManagerId)
  {
    OneText();
    assert ToStr(Str("inheritable")) == "inheritable";
    assert ToStr(Str("objectmanager")) == "objectmanager";
    assert "inheritable" + ":" + "1" == InheritableId;
    assert "objectmanager" + ":" + "1" == ObjectManagerId;
  }

  /** `inheritable`'s five declarations are all valid and give its extension objects. */
  lemma InheritableOwn(base: nat)
    ensures OwnExtensionsFrom(base, InheritableDecls, 0, []) == Ok(InheritableExtensions(base))
  {
    var d := InheritableDecls;
    var exts := InheritableExtensions(base);
    forall k | 0 <= k < 5 ensures ClassExtension(base + k, d[k].0, d[k].1) == Ok(exts[k]) {
    }
    OwnExtensionsShape(base, d, 0, []);
    var r := OwnExtensionsFrom(base, d, 0, []).value;
    assert forall k :: 0 <= k < 5 ==> Ok(r[k]) == Ok(exts[k]);
    assert r == exts;
  }

  /** With nothing stored, `inheritable`'s chain is the class alone. */
  lemma InheritableChain()
    ensures Ranked(map[], map[]) && InheritanceChain(map[], map[], InheritableId, []) == Ok([InheritableId])
  {
    var empty: Storage := map[];
    var noRank: map<string, nat> := map[];
    var none: seq<string> := [];
    assert |empty| == 0;
    assert VisitParents(empty, noRank, [], 0, 0, none) == Ok(none);
    assert none + [InheritableId] == [InheritableId];
  }

  /** Merging `inheritable`'s chain keeps its five extensions. */
  lemma InheritableMerged(storage: Storage, base: nat)
    ensures Merge(ChainLists(storage, [InheritableId], InheritableExtensions(base))) == Ok(InheritableExtensions(base))
  {
    var exts := InheritableExtensions(base);
    var lists := ChainLists(storage, [InheritableId], exts);
    assert lists == [exts];
    assert Flatten(lists) == exts + Flatten([]);
    assert Flatten(lists) == exts;
    InheritableExtensionsDistinct(base);
    MergeDistinct([], exts);
    assert [] + exts == exts;
  }

  /** Of `inheritable`'s stores, only `create`'s applies to its attributes, and keeps the constructor. */
  lemma InheritableStored(host: Host, base: nat, create: FnRef)
    ensures StoredFrom(host, InheritableExtensions(base), map["create" := Fn(create)], 0, map[]) == Ok(map["create" := Fn(create)])
  {
    var exts := InheritableExtensions(base);
    var values := map["create" := Fn(create)];
    var none: map<string, Js> := map[];
    assert StoredFrom(host, exts, values, 0, none) == StoredFrom(host, exts, values, 2, none);
    assert none["create" := Fn(create)] == values;
    assert StoredFrom(host, exts, values, 2, none) == StoredFrom(host, exts, values, 3, values);
    assert StoredFrom(host, exts, values, 3, values) == StoredFrom(host, exts, values, 5, values);
  }

  /** Defining `inheritable` in an empty registry builds exactly this metadata. */
  lemma InheritableBuilt(host: Host, base: nat, create: FnRef)
    ensures Ranked(map[], map[])
    ensures BuildMeta(map[], map[], base, Str("inheritable"), Num(1), Some(InheritableAttributes(create)), host) ==
            Ok(InheritableMeta(base, create))
  {
    InheritableIdBuilt();
    InheritableChain();
    InheritableOwn(base);
    InheritableMerged(map[], base);
    InheritableStored(host, base, create);
  }

  /** The table once `inheritable` is registered. */
  function AfterInheritable(base: nat, create: FnRef): Storage {
    map[InheritableId := InheritableMeta(base, create)]
  }

  /** `objectmanager`'s chain: `inheritable`, then itself. */
  lemma ObjectManagerChain(rank: map<string, nat>, base: nat, create: FnRef)
    requires Ranked(AfterInheritable(base, create), rank)
    ensures InheritanceChain(AfterInheritable(base, create), rank, ObjectManagerId, [("inheritable", Num(1))]) ==
            Ok([InheritableId, ObjectManagerId])
  {
    var storage := AfterInheritable(base, create);
    var ps := [("inheritable", Num(1))];
    var none: seq<string> := [];
    var one := [InheritableId];
    InheritableIdBuilt();
    assert ParentId(ps[0]) == Ok(InheritableId);
    assert storage[InheritableId].inherits == [];
    assert VisitParents(storage, rank, [], rank[InheritableId], 0, none) == Ok(none);
    assert none + [InheritableId] == one;
    assert Visit(storage, rank, InheritableId, none) == Ok(one);
    assert VisitParents(storage, rank, ps, 1, 1, one) == Ok(one);
    assert VisitParents(storage, rank, ps, 1, 0, none) == Ok(one);
    assert |storage| == 1;
    assert one + [ObjectManagerId] == [InheritableId, ObjectManagerId];
  }

  /** `objectmanager` owns no extensions and so inherits exactly `inheritable`'s. */
  lemma ObjectManagerMerged(base: nat, create: FnRef)
    ensures Merge(ChainLists(AfterInheritable(base, create), [InheritableId, ObjectManagerId], [])) ==
            Ok(InheritableExtensions(base))
  {
    var exts := InheritableExtensions(base);
    var lists := ChainLists(AfterInheritable(base, create), [InheritableId, ObjectManagerId], []);
    assert lists == [exts, []];
    assert lists[1..] == [[]];
    assert Flatten([[]]) == [] + Flatten([]);
    assert Flatten(lists) == exts + Flatten([[]]);
    assert Flatten(lists) == exts;
    InheritableExtensionsDistinct(base);
    MergeDistinct([], exts);
    assert [] + exts == exts;
  }

  /** `objectmanager`'s `create` passes `create`'s store unchanged and its `singleton` flag `singleton`'s. */
  lemma ObjectManagerStored(host: Host, base: nat, create: FnRef)
    ensures StoredFrom(host, InheritableExtensions(base), ObjectManagerAttributes(create).values, 0, map[]) ==
            Ok(ObjectManagerAttributes(create).values)
  {
    var exts := InheritableExtensions(base);
    var values := ObjectManagerAttributes(create).values;
    var none: map<string, Js> := map[];
    var withCreate := none["create" := Fn(create)];
    assert StoredFrom(host, exts, values, 0, none) == StoredFrom(host, exts, values, 2, none);
    assert StoredFrom(host, exts, values, 2, none) == StoredFrom(host, exts, values, 3, withCreate);
    assert StoredFrom(host, exts, values, 3, withCreate) == StoredFrom(host, exts, values, 4, withCreate);
    assert withCreate["singleton" := Bool(true)] == values;
    assert StoredFrom(host, exts, values, 4, withCreate) == StoredFrom(host, exts, values, 5, values);
  }

  /** Defining `objectmanager` once `inheritable` is registered builds exactly this metadata. */
  lemma ObjectManagerBuilt(host: Host, rank: map<string, nat>, base: nat, base2: nat, create1: FnRef, create2: FnRef)
    requires Ranked(AfterInheritable(base, create1), rank)
    ensures BuildMeta(AfterInheritable(base, create1), rank, base2, Str("objectmanager"), Num(1),
                      Some(ObjectManagerAttributes(create2)), host) ==
            Ok(ObjectManagerMeta(base, create2))
  {
    InheritableIdBuilt();
    ObjectManagerChain(rank, base, create1);
    var none: seq<Extension> := [];
    assert OwnExtensionsFrom(base2, [], 0, none) == Ok(none);
    ObjectManagerMerged(base, create1);
    ObjectManagerStored(host, base, create2);
  }

  /** The buckets of `inheritable`'s extensions: the two preInits, the two shared modifiers, `create`. */
  function InheritableBuckets(base: nat): seq<seq<Extension>> {
    var e := InheritableExtensions(base);
    [[e[3], e[4]], [e[0], e[1]], [e[2]], []]
  }

  /** The bucket of one type in the first `n` of `inheritable`'s extensions, one extension at a time. */
  lemma InheritableBucketSteps(base: nat, kind: int)
    ensures var e := InheritableExtensions(base);
      Bucket(e, kind) == Bucket(e[..0], kind) + (if e[0].kind == kind then [e[0]] else []) +
        (if e[1].kind == kind then [e[1]] else []) + (if e[2].kind == kind then [e[2]] else []) +
        (if e[3].kind == kind then [e[3]] else []) + (if e[4].kind == kind then [e[4]] else [])
  {
    var e := InheritableExtensions(base);
    BucketStep(e, 0, kind);
    BucketStep(e, 1, kind);
    BucketStep(e, 2, kind);
    BucketStep(e, 3, kind);
    BucketStep(e, 4, kind);
    assert e[..5] == e;
  }

  lemma InheritableBucket(base: nat, kind: int)
    ensures var e := InheritableExtensions(base);
      Bucket(e, kind) == (if kind == PreInit then [e[3], e[4]] else if kind == SharedModifier then [e[0], e[1]]
                          else if kind == PerInheritance then [e[2]] else [])
  {
    var e := InheritableExtensions(base);
    var none: seq<Extension> := [];
    assert e[..0] == none;
    InheritableBucketSteps(base, kind);
    if kind == PreInit {
      assert Bucket(e, kind) == none + none + none + none + [e[3]] + [e[4]];
    } else if kind == SharedModifier {
      assert Bucket(e, kind) == none + [e[0]] + [e[1]] + none + none + none;
    } else if kind == PerInheritance {
      assert Bucket(e, kind) == none + none + none + [e[2]] + none + none;
    } else {
      assert Bucket(e, kind) == none + none + none + none + none + none;
    }
  }

  /** Sorting `inheritable`'s extensions by type (every one is of a known type). */
  lemma InheritablePartition(base: nat)
    ensures Partition(InheritableExtensions(base)) == Ok(InheritableBuckets(base))
    ensures SingletonAt(InheritableBuckets(base)[0], 1)
  {
    var e := InheritableExtensions(base);
    assert forall j :: 0 <= j < |e| ==> KnownKind(e[j].kind);
    assert FirstUnknown(e) == |e|;
    var p := Partition(e).value;
    InheritableBucket(base, PreInit);
    InheritableBucket(base, SharedModifier);
    InheritableBucket(base, PerInheritance);
    InheritableBucket(base, CompleteTrigger);
    assert p == [Bucket(e, PreInit), Bucket(e, SharedModifier), Bucket(e, PerInheritance), Bucket(e, CompleteTrigger)];
    var b0 := InheritableBuckets(base)[0];
    assert b0[0].implementation == Native(AbstractImpl);
  }

  /** The table once both classes are registered. */
  function Registered(base: nat, create1: FnRef, create2: FnRef): Storage {
    AfterInheritable(base, create1)[ObjectManagerId := ObjectManagerMeta(base, create2)]
  }

  /** `objectmanager` is not abstract, and is a singleton. */
  lemma ObjectManagerFlags(base: nat, create: FnRef)
    ensures !Truthy(Attr(ObjectManagerMeta(base, create), "abstract"))
    ensures Truthy(Attr(ObjectManagerMeta(base, create), "singleton"))
    ensures Attr(ObjectManagerMeta(base, create), "create") == Fn(create)
  {
  }

  /** The preInits of a first `objectmanager`: `abstract` lets it through, `singleton` registers it. */
  lemma ObjectManagerPreInits(host: Host, base: nat, create: FnRef, self: nat, ctx: Ctx)
    requires !Truthy(SingletonOf(ctx.store, ObjectManagerId))
    ensures var meta := ObjectManagerMeta(base, create);
      PreInitsFrom(host, meta, self, InheritableBuckets(base)[0], 0, ctx) ==
      Run(Ctx(ctx.shared, WithSingleton(ctx.store, ObjectManagerId, Obj(self)).value,
              ctx.trace + [PreInitCalled(base + 3), PreInitCalled(base + 4)]), Running)
  {
    var meta := ObjectManagerMeta(base, create);
    var b := InheritableBuckets(base)[0];
    ObjectManagerFlags(base, create);
    var ctx1 := Ctx(ctx.shared, ctx.store, ctx.trace + [PreInitCalled(base + 3)]);
    var st2 := WithSingleton(ctx.store, ObjectManagerId, Obj(self)).value;
    var ctx2 := Ctx(ctx.shared, st2, ctx1.trace + [PreInitCalled(base + 4)]);
    assert PreInitsFrom(host, meta, self, b, 0, ctx) == PreInitsFrom(host, meta, self, b, 1, ctx1);
    assert PreInitsFrom(host, meta, self, b, 1, ctx1) == PreInitsFrom(host, meta, self, b, 2, ctx2);
    assert ctx1.trace + [PreInitCalled(base + 4)] == ctx.trace + [PreInitCalled(base + 3), PreInitCalled(base + 4)];
  }

  /** The shared modifiers: `protected` adds a new object, `static` the class's static space. */
  lemma ObjectManagerShared(host: Host, base: nat, create: FnRef, ctx: Ctx)
    requires "protected" !in ctx.shared && "static" !in ctx.shared
    ensures var meta := ObjectManagerMeta(base, create);
      var r := SharedFrom(host, meta, InheritableBuckets(base)[1], 0, ctx);
      var (space, st) := StaticSpace(NewRef(ctx.store).1, ObjectManagerId);
      r == Run(Ctx(ctx.shared["protected" := Obj(ctx.store.nextRef)]["static" := space], st,
                   ctx.trace + [SharedModifierCalled(base), SharedModifierCalled(base + 1)]), Running)
  {
    var meta := ObjectManagerMeta(base, create);
    var b := InheritableBuckets(base)[1];
    var (ref, st1) := NewRef(ctx.store);
    var (space, st2) := StaticSpace(st1, ObjectManagerId);
    var sh1 := ctx.shared["protected" := Obj(ref)];
    var sh2 := sh1["static" := space];
    var kv1 := [("protected", Obj(ref))];
    var kv2 := [("static", space)];
    assert AddedToShared(ctx.shared, kv1, 0) == AddedToShared(sh1, kv1, 1);
    assert AddedToShared(sh1, kv2, 0) == AddedToShared(sh2, kv2, 1);
    var ctx1 := Ctx(sh1, st1, ctx.trace + [SharedModifierCalled(base)]);
    var ctx2 := Ctx(sh2, st2, ctx1.trace + [SharedModifierCalled(base + 1)]);
    assert SharedFrom(host, meta, b, 0, ctx) == SharedFrom(host, meta, b, 1, ctx1);
    assert SharedFrom(host, meta, b, 1, ctx1) == SharedFrom(host, meta, b, 2, ctx2);
    assert ctx1.trace + [SharedModifierCalled(base + 1)] == ctx.trace + [SharedModifierCalled(base), SharedModifierCalled(base + 1)];
  }

  /** What `create` does for `objectmanager`: `inheritable`'s part first, then its own. */
  function CreateTrace(base: nat): seq<Event> {
    [PerInheritanceCalled(InheritableId, base + 2), NamespaceCreated("inheritable"), CreateCalled(InheritableId),
     PerInheritanceCalled(ObjectManagerId, base + 2), NamespaceCreated("objectmanager"), CreateCalled(ObjectManagerId)]
  }

  /** Both constructors run, base class first, each after its namespace is made. */
  lemma ObjectManagerCreates(host: Host, base: nat, create1: FnRef, create2: FnRef, ctx: Ctx)
    requires IsObject(ProtectedSpace(ctx.shared))
    requires host.construct(create1, ObjectManagerId, InheritableId).Ok?
    requires host.construct(create2, ObjectManagerId, ObjectManagerId).Ok?
    ensures PerClassFrom(host, Registered(base, create1, create2), ObjectManagerMeta(base, create2),
                         InheritableBuckets(base)[2], 0, ctx) ==
            Run(ctx.(trace := ctx.trace + CreateTrace(base)), Running)
  {
    var storage := Registered(base, create1, create2);
    var meta := ObjectManagerMeta(base, create2);
    var e := InheritableBuckets(base)[2][0];
    assert InheritableBuckets(base)[2] == [e];
    var ids := meta.representedClasses;
    assert Represented(storage, meta, ids[0]) == InheritableMeta(base, create1);
    assert Represented(storage, meta, ids[1]) == meta;
    assert Creatable(host, storage, meta, 0);
    CreatesEveryClass(host, storage, meta, e, 0, ctx);
    var last := [ObjectManagerId];
    var none: seq<string> := [];
    assert ids[0..] == ids && ids[1..] == last && last[1..] == none;
    var t2 := [PerInheritanceCalled(ObjectManagerId, base + 2), NamespaceCreated("objectmanager"), CreateCalled(ObjectManagerId)];
    assert CreateEvents(storage, meta, last, e.serial) == t2 + [];
    var t1 := [PerInheritanceCalled(InheritableId, base + 2), NamespaceCreated("inheritable"), CreateCalled(InheritableId)];
    assert CreateEvents(storage, meta, ids, e.serial) == t1 + (t2 + []);
    assert t1 + (t2 + []) == CreateTrace(base);
  }

  /** Everything building the first `objectmanager` does, in order. */
  function BootTrace(base: nat): seq<Event> {
    [PreInitCalled(base + 3), PreInitCalled(base + 4), SharedModifierCalled(base), SharedModifierCalled(base + 1)] +
    CreateTrace(base)
  }

  /** The four phases for a first `objectmanager`, from a seeded shared space. */
  lemma ObjectManagerPhases(host: Host, base: nat, create1: FnRef, create2: FnRef, self: nat, ctx: Ctx)
    requires !Truthy(SingletonOf(ctx.store, ObjectManagerId)) && ctx.trace == []
    requires "protected" !in ctx.shared && "static" !in ctx.shared
    requires host.construct(create1, ObjectManagerId, InheritableId).Ok?
    requires host.construct(create2, ObjectManagerId, ObjectManagerId).Ok?
    ensures var meta := ObjectManagerMeta(base, create2);
      var b := InheritableBuckets(base);
      var pre := PreInitsFrom(host, meta, self, b[0], 0, ctx);
      var sm := SharedFrom(host, meta, b[1], 0, pre.ctx);
      var pi := PerClassFrom(host, Registered(base, create1, create2), meta, b[2], 0, sm.ctx);
      pre.status.Running? && sm.status.Running? && pi.status.Running? &&
      CompletesFrom(host, meta, b[3], |b[3]|, pi.ctx) == pi &&
      pi.ctx.trace == BootTrace(base) &&
      SingletonOf(pi.ctx.store, ObjectManagerId) == Obj(self) &&
      ProtectedSpace(pi.ctx.shared) == Obj(ctx.store.nextRef) &&
      "static" in pi.ctx.shared && ObjectManagerId in pi.ctx.store.staticSpaces &&
      pi.ctx.shared["static"] == pi.ctx.store.staticSpaces[ObjectManagerId] &&
      (forall k :: k in ctx.shared ==> k in pi.ctx.shared && pi.ctx.shared[k] == ctx.shared[k])
  {
    var meta := ObjectManagerMeta(base, create2);
    var b := InheritableBuckets(base);
    var pres := [PreInitCalled(base + 3), PreInitCalled(base + 4)];
    var shares := [SharedModifierCalled(base), SharedModifierCalled(base + 1)];
    ObjectManagerPreInits(host, base, create2, self, ctx);
    var pre := PreInitsFrom(host, meta, self, b[0], 0, ctx);
    assert pre.ctx.trace == pres;
    var st2 := WithSingleton(ctx.store, ObjectManagerId, Obj(self)).value;
    ObjectManagerShared(host, base, create2, pre.ctx);
    var sm := SharedFrom(host, meta, b[1], 0, pre.ctx);
    assert sm.ctx.trace == pres + shares;
    ObjectManagerCreates(host, base, create1, create2, sm.ctx);
    var pi := PerClassFrom(host, Registered(base, create1, create2), meta, b[2], 0, sm.ctx);
    assert CompletesFrom(host, meta, b[3], |b[3]|, pi.ctx) == pi;
    assert pres + shares == [PreInitCalled(base + 3), PreInitCalled(base + 4), SharedModifierCalled(base), SharedModifierCalled(base + 1)];
  }

  /**
   * `new Basic(getClassMetadata("objectmanager", 1))` with no instance
   * registered yet, when both constructors return normally: it runs through,
   * is registered as the singleton, gets a fresh protected space and the
   * class's static space, and every extension call happens in the engine's
   * order.
   */
  lemma ObjectManagerInstance(host: Host, base: nat, create1: FnRef, create2: FnRef, st: StoreState)
    requires !Truthy(SingletonOf(st, ObjectManagerId))
    requires host.construct(create1, ObjectManagerId, InheritableId).Ok?
    requires host.construct(create2, ObjectManagerId, ObjectManagerId).Ok?
    ensures var inst := Instantiate(host, Registered(base, create1, create2), ObjectManagerMeta(base, create2), Undefined, st);
      inst.status == Running && inst.self == st.nextRef &&
      NewValue(inst) == Ok(Constructed(st.nextRef)) &&
      inst.ctx.trace == BootTrace(base) &&
      SingletonOf(inst.ctx.store, ObjectManagerId) == Obj(st.nextRef) &&
      ProtectedSpace(inst.ctx.shared) == Obj(st.nextRef + 2) &&
      "static" in inst.ctx.shared && ObjectManagerId in inst.ctx.store.staticSpaces &&
      inst.ctx.shared["static"] == inst.ctx.store.staticSpaces[ObjectManagerId]
  {
    var meta := ObjectManagerMeta(base, create2);
    var (self, st0) := NewRef(st);
    var (iv, st1) := InitValue(Undefined, st0);
    SeedAccepted(meta, self, iv);
    var ctx := Ctx(SeedSpace(meta, self, iv), st1, []);
    InheritablePartition(base);
    assert SingletonOf(ctx.store, ObjectManagerId) == SingletonOf(st, ObjectManagerId);
    ObjectManagerPhases(host, base, create1, create2, self, ctx);
  }

  /** Building `objectmanager` a second time gives back the first instance: it is a singleton. */
  lemma ObjectManagerUnique(host: Host, storage: Storage, base: nat, create: FnRef, iv1: Js, iv2: Js, st: StoreState)
    requires !Truthy(SingletonOf(st, ObjectManagerId))
    ensures var meta := ObjectManagerMeta(base, create);
      var first := Instantiate(host, storage, meta, iv1, st);
      NewValue(Instantiate(host, storage, meta, iv2, first.ctx.store)) == Ok(Redirect(Obj(first.self)))
  {
    InheritablePartition(base);
    ObjectManagerFlags(base, create);
    SingletonReuse(host, storage, ObjectManagerMeta(base, create), iv1, iv2, st, 1);
  }

  /** A class that gets `inheritable`'s extensions and is stored as abstract cannot be instantiated. */
  lemma AbstractClassRefused(host: Host, storage: Storage, meta: ClassMeta, base: nat, initValues: Js, st: StoreState)
    requires meta.extensions == InheritableExtensions(base) && Attr(meta, "abstract") == Bool(true)
    ensures NewValue(Instantiate(host, storage, meta, initValues, st)) == Err(AbstractInstantiation)
  {
    InheritablePartition(base);
    AbstractRefused(host, storage, meta, initValues, st);
  }

  /** The `abstract` and `singleton` stores turn any value into a boolean of the same truth, once and for all. */
  lemma FlagStores(host: Host, f: Native, v: Js)
    requires f == AbstractStore || f == SingletonStore
    ensures CallStore(host, Native(f), v) == Ok(Bool(Truthy(v)))
    ensures CallStore(host, Native(f), Bool(Truthy(v))) == CallStore(host, Native(f), v)
  {
  }

  /** The `create` store accepts exactly a function, null or undefined, and keeps it. */
  lemma CreateStoreChecks(host: Host, v: Js)
    ensures CallStore(host, Native(CreateStore), v).Ok? <==> v.Fn? || v == Null || v == Undefined
    ensures CallStore(host, Native(CreateStore), v).Ok? ==> CallStore(host, Native(CreateStore), v).value == v
    ensures CallStore(host, Native(CreateStore), v).Err? ==> CallStore(host, Native(CreateStore), v).error == ConstructorNotFunction
  {
  }

  /** The registry's start-up: a new registry with `inheritable` and then `objectmanager` defined. */
  method DefineBuiltins(host: Host, create1: FnRef, create2: FnRef) returns (manager: MetadataManager)
    ensures fresh(manager) && manager.Valid() && manager.storage == Registered(0, create1, create2)
  {
    manager := new MetadataManager();
    assert manager.rank == map[];
    InheritableBuilt(host, 0, create1);
    var _ := manager.Define(Str("inheritable"), Num(1), Some(InheritableAttributes(create1)), host);
    assert manager.storage == AfterInheritable(0, create1);
    ObjectManagerBuilt(host, manager.rank, 0, manager.extensionSerial, create1, create2);
    var _ := manager.Define(Str("objectmanager"), Num(1), Some(ObjectManagerAttributes(create2)), host);
  }

  /**
   * The engine's start-up: a registry, the storage object, `inheritable`
   * and `objectmanager` defined, and the `objectmanager` instance built. The
   * two constructors are the user callbacks `create1` and `create2`; object
   * references are numbered from 0.
   */
  method SobaInstance(host: Host, create1: FnRef, create2: FnRef)
    returns (manager: MetadataManager, statics: StaticDataStorage, status: Status, self: nat, shared: Shared, trace: seq<Event>)
    ensures manager.Valid() && manager.storage == Registered(0, create1, create2)
    ensures Instance(status, self, Ctx(shared, statics.State(), trace)) ==
            Instantiate(host, Registered(0, create1, create2), ObjectManagerMeta(0, create2), Undefined, StoreState(map[], map[], 0))
    ensures host.construct(create1, ObjectManagerId, InheritableId).Ok? &&
            host.construct(create2, ObjectManagerId, ObjectManagerId).Ok? ==>
      status == Running && self == 0 && trace == BootTrace(0) &&
      SingletonOf(statics.State(), ObjectManagerId) == Obj(0)
  {
    manager := DefineBuiltins(host, create1, create2);
    statics := new StaticDataStorage(0);
    var meta := manager.GetClassMetadata(ValueArg(Str("objectmanager")), Num(1));
    InheritableIdBuilt();
    assert meta == Ok(ObjectManagerMeta(0, create2));
    status, self, shared, trace := Basic(host, manager.storage, meta.value, Undefined, statics);
    if host.construct(create1, ObjectManagerId, InheritableId).Ok? &&
       host.construct(create2, ObjectManagerId, ObjectManagerId).Ok? {
      ObjectManagerInstance(host, 0, create1, create2, StoreState(map[], map[], 0));
    }
  }
}
