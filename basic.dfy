/**
 * `Basic(classMeta, initValues)`: building an instance of a registered
 * class. The shared space is seeded, the merged extensions are sorted by
 * type, and the four phases run in order: preInits (any of which may end
 * construction with a value), shared modifiers, per-inheritance callbacks
 * for every represented class, and complete triggers in reverse order.
 */
module Construction {
  import opened JsValues
  import opened Enums
  import opened Metadata
  import opened Inheritance
  import opened Registry
  import opened StaticStore

  /** What construction does that can be observed, in the order it happens. */
  datatype Event =
    | PreInitCalled(serial: nat)
    | SharedModifierCalled(serial: nat)
    | PerInheritanceCalled(classId: string, serial: nat)
    | NamespaceCreated(key: string)
    | CreateCalled(classId: string)
    | CompleteCalled(serial: nat)

  /** The shared space handed to every callback. */
  type Shared = map<string, Js>

  /** The state construction threads through its loops. */
  datatype Ctx = Ctx(shared: Shared, store: StoreState, trace: seq<Event>)

  /** How a phase ended: ran through, interrupted by a preInit's value, or thrown. */
  datatype Status = Running | Interrupted(value: Js) | Failed(error: Error)

  datatype Run = Run(ctx: Ctx, status: Status)

  // ---------------------------------------------------------------------
  // addToShared

  /**
   * The frozen shared space takes a key that is absent; a key already holding
   * a falsy value can only be defined again with the very same value.
   */
  predicate Accepts(shared: Shared, k: string, v: Js) {
    k !in shared || (!Truthy(shared[k]) && shared[k] == v)
  }

  /**
   * `addToShared(keyValue)` from entry `i` on: a key whose current value is
   * truthy throws; redefining a frozen falsy key with another value throws.
   */
  function AddedToShared(shared: Shared, kv: seq<(string, Js)>, i: nat): Result<Shared>
    requires i <= |kv|
    decreases |kv| - i
  {
    if i == |kv| then Ok(shared)
    else
      var (k, v) := kv[i];
      if k in shared && Truthy(shared[k]) then Err(SharedKeyExists(k))
      else if k in shared && shared[k] != v then Err(SharedKeyRedefined(k))
      else AddedToShared(shared[k := v], kv, i + 1)
  }

  ghost predicate DistinctKeys(kv: seq<(string, Js)>) {
    forall a, b :: 0 <= a < b < |kv| ==> kv[a].0 != kv[b].0
  }

  /** Adding never changes a key already present, and adds exactly the given keys. */
  lemma {:induction false} AddedToSharedKeeps(shared: Shared, kv: seq<(string, Js)>, i: nat)
    requires i <= |kv|
    ensures AddedToShared(shared, kv, i).Ok? ==>
      var m := AddedToShared(shared, kv, i).value;
      (forall k :: k in shared ==> k in m && m[k] == shared[k]) &&
      (forall j :: i <= j < |kv| ==> kv[j].0 in m) &&
      (forall k :: k in m ==> k in shared || exists j :: i <= j < |kv| && kv[j].0 == k)
    decreases |kv| - i
  {
    if i < |kv| {
      AddedToSharedKeeps(shared[kv[i].0 := kv[i].1], kv, i + 1);
    }
  }

  /**
   * For an object's keys (no key twice), adding succeeds exactly when the
   * space accepts every entry, and then holds every given value.
   */
  lemma {:induction false} AddedToSharedAccepts(shared: Shared, kv: seq<(string, Js)>, i: nat)
    requires i <= |kv| && DistinctKeys(kv)
    ensures AddedToShared(shared, kv, i).Ok? <==> forall j :: i <= j < |kv| ==> Accepts(shared, kv[j].0, kv[j].1)
    ensures AddedToShared(shared, kv, i).Ok? ==>
      forall j :: i <= j < |kv| ==> kv[j].0 in AddedToShared(shared, kv, i).value && AddedToShared(shared, kv, i).value[kv[j].0] == kv[j].1
    decreases |kv| - i
  {
    if i < |kv| && Accepts(shared, kv[i].0, kv[i].1) {
      var s' := shared[kv[i].0 := kv[i].1];
      AddedToSharedAccepts(s', kv, i + 1);
      AddedToSharedKeeps(s', kv, i + 1);
      forall j | i < j < |kv| ensures Accepts(s', kv[j].0, kv[j].1) == Accepts(shared, kv[j].0, kv[j].1) {
        assert kv[j].0 != kv[i].0;
      }
    }
  }

  /** `addToShared`: the loop over the entries. */
  method AddToShared(shared: Shared, kv: seq<(string, Js)>) returns (r: Result<Shared>)
    ensures r == AddedToShared(shared, kv, 0)
  {
    var s := shared;
    var i := 0;
    while i < |kv|
      invariant 0 <= i <= |kv|
      invariant AddedToShared(shared, kv, 0) == AddedToShared(s, kv, i)
    {
      var (k, v) := kv[i];
      if k in s && Truthy(s[k]) {
        return Err(SharedKeyExists(k));
      }
      if k in s && s[k] != v {
        return Err(SharedKeyRedefined(k));
      }
      s := s[k := v];
      i := i + 1;
    }
    r := Ok(s);
  }

  // ---------------------------------------------------------------------
  // Sorting the extensions by type

  predicate KnownKind(kind: int) {
    PreInit <= kind <= CompleteTrigger
  }

  /** The extensions of one type, in their merged order. */
  function Bucket(es: seq<Extension>, kind: int): seq<Extension>
    decreases |es|
  {
    if es == [] then []
    else Bucket(es[..|es| - 1], kind) + (if es[|es| - 1].kind == kind then [es[|es| - 1]] else [])
  }

  /** Position of the first extension whose type is not one of the four. */
  function FirstUnknown(es: seq<Extension>): (i: nat)
    ensures i <= |es|
    ensures i < |es| ==> !KnownKind(es[i].kind)
    ensures forall j :: 0 <= j < i ==> KnownKind(es[j].kind)
  {
    if es == [] || !KnownKind(es[0].kind) then 0
    else
      var i := FirstUnknown(es[1..]);
      assert forall j :: 1 <= j < 1 + i ==> es[j] == es[1..][j - 1];
      1 + i
  }

  /**
   * `extByType`: one bucket per type; pushing to the bucket of an unknown
   * type throws at the first such extension.
   */
  function Partition(es: seq<Extension>): (r: Result<seq<seq<Extension>>>)
    ensures r.Ok? ==> |r.value| == 4
  {
    var u := FirstUnknown(es);
    if u < |es| then Err(UnknownExtensionType(es[u].kind))
    else Ok([Bucket(es, PreInit), Bucket(es, SharedModifier), Bucket(es, PerInheritance), Bucket(es, CompleteTrigger)])
  }

  /** A bucket holds exactly the extensions of its type, each as often as in the list. */
  lemma {:induction false} BucketFacts(es: seq<Extension>, kind: int)
    ensures forall e :: e in Bucket(es, kind) ==> e in es && e.kind == kind
    ensures forall e :: e in es && e.kind == kind ==> e in Bucket(es, kind)
    ensures multiset(Bucket(es, kind)) <= multiset(es)
    decreases |es|
  {
    if es != [] {
      var init := es[..|es| - 1];
      BucketFacts(init, kind);
      assert es == init + [es[|es| - 1]];
    }
  }

  /** One step of a bucket: the next extension joins when it has the bucket's type. */
  lemma BucketStep(es: seq<Extension>, k: nat, kind: int)
    requires k < |es|
    ensures Bucket(es[..k + 1], kind) == Bucket(es[..k], kind) + (if es[k].kind == kind then [es[k]] else [])
  {
    assert es[..k + 1][..k] == es[..k];
  }

  /** Appending an extension adds it to the bucket of its type only. */
  lemma BucketSnoc(init: seq<Extension>, x: Extension, kind: int)
    ensures Bucket(init + [x], kind) == Bucket(init, kind) + (if x.kind == kind then [x] else [])
  {
    assert (init + [x])[..|init|] == init;
  }

  /** The multiset the four buckets hold together. */
  ghost function BucketsTotal(es: seq<Extension>): multiset<Extension> {
    multiset(Bucket(es, PreInit)) + multiset(Bucket(es, SharedModifier)) +
    multiset(Bucket(es, PerInheritance)) + multiset(Bucket(es, CompleteTrigger))
  }

  /** Adding one element to any of four multisets adds it to their sum. */
  lemma AddToOneOfFour(p: multiset<Extension>, s: multiset<Extension>, q: multiset<Extension>, c: multiset<Extension>,
                       one: multiset<Extension>)
    ensures (p + one) + s + q + c == p + s + q + c + one
    ensures p + (s + one) + q + c == p + s + q + c + one
    ensures p + s + (q + one) + c == p + s + q + c + one
    ensures p + s + q + (c + one) == p + s + q + c + one
  {
  }

  lemma BucketsTotalSnoc(init: seq<Extension>, x: Extension)
    requires KnownKind(x.kind)
    ensures BucketsTotal(init + [x]) == BucketsTotal(init) + multiset{x}
  {
    var t := init + [x];
    BucketSnoc(init, x, PreInit);
    BucketSnoc(init, x, SharedModifier);
    BucketSnoc(init, x, PerInheritance);
    BucketSnoc(init, x, CompleteTrigger);
    var p, s, q, c := multiset(Bucket(init, PreInit)), multiset(Bucket(init, SharedModifier)),
                      multiset(Bucket(init, PerInheritance)), multiset(Bucket(init, CompleteTrigger));
    var one := multiset{x};
    AddToOneOfFour(p, s, q, c, one);
    var b := Bucket(init, x.kind);
    assert Bucket(t, x.kind) == b + [x];
    assert multiset(b + [x]) == multiset(b) + one;
    if x.kind == PreInit {
      assert Bucket(t, SharedModifier) == Bucket(init, SharedModifier);
      assert Bucket(t, PerInheritance) == Bucket(init, PerInheritance);
      assert Bucket(t, CompleteTrigger) == Bucket(init, CompleteTrigger);
      assert BucketsTotal(t) == (p + one) + s + q + c;
    } else if x.kind == SharedModifier {
      assert Bucket(t, PreInit) == Bucket(init, PreInit);
      assert Bucket(t, PerInheritance) == Bucket(init, PerInheritance);
      assert Bucket(t, CompleteTrigger) == Bucket(init, CompleteTrigger);
      assert BucketsTotal(t) == p + (s + one) + q + c;
    } else if x.kind == PerInheritance {
      assert Bucket(t, PreInit) == Bucket(init, PreInit);
      assert Bucket(t, SharedModifier) == Bucket(init, SharedModifier);
      assert Bucket(t, CompleteTrigger) == Bucket(init, CompleteTrigger);
      assert BucketsTotal(t) == p + s + (q + one) + c;
    } else {
      assert Bucket(t, PreInit) == Bucket(init, PreInit);
      assert Bucket(t, SharedModifier) == Bucket(init, SharedModifier);
      assert Bucket(t, PerInheritance) == Bucket(init, PerInheritance);
      assert BucketsTotal(t) == p + s + q + (c + one);
    }
  }

  /** With every type known, the four buckets together hold every extension exactly once. */
  lemma {:induction false} BucketsCover(es: seq<Extension>)
    requires forall j :: 0 <= j < |es| ==> KnownKind(es[j].kind)
    ensures BucketsTotal(es) == multiset(es)
    decreases |es|
  {
    if es != [] {
      var init := es[..|es| - 1];
      var x := es[|es| - 1];
      assert forall j :: 0 <= j < |init| ==> init[j] == es[j];
      BucketsCover(init);
      assert es == init + [x];
      BucketsTotalSnoc(init, x);
      assert multiset(es) == multiset(init) + multiset{x};
    }
  }

  /** Sorting succeeds exactly when every type is known, and then loses and invents nothing. */
  lemma PartitionFacts(es: seq<Extension>)
    ensures Partition(es).Ok? <==> forall j :: 0 <= j < |es| ==> KnownKind(es[j].kind)
    ensures Partition(es).Ok? ==>
      var b := Partition(es).value;
      multiset(b[0]) + multiset(b[1]) + multiset(b[2]) + multiset(b[3]) == multiset(es) &&
      (forall e :: e in b[0] ==> e.kind == PreInit) &&
      (forall e :: e in b[1] ==> e.kind == SharedModifier) &&
      (forall e :: e in b[2] ==> e.kind == PerInheritance) &&
      (forall e :: e in b[3] ==> e.kind == CompleteTrigger)
  {
    if Partition(es).Ok? {
      BucketsCover(es);
      BucketFacts(es, PreInit);
      BucketFacts(es, SharedModifier);
      BucketFacts(es, PerInheritance);
      BucketFacts(es, CompleteTrigger);
    }
  }

  /** The sorting loop of `Basic`. */
  method SortByType(es: seq<Extension>) returns (r: Result<seq<seq<Extension>>>)
    ensures r == Partition(es)
  {
    var buckets: seq<seq<Extension>> := [[], [], [], []];
    var i := 0;
    while i < |es|
      invariant 0 <= i <= |es| && |buckets| == 4
      invariant forall j :: 0 <= j < i ==> KnownKind(es[j].kind)
      invariant forall k :: 0 <= k < 4 ==> buckets[k] == Bucket(es[..i], k + 1)
    {
      var e := es[i];
      if !KnownKind(e.kind) {
        assert FirstUnknown(es) == i;
        return Err(UnknownExtensionType(e.kind));
      }
      assert es[..i + 1][..i] == es[..i];
      buckets := buckets[e.kind - 1 := buckets[e.kind - 1] + [e]];
      i := i + 1;
    }
    assert es[..i] == es;
    assert buckets == [buckets[0], buckets[1], buckets[2], buckets[3]];
    r := Ok(buckets);
  }

  // ---------------------------------------------------------------------
  // The phases, each as the loop it is, from position `i` on

  /**
   * One preInit call. The engine's own preInits: `abstract` throws for a
   * class marked abstract; `singleton`, for a class marked singleton, returns
   * the registered instance or else registers this one.
   */
  function CallPreInit(host: Host, meta: ClassMeta, self: nat, f: FnRef, st: StoreState): (Result<Js>, StoreState) {
    match f
    case Native(AbstractImpl) =>
      (if Truthy(Attr(meta, "abstract")) then Err(AbstractInstantiation) else Ok(Undefined), st)
    case Native(SingletonImpl) =>
      if !Truthy(Attr(meta, "singleton")) then (Ok(Undefined), st)
      else if Truthy(SingletonOf(st, meta.classId)) then (Ok(SingletonOf(st, meta.classId)), st)
      else
        (match WithSingleton(st, meta.classId, Obj(self))
         case Ok(st') => (Ok(Undefined), st')
         case Err(e) => (Err(e), st))
    case _ => (host.preInit(f, meta.classId), st)
  }

  /** The preInit loop: a result other than `undefined` ends construction with that value. */
  function PreInitsFrom(host: Host, meta: ClassMeta, self: nat, b: seq<Extension>, i: nat, ctx: Ctx): Run
    requires i <= |b|
    decreases |b| - i
  {
    if i == |b| then Run(ctx, Running)
    else
      var (res, st) := CallPreInit(host, meta, self, b[i].implementation, ctx.store);
      var ctx' := Ctx(ctx.shared, st, ctx.trace + [PreInitCalled(b[i].serial)]);
      match res
      case Err(e) => Run(ctx', Failed(e))
      case Ok(v) => if v != Undefined then Run(ctx', Interrupted(v)) else PreInitsFrom(host, meta, self, b, i + 1, ctx')
  }

  /**
   * One shared-modifier call. The engine's own: `protected` contributes a new
   * empty object, `static` the class's static space.
   */
  function CallSharedModifier(host: Host, meta: ClassMeta, f: FnRef, st: StoreState): (Result<Option<seq<(string, Js)>>>, StoreState) {
    match f
    case Native(ProtectedImpl) =>
      var (ref, st') := NewRef(st);
      (Ok(Some([("protected", Obj(ref))])), st')
    case Native(StaticImpl) =>
      var (space, st') := StaticSpace(st, meta.classId);
      (Ok(Some([("static", space)])), st')
    case _ => (host.sharedModifier(f, meta.classId), st)
  }

  /** The shared-modifier loop: a truthy result is added to the shared space. */
  function SharedFrom(host: Host, meta: ClassMeta, b: seq<Extension>, i: nat, ctx: Ctx): Run
    requires i <= |b|
    decreases |b| - i
  {
    if i == |b| then Run(ctx, Running)
    else
      var (res, st) := CallSharedModifier(host, meta, b[i].implementation, ctx.store);
      var ctx' := Ctx(ctx.shared, st, ctx.trace + [SharedModifierCalled(b[i].serial)]);
      match res
      case Err(e) => Run(ctx', Failed(e))
      case Ok(None) => SharedFrom(host, meta, b, i + 1, ctx')
      case Ok(Some(kv)) =>
        match AddedToShared(ctx.shared, kv, 0)
        case Err(e) => Run(ctx', Failed(e))
        case Ok(shared') => SharedFrom(host, meta, b, i + 1, ctx'.(shared := shared'))
  }

  /** The metadata object of a represented class. */
  function Represented(storage: Storage, meta: ClassMeta, id: string): ClassMeta {
    if id in storage then storage[id] else meta
  }

  /** The protected space, as the shared space holds it. */
  function ProtectedSpace(shared: Shared): Js {
    if "protected" in shared then shared["protected"] else Undefined
  }

  /**
   * One per-inheritance call for the represented class `rc`. The engine's
   * own, `create`: reading a property of a missing protected space throws;
   * an object protected space gets a namespace named after the class (on a
   * primitive the assignment is lost); then the class's own `create` runs,
   * and a `create` that is not a function throws.
   */
  function CallPerInheritance(host: Host, meta: ClassMeta, rc: ClassMeta, f: FnRef, ctx: Ctx): (Result<Unit>, Ctx) {
    match f
    case Native(CreateImpl) =>
      var prot := ProtectedSpace(ctx.shared);
      if prot == Undefined || prot == Null then (Err(ProtectedSpaceMissing), ctx)
      else
        var ctx1 := if IsObject(prot) then ctx.(trace := ctx.trace + [NamespaceCreated(ToStr(rc.name))]) else ctx;
        var create := Attr(rc, "create");
        if !create.Fn? then (Err(CreateNotCallable(rc.classId)), ctx1)
        else (host.construct(create.f, meta.classId, rc.classId), ctx1.(trace := ctx1.trace + [CreateCalled(rc.classId)]))
    case _ => (host.perInheritance(f, meta.classId, rc.classId), ctx)
  }

  /** The inner per-inheritance loop, over the extensions, for one represented class. */
  function PerExtFrom(host: Host, meta: ClassMeta, rc: ClassMeta, b: seq<Extension>, i: nat, ctx: Ctx): Run
    requires i <= |b|
    decreases |b| - i
  {
    if i == |b| then Run(ctx, Running)
    else
      var ctx0 := ctx.(trace := ctx.trace + [PerInheritanceCalled(rc.classId, b[i].serial)]);
      var (res, ctx') := CallPerInheritance(host, meta, rc, b[i].implementation, ctx0);
      if res.Err? then Run(ctx', Failed(res.error)) else PerExtFrom(host, meta, rc, b, i + 1, ctx')
  }

  /** The outer per-inheritance loop, over the represented classes in chain order. */
  function PerClassFrom(host: Host, storage: Storage, meta: ClassMeta, b: seq<Extension>, c: nat, ctx: Ctx): Run
    requires c <= |meta.representedClasses|
    decreases |meta.representedClasses| - c
  {
    if c == |meta.representedClasses| then Run(ctx, Running)
    else
      var r := PerExtFrom(host, meta, Represented(storage, meta, meta.representedClasses[c]), b, 0, ctx);
      if !r.status.Running? then r else PerClassFrom(host, storage, meta, b, c + 1, r.ctx)
  }

  /** The complete-trigger loop, run from the last trigger down; `i` triggers are left. */
  function CompletesFrom(host: Host, meta: ClassMeta, b: seq<Extension>, i: nat, ctx: Ctx): Run
    requires i <= |b|
    decreases i
  {
    if i == 0 then Run(ctx, Running)
    else
      var ctx' := ctx.(trace := ctx.trace + [CompleteCalled(b[i - 1].serial)]);
      match host.complete(b[i - 1].implementation, meta.classId)
      case Err(e) => Run(ctx', Failed(e))
      case Ok(_) => CompletesFrom(host, meta, b, i - 1, ctx')
  }

  // ---------------------------------------------------------------------
  // Basic

  /** The construction of one instance: how it ended, the instance's reference, and the final state. */
  datatype Instance = Instance(status: Status, self: nat, ctx: Ctx)

  /** What `new Basic(...)` evaluates to. */
  datatype Outcome = Redirect(value: Js) | Constructed(self: nat)

  /** The keys `Basic` seeds the shared space with. */
  function Seed(meta: ClassMeta, self: nat, initValues: Js): seq<(string, Js)> {
    [("classMeta", Meta(meta.classId)), ("self", Obj(self)), ("initValues", initValues)]
  }

  /** The `initValues` parameter: an undefined argument defaults to a new empty object. */
  function InitValue(initValues: Js, st: StoreState): (r: (Js, StoreState))
    ensures r.1.singletons == st.singletons && r.1.staticSpaces == st.staticSpaces && r.1.nextRef >= st.nextRef
    ensures initValues != Undefined ==> r == (initValues, st)
    ensures initValues == Undefined ==> r.0 == Obj(st.nextRef)
  {
    if initValues == Undefined then (Obj(st.nextRef), st.(nextRef := st.nextRef + 1)) else (initValues, st)
  }

  /**
   * `new Basic(classMeta, initValues)`: the instance is created, an
   * undefined `initValues` defaults to a new empty object, the shared space
   * is seeded, the extensions are sorted and the four phases run, each only
   * when the one before ran through.
   */
  function Instantiate(host: Host, storage: Storage, meta: ClassMeta, initValues: Js, st: StoreState): Instance {
    var (self, st0) := NewRef(st);
    var (iv, st1) := InitValue(initValues, st0);
    match AddedToShared(map[], Seed(meta, self, iv), 0)
    case Err(e) => Instance(Failed(e), self, Ctx(map[], st1, []))
    case Ok(shared) =>
      var ctx := Ctx(shared, st1, []);
      match Partition(meta.extensions)
      case Err(e) => Instance(Failed(e), self, ctx)
      case Ok(b) =>
        var pre := PreInitsFrom(host, meta, self, b[0], 0, ctx);
        if !pre.status.Running? then Instance(pre.status, self, pre.ctx)
        else
          var sm := SharedFrom(host, meta, b[1], 0, pre.ctx);
          if !sm.status.Running? then Instance(sm.status, self, sm.ctx)
          else
            var pi := PerClassFrom(host, storage, meta, b[2], 0, sm.ctx);
            if !pi.status.Running? then Instance(pi.status, self, pi.ctx)
            else
              var co := CompletesFrom(host, meta, b[3], |b[3]|, pi.ctx);
              Instance(co.status, self, co.ctx)
  }

  /**
   * The value of the `new` expression: a preInit's object result replaces the
   * instance; a primitive result is dropped by `new`, which yields the
   * instance, although the later phases did not run.
   */
  function NewValue(inst: Instance): Result<Outcome> {
    match inst.status
    case Failed(e) => Err(e)
    case Interrupted(v) => Ok(if IsObject(v) then Redirect(v) else Constructed(inst.self))
    case Running => Ok(Constructed(inst.self))
  }

  // ---------------------------------------------------------------------
  // The order of the calls

  function PreEvents(b: seq<Extension>): (t: seq<Event>)
    ensures |t| == |b| && forall k :: 0 <= k < |t| ==> t[k] == PreInitCalled(b[k].serial)
  {
    if b == [] then [] else [PreInitCalled(b[0].serial)] + PreEvents(b[1..])
  }

  function SharedEvents(b: seq<Extension>): (t: seq<Event>)
    ensures |t| == |b| && forall k :: 0 <= k < |t| ==> t[k] == SharedModifierCalled(b[k].serial)
  {
    if b == [] then [] else [SharedModifierCalled(b[0].serial)] + SharedEvents(b[1..])
  }

  function PerOne(id: string, b: seq<Extension>): seq<Event> {
    if b == [] then [] else [PerInheritanceCalled(id, b[0].serial)] + PerOne(id, b[1..])
  }

  /** Every per-inheritance extension for the first class, then for the next, and so on. */
  function PerEvents(ids: seq<string>, b: seq<Extension>): seq<Event> {
    if ids == [] then [] else PerOne(ids[0], b) + PerEvents(ids[1..], b)
  }

  /** The complete triggers from the last one to the first. */
  function CompleteEvents(b: seq<Extension>): (t: seq<Event>)
    ensures |t| == |b| && forall k :: 0 <= k < |t| ==> t[k] == CompleteCalled(b[|b| - 1 - k].serial)
  {
    if b == [] then [] else [CompleteCalled(b[|b| - 1].serial)] + CompleteEvents(b[..|b| - 1])
  }

  /** The calls of extension implementations, leaving out what the `create` extension does inside its call. */
  function Calls(t: seq<Event>): seq<Event> {
    if t == [] then []
    else Calls(t[..|t| - 1]) + (if t[|t| - 1].NamespaceCreated? || t[|t| - 1].CreateCalled? then [] else [t[|t| - 1]])
  }

  lemma {:induction false} CallsAppend(a: seq<Event>, b: seq<Event>)
    ensures Calls(a + b) == Calls(a) + Calls(b)
    decreases |b|
  {
    if b != [] {
      var b' := b[..|b| - 1];
      assert (a + b)[..|a + b| - 1] == a + b';
      assert (a + b)[|a + b| - 1] == b[|b| - 1];
      CallsAppend(a, b');
      var e := b[|b| - 1];
      var l := if e.NamespaceCreated? || e.CreateCalled? then [] else [e];
      assert Calls(b) == Calls(b') + l;
      assert Calls(a + b) == Calls(a + b') + l;
      assert Calls(a) + Calls(b') + l == Calls(a) + (Calls(b') + l);
    } else {
      assert a + b == a;
    }
  }

  /** Concatenation of traces is associative (stated once, so that proofs need not re-derive it pointwise). */
  lemma EventsAssoc(a: seq<Event>, b: seq<Event>, c: seq<Event>)
    ensures (a + b) + c == a + (b + c)
  {
  }

  lemma CallsSnoc(t: seq<Event>, e: Event)
    ensures Calls(t + [e]) == Calls(t) + (if e.NamespaceCreated? || e.CreateCalled? then [] else [e])
  {
    assert (t + [e])[..|t|] == t;
  }

  /** The table as the registry keeps it, seen from the class being built: every represented class is stored under its own id. */
  ghost predicate SelfNamed(storage: Storage, meta: ClassMeta) {
    forall k :: 0 <= k < |meta.representedClasses| ==>
      Represented(storage, meta, meta.representedClasses[k]).classId == meta.representedClasses[k]
  }

  /** A class stored in a valid registry table sees the table that way. */
  lemma StoredSelfNamed(storage: Storage, rank: map<string, nat>, id: string)
    requires ValidTable(storage, rank) && id in storage
    ensures SelfNamed(storage, storage[id])
  {
    var rc := storage[id].representedClasses;
    forall k | 0 <= k < |rc| ensures Represented(storage, storage[id], rc[k]).classId == rc[k] {
      assert rc[k] in storage;
    }
  }

  /** Facts about the state a phase leaves, used for every phase below. */
  ghost predicate Extends(a: Shared, b: Shared) {
    forall k :: k in a ==> k in b && b[k] == a[k]
  }

  /**
   * The table of singletons and static spaces only grows: a truthy entry and
   * a static space once made never change, and references are never reused.
   */
  ghost predicate StoreGrows(a: StoreState, b: StoreState) {
    a.nextRef <= b.nextRef &&
    (forall id :: id in a.staticSpaces && Truthy(a.staticSpaces[id]) ==> id in b.staticSpaces && b.staticSpaces[id] == a.staticSpaces[id]) &&
    (forall id :: Truthy(SingletonOf(a, id)) ==> SingletonOf(b, id) == SingletonOf(a, id))
  }

  lemma CallPreInitGrows(host: Host, meta: ClassMeta, self: nat, f: FnRef, st: StoreState)
    ensures StoreGrows(st, CallPreInit(host, meta, self, f, st).1)
  {
  }

  lemma CallSharedModifierGrows(host: Host, meta: ClassMeta, f: FnRef, st: StoreState)
    ensures StoreGrows(st, CallSharedModifier(host, meta, f, st).1)
  {
  }

  lemma {:induction false} PreInitsFacts(host: Host, meta: ClassMeta, self: nat, b: seq<Extension>, i: nat, ctx: Ctx)
    requires i <= |b|
    ensures var r := PreInitsFrom(host, meta, self, b, i, ctx);
      r.ctx.shared == ctx.shared && StoreGrows(ctx.store, r.ctx.store) &&
      |ctx.trace| <= |r.ctx.trace| && r.ctx.trace[..|ctx.trace|] == ctx.trace &&
      (forall k :: |ctx.trace| <= k < |r.ctx.trace| ==> r.ctx.trace[k].PreInitCalled?) &&
      (r.status.Running? ==> r.ctx.trace == ctx.trace + PreEvents(b[i..]))
    decreases |b| - i
  {
    if i < |b| {
      var (res, st) := CallPreInit(host, meta, self, b[i].implementation, ctx.store);
      var ctx' := Ctx(ctx.shared, st, ctx.trace + [PreInitCalled(b[i].serial)]);
      CallPreInitGrows(host, meta, self, b[i].implementation, ctx.store);
      PreInitsFacts(host, meta, self, b, i + 1, ctx');
      StoreGrowsTrans(ctx.store, st, PreInitsFrom(host, meta, self, b, i + 1, ctx').ctx.store);
      assert b[i..][1..] == b[i + 1..];
      var r := PreInitsFrom(host, meta, self, b, i + 1, ctx');
      PreInitTraceGrows(ctx.trace, PreInitCalled(b[i].serial), r.ctx.trace);
      EventsAssoc(ctx.trace, [PreInitCalled(b[i].serial)], PreEvents(b[i + 1..]));
    }
  }

  /**
   * The preInit loop from position `i` stopped at position `j` with run `r`:
   * the preInits before `j` all ran through, leaving state `c`, the one at
   * `j` returned a value other than `undefined`, that value is the status,
   * and no preInit after `j` was called.
   */
  ghost predicate StopsAt(host: Host, meta: ClassMeta, self: nat, b: seq<Extension>, i: nat, ctx: Ctx, r: Run, j: nat, c: Ctx) {
    i <= j < |b| && r.status.Interrupted? &&
    c.shared == ctx.shared && c.trace == ctx.trace + PreEvents(b[i..j]) &&
    r == PreInitsFrom(host, meta, self, b, j, c) &&
    CallPreInit(host, meta, self, b[j].implementation, c.store).0 == Ok(r.status.value) &&
    r.status.value != Undefined &&
    r.ctx.trace == ctx.trace + PreEvents(b[i..j + 1])
  }

  /** An interrupted preInit loop stopped at its first preInit whose result was not `undefined`. */
  lemma {:induction false} PreInitsStop(host: Host, meta: ClassMeta, self: nat, b: seq<Extension>, i: nat, ctx: Ctx)
    requires i <= |b|
    ensures var r := PreInitsFrom(host, meta, self, b, i, ctx);
      r.status.Interrupted? ==> exists j: nat, c: Ctx :: StopsAt(host, meta, self, b, i, ctx, r, j, c)
    decreases |b| - i
  {
    var r := PreInitsFrom(host, meta, self, b, i, ctx);
    if i < |b| && r.status.Interrupted? {
      var (res, st) := CallPreInit(host, meta, self, b[i].implementation, ctx.store);
      var ctx' := Ctx(ctx.shared, st, ctx.trace + [PreInitCalled(b[i].serial)]);
      PreEventsCons(b, i, i + 1);
      assert b[i..i] == [] && b[i + 1..i + 1] == [];
      if res == Ok(Undefined) {
        assert r == PreInitsFrom(host, meta, self, b, i + 1, ctx');
        PreInitsStop(host, meta, self, b, i + 1, ctx');
        var j: nat, c: Ctx :| StopsAt(host, meta, self, b, i + 1, ctx', r, j, c);
        PreEventsCons(b, i, j);
        PreEventsCons(b, i, j + 1);
        EventsAssoc(ctx.trace, [PreInitCalled(b[i].serial)], PreEvents(b[i + 1..j]));
        EventsAssoc(ctx.trace, [PreInitCalled(b[i].serial)], PreEvents(b[i + 1..j + 1]));
        assert StopsAt(host, meta, self, b, i, ctx, r, j, c);
      } else {
        assert ctx.trace + PreEvents(b[i..i]) == ctx.trace;
        assert StopsAt(host, meta, self, b, i, ctx, r, i, ctx);
      }
    }
  }

  /** A trace extending `t + [e]` by preInit calls, with `e` one, extends `t` by preInit calls. */
  lemma PreInitTraceGrows(t: seq<Event>, e: Event, r: seq<Event>)
    requires e.PreInitCalled? && |t| + 1 <= |r| && r[..|t| + 1] == t + [e]
    requires forall k :: |t| + 1 <= k < |r| ==> r[k].PreInitCalled?
    ensures r[..|t|] == t && forall k :: |t| <= k < |r| ==> r[k].PreInitCalled?
  {
    assert r[..|t| + 1][..|t|] == r[..|t|];
    assert r[|t|] == r[..|t| + 1][|t|];
  }

  lemma {:induction false} SharedFacts(host: Host, meta: ClassMeta, b: seq<Extension>, i: nat, ctx: Ctx)
    requires i <= |b|
    ensures var r := SharedFrom(host, meta, b, i, ctx);
      !r.status.Interrupted? && Extends(ctx.shared, r.ctx.shared) && StoreGrows(ctx.store, r.ctx.store)
    decreases |b| - i
  {
    if i < |b| {
      var (res, st) := CallSharedModifier(host, meta, b[i].implementation, ctx.store);
      var ctx' := Ctx(ctx.shared, st, ctx.trace + [SharedModifierCalled(b[i].serial)]);
      CallSharedModifierGrows(host, meta, b[i].implementation, ctx.store);
      if res.Ok? && res.value.None? {
        SharedFacts(host, meta, b, i + 1, ctx');
        StoreGrowsTrans(ctx.store, st, SharedFrom(host, meta, b, i + 1, ctx').ctx.store);
      } else if res.Ok? && AddedToShared(ctx.shared, res.value.value, 0).Ok? {
        AddedToSharedKeeps(ctx.shared, res.value.value, 0);
        var ctx2 := ctx'.(shared := AddedToShared(ctx.shared, res.value.value, 0).value);
        SharedFacts(host, meta, b, i + 1, ctx2);
        StoreGrowsTrans(ctx.store, st, SharedFrom(host, meta, b, i + 1, ctx2).ctx.store);
      }
    }
  }

  lemma {:induction false} SharedTrace(host: Host, meta: ClassMeta, b: seq<Extension>, i: nat, ctx: Ctx)
    requires i <= |b|
    ensures var r := SharedFrom(host, meta, b, i, ctx);
      r.status.Running? ==> r.ctx.trace == ctx.trace + SharedEvents(b[i..])
    decreases |b| - i
  {
    if i < |b| {
      var (res, st) := CallSharedModifier(host, meta, b[i].implementation, ctx.store);
      var ctx' := Ctx(ctx.shared, st, ctx.trace + [SharedModifierCalled(b[i].serial)]);
      assert b[i..][1..] == b[i + 1..];
      EventsAssoc(ctx.trace, [SharedModifierCalled(b[i].serial)], SharedEvents(b[i + 1..]));
      if res.Ok? && res.value.None? {
        SharedTrace(host, meta, b, i + 1, ctx');
      } else if res.Ok? && AddedToShared(ctx.shared, res.value.value, 0).Ok? {
        SharedTrace(host, meta, b, i + 1, ctx'.(shared := AddedToShared(ctx.shared, res.value.value, 0).value));
      }
    }
  }

  /** The `create` extension leaves the shared space and the table alone and makes no extension call of its own. */
  lemma CallPerInheritanceFacts(host: Host, meta: ClassMeta, rc: ClassMeta, f: FnRef, ctx: Ctx)
    ensures var (_, ctx') := CallPerInheritance(host, meta, rc, f, ctx);
      ctx'.shared == ctx.shared && ctx'.store == ctx.store && Calls(ctx'.trace) == Calls(ctx.trace)
  {
    if f == Native(CreateImpl) {
      var prot := ProtectedSpace(ctx.shared);
      if prot != Undefined && prot != Null {
        var t := ctx.trace;
        var t1 := if IsObject(prot) then t + [NamespaceCreated(ToStr(rc.name))] else t;
        CallsSnoc(t, NamespaceCreated(ToStr(rc.name)));
        assert Calls(t1) == Calls(t);
        CallsSnoc(t1, CreateCalled(rc.classId));
      }
    }
  }

  lemma {:induction false} PerExtFacts(host: Host, meta: ClassMeta, rc: ClassMeta, b: seq<Extension>, i: nat, ctx: Ctx)
    requires i <= |b|
    ensures var r := PerExtFrom(host, meta, rc, b, i, ctx);
      !r.status.Interrupted? && r.ctx.shared == ctx.shared && r.ctx.store == ctx.store &&
      (r.status.Running? ==> Calls(r.ctx.trace) == Calls(ctx.trace) + PerOne(rc.classId, b[i..]))
    decreases |b| - i
  {
    if i < |b| {
      var ctx0 := ctx.(trace := ctx.trace + [PerInheritanceCalled(rc.classId, b[i].serial)]);
      CallsSnoc(ctx.trace, PerInheritanceCalled(rc.classId, b[i].serial));
      CallPerInheritanceFacts(host, meta, rc, b[i].implementation, ctx0);
      var (res, ctx') := CallPerInheritance(host, meta, rc, b[i].implementation, ctx0);
      PerExtFacts(host, meta, rc, b, i + 1, ctx');
      assert b[i..][1..] == b[i + 1..];
      EventsAssoc(Calls(ctx.trace), [PerInheritanceCalled(rc.classId, b[i].serial)], PerOne(rc.classId, b[i + 1..]));
    }
  }

  lemma {:induction false} PerClassFacts(host: Host, storage: Storage, meta: ClassMeta, b: seq<Extension>, c: nat, ctx: Ctx)
    requires c <= |meta.representedClasses|
    ensures var r := PerClassFrom(host, storage, meta, b, c, ctx);
      !r.status.Interrupted? && r.ctx.shared == ctx.shared && r.ctx.store == ctx.store
    decreases |meta.representedClasses| - c
  {
    if c < |meta.representedClasses| {
      var rc := Represented(storage, meta, meta.representedClasses[c]);
      PerExtFacts(host, meta, rc, b, 0, ctx);
      PerClassFacts(host, storage, meta, b, c + 1, PerExtFrom(host, meta, rc, b, 0, ctx).ctx);
    }
  }

  lemma PerEventsCons(ids: seq<string>, b: seq<Extension>, c: nat)
    requires c < |ids|
    ensures PerEvents(ids[c..], b) == PerOne(ids[c], b) + PerEvents(ids[c + 1..], b)
  {
    assert ids[c..][1..] == ids[c + 1..];
  }

  lemma {:induction false} PerClassCalls(host: Host, storage: Storage, meta: ClassMeta, b: seq<Extension>, c: nat, ctx: Ctx)
    requires c <= |meta.representedClasses| && SelfNamed(storage, meta)
    ensures var r := PerClassFrom(host, storage, meta, b, c, ctx);
      r.status.Running? ==> Calls(r.ctx.trace) == Calls(ctx.trace) + PerEvents(meta.representedClasses[c..], b)
    decreases |meta.representedClasses| - c
  {
    var ids := meta.representedClasses;
    if c < |ids| {
      var rc := Represented(storage, meta, ids[c]);
      PerExtFacts(host, meta, rc, b, 0, ctx);
      var r := PerExtFrom(host, meta, rc, b, 0, ctx);
      if r.status.Running? {
        PerClassCalls(host, storage, meta, b, c + 1, r.ctx);
        assert rc.classId == ids[c];
        assert b[0..] == b;
        PerEventsCons(ids, b, c);
        EventsAssoc(Calls(ctx.trace), PerOne(ids[c], b), PerEvents(ids[c + 1..], b));
      }
    }
  }

  lemma {:induction false} CompletesFacts(host: Host, meta: ClassMeta, b: seq<Extension>, i: nat, ctx: Ctx)
    requires i <= |b|
    ensures var r := CompletesFrom(host, meta, b, i, ctx);
      !r.status.Interrupted? && r.ctx.shared == ctx.shared && r.ctx.store == ctx.store &&
      (r.status.Running? ==> r.ctx.trace == ctx.trace + CompleteEvents(b[..i]))
    decreases i
  {
    if i > 0 {
      var ctx' := ctx.(trace := ctx.trace + [CompleteCalled(b[i - 1].serial)]);
      CompletesFacts(host, meta, b, i - 1, ctx');
      assert b[..i][..i - 1] == b[..i - 1];
    }
  }

  /** A trace of extension calls only is its own list of calls. */
  lemma {:induction false} CallsOfCalls(t: seq<Event>)
    requires forall k :: 0 <= k < |t| ==> !t[k].NamespaceCreated? && !t[k].CreateCalled?
    ensures Calls(t) == t
    decreases |t|
  {
    if t != [] {
      CallsOfCalls(t[..|t| - 1]);
    }
  }

  lemma StoreGrowsTrans(a: StoreState, b: StoreState, c: StoreState)
    requires StoreGrows(a, b) && StoreGrows(b, c)
    ensures StoreGrows(a, c)
  {
  }

  /** What `Basic` seeds the shared space with. */
  function SeedSpace(meta: ClassMeta, self: nat, iv: Js): Shared {
    map["classMeta" := Meta(meta.classId), "self" := Obj(self), "initValues" := iv]
  }

  lemma SeedAccepted(meta: ClassMeta, self: nat, iv: Js)
    ensures AddedToShared(map[], Seed(meta, self, iv), 0) == Ok(SeedSpace(meta, self, iv))
  {
    var kv := Seed(meta, self, iv);
    var m1 := map["classMeta" := Meta(meta.classId)];
    var m2 := m1["self" := Obj(self)];
    assert AddedToShared(map[], kv, 0) == AddedToShared(m1, kv, 1);
    assert AddedToShared(m1, kv, 1) == AddedToShared(m2, kv, 2);
    assert AddedToShared(m2, kv, 2) == AddedToShared(m2["initValues" := iv], kv, 3);
  }

  /**
   * When construction runs through, the extension calls happened in this
   * order: every preInit, every shared modifier, for each represented class in
   * chain order every per-inheritance extension, and the complete triggers
   * from last to first.
   */
  lemma InstantiateOrder(host: Host, storage: Storage, meta: ClassMeta, initValues: Js, st: StoreState)
    requires SelfNamed(storage, meta)
    ensures var inst := Instantiate(host, storage, meta, initValues, st);
      inst.status.Running? ==> (Partition(meta.extensions).Ok? &&
        var b := Partition(meta.extensions).value;
        Calls(inst.ctx.trace) == PreEvents(b[0]) + SharedEvents(b[1]) + PerEvents(meta.representedClasses, b[2]) + CompleteEvents(b[3]))
  {
    var (self, st0) := NewRef(st);
    var (iv, st1) := InitValue(initValues, st0);
    SeedAccepted(meta, self, iv);
    var ctx := Ctx(SeedSpace(meta, self, iv), st1, []);
    if Partition(meta.extensions).Ok? {
      var b := Partition(meta.extensions).value;
      PreInitsFacts(host, meta, self, b[0], 0, ctx);
      var pre := PreInitsFrom(host, meta, self, b[0], 0, ctx);
      if pre.status.Running? {
        SharedTrace(host, meta, b[1], 0, pre.ctx);
        var sm := SharedFrom(host, meta, b[1], 0, pre.ctx);
        if sm.status.Running? {
          assert b[0][0..] == b[0] && b[1][0..] == b[1];
          var none: seq<Event> := [];
          assert none + PreEvents(b[0]) == PreEvents(b[0]);
          assert sm.ctx.trace == PreEvents(b[0]) + SharedEvents(b[1]);
          FirstPhasesCalls(b[0], b[1]);
          LastPhasesOrder(host, storage, meta, b[2], b[3], sm.ctx);
        }
      }
    }
  }

  /** The first two phases make extension calls only. */
  lemma FirstPhasesCalls(b0: seq<Extension>, b1: seq<Extension>)
    ensures Calls(PreEvents(b0) + SharedEvents(b1)) == PreEvents(b0) + SharedEvents(b1)
  {
    var t := PreEvents(b0) + SharedEvents(b1);
    forall k | 0 <= k < |t| ensures !t[k].NamespaceCreated? && !t[k].CreateCalled? {
      if k < |b0| {
        assert t[k] == PreEvents(b0)[k];
      } else {
        assert t[k] == SharedEvents(b1)[k - |b0|];
      }
    }
    CallsOfCalls(t);
  }

  /** The calls of the per-inheritance and complete-trigger phases, appended in that order. */
  lemma LastPhasesOrder(host: Host, storage: Storage, meta: ClassMeta, b2: seq<Extension>, b3: seq<Extension>, ctx: Ctx)
    requires SelfNamed(storage, meta)
    ensures var pi := PerClassFrom(host, storage, meta, b2, 0, ctx);
      pi.status.Running? ==> (var co := CompletesFrom(host, meta, b3, |b3|, pi.ctx);
        co.status.Running? ==>
          Calls(co.ctx.trace) == Calls(ctx.trace) + PerEvents(meta.representedClasses, b2) + CompleteEvents(b3))
  {
    assert meta.representedClasses[0..] == meta.representedClasses;
    PerClassCalls(host, storage, meta, b2, 0, ctx);
    var pi := PerClassFrom(host, storage, meta, b2, 0, ctx);
    if pi.status.Running? {
      CompletesFacts(host, meta, b3, |b3|, pi.ctx);
      assert b3[..|b3|] == b3;
      CallsAppend(pi.ctx.trace, CompleteEvents(b3));
      CallsOfCalls(CompleteEvents(b3));
    }
  }

  /**
   * A preInit's value ends construction: the instance is fresh, nothing but
   * preInits ran, the engine has added nothing to the shared space beyond the
   * seed, and construction stopped at the first preInit of the merged bucket
   * whose result was not `undefined`, with that result as its status.
   */
  lemma InstantiateInterrupted(host: Host, storage: Storage, meta: ClassMeta, initValues: Js, st: StoreState)
    ensures var inst := Instantiate(host, storage, meta, initValues, st);
      inst.self == st.nextRef &&
      (inst.status.Interrupted? ==>
        (forall k :: 0 <= k < |inst.ctx.trace| ==> inst.ctx.trace[k].PreInitCalled?) &&
        inst.ctx.shared == SeedSpace(meta, inst.self, InitValue(initValues, NewRef(st).1).0) &&
        Partition(meta.extensions).Ok? &&
        exists j: nat, c: Ctx :: StopsAt(host, meta, inst.self, Partition(meta.extensions).value[0], 0,
          Ctx(SeedSpace(meta, inst.self, InitValue(initValues, NewRef(st).1).0), InitValue(initValues, NewRef(st).1).1, []),
          Run(inst.ctx, inst.status), j, c))
  {
    var (self, st0) := NewRef(st);
    var (iv, st1) := InitValue(initValues, st0);
    SeedAccepted(meta, self, iv);
    var ctx := Ctx(SeedSpace(meta, self, iv), st1, []);
    if Partition(meta.extensions).Ok? {
      var b := Partition(meta.extensions).value;
      PreInitsFacts(host, meta, self, b[0], 0, ctx);
      var pre := PreInitsFrom(host, meta, self, b[0], 0, ctx);
      if pre.status.Running? {
        SharedFacts(host, meta, b[1], 0, pre.ctx);
        var sm := SharedFrom(host, meta, b[1], 0, pre.ctx);
        if sm.status.Running? {
          PerClassFacts(host, storage, meta, b[2], 0, sm.ctx);
          var pi := PerClassFrom(host, storage, meta, b[2], 0, sm.ctx);
          if pi.status.Running? {
            CompletesFacts(host, meta, b[3], |b[3]|, pi.ctx);
          }
        }
      } else {
        PreInitsStop(host, meta, self, b[0], 0, ctx);
        assert Instantiate(host, storage, meta, initValues, st) == Instance(pre.status, self, pre.ctx);
      }
    }
  }

  /**
   * Whatever happens, the seeded keys of the shared space keep their values,
   * and the singletons and static spaces only grow.
   */
  lemma InstantiateKeeps(host: Host, storage: Storage, meta: ClassMeta, initValues: Js, st: StoreState)
    ensures var inst := Instantiate(host, storage, meta, initValues, st);
      Extends(SeedSpace(meta, inst.self, InitValue(initValues, NewRef(st).1).0), inst.ctx.shared) &&
      StoreGrows(st, inst.ctx.store)
  {
    var (self, st0) := NewRef(st);
    var (iv, st1) := InitValue(initValues, st0);
    SeedAccepted(meta, self, iv);
    var ctx := Ctx(SeedSpace(meta, self, iv), st1, []);
    assert StoreGrows(st, st1);
    if Partition(meta.extensions).Ok? {
      var b := Partition(meta.extensions).value;
      PreInitsFacts(host, meta, self, b[0], 0, ctx);
      var pre := PreInitsFrom(host, meta, self, b[0], 0, ctx);
      StoreGrowsTrans(st, st1, pre.ctx.store);
      if pre.status.Running? {
        SharedFacts(host, meta, b[1], 0, pre.ctx);
        var sm := SharedFrom(host, meta, b[1], 0, pre.ctx);
        StoreGrowsTrans(st, pre.ctx.store, sm.ctx.store);
        if sm.status.Running? {
          PerClassFacts(host, storage, meta, b[2], 0, sm.ctx);
          var pi := PerClassFrom(host, storage, meta, b[2], 0, sm.ctx);
          if pi.status.Running? {
            CompletesFacts(host, meta, b[3], |b[3]|, pi.ctx);
          }
        }
      }
    }
  }

  // ---------------------------------------------------------------------
  // The engine's own extensions at work

  /**
   * The preInit bucket as every class inheriting `inheritable` has it:
   * `abstract` preInits, then the `singleton` one at position `k`.
   */
  ghost predicate SingletonAt(b: seq<Extension>, k: nat) {
    k < |b| && b[k].implementation == Native(SingletonImpl) &&
    forall j :: 0 <= j < k ==> b[j].implementation == Native(AbstractImpl)
  }

  /** One `abstract` preInit of a class not marked abstract: it is called and returns undefined. */
  lemma AbstractStep(host: Host, meta: ClassMeta, self: nat, b: seq<Extension>, i: nat, ctx: Ctx)
    requires i < |b| && b[i].implementation == Native(AbstractImpl) && !Truthy(Attr(meta, "abstract"))
    ensures PreInitsFrom(host, meta, self, b, i, ctx) ==
            PreInitsFrom(host, meta, self, b, i + 1, ctx.(trace := ctx.trace + [PreInitCalled(b[i].serial)]))
  {
    assert CallPreInit(host, meta, self, b[i].implementation, ctx.store) == (Ok(Undefined), ctx.store);
  }

  lemma PreEventsCons(b: seq<Extension>, i: nat, k: nat)
    requires i < k <= |b|
    ensures PreEvents(b[i..k]) == [PreInitCalled(b[i].serial)] + PreEvents(b[i + 1..k])
  {
    assert b[i..k][1..] == b[i + 1..k];
  }

  /** For a class not marked abstract, the `abstract` preInits do nothing but get called. */
  lemma {:induction false} SkipAbstract(host: Host, meta: ClassMeta, self: nat, b: seq<Extension>, i: nat, k: nat, ctx: Ctx)
    requires i <= k && SingletonAt(b, k) && !Truthy(Attr(meta, "abstract"))
    ensures PreInitsFrom(host, meta, self, b, i, ctx) ==
            PreInitsFrom(host, meta, self, b, k, ctx.(trace := ctx.trace + PreEvents(b[i..k])))
    decreases k - i
  {
    if i < k {
      var ctx' := ctx.(trace := ctx.trace + [PreInitCalled(b[i].serial)]);
      AbstractStep(host, meta, self, b, i, ctx);
      SkipAbstract(host, meta, self, b, i + 1, k, ctx');
      PreEventsCons(b, i, k);
      EventsAssoc(ctx.trace, [PreInitCalled(b[i].serial)], PreEvents(b[i + 1..k]));
    } else {
      assert ctx.(trace := ctx.trace + PreEvents(b[i..k])) == ctx;
    }
  }

  /** A class marked abstract cannot be instantiated: its `abstract` preInit throws first. */
  lemma AbstractRefused(host: Host, storage: Storage, meta: ClassMeta, initValues: Js, st: StoreState)
    requires Truthy(Attr(meta, "abstract"))
    requires Partition(meta.extensions).Ok? && |Partition(meta.extensions).value[0]| > 0
    requires Partition(meta.extensions).value[0][0].implementation == Native(AbstractImpl)
    ensures NewValue(Instantiate(host, storage, meta, initValues, st)) == Err(AbstractInstantiation)
  {
    SeedAccepted(meta, NewRef(st).0, InitValue(initValues, NewRef(st).1).0);
  }

  /**
   * A singleton class whose instance is already registered: `new` gives that
   * instance back, after calling only the preInits up to `singleton`.
   */
  lemma SingletonRedirects(host: Host, storage: Storage, meta: ClassMeta, initValues: Js, st: StoreState, k: nat)
    requires Truthy(Attr(meta, "singleton")) && !Truthy(Attr(meta, "abstract"))
    requires Partition(meta.extensions).Ok? && SingletonAt(Partition(meta.extensions).value[0], k)
    requires Truthy(SingletonOf(st, meta.classId))
    ensures var inst := Instantiate(host, storage, meta, initValues, st);
      inst.status == Interrupted(SingletonOf(st, meta.classId)) &&
      inst.ctx.trace == PreEvents(Partition(meta.extensions).value[0][..k + 1])
  {
    var (self, st0) := NewRef(st);
    var (iv, st1) := InitValue(initValues, st0);
    SeedAccepted(meta, self, iv);
    var ctx := Ctx(SeedSpace(meta, self, iv), st1, []);
    var b := Partition(meta.extensions).value[0];
    SkipAbstract(host, meta, self, b, 0, k, ctx);
    assert b[..k + 1] == b[0..k] + [b[k]];
    PreEventsAppend(b[0..k], b[k]);
  }

  lemma {:induction false} PreEventsAppend(b: seq<Extension>, e: Extension)
    ensures PreEvents(b + [e]) == PreEvents(b) + [PreInitCalled(e.serial)]
  {
    if b != [] {
      assert (b + [e])[1..] == b[1..] + [e];
      PreEventsAppend(b[1..], e);
    }
  }

  /** A singleton class with no instance yet: the instance being built is registered, whatever happens after. */
  lemma SingletonRegisters(host: Host, storage: Storage, meta: ClassMeta, initValues: Js, st: StoreState, k: nat)
    requires Truthy(Attr(meta, "singleton")) && !Truthy(Attr(meta, "abstract"))
    requires Partition(meta.extensions).Ok? && SingletonAt(Partition(meta.extensions).value[0], k)
    requires !Truthy(SingletonOf(st, meta.classId))
    ensures var inst := Instantiate(host, storage, meta, initValues, st);
      SingletonOf(inst.ctx.store, meta.classId) == Obj(inst.self)
  {
    var (self, st0) := NewRef(st);
    var (iv, st1) := InitValue(initValues, st0);
    SeedAccepted(meta, self, iv);
    var ctx := Ctx(SeedSpace(meta, self, iv), st1, []);
    var b := Partition(meta.extensions);
    var b0 := b.value[0];
    SkipAbstract(host, meta, self, b0, 0, k, ctx);
    var ctxk := ctx.(trace := ctx.trace + PreEvents(b0[0..k]));
    var st2 := WithSingleton(ctxk.store, meta.classId, Obj(self)).value;
    var ctx2 := Ctx(ctxk.shared, st2, ctxk.trace + [PreInitCalled(b0[k].serial)]);
    assert PreInitsFrom(host, meta, self, b0, k, ctxk) == PreInitsFrom(host, meta, self, b0, k + 1, ctx2);
    PreInitsFacts(host, meta, self, b0, k + 1, ctx2);
    var pre := PreInitsFrom(host, meta, self, b0, k + 1, ctx2);
    if pre.status.Running? {
      SharedFacts(host, meta, b.value[1], 0, pre.ctx);
      var sm := SharedFrom(host, meta, b.value[1], 0, pre.ctx);
      if sm.status.Running? {
        PerClassFacts(host, storage, meta, b.value[2], 0, sm.ctx);
        var pi := PerClassFrom(host, storage, meta, b.value[2], 0, sm.ctx);
        if pi.status.Running? {
          CompletesFacts(host, meta, b.value[3], |b.value[3]|, pi.ctx);
        }
      }
    }
  }

  /**
   * The singleton guarantee: after one instance of a singleton class has
   * been built, building another gives back the first.
   */
  lemma SingletonReuse(host: Host, storage: Storage, meta: ClassMeta, iv1: Js, iv2: Js, st: StoreState, k: nat)
    requires Truthy(Attr(meta, "singleton")) && !Truthy(Attr(meta, "abstract"))
    requires Partition(meta.extensions).Ok? && SingletonAt(Partition(meta.extensions).value[0], k)
    requires !Truthy(SingletonOf(st, meta.classId))
    ensures var first := Instantiate(host, storage, meta, iv1, st);
      NewValue(Instantiate(host, storage, meta, iv2, first.ctx.store)) == Ok(Redirect(Obj(first.self)))
  {
    var first := Instantiate(host, storage, meta, iv1, st);
    SingletonRegisters(host, storage, meta, iv1, st, k);
    SingletonRedirects(host, storage, meta, iv2, first.ctx.store, k);
  }

  /**
   * All instances of a class share one static space: once the `static`
   * modifier has made it, every later call in a grown table returns it.
   */
  lemma StaticSpaceShared(host: Host, meta: ClassMeta, st: StoreState, later: StoreState)
    requires StoreGrows(CallSharedModifier(host, meta, Native(StaticImpl), st).1, later)
    ensures CallSharedModifier(host, meta, Native(StaticImpl), later).0 == CallSharedModifier(host, meta, Native(StaticImpl), st).0
  {
  }

  /** The `create` extension's work for each represented class: the call, the namespace, the class's own `create`. */
  function CreateEvents(storage: Storage, meta: ClassMeta, ids: seq<string>, serial: nat): seq<Event> {
    if ids == [] then []
    else
      var rc := Represented(storage, meta, ids[0]);
      [PerInheritanceCalled(rc.classId, serial), NamespaceCreated(ToStr(rc.name)), CreateCalled(rc.classId)] +
      CreateEvents(storage, meta, ids[1..], serial)
  }

  /** Every class from position `c` of the chain has a `create` function that returns normally. */
  ghost predicate Creatable(host: Host, storage: Storage, meta: ClassMeta, c: nat) {
    forall k :: c <= k < |meta.representedClasses| ==>
      var rc := Represented(storage, meta, meta.representedClasses[k]);
      Attr(rc, "create").Fn? && host.construct(Attr(rc, "create").f, meta.classId, rc.classId).Ok?
  }

  /**
   * With `create` as the only per-inheritance extension and an object
   * protected space, each represented class in chain order gets its
   * namespace and then has its own `create` run: base classes first.
   */
  lemma {:induction false} CreatesEveryClass(host: Host, storage: Storage, meta: ClassMeta, e: Extension, c: nat, ctx: Ctx)
    requires c <= |meta.representedClasses| && e.implementation == Native(CreateImpl)
    requires IsObject(ProtectedSpace(ctx.shared)) && Creatable(host, storage, meta, c)
    ensures PerClassFrom(host, storage, meta, [e], c, ctx) ==
            Run(ctx.(trace := ctx.trace + CreateEvents(storage, meta, meta.representedClasses[c..], e.serial)), Running)
    decreases |meta.representedClasses| - c
  {
    var ids := meta.representedClasses;
    if c < |ids| {
      var rc := Represented(storage, meta, ids[c]);
      var ev := [PerInheritanceCalled(rc.classId, e.serial), NamespaceCreated(ToStr(rc.name)), CreateCalled(rc.classId)];
      var ctx1 := ctx.(trace := ctx.trace + ev);
      assert PerExtFrom(host, meta, rc, [e], 0, ctx) == Run(ctx1, Running);
      CreatesEveryClass(host, storage, meta, e, c + 1, ctx1);
      assert ids[c..][1..] == ids[c + 1..];
    } else {
      assert ctx.(trace := ctx.trace + CreateEvents(storage, meta, ids[c..], e.serial)) == ctx;
    }
  }

  /** `create` on a class without a protected space throws before anything else happens. */
  lemma CreateNeedsProtected(host: Host, storage: Storage, meta: ClassMeta, e: Extension, ctx: Ctx)
    requires |meta.representedClasses| > 0 && e.implementation == Native(CreateImpl)
    requires ProtectedSpace(ctx.shared) == Undefined || ProtectedSpace(ctx.shared) == Null
    ensures PerClassFrom(host, storage, meta, [e], 0, ctx).status == Failed(ProtectedSpaceMissing)
  {
  }

  // ---------------------------------------------------------------------
  // Basic, step by step, over the storage object

  /** One preInit call, with the engine's own preInits working on the storage object. */
  method CallPreInitOn(host: Host, meta: ClassMeta, self: nat, f: FnRef, statics: StaticDataStorage) returns (res: Result<Js>)
    modifies statics
    ensures (res, statics.State()) == CallPreInit(host, meta, self, f, old(statics.State()))
  {
    match f
    case Native(AbstractImpl) =>
      res := if Truthy(Attr(meta, "abstract")) then Err(AbstractInstantiation) else Ok(Undefined);
    case Native(SingletonImpl) =>
      if !Truthy(Attr(meta, "singleton")) {
        res := Ok(Undefined);
      } else {
        var instance := statics.GetSingleton(meta.classId);
        if Truthy(instance) {
          res := Ok(instance);
        } else {
          // cannot fail: no truthy instance is registered
          var _ := statics.RegisterSingleton(meta.classId, Obj(self));
          res := Ok(Undefined);
        }
      }
    case _ =>
      res := host.preInit(f, meta.classId);
  }

  /** The preInit loop. */
  method RunPreInits(host: Host, meta: ClassMeta, self: nat, b: seq<Extension>, shared: Shared, trace0: seq<Event>,
                     statics: StaticDataStorage) returns (status: Status, trace: seq<Event>)
    modifies statics
    ensures Run(Ctx(shared, statics.State(), trace), status) == PreInitsFrom(host, meta, self, b, 0, Ctx(shared, old(statics.State()), trace0))
  {
    trace := trace0;
    var i := 0;
    while i < |b|
      invariant 0 <= i <= |b|
      invariant PreInitsFrom(host, meta, self, b, 0, Ctx(shared, old(statics.State()), trace0)) ==
                PreInitsFrom(host, meta, self, b, i, Ctx(shared, statics.State(), trace))
    {
      trace := trace + [PreInitCalled(b[i].serial)];
      var res := CallPreInitOn(host, meta, self, b[i].implementation, statics);
      if res.Err? {
        return Failed(res.error), trace;
      }
      if res.value != Undefined {
        return Interrupted(res.value), trace;
      }
      i := i + 1;
    }
    status := Running;
  }

  /** One shared-modifier call, with the engine's own modifiers working on the storage object. */
  method CallSharedModifierOn(host: Host, meta: ClassMeta, f: FnRef, statics: StaticDataStorage)
    returns (res: Result<Option<seq<(string, Js)>>>)
    modifies statics
    ensures (res, statics.State()) == CallSharedModifier(host, meta, f, old(statics.State()))
  {
    match f
    case Native(ProtectedImpl) =>
      var ref := statics.Allocate();
      res := Ok(Some([("protected", Obj(ref))]));
    case Native(StaticImpl) =>
      var space := statics.GetStaticSpace(meta.classId);
      res := Ok(Some([("static", space)]));
    case _ =>
      res := host.sharedModifier(f, meta.classId);
  }

  /** The shared-modifier loop. */
  method RunSharedModifiers(host: Host, meta: ClassMeta, b: seq<Extension>, shared0: Shared, trace0: seq<Event>,
                            statics: StaticDataStorage) returns (status: Status, shared: Shared, trace: seq<Event>)
    modifies statics
    ensures Run(Ctx(shared, statics.State(), trace), status) == SharedFrom(host, meta, b, 0, Ctx(shared0, old(statics.State()), trace0))
  {
    shared, trace := shared0, trace0;
    var i := 0;
    while i < |b|
      invariant 0 <= i <= |b|
      invariant SharedFrom(host, meta, b, 0, Ctx(shared0, old(statics.State()), trace0)) ==
                SharedFrom(host, meta, b, i, Ctx(shared, statics.State(), trace))
    {
      trace := trace + [SharedModifierCalled(b[i].serial)];
      var res := CallSharedModifierOn(host, meta, b[i].implementation, statics);
      if res.Err? {
        return Failed(res.error), shared, trace;
      }
      if res.value.Some? {
        var added := AddToShared(shared, res.value.value);
        if added.Err? {
          return Failed(added.error), shared, trace;
        }
        shared := added.value;
      }
      i := i + 1;
    }
    status := Running;
  }

  /** The nested per-inheritance loops: for each represented class, every per-inheritance extension. */
  method RunPerInheritance(host: Host, storage: Storage, meta: ClassMeta, b: seq<Extension>, ctx0: Ctx)
    returns (status: Status, trace: seq<Event>)
    ensures Run(ctx0.(trace := trace), status) == PerClassFrom(host, storage, meta, b, 0, ctx0)
  {
    var ctx := ctx0;
    var c := 0;
    while c < |meta.representedClasses|
      invariant 0 <= c <= |meta.representedClasses|
      invariant ctx.shared == ctx0.shared && ctx.store == ctx0.store
      invariant PerClassFrom(host, storage, meta, b, 0, ctx0) == PerClassFrom(host, storage, meta, b, c, ctx)
    {
      var rc := Represented(storage, meta, meta.representedClasses[c]);
      var i := 0;
      while i < |b|
        invariant 0 <= i <= |b|
        invariant ctx.shared == ctx0.shared && ctx.store == ctx0.store
        invariant PerClassFrom(host, storage, meta, b, 0, ctx0) ==
          (var r := PerExtFrom(host, meta, rc, b, i, ctx);
           if !r.status.Running? then r else PerClassFrom(host, storage, meta, b, c + 1, r.ctx))
      {
        ctx := ctx.(trace := ctx.trace + [PerInheritanceCalled(rc.classId, b[i].serial)]);
        CallPerInheritanceFacts(host, meta, rc, b[i].implementation, ctx);
        var (res, ctx') := CallPerInheritance(host, meta, rc, b[i].implementation, ctx);
        ctx := ctx';
        if res.Err? {
          return Failed(res.error), ctx.trace;
        }
        i := i + 1;
      }
      c := c + 1;
    }
    status, trace := Running, ctx.trace;
  }

  /** The complete-trigger loop, from the last trigger down. */
  method RunCompletes(host: Host, meta: ClassMeta, b: seq<Extension>, ctx0: Ctx) returns (status: Status, trace: seq<Event>)
    ensures Run(ctx0.(trace := trace), status) == CompletesFrom(host, meta, b, |b|, ctx0)
  {
    trace := ctx0.trace;
    var i := |b|;
    while i > 0
      invariant 0 <= i <= |b|
      invariant CompletesFrom(host, meta, b, |b|, ctx0) == CompletesFrom(host, meta, b, i, ctx0.(trace := trace))
    {
      trace := trace + [CompleteCalled(b[i - 1].serial)];
      var res := host.complete(b[i - 1].implementation, meta.classId);
      if res.Err? {
        return Failed(res.error), trace;
      }
      i := i - 1;
    }
    status := Running;
  }

  /**
   * `new Basic(classMeta, initValues)` over the storage object `statics`:
   * the instance, its shared space and the calls made, exactly as
   * `Instantiate` describes them.
   */
  method Basic(host: Host, storage: Storage, meta: ClassMeta, initValues: Js, statics: StaticDataStorage)
    returns (status: Status, self: nat, shared: Shared, trace: seq<Event>)
    modifies statics
    ensures Instance(status, self, Ctx(shared, statics.State(), trace)) ==
            Instantiate(host, storage, meta, initValues, old(statics.State()))
  {
    self := statics.Allocate();
    var iv := initValues;
    if initValues == Undefined {
      var ref := statics.Allocate();
      iv := Obj(ref);
    }
    SeedAccepted(meta, self, iv);
    var seeded := AddToShared(map[], Seed(meta, self, iv));
    shared, trace := seeded.value, [];
    var sorted := SortByType(meta.extensions);
    if sorted.Err? {
      return Failed(sorted.error), self, shared, trace;
    }
    var b := sorted.value;
    status, trace := RunPreInits(host, meta, self, b[0], shared, trace, statics);
    if !status.Running? {
      return;
    }
    status, shared, trace := RunSharedModifiers(host, meta, b[1], shared, trace, statics);
    if !status.Running? {
      return;
    }
    status, trace := RunPerInheritance(host, storage, meta, b[2], Ctx(shared, statics.State(), trace));
    if !status.Running? {
      return;
    }
    status, trace := RunCompletes(host, meta, b[3], Ctx(shared, statics.State(), trace));
  }
}
