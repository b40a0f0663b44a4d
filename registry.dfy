/**
 * `MetadataManager`: the registry of frozen class metadata keyed by class id,
 * `ClassMetadata` construction, `register`/`define` and the lookups.
 */
module Registry {
  import opened JsValues
  import opened ClassIds
  import opened Metadata
  import opened Inheritance

  /**
   * The first argument of `getClassMetadata`: a metadata object or any other
   * value. A metadata object is always passed as `MetaArg`; the `Meta` handle
   * that the shared space holds under `classMeta` never reaches the registry,
   * since every caller in the core passes a string or the record itself.
   * `ValueArg(Meta(id))` therefore falls under "any other value" here, although
   * the object it stands for would be returned as it is.
   */
  datatype ClassArg = MetaArg(meta: ClassMeta) | ValueArg(v: Js)

  /** `v instanceof Object`. */
  predicate IsObject(v: Js) {
    v.Obj? || v.Fn? || v.Meta?
  }

  /** The own extensions of each represented class, in chain order; the last class is the one being built. */
  function ChainLists(storage: Storage, chain: seq<string>, own: seq<Extension>): (lists: seq<seq<Extension>>)
    ensures |lists| == |chain|
  {
    seq(|chain|, k requires 0 <= k < |chain| =>
      if k == |chain| - 1 then own else if chain[k] in storage then storage[chain[k]].ownExtensions else [])
  }

  /**
   * `new ClassMetadata(name, version, attributes)` against the table
   * `storage`, with extension objects numbered from `base`; the failures are
   * checked in the order the constructor meets them.
   */
  ghost function BuildMeta(storage: Storage, rank: map<string, nat>, base: nat, name: Js, version: Js,
                           attributes: Option<Attributes>, host: Host): Result<ClassMeta>
    requires Ranked(storage, rank)
  {
    match CreateClassId(name, version)
    case Err(e) => Err(e)
    case Ok(id) =>
      if attributes.None? then Err(MissingAttributes)
      else
        var a := attributes.value;
        if Truthy(a.extendsAttr) && !IsObject(a.extendsAttr) then Err(ExtendsNotObject)
        else match InheritanceChain(storage, rank, id, a.inherits)
          case Err(e) => Err(e)
          case Ok(chain) =>
            BuildParts(storage, base, id, name, version, a, chain, host)
  }

  /** The constructor gets as far as creating the extension objects: id, attributes, `extends` and chain have passed. */
  ghost predicate ReachesExtensions(storage: Storage, rank: map<string, nat>, name: Js, version: Js, attributes: Option<Attributes>)
    requires Ranked(storage, rank)
  {
    CreateClassId(name, version).Ok? && attributes.Some? &&
    !(Truthy(attributes.value.extendsAttr) && !IsObject(attributes.value.extendsAttr)) &&
    InheritanceChain(storage, rank, CreateClassId(name, version).value, attributes.value.inherits).Ok?
  }

  /** The rest of `new ClassMetadata` once the chain is known: own extensions, merge, `store` transforms. */
  function BuildParts(storage: Storage, base: nat, id: string, name: Js, version: Js, a: Attributes,
                      chain: seq<string>, host: Host): Result<ClassMeta>
  {
    match OwnExtensionsFrom(base, a.extensions, 0, [])
    case Err(e) => Err(e)
    case Ok(own) =>
      match Merge(ChainLists(storage, chain, own))
      case Err(e) => Err(e)
      case Ok(exts) =>
        match StoredFrom(host, exts, a.values, 0, map[])
        case Err(e) => Err(e)
        case Ok(stored) =>
          Ok(ClassMeta(id, name, version, if Truthy(a.extendsAttr) then a.extendsAttr else Undefined,
                       a.inherits, chain, own, exts, stored))
  }

  /** The statements of `new ClassMetadata` after the chain: the own-extension, merge and `store` loops. */
  method BuildRest(storage: Storage, base: nat, id: string, name: Js, version: Js, a: Attributes,
                   chain: seq<string>, host: Host) returns (r: Result<ClassMeta>)
    ensures r == BuildParts(storage, base, id, name, version, a, chain, host)
  {
    var own := BuildOwnExtensions(base, a.extensions);
    if own.Err? {
      return Err(own.error);
    }
    var exts := MergeExtensions(ChainLists(storage, chain, own.value));
    if exts.Err? {
      return Err(exts.error);
    }
    var stored := ApplyStores(host, exts.value, a.values);
    if stored.Err? {
      return Err(stored.error);
    }
    r := Ok(ClassMeta(id, name, version, if Truthy(a.extendsAttr) then a.extendsAttr else Undefined,
                      a.inherits, chain, own.value, exts.value, stored.value));
  }

  /** A stored class's chain: classes of the table without repeats, each after its parents, itself last. */
  ghost predicate StoredChain(storage: Storage, m: ClassMeta) {
    var c := m.representedClasses;
    |c| > 0 && c[|c| - 1] == m.classId && GoodFound(storage, c)
  }

  /** What every `ClassMetadata` instance satisfies: its chain was built from classes of the table. */
  ghost predicate Fits(storage: Storage, m: ClassMeta) {
    var c := m.representedClasses;
    |c| > 0 && c[|c| - 1] == m.classId &&
    GoodFound(storage, c[..|c| - 1]) && ParentsIn(m.inherits, c[..|c| - 1])
  }

  /** A larger table that agrees on the old entries keeps every good list good. */
  lemma GoodFoundGrows(storage: Storage, storage': Storage, s: seq<string>)
    requires GoodFound(storage, s)
    requires forall id :: id in storage ==> id in storage' && storage'[id] == storage[id]
    ensures GoodFound(storage', s)
  {
  }

  /** The facts about the parts of a built metadata record: own extensions, merged list, stored values. */
  lemma BuildPartsFacts(storage: Storage, base: nat, id: string, name: Js, version: Js, a: Attributes,
                        chain: seq<string>, host: Host)
    requires BuildParts(storage, base, id, name, version, a, chain, host).Ok?
    ensures var m := BuildParts(storage, base, id, name, version, a, chain, host).value;
      m.classId == id && m.representedClasses == chain && m.inherits == a.inherits &&
      |m.ownExtensions| == |a.extensions| &&
      (forall k :: 0 <= k < |a.extensions| ==>
         ClassExtension(base + k, a.extensions[k].0, a.extensions[k].1) == Ok(m.ownExtensions[k])) &&
      Merge(ChainLists(storage, chain, m.ownExtensions)) == Ok(m.extensions) &&
      UniqueNames(m.extensions) && UniqueSerials(m.extensions) &&
      (forall key :: key in m.stored <==> StoresAttribute(m.extensions, a.values, key))
  {
    var m := BuildParts(storage, base, id, name, version, a, chain, host).value;
    OwnExtensionsShape(base, a.extensions, 0, []);
    MergeSound([], Flatten(ChainLists(storage, chain, m.ownExtensions)));
    StoredShape(host, m.extensions, a.values, 0, map[]);
  }

  /** The facts about a built metadata record that registering relies on and that callers can use. */
  lemma BuildMetaFacts(storage: Storage, rank: map<string, nat>, base: nat, name: Js, version: Js,
                       attributes: Option<Attributes>, host: Host)
    requires Ranked(storage, rank)
    requires BuildMeta(storage, rank, base, name, version, attributes, host).Ok?
    ensures var m := BuildMeta(storage, rank, base, name, version, attributes, host).value;
      var a := attributes.value;
      ReachesExtensions(storage, rank, name, version, attributes) &&
      CreateClassId(name, version) == Ok(m.classId) &&
      Fits(storage, m) &&
      (m.classId !in storage ==> NoDup(m.representedClasses)) &&
      |m.ownExtensions| == |a.extensions| &&
      (forall k :: 0 <= k < |a.extensions| ==>
         ClassExtension(base + k, a.extensions[k].0, a.extensions[k].1) == Ok(m.ownExtensions[k]) &&
         m.ownExtensions[k].serial == base + k) &&
      Merge(ChainLists(storage, m.representedClasses, m.ownExtensions)) == Ok(m.extensions) &&
      UniqueNames(m.extensions) && UniqueSerials(m.extensions) &&
      (forall key :: key in m.stored <==> StoresAttribute(m.extensions, a.values, key))
  {
    var id := CreateClassId(name, version).value;
    var a := attributes.value;
    var chain := InheritanceChain(storage, rank, id, a.inherits).value;
    assert BuildMeta(storage, rank, base, name, version, attributes, host) ==
      BuildParts(storage, base, id, name, version, a, chain, host);
    InheritanceChainFacts(storage, rank, id, a.inherits);
    BuildPartsFacts(storage, base, id, name, version, a, chain, host);
  }

  /** The registry's failures, in the order the constructor and `register` check them. */
  lemma BuildMetaErrors(storage: Storage, rank: map<string, nat>, base: nat, name: Js, version: Js,
                        attributes: Option<Attributes>, host: Host)
    requires Ranked(storage, rank)
    ensures !Truthy(name) ==> BuildMeta(storage, rank, base, name, version, attributes, host) == Err(MissingClassName)
    ensures Truthy(name) && !Truthy(version) ==>
      BuildMeta(storage, rank, base, name, version, attributes, host) == Err(MissingClassVersion)
    ensures Truthy(name) && Truthy(version) && attributes.None? ==>
      BuildMeta(storage, rank, base, name, version, attributes, host) == Err(MissingAttributes)
    ensures (Truthy(name) && Truthy(version) && attributes.Some? &&
             Truthy(attributes.value.extendsAttr) && !IsObject(attributes.value.extendsAttr)) ==>
      BuildMeta(storage, rank, base, name, version, attributes, host) == Err(ExtendsNotObject)
    ensures (attributes.Some? &&
             exists j :: 0 <= j < |attributes.value.inherits| &&
               !(ParentId(attributes.value.inherits[j]).Ok? && ParentId(attributes.value.inherits[j]).value in storage)) ==>
      BuildMeta(storage, rank, base, name, version, attributes, host).Err?
  {
    if !Truthy(name) || !Truthy(version) {
      assert CreateClassId(name, version).Err?;
    } else if attributes.Some? {
      UnresolvedParentFails(storage, rank, base, name, version, attributes.value, host);
    }
  }

  /** A parent that does not resolve makes the build fail. */
  lemma UnresolvedParentFails(storage: Storage, rank: map<string, nat>, base: nat, name: Js, version: Js,
                              a: Attributes, host: Host)
    requires Ranked(storage, rank)
    ensures (exists j :: 0 <= j < |a.inherits| && !(ParentId(a.inherits[j]).Ok? && ParentId(a.inherits[j]).value in storage)) ==>
      BuildMeta(storage, rank, base, name, version, Some(a), host).Err?
  {
    if exists j :: 0 <= j < |a.inherits| && !(ParentId(a.inherits[j]).Ok? && ParentId(a.inherits[j]).value in storage) {
      var j :| 0 <= j < |a.inherits| && !(ParentId(a.inherits[j]).Ok? && ParentId(a.inherits[j]).value in storage);
      UnresolvedAtFails(storage, rank, base, name, version, a, host, j);
    }
  }

  /** The parent at `j` does not resolve, so the build fails. */
  lemma UnresolvedAtFails(storage: Storage, rank: map<string, nat>, base: nat, name: Js, version: Js,
                          a: Attributes, host: Host, j: nat)
    requires Ranked(storage, rank) && j < |a.inherits|
    requires !(ParentId(a.inherits[j]).Ok? && ParentId(a.inherits[j]).value in storage)
    ensures BuildMeta(storage, rank, base, name, version, Some(a), host).Err?
  {
    if CreateClassId(name, version).Ok? {
      var id := CreateClassId(name, version).value;
      if Truthy(a.extendsAttr) && !IsObject(a.extendsAttr) {
        assert BuildMeta(storage, rank, base, name, version, Some(a), host) == Err(ExtendsNotObject);
      } else {
        UnresolvedChainFails(storage, rank, id, a.inherits, j);
        assert BuildMeta(storage, rank, base, name, version, Some(a), host) ==
               Err(InheritanceChain(storage, rank, id, a.inherits).error);
      }
    }
  }

  /**
   * A class whose id, attributes and `extends` pass fails with the error of
   * its first parent that does not resolve: the class-id error, or "not
   * defined" for a parent id that is not stored.
   */
  lemma BuildMetaParentError(storage: Storage, rank: map<string, nat>, base: nat, name: Js, version: Js,
                             attributes: Option<Attributes>, host: Host, j: nat)
    requires Ranked(storage, rank)
    requires Truthy(name) && Truthy(version) && attributes.Some?
    requires !(Truthy(attributes.value.extendsAttr) && !IsObject(attributes.value.extendsAttr))
    requires j < |attributes.value.inherits|
    requires forall l :: 0 <= l < j ==>
      ParentId(attributes.value.inherits[l]).Ok? && ParentId(attributes.value.inherits[l]).value in storage
    requires !(ParentId(attributes.value.inherits[j]).Ok? && ParentId(attributes.value.inherits[j]).value in storage)
    ensures BuildMeta(storage, rank, base, name, version, attributes, host) == Err(ParentError(attributes.value.inherits[j]))
  {
    InheritanceChainFirstError(storage, rank, CreateClassId(name, version).value, attributes.value.inherits, j);
  }

  /** The registry's invariant: ranked (hence acyclic), each entry under its own id with a good chain. */
  ghost predicate ValidTable(storage: Storage, rank: map<string, nat>) {
    Ranked(storage, rank) &&
    (forall id :: id in storage ==> storage[id].classId == id && StoredChain(storage, storage[id]))
  }

  /** Storing a fitting record under a new id, ranked last, keeps the table ranked. */
  lemma InsertKeepsRanked(storage: Storage, rank: map<string, nat>, meta: ClassMeta)
    requires Ranked(storage, rank) && Fits(storage, meta) && meta.classId !in storage
    ensures Ranked(storage[meta.classId := meta], rank[meta.classId := |storage|])
  {
    var s1 := storage[meta.classId := meta];
    var r1 := rank[meta.classId := |storage|];
    var c := meta.representedClasses;
    forall id | id in s1 ensures ParentsBelow(s1, r1, s1[id].inherits, r1[id]) {
      if id != meta.classId {
        assert s1[id] == storage[id];
      } else {
        forall j | 0 <= j < |meta.inherits|
          ensures ParentId(meta.inherits[j]).value in storage
        {
          var p := ParentId(meta.inherits[j]).value;
          var k :| 0 <= k < |c| - 1 && c[..|c| - 1][k] == p;
        }
      }
    }
  }

  /** Storing a fitting record under a new id keeps every stored chain good, the new one included. */
  lemma InsertKeepsChains(storage: Storage, rank: map<string, nat>, meta: ClassMeta)
    requires ValidTable(storage, rank) && Fits(storage, meta) && meta.classId !in storage
    ensures var s1 := storage[meta.classId := meta];
      forall id :: id in s1 ==> s1[id].classId == id && StoredChain(s1, s1[id])
  {
    var s1 := storage[meta.classId := meta];
    var c := meta.representedClasses;
    forall id | id in storage ensures GoodFound(s1, storage[id].representedClasses) {
      GoodFoundGrows(storage, s1, storage[id].representedClasses);
    }
    GoodFoundGrows(storage, s1, c[..|c| - 1]);
    assert c == c[..|c| - 1] + [meta.classId];
    AppendGood(s1, c[..|c| - 1], meta.classId);
  }

  /** Storing a fitting metadata record under a new id keeps the invariant, the new class ranked last. */
  lemma InsertKeepsValid(storage: Storage, rank: map<string, nat>, meta: ClassMeta)
    requires ValidTable(storage, rank) && Fits(storage, meta) && meta.classId !in storage
    ensures ValidTable(storage[meta.classId := meta], rank[meta.classId := |storage|])
  {
    InsertKeepsRanked(storage, rank, meta);
    InsertKeepsChains(storage, rank, meta);
  }

  /** The identity table of a list of extension objects: each serial to its object. */
  ghost function OwnObjects(own: seq<Extension>): (m: map<nat, Extension>)
    requires UniqueSerials(own)
    ensures Follows(m, own)
    decreases |own|
  {
    if own == [] then map[]
    else
      var n := |own| - 1;
      var m := OwnObjects(own[..n])[own[n].serial := own[n]];
      assert forall k :: 0 <= k < n ==> own[..n][k] == own[k];
      m
  }

  /** Every serial in the identity table of `own` is one of its objects'. */
  lemma {:induction false} OwnObjectsKeys(own: seq<Extension>, s: nat)
    requires UniqueSerials(own) && s in OwnObjects(own)
    ensures HasSerial(own, s)
    decreases |own|
  {
    var n := |own| - 1;
    if s != own[n].serial {
      OwnObjectsKeys(own[..n], s);
      var k :| 0 <= k < n && own[..n][k].serial == s;
      assert own[k].serial == s;
    }
  }

  /** The table's extension objects all recorded in `objects`, with serials below `next`. */
  ghost predicate ObjectsRecorded(storage: Storage, objects: map<nat, Extension>, next: nat) {
    (forall s :: s in objects ==> s < next) &&
    (forall id :: id in storage ==> Follows(objects, storage[id].ownExtensions))
  }

  /**
   * The objects of the chain of a class being built: those of the stored
   * classes and the fresh own extensions, numbered from `base` on, are all
   * drawn from one identity table.
   */
  lemma ChainListsFollow(storage: Storage, objects: map<nat, Extension>, base: nat, chain: seq<string>, own: seq<Extension>)
    requires ObjectsRecorded(storage, objects, base)
    requires forall k :: 0 <= k < |own| ==> own[k].serial == base + k
    ensures UniqueSerials(own) && Follows(objects + OwnObjects(own), Flatten(ChainLists(storage, chain, own)))
  {
    var more := OwnObjects(own);
    var all := objects + more;
    var lists := ChainLists(storage, chain, own);
    forall l | 0 <= l < |lists| ensures Follows(all, lists[l]) {
      if l < |chain| - 1 && chain[l] in storage {
        OlderObjectsFollow(objects, base, own, storage[chain[l]].ownExtensions);
      }
    }
    FollowsFlatten(all, lists);
  }

  /** Objects older than `base` keep their identities once the objects numbered from `base` on are added. */
  lemma OlderObjectsFollow(objects: map<nat, Extension>, base: nat, own: seq<Extension>, xs: seq<Extension>)
    requires (forall s :: s in objects ==> s < base) && Follows(objects, xs)
    requires forall k :: 0 <= k < |own| ==> own[k].serial == base + k
    ensures UniqueSerials(own) && Follows(objects + OwnObjects(own), xs)
  {
    var more := OwnObjects(own);
    forall k | 0 <= k < |xs| ensures xs[k].serial in objects + more && (objects + more)[xs[k].serial] == xs[k] {
      if xs[k].serial in more {
        OwnObjectsKeys(own, xs[k].serial);
        assert false;
      }
    }
  }

  /**
   * The merge of the parts of a class once its chain is known, with all the
   * chain's extension objects drawn from one identity table: it fails with an
   * extension conflict exactly when two distinct objects share a name, and
   * otherwise keeps the first-seen objects, the class's own ones among them.
   */
  lemma BuildPartsMerge(storage: Storage, base: nat, id: string, name: Js, version: Js, a: Attributes,
                        chain: seq<string>, host: Host, objects: map<nat, Extension>)
    requires |chain| > 0 && OwnExtensionsFrom(base, a.extensions, 0, []).Ok?
    requires Follows(objects, Flatten(ChainLists(storage, chain, OwnExtensionsFrom(base, a.extensions, 0, []).value)))
    ensures var own := OwnExtensionsFrom(base, a.extensions, 0, []).value;
      var es := Flatten(ChainLists(storage, chain, own));
      var b := BuildParts(storage, base, id, name, version, a, chain, host);
      SerialFunctional(es) &&
      (!NoClash(es) ==> b.Err? && b.error.ExtensionConflict?) &&
      (NoClash(es) ==> (b.Ok? <==> StoredFrom(host, FirstSeen(es), a.values, 0, map[]).Ok?)) &&
      (b.Ok? ==> NoClash(es) && b.value.extensions == FirstSeen(es) &&
                 forall k :: 0 <= k < |own| ==> own[k] in b.value.extensions)
  {
    var own := OwnExtensionsFrom(base, a.extensions, 0, []).value;
    var lists := ChainLists(storage, chain, own);
    var es := Flatten(lists);
    FollowsFunctional(objects, es);
    MergeCharacterized(es);
    if NoClash(es) {
      forall k | 0 <= k < |own| ensures own[k] in FirstSeen(es) {
        FlattenHas(lists, |chain| - 1, k);
        FirstSeenKeeps(es, own[k]);
      }
    }
  }

  /**
   * The merge for a class the registry builds. Once the id, `extends`, the
   * chain and the own extensions have passed, the build fails with an
   * extension conflict exactly when two distinct extension objects along the
   * chain share a name; otherwise its extensions are the first-seen objects,
   * the class's own extensions among them.
   */
  lemma BuildMetaMerge(storage: Storage, rank: map<string, nat>, objects: map<nat, Extension>, base: nat,
                       name: Js, version: Js, attributes: Option<Attributes>, host: Host)
    requires Ranked(storage, rank) && ObjectsRecorded(storage, objects, base)
    requires ReachesExtensions(storage, rank, name, version, attributes)
    requires OwnExtensionsFrom(base, attributes.value.extensions, 0, []).Ok?
    ensures var chain := InheritanceChain(storage, rank, CreateClassId(name, version).value, attributes.value.inherits).value;
      var own := OwnExtensionsFrom(base, attributes.value.extensions, 0, []).value;
      var es := Flatten(ChainLists(storage, chain, own));
      var b := BuildMeta(storage, rank, base, name, version, attributes, host);
      SerialFunctional(es) &&
      (!NoClash(es) ==> b.Err? && b.error.ExtensionConflict?) &&
      (NoClash(es) ==> (b.Ok? <==> StoredFrom(host, FirstSeen(es), attributes.value.values, 0, map[]).Ok?)) &&
      (b.Ok? ==> NoClash(es) && b.value.extensions == FirstSeen(es) &&
                 forall k :: 0 <= k < |own| ==> own[k] in b.value.extensions)
  {
    var id := CreateClassId(name, version).value;
    var a := attributes.value;
    var chain := InheritanceChain(storage, rank, id, a.inherits).value;
    var own := OwnExtensionsFrom(base, a.extensions, 0, []).value;
    assert BuildMeta(storage, rank, base, name, version, attributes, host) ==
      BuildParts(storage, base, id, name, version, a, chain, host);
    InheritanceChainFacts(storage, rank, id, a.inherits);
    OwnExtensionsShape(base, a.extensions, 0, []);
    ChainListsFollow(storage, objects, base, chain, own);
    BuildPartsMerge(storage, base, id, name, version, a, chain, host, objects + OwnObjects(own));
  }

  /** Extension objects numbered from `base` on are new to a table whose serials are all below `base`. */
  lemma NumberedFresh(objects: map<nat, Extension>, base: nat, own: seq<Extension>)
    requires forall s :: s in objects ==> s < base
    requires forall k :: 0 <= k < |own| ==> own[k].serial == base + k
    ensures UniqueSerials(own)
    ensures forall k :: 0 <= k < |own| ==> own[k].serial !in objects && own[k].serial < base + |own|
  {
  }

  /** A record the registry builds fits its table, and its extension objects are new to it. */
  lemma BuiltFitsTable(storage: Storage, rank: map<string, nat>, objects: map<nat, Extension>, base: nat,
                       name: Js, version: Js, attributes: Option<Attributes>, host: Host)
    requires Ranked(storage, rank) && ObjectsRecorded(storage, objects, base)
    requires BuildMeta(storage, rank, base, name, version, attributes, host).Ok?
    ensures var m := BuildMeta(storage, rank, base, name, version, attributes, host).value;
      ReachesExtensions(storage, rank, name, version, attributes) &&
      Fits(storage, m) && UniqueSerials(m.ownExtensions) &&
      forall k :: 0 <= k < |m.ownExtensions| ==>
        m.ownExtensions[k].serial !in objects && m.ownExtensions[k].serial < base + |attributes.value.extensions|
  {
    var m := BuildMeta(storage, rank, base, name, version, attributes, host).value;
    BuildMetaFacts(storage, rank, base, name, version, attributes, host);
    NumberedFresh(objects, base, m.ownExtensions);
  }

  /** A later counter keeps the invariant. */
  lemma ConsistentGrows(storage: Storage, rank: map<string, nat>, objects: map<nat, Extension>, n: nat, n': nat)
    requires Consistent(storage, rank, objects, n) && n <= n'
    ensures Consistent(storage, rank, objects, n')
  {
    ObjectsRecordedGrows(storage, objects, n, n');
  }

  /** A later counter keeps the recorded objects below it. */
  lemma ObjectsRecordedGrows(storage: Storage, objects: map<nat, Extension>, n: nat, n': nat)
    requires ObjectsRecorded(storage, objects, n) && n <= n'
    ensures ObjectsRecorded(storage, objects, n')
  {
  }

  /** Recording a new class's fresh extension objects keeps every stored class's objects recorded. */
  lemma InsertKeepsObjects(storage: Storage, objects: map<nat, Extension>, next: nat, meta: ClassMeta)
    requires ObjectsRecorded(storage, objects, next) && UniqueSerials(meta.ownExtensions)
    requires forall k :: 0 <= k < |meta.ownExtensions| ==>
      meta.ownExtensions[k].serial !in objects && meta.ownExtensions[k].serial < next
    ensures ObjectsRecorded(storage[meta.classId := meta], objects + OwnObjects(meta.ownExtensions), next)
  {
    var own := meta.ownExtensions;
    var more := OwnObjects(own);
    var all := objects + more;
    forall s | s in all ensures s < next {
      if s in more {
        OwnObjectsKeys(own, s);
      }
    }
    forall id | id in storage && id != meta.classId ensures Follows(all, storage[id].ownExtensions) {
      var xs := storage[id].ownExtensions;
      forall k | 0 <= k < |xs| ensures xs[k].serial in all && all[xs[k].serial] == xs[k] {
        if xs[k].serial in more {
          OwnObjectsKeys(own, xs[k].serial);
          assert false;
        }
      }
    }
  }

  /** The registry's invariant: a valid table whose extension objects are all recorded below the counter. */
  ghost predicate Consistent(storage: Storage, rank: map<string, nat>, objects: map<nat, Extension>, next: nat) {
    ValidTable(storage, rank) && ObjectsRecorded(storage, objects, next)
  }

  /** Storing a fitting record with new extension objects keeps the invariant. */
  lemma InsertKeepsConsistent(storage: Storage, rank: map<string, nat>, objects: map<nat, Extension>, next: nat, meta: ClassMeta)
    requires Consistent(storage, rank, objects, next) && Fits(storage, meta) && meta.classId !in storage
    requires UniqueSerials(meta.ownExtensions)
    requires forall k :: 0 <= k < |meta.ownExtensions| ==>
      meta.ownExtensions[k].serial !in objects && meta.ownExtensions[k].serial < next
    ensures Consistent(storage[meta.classId := meta], rank[meta.classId := |storage|],
                       objects + OwnObjects(meta.ownExtensions), next)
  {
    InsertKeepsValid(storage, rank, meta);
    InsertKeepsObjects(storage, objects, next, meta);
  }

  /** The registry (`MetadataManager`) with its table `storage`. */
  class MetadataManager {
    var storage: Storage
    /** the registration position of each stored class */
    ghost var rank: map<string, nat>
    /** the number of extension objects created so far; gives each one its identity */
    var extensionSerial: nat
    /** the extension objects of the stored classes, by identity */
    ghost var objects: map<nat, Extension>

    /**
     * The table is ranked with good chains, and every extension object it
     * holds was created before the counter: a new one is a different object.
     */
    ghost predicate Valid()
      reads this
    {
      Consistent(storage, rank, objects, extensionSerial)
    }

    constructor ()
      ensures Valid() && storage == map[] && extensionSerial == 0
    {
      storage := map[];
      rank := map[];
      extensionSerial := 0;
      objects := map[];
    }

    /** The merge of every class the registry goes on to build, as `BuildMetaMerge` states it. */
    lemma MergeOnDefine(name: Js, version: Js, attributes: Option<Attributes>, host: Host)
      requires Valid() && ReachesExtensions(storage, rank, name, version, attributes)
      requires OwnExtensionsFrom(extensionSerial, attributes.value.extensions, 0, []).Ok?
      ensures var chain := InheritanceChain(storage, rank, CreateClassId(name, version).value, attributes.value.inherits).value;
        var own := OwnExtensionsFrom(extensionSerial, attributes.value.extensions, 0, []).value;
        var es := Flatten(ChainLists(storage, chain, own));
        var b := BuildMeta(storage, rank, extensionSerial, name, version, attributes, host);
        (!NoClash(es) ==> b.Err? && b.error.ExtensionConflict?) &&
        (b.Ok? ==> NoClash(es) && b.value.extensions == FirstSeen(es) &&
                   forall k :: 0 <= k < |own| ==> own[k] in b.value.extensions)
    {
      BuildMetaMerge(storage, rank, objects, extensionSerial, name, version, attributes, host);
    }

    /** `getClassMetadataByClassId`: the stored metadata, or a "not defined" error. */
    function GetClassMetadataByClassId(classId: string): (r: Result<ClassMeta>)
      reads this`storage
      ensures r.Ok? <==> classId in storage
      ensures r.Ok? ==> r.value == storage[classId]
      ensures r.Err? ==> r.error == NotDefined(classId)
    {
      if classId in storage then Ok(storage[classId]) else Err(NotDefined(classId))
    }

    /**
     * `getClassMetadata(a0, a1)`: a metadata object is returned as it is; a
     * string is a class name with the version `a1`, or a class id when `a1`
     * is undefined; anything else is an error.
     */
    function GetClassMetadata(a0: ClassArg, a1: Js): (r: Result<ClassMeta>)
      reads this
      ensures a0.MetaArg? ==> r == Ok(a0.meta)
      ensures a0.ValueArg? && !a0.v.Str? ==> r == Err(UnidentifiableClass)
      ensures a0.ValueArg? && a0.v.Str? && a1 == Undefined ==> r == GetClassMetadataByClassId(a0.v.s)
      ensures a0.ValueArg? && a0.v.Str? && a1 != Undefined ==>
        r == (match CreateClassId(a0.v, a1)
              case Err(e) => Err(e)
              case Ok(id) => GetClassMetadataByClassId(id))
    {
      match a0
      case MetaArg(m) => Ok(m)
      case ValueArg(v) =>
        if !v.Str? then Err(UnidentifiableClass)
        else if a1 != Undefined then
          match CreateClassId(v, a1)
          case Err(e) => Err(e)
          case Ok(id) => GetClassMetadataByClassId(id)
        else GetClassMetadataByClassId(v.s)
    }

    /** Looking up a parent named in `inherits` finds exactly the stored class the chain walk resolves it to. */
    lemma ParentLookup(p: (string, Js))
      requires Valid()
      ensures GetClassMetadata(ValueArg(Str(p.0)), p.1).Ok? <==> ParentId(p).Ok? && ParentId(p).value in storage
      ensures GetClassMetadata(ValueArg(Str(p.0)), p.1).Ok? ==>
        GetClassMetadata(ValueArg(Str(p.0)), p.1).value.classId == ParentId(p).value
    {
    }

    /** `findInheritedMetadata` on a stored class. */
    method FindInheritedMetadata(id: string, found: seq<string>) returns (r: Result<seq<string>>)
      requires Valid() && id in storage
      ensures r == Visit(storage, rank, id, found)
      decreases rank[id], 1
    {
      if id in found {
        return Ok(found);
      }
      var f := FindInheritedParents(storage[id].inherits, rank[id], found);
      if f.Err? {
        return Err(f.error);
      }
      r := Ok(f.value + [id]);
    }

    /** The loop of `findInheritedMetadata` over the entries of `inherits`. */
    method FindInheritedParents(ps: seq<(string, Js)>, ghost bound: nat, found: seq<string>) returns (r: Result<seq<string>>)
      requires Valid()
      requires forall j :: 0 <= j < |ps| && ParentId(ps[j]).Ok? && ParentId(ps[j]).value in storage ==> rank[ParentId(ps[j]).value] < bound
      ensures r == VisitParents(storage, rank, ps, bound, 0, found)
      decreases bound, 0
    {
      var cur := found;
      var i := 0;
      while i < |ps|
        invariant 0 <= i <= |ps|
        invariant VisitParents(storage, rank, ps, bound, 0, found) == VisitParents(storage, rank, ps, bound, i, cur)
      {
        var parent := GetClassMetadata(ValueArg(Str(ps[i].0)), ps[i].1);
        ParentLookup(ps[i]);
        if parent.Err? {
          return Err(parent.error);
        }
        var next := FindInheritedMetadata(parent.value.classId, cur);
        if next.Err? {
          return Err(next.error);
        }
        cur := next.value;
        i := i + 1;
      }
      r := Ok(cur);
    }

    /** `getInheritanceChain(this)` for a class being defined: its parents' walk, then the class. */
    method GetInheritanceChain(classId: string, inherits: seq<(string, Js)>) returns (r: Result<seq<string>>)
      requires Valid()
      ensures r == InheritanceChain(storage, rank, classId, inherits)
    {
      var f := FindInheritedParents(inherits, |storage|, []);
      if f.Err? {
        return Err(f.error);
      }
      r := Ok(f.value + [classId]);
    }

    /** `new ClassMetadata(name, version, attributes)`; creating extension objects uses up serials. */
    method NewClassMetadata(name: Js, version: Js, attributes: Option<Attributes>, host: Host) returns (r: Result<ClassMeta>)
      requires Valid()
      modifies this`extensionSerial
      ensures r == BuildMeta(storage, rank, old(extensionSerial), name, version, attributes, host)
      ensures extensionSerial == old(extensionSerial) +
        (if ReachesExtensions(storage, rank, name, version, attributes) then |attributes.value.extensions| else 0)
    {
      var base := extensionSerial;
      var id := CreateClassId(name, version);
      if id.Err? {
        return Err(id.error);
      }
      if attributes.None? {
        return Err(MissingAttributes);
      }
      var a := attributes.value;
      if Truthy(a.extendsAttr) && !IsObject(a.extendsAttr) {
        return Err(ExtendsNotObject);
      }
      var chain := GetInheritanceChain(id.value, a.inherits);
      if chain.Err? {
        return Err(chain.error);
      }
      assert BuildMeta(storage, rank, base, name, version, attributes, host)
          == BuildParts(storage, base, id.value, name, version, a, chain.value, host);
      extensionSerial := extensionSerial + |a.extensions|;
      r := BuildRest(storage, base, id.value, name, version, a, chain.value, host);
    }

    /**
     * `register(classMeta)`: a class id already stored is an error and leaves
     * the table as it was; otherwise the metadata is stored under its class id.
     */
    method Register(meta: ClassMeta) returns (r: Result<Unit>)
      requires Valid() && Fits(storage, meta) && FreshExtensions(meta)
      modifies this`storage, this`rank, this`objects
      ensures Valid()
      ensures old(meta.classId in storage) ==> r == Err(AlreadyDefined(meta.classId)) && storage == old(storage)
      ensures old(meta.classId !in storage) ==> r == Ok(Unit) && storage == old(storage)[meta.classId := meta]
      ensures r.Ok? ==> GetClassMetadataByClassId(meta.classId) == Ok(meta)
      ensures forall id :: id in old(storage) ==> GetClassMetadataByClassId(id) == old(GetClassMetadataByClassId(id))
    {
      if meta.classId in storage {
        return Err(AlreadyDefined(meta.classId));
      }
      Insert(meta);
      r := Ok(Unit);
    }

    /** `classMetadataStorage[classId] = classMeta` for a new id, ranked last, its extension objects recorded. */
    method Insert(meta: ClassMeta)
      requires Valid() && Fits(storage, meta) && FreshExtensions(meta) && meta.classId !in storage
      modifies this`storage, this`rank, this`objects
      ensures Valid() && storage == old(storage)[meta.classId := meta]
    {
      InsertKeepsConsistent(storage, rank, objects, extensionSerial, meta);
      storage := storage[meta.classId := meta];
      rank := rank[meta.classId := |old(storage)|];
      objects := objects + OwnObjects(meta.ownExtensions);
    }

    /** A record's own extensions are new objects: distinct, created already, and not held by the table. */
    ghost predicate FreshExtensions(meta: ClassMeta)
      reads this
    {
      UniqueSerials(meta.ownExtensions) &&
      forall k :: 0 <= k < |meta.ownExtensions| ==>
        meta.ownExtensions[k].serial !in objects && meta.ownExtensions[k].serial < extensionSerial
    }

    /** `define(name, version, attributes)`: build the metadata, then register it. */
    method Define(name: Js, version: Js, attributes: Option<Attributes>, host: Host) returns (r: Result<Unit>)
      requires Valid()
      modifies this
      ensures Valid()
      ensures var b := BuildMeta(old(storage), old(rank), old(extensionSerial), name, version, attributes, host);
        (b.Err? ==> r == Err(b.error) && storage == old(storage)) &&
        (b.Ok? && b.value.classId in old(storage) ==> r == Err(AlreadyDefined(b.value.classId)) && storage == old(storage)) &&
        (b.Ok? && b.value.classId !in old(storage) ==> r == Ok(Unit) && storage == old(storage)[b.value.classId := b.value])
      ensures extensionSerial == old(extensionSerial) +
        (if ReachesExtensions(old(storage), old(rank), name, version, attributes) then |attributes.value.extensions| else 0)
    {
      ghost var s0, r0, base := storage, rank, extensionSerial;
      ghost var b := BuildMeta(s0, r0, base, name, version, attributes, host);
      var m := NewClassMetadata(name, version, attributes, host);
      assert m == b;
      if m.Err? {
        return Err(m.error);
      }
      assert storage == s0 && rank == r0;
      BuiltFitsTable(s0, r0, objects, base, name, version, attributes, host);
      ConsistentGrows(s0, r0, objects, base, extensionSerial);
      r := Register(m.value);
    }
  }
}
