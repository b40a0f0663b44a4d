/**
 * Class metadata records, extension validation (`ClassExtension`), the merge
 * of extensions along the inheritance chain and the `store` transforms.
 */
module Metadata {
  import opened JsValues

  /** A validated extension. `serial` stands for the identity of the extension object. */
  datatype Extension = Extension(serial: nat, name: string, store: Js, implementation: FnRef, kind: int)

  /** The record an extension is declared with in a class's `extensions` attribute. */
  datatype ExtensionMeta = ExtensionMeta(implementation: Js, store: Js, kind: Js)

  /**
   * A class payload: `extends` (`Undefined` when absent), `inherits` and
   * `extensions` in key order, and every other attribute by name.
   */
  datatype Attributes = Attributes(
    extendsAttr: Js,
    inherits: seq<(string, Js)>,
    extensions: seq<(string, ExtensionMeta)>,
    values: map<string, Js>)

  /**
   * A frozen `ClassMetadata`. `representedClasses` holds class ids, the class
   * itself last; `stored` holds the attributes written by `store` transforms.
   */
  datatype ClassMeta = ClassMeta(
    classId: string,
    name: Js,
    version: Js,
    extendsAttr: Js,
    inherits: seq<(string, Js)>,
    representedClasses: seq<string>,
    ownExtensions: seq<Extension>,
    extensions: seq<Extension>,
    stored: map<string, Js>)

  /** Reading an attribute property of a metadata object: `Undefined` when it was never set. */
  function Attr(m: ClassMeta, key: string): Js {
    if key in m.stored then m.stored[key] else Undefined
  }

  // ---------------------------------------------------------------------
  // ClassExtension

  predicate ValidExtensionMeta(name: string, meta: ExtensionMeta) {
    name != "" && meta.implementation.Fn? && (meta.store == Undefined || meta.store.Fn?) && meta.kind.Num?
  }

  /**
   * `new ClassExtension(name, meta)`: the name must be non-empty, the
   * implementation a function, the store absent or a function, the type a
   * number; the checks are made in that order.
   */
  function ClassExtension(serial: nat, name: string, meta: ExtensionMeta): (r: Result<Extension>)
    ensures r.Ok? <==> ValidExtensionMeta(name, meta)
    ensures name == "" ==> r == Err(ExtensionNameMissing)
    ensures name != "" && !meta.implementation.Fn? ==> r == Err(ImplementationNotFunction)
    ensures name != "" && meta.implementation.Fn? && meta.store != Undefined && !meta.store.Fn? ==> r == Err(StoreNotFunction)
    ensures name != "" && meta.implementation.Fn? && (meta.store == Undefined || meta.store.Fn?) && !meta.kind.Num? ==> r == Err(TypeNotNumber)
    ensures r.Ok? ==> (r.value.serial == serial && r.value.name == name && Fn(r.value.implementation) == meta.implementation &&
                       r.value.store == meta.store && Num(r.value.kind) == meta.kind)
  {
    if name == "" then Err(ExtensionNameMissing)
    else if !meta.implementation.Fn? then Err(ImplementationNotFunction)
    else if meta.store != Undefined && !meta.store.Fn? then Err(StoreNotFunction)
    else if !meta.kind.Num? then Err(TypeNotNumber)
    else Ok(Extension(serial, name, meta.store, meta.implementation.f, meta.kind.n))
  }

  /**
   * The class's own extensions, built in declaration order from serial `base`
   * on; the loop state is the index `i` and the extensions built so far.
   */
  function OwnExtensionsFrom(base: nat, decls: seq<(string, ExtensionMeta)>, i: nat, acc: seq<Extension>): Result<seq<Extension>>
    requires i <= |decls|
    decreases |decls| - i
  {
    if i == |decls| then Ok(acc)
    else match ClassExtension(base + i, decls[i].0, decls[i].1)
      case Err(e) => Err(e)
      case Ok(x) => OwnExtensionsFrom(base, decls, i + 1, acc + [x])
  }

  /** The own extensions succeed exactly when every declaration is valid, and are then those declarations, validated. */
  lemma {:induction false} OwnExtensionsShape(base: nat, decls: seq<(string, ExtensionMeta)>, i: nat, acc: seq<Extension>)
    requires i <= |decls| && |acc| == i
    requires forall k :: 0 <= k < i ==> ClassExtension(base + k, decls[k].0, decls[k].1) == Ok(acc[k])
    ensures var r := OwnExtensionsFrom(base, decls, i, acc);
      (r.Ok? <==> forall k :: i <= k < |decls| ==> ValidExtensionMeta(decls[k].0, decls[k].1)) &&
      (r.Ok? ==> |r.value| == |decls| &&
                 forall k :: 0 <= k < |decls| ==> ClassExtension(base + k, decls[k].0, decls[k].1) == Ok(r.value[k]))
    decreases |decls| - i
  {
    if i < |decls| {
      var c := ClassExtension(base + i, decls[i].0, decls[i].1);
      if c.Ok? {
        var acc' := acc + [c.value];
        forall k | 0 <= k < i + 1 ensures ClassExtension(base + k, decls[k].0, decls[k].1) == Ok(acc'[k]) {
        }
        OwnExtensionsShape(base, decls, i + 1, acc');
      }
    }
  }

  /** The own-extension loop of `ClassMetadata`. */
  method BuildOwnExtensions(base: nat, decls: seq<(string, ExtensionMeta)>) returns (r: Result<seq<Extension>>)
    ensures r == OwnExtensionsFrom(base, decls, 0, [])
  {
    var own: seq<Extension> := [];
    var i := 0;
    while i < |decls|
      invariant 0 <= i <= |decls|
      invariant OwnExtensionsFrom(base, decls, 0, []) == OwnExtensionsFrom(base, decls, i, own)
    {
      var x := ClassExtension(base + i, decls[i].0, decls[i].1);
      if x.Err? {
        return Err(x.error);
      }
      own := own + [x.value];
      i := i + 1;
    }
    r := Ok(own);
  }

  // ---------------------------------------------------------------------
  // Merging the extensions of the represented classes

  function Flatten(lists: seq<seq<Extension>>): seq<Extension>
    decreases |lists|
  {
    if lists == [] then [] else lists[0] + Flatten(lists[1..])
  }

  /** `extensions.indexOf(ext) != -1`: an extension object already in the list. */
  predicate HasSerial(s: seq<Extension>, serial: nat) {
    exists k :: 0 <= k < |s| && s[k].serial == serial
  }

  /** `extensionUniqueNames.indexOf(name) != -1`. */
  predicate HasName(s: seq<Extension>, name: string) {
    exists k :: 0 <= k < |s| && s[k].name == name
  }

  /**
   * The merge loop of `ClassMetadata` over the extensions of the represented
   * classes, in chain order: an extension object already taken is skipped, a
   * different one whose name is taken is a conflict, any other is appended.
   */
  function MergeFrom(acc: seq<Extension>, es: seq<Extension>): (r: Result<seq<Extension>>)
    ensures r.Err? ==> r.error.ExtensionConflict?
    decreases |es|
  {
    if es == [] then Ok(acc)
    else if HasSerial(acc, es[0].serial) then MergeFrom(acc, es[1..])
    else if HasName(acc, es[0].name) then Err(ExtensionConflict(es[0].name))
    else MergeFrom(acc + [es[0]], es[1..])
  }

  /** The merged extensions of a chain whose classes own the extension lists `lists`. */
  function Merge(lists: seq<seq<Extension>>): Result<seq<Extension>> {
    MergeFrom([], Flatten(lists))
  }

  /** Reference definition: the first occurrence of each extension object, in order. */
  function FirstSeen(s: seq<Extension>): seq<Extension>
    decreases |s|
  {
    if s == [] then []
    else
      var p := s[..|s| - 1];
      if HasSerial(p, s[|s| - 1].serial) then FirstSeen(p) else FirstSeen(p) + [s[|s| - 1]]
  }

  /** No two different extension objects share a name. */
  ghost predicate NoClash(s: seq<Extension>) {
    forall i, j :: 0 <= i < |s| && 0 <= j < |s| && s[i].name == s[j].name ==> s[i].serial == s[j].serial
  }

  /** An extension object (a serial) always carries the same fields. */
  ghost predicate SerialFunctional(s: seq<Extension>) {
    forall i, j :: 0 <= i < |s| && 0 <= j < |s| && s[i].serial == s[j].serial ==> s[i] == s[j]
  }

  ghost predicate UniqueSerials(s: seq<Extension>) {
    forall i, j :: 0 <= i < j < |s| ==> s[i].serial != s[j].serial
  }

  ghost predicate UniqueNames(s: seq<Extension>) {
    forall i, j :: 0 <= i < j < |s| ==> s[i].name != s[j].name
  }

  /** Every extension of `FirstSeen(s)` is one of `s`, and every object of `s` is kept. */
  lemma {:induction false} FirstSeenElements(s: seq<Extension>)
    ensures forall k :: 0 <= k < |FirstSeen(s)| ==> FirstSeen(s)[k] in s
    ensures forall x :: HasSerial(FirstSeen(s), x) <==> HasSerial(s, x)
    decreases |s|
  {
    if s != [] {
      var p := s[..|s| - 1];
      FirstSeenElements(p);
      assert s == p + [s[|s| - 1]];
      forall x | HasSerial(s, x) ensures HasSerial(FirstSeen(s), x) {
        var k :| 0 <= k < |s| && s[k].serial == x;
        if k < |s| - 1 {
          assert p[k].serial == x;
          assert HasSerial(p, x);
          var j :| 0 <= j < |FirstSeen(p)| && FirstSeen(p)[j].serial == x;
          assert FirstSeen(s)[j] == FirstSeen(p)[j];
        } else if !HasSerial(p, x) {
          assert FirstSeen(s)[|FirstSeen(s)| - 1] == s[k];
        }
      }
      forall x | HasSerial(FirstSeen(s), x) ensures HasSerial(s, x) {
        var k :| 0 <= k < |FirstSeen(s)| && FirstSeen(s)[k].serial == x;
        if k < |FirstSeen(p)| {
          assert FirstSeen(s)[k] == FirstSeen(p)[k];
          assert HasSerial(p, x);
          var j :| 0 <= j < |p| && p[j].serial == x;
          assert s[j] == p[j];
        } else {
          assert FirstSeen(s)[k] == s[|s| - 1];
        }
      }
    }
  }

  /** Without a name clash, the merge keeps exactly the first occurrence of each extension object. */
  lemma {:induction false} MergeKeepsFirstSeen(p: seq<Extension>, q: seq<Extension>)
    requires NoClash(p + q)
    ensures MergeFrom(FirstSeen(p), q) == Ok(FirstSeen(p + q))
    decreases |q|
  {
    if q == [] {
      assert p + q == p;
    } else {
      var x := q[0];
      var p' := p + [x];
      assert p + q == p' + q[1..];
      assert NoClash(p' + q[1..]);
      FirstSeenElements(p);
      assert p'[..|p'| - 1] == p;
      if HasSerial(p, x.serial) {
        assert HasSerial(FirstSeen(p), x.serial);
        assert FirstSeen(p') == FirstSeen(p);
      } else {
        assert !HasSerial(FirstSeen(p), x.serial);
        FreshNameKept(p, q);
        assert FirstSeen(p') == FirstSeen(p) + [x];
      }
      MergeKeepsFirstSeen(p', q[1..]);
    }
  }

  /** An extension object not met yet cannot clash by name with the ones kept so far. */
  lemma FreshNameKept(p: seq<Extension>, q: seq<Extension>)
    requires NoClash(p + q) && q != [] && !HasSerial(p, q[0].serial)
    ensures !HasName(FirstSeen(p), q[0].name)
  {
    FirstSeenElements(p);
    forall k | 0 <= k < |FirstSeen(p)| ensures FirstSeen(p)[k].name != q[0].name {
      var y := FirstSeen(p)[k];
      assert y in p;
      var j :| 0 <= j < |p| && p[j] == y;
      assert y.serial != q[0].serial;
      assert (p + q)[j] == y && (p + q)[|p|] == q[0];
    }
  }

  /** What a successful merge step by step guarantees: no repeats, no shared names, nothing lost, nothing invented. */
  lemma {:induction false} MergeSound(acc: seq<Extension>, q: seq<Extension>)
    requires UniqueNames(acc) && UniqueSerials(acc)
    requires MergeFrom(acc, q).Ok?
    ensures var v := MergeFrom(acc, q).value;
      UniqueNames(v) && UniqueSerials(v) &&
      (forall k :: 0 <= k < |acc| ==> HasSerial(v, acc[k].serial)) &&
      (forall k :: 0 <= k < |q| ==> HasSerial(v, q[k].serial)) &&
      (forall k :: 0 <= k < |v| ==> v[k] in acc || v[k] in q)
    decreases |q|
  {
    if q != [] {
      var x := q[0];
      var q' := q[1..];
      if HasSerial(acc, x.serial) {
        MergeSound(acc, q');
        forall k | 0 <= k < |q| ensures HasSerial(MergeFrom(acc, q).value, q[k].serial) {
          if k > 0 { assert q[k] == q'[k - 1]; }
          else {
            var j :| 0 <= j < |acc| && acc[j].serial == x.serial;
          }
        }
      } else {
        var acc' := acc + [x];
        assert !HasName(acc, x.name);
        forall i, j | 0 <= i < j < |acc'| ensures acc'[i].name != acc'[j].name {
          if j == |acc| { assert acc'[i] == acc[i]; }
        }
        forall i, j | 0 <= i < j < |acc'| ensures acc'[i].serial != acc'[j].serial {
          if j == |acc| { assert acc'[i] == acc[i]; assert acc[i].serial != x.serial; }
        }
        MergeSound(acc', q');
        var v := MergeFrom(acc, q).value;
        forall k | 0 <= k < |acc| ensures HasSerial(v, acc[k].serial) {
          assert acc'[k] == acc[k];
        }
        forall k | 0 <= k < |q| ensures HasSerial(v, q[k].serial) {
          if k > 0 { assert q[k] == q'[k - 1]; }
          else { assert acc'[|acc|] == x; }
        }
        forall k | 0 <= k < |v| ensures v[k] in acc || v[k] in q {
          if v[k] in acc' && v[k] !in acc {
            assert v[k] == x;
          }
        }
      }
    }
  }

  /**
   * The merge of a chain's extensions succeeds exactly when no two different
   * extension objects share a name; it then yields each object once, in the
   * order it is first met along the chain.
   */
  lemma MergeCharacterized(es: seq<Extension>)
    requires SerialFunctional(es)
    ensures MergeFrom([], es).Ok? <==> NoClash(es)
    ensures NoClash(es) ==> MergeFrom([], es) == Ok(FirstSeen(es))
    ensures MergeFrom([], es).Ok? ==> UniqueNames(MergeFrom([], es).value) && UniqueSerials(MergeFrom([], es).value)
  {
    if NoClash(es) {
      assert [] + es == es;
      MergeKeepsFirstSeen([], es);
    }
    if MergeFrom([], es).Ok? {
      MergeSound([], es);
      MergedHasNoClash(es);
    }
  }

  /** A successful merge means no two different extension objects share a name. */
  lemma MergedHasNoClash(es: seq<Extension>)
    requires SerialFunctional(es) && MergeFrom([], es).Ok?
    ensures NoClash(es)
  {
    MergeSound([], es);
    var v := MergeFrom([], es).value;
    forall i, j | 0 <= i < |es| && 0 <= j < |es| && es[i].name == es[j].name
      ensures es[i].serial == es[j].serial
    {
      SameNameSameObject(es, v, i, j);
    }
  }

  /** Two extensions of `es` with one name are one object, when the merged `v` represents them all. */
  lemma SameNameSameObject(es: seq<Extension>, v: seq<Extension>, i: nat, j: nat)
    requires SerialFunctional(es) && UniqueNames(v)
    requires forall k :: 0 <= k < |es| ==> HasSerial(v, es[k].serial)
    requires forall k :: 0 <= k < |v| ==> v[k] in es
    requires i < |es| && j < |es| && es[i].name == es[j].name
    ensures es[i].serial == es[j].serial
  {
    var a :| 0 <= a < |v| && v[a].serial == es[i].serial;
    var b :| 0 <= b < |v| && v[b].serial == es[j].serial;
    assert v[a] in es;
    assert v[b] in es;
    var ia :| 0 <= ia < |es| && es[ia] == v[a];
    var ib :| 0 <= ib < |es| && es[ib] == v[b];
    assert v[a] == es[i] && v[b] == es[j];
  }

  /**
   * Each extension of `s` is the object the identity table `objects` records
   * under its serial: one serial, one object.
   */
  ghost predicate Follows(objects: map<nat, Extension>, s: seq<Extension>) {
    forall k :: 0 <= k < |s| ==> s[k].serial in objects && objects[s[k].serial] == s[k]
  }

  /** Extensions drawn from one identity table satisfy the merge's serial premise. */
  lemma FollowsFunctional(objects: map<nat, Extension>, s: seq<Extension>)
    requires Follows(objects, s)
    ensures SerialFunctional(s)
  {
  }

  /** Lists drawn from one identity table flatten to a list drawn from it. */
  lemma {:induction false} FollowsFlatten(objects: map<nat, Extension>, lists: seq<seq<Extension>>)
    requires forall l :: 0 <= l < |lists| ==> Follows(objects, lists[l])
    ensures Follows(objects, Flatten(lists))
    decreases |lists|
  {
    if lists != [] {
      forall l | 0 <= l < |lists[1..]| ensures Follows(objects, lists[1..][l]) {
        assert lists[1..][l] == lists[l + 1];
      }
      FollowsFlatten(objects, lists[1..]);
      var t := Flatten(lists[1..]);
      forall k | 0 <= k < |lists[0] + t| ensures (lists[0] + t)[k].serial in objects && objects[(lists[0] + t)[k].serial] == (lists[0] + t)[k] {
        if k >= |lists[0]| {
          assert (lists[0] + t)[k] == t[k - |lists[0]|];
        }
      }
    }
  }

  /** Every extension of every list is in the flattened list. */
  lemma {:induction false} FlattenHas(lists: seq<seq<Extension>>, l: nat, k: nat)
    requires l < |lists| && k < |lists[l]|
    ensures lists[l][k] in Flatten(lists)
    decreases l
  {
    if l == 0 {
      assert Flatten(lists)[k] == lists[0][k];
    } else {
      FlattenHas(lists[1..], l - 1, k);
      assert lists[1..][l - 1] == lists[l];
      var t := Flatten(lists[1..]);
      var j :| 0 <= j < |t| && t[j] == lists[l][k];
      assert Flatten(lists)[|lists[0]| + j] == t[j];
    }
  }

  /** With one object per serial, every extension of `s` is in the first-seen list. */
  lemma FirstSeenKeeps(s: seq<Extension>, x: Extension)
    requires SerialFunctional(s) && x in s
    ensures x in FirstSeen(s)
  {
    FirstSeenElements(s);
    var p :| 0 <= p < |s| && s[p] == x;
    assert HasSerial(s, x.serial);
    var j :| 0 <= j < |FirstSeen(s)| && FirstSeen(s)[j].serial == x.serial;
    var y := FirstSeen(s)[j];
    assert y in s;
    var i :| 0 <= i < |s| && s[i] == y;
    assert y == x;
  }

  /** Extensions that are all different objects with different names merge to themselves, in order. */
  lemma {:induction false} MergeDistinct(acc: seq<Extension>, es: seq<Extension>)
    requires UniqueSerials(acc + es) && UniqueNames(acc + es)
    ensures MergeFrom(acc, es) == Ok(acc + es)
    decreases |es|
  {
    if es != [] {
      var all := acc + es;
      assert all[|acc|] == es[0];
      forall k | 0 <= k < |acc| ensures acc[k].serial != es[0].serial && acc[k].name != es[0].name {
        assert all[k] == acc[k];
      }
      assert acc + [es[0]] + es[1..] == all;
      MergeDistinct(acc + [es[0]], es[1..]);
    } else {
      assert acc + es == acc;
    }
  }

  /** The merge loop of `ClassMetadata`, over the own extensions of each represented class. */
  method MergeExtensions(lists: seq<seq<Extension>>) returns (r: Result<seq<Extension>>)
    ensures r == Merge(lists)
  {
    var extensions: seq<Extension> := [];
    var extensionUniqueNames: seq<string> := [];
    var i := 0;
    while i < |lists|
      invariant 0 <= i <= |lists|
      invariant |extensionUniqueNames| == |extensions|
      invariant forall k :: 0 <= k < |extensions| ==> extensionUniqueNames[k] == extensions[k].name
      invariant Merge(lists) == MergeFrom(extensions, Flatten(lists[i..]))
    {
      var own := lists[i];
      var j := 0;
      assert Flatten(lists[i..]) == own + Flatten(lists[i + 1..]);
      while j < |own|
        invariant 0 <= j <= |own|
        invariant |extensionUniqueNames| == |extensions|
        invariant forall k :: 0 <= k < |extensions| ==> extensionUniqueNames[k] == extensions[k].name
        invariant Merge(lists) == MergeFrom(extensions, own[j..] + Flatten(lists[i + 1..]))
      {
        var ext := own[j];
        ghost var rest := own[j..] + Flatten(lists[i + 1..]);
        assert rest[0] == ext && rest[1..] == own[j + 1..] + Flatten(lists[i + 1..]);
        if exists k :: 0 <= k < |extensions| && extensions[k].serial == ext.serial {
          j := j + 1;
          continue;
        }
        if ext.name in extensionUniqueNames {
          var k :| 0 <= k < |extensionUniqueNames| && extensionUniqueNames[k] == ext.name;
          assert extensions[k].name == ext.name;
          return Err(ExtensionConflict(ext.name));
        }
        assert !HasName(extensions, ext.name);
        extensions := extensions + [ext];
        extensionUniqueNames := extensionUniqueNames + [ext.name];
        j := j + 1;
      }
      assert own[j..] + Flatten(lists[i + 1..]) == Flatten(lists[i + 1..]);
      i := i + 1;
    }
    r := Ok(extensions);
  }

  // ---------------------------------------------------------------------
  // store transforms

  /** Calling a `store` transform on an attribute value; the engine's own `store` closures are known. */
  function CallStore(host: Host, f: FnRef, v: Js): Result<Js> {
    match f
    case Native(AbstractStore) => Ok(Bool(Truthy(v)))
    case Native(SingletonStore) => Ok(Bool(Truthy(v)))
    case Native(CreateStore) =>
      if v.Fn? || v == Null || v == Undefined then Ok(v) else Err(ConstructorNotFunction)
    case _ => host.store(f, v)
  }

  /**
   * The `store` loop of `ClassMetadata`: for each merged extension that has a
   * store, in order, an attribute given under its name (and not undefined)
   * is transformed and written; a throwing transform aborts.
   */
  function StoredFrom(host: Host, exts: seq<Extension>, values: map<string, Js>, i: nat, acc: map<string, Js>): Result<map<string, Js>>
    requires i <= |exts|
    decreases |exts| - i
  {
    if i == |exts| then Ok(acc)
    else
      var e := exts[i];
      if Truthy(e.store) && e.store.Fn? && e.name in values && values[e.name] != Undefined then
        match CallStore(host, e.store.f, values[e.name])
        case Err(err) => Err(err)
        case Ok(v) => StoredFrom(host, exts, values, i + 1, acc[e.name := v])
      else StoredFrom(host, exts, values, i + 1, acc)
  }

  /** The extensions whose `store` applies to the attribute `key`. */
  ghost predicate StoresAttribute(exts: seq<Extension>, values: map<string, Js>, key: string) {
    exists k :: 0 <= k < |exts| && exts[k].name == key && exts[k].store.Fn? && key in values && values[key] != Undefined
  }

  /** An attribute stored by a prefix of the list is stored by the next longer prefix. */
  lemma StoresPrefixGrows(exts: seq<Extension>, values: map<string, Js>, i: nat)
    requires i < |exts|
    ensures forall key :: StoresAttribute(exts[..i], values, key) ==> StoresAttribute(exts[..i + 1], values, key)
  {
    forall key | StoresAttribute(exts[..i], values, key) ensures StoresAttribute(exts[..i + 1], values, key) {
      var k :| 0 <= k < i && exts[..i][k].name == key && exts[..i][k].store.Fn? && key in values && values[key] != Undefined;
      assert exts[..i + 1][k] == exts[k];
    }
  }

  /** A map holding the name of every extension with a store and a given value has every stored attribute. */
  lemma StoresCovered(exts: seq<Extension>, values: map<string, Js>, acc: map<string, Js>)
    requires forall k :: 0 <= k < |exts| && exts[k].store.Fn? && exts[k].name in values && values[exts[k].name] != Undefined ==>
      exts[k].name in acc
    ensures forall key :: StoresAttribute(exts, values, key) ==> key in acc
  {
    forall key | StoresAttribute(exts, values, key) ensures key in acc {
      var k :| 0 <= k < |exts| && exts[k].name == key && exts[k].store.Fn? && key in values && values[key] != Undefined;
    }
  }

  /**
   * With distinct extension names, the stored attributes are exactly those
   * named by an extension with a store and given in the payload, each holding
   * that extension's transform of the given value.
   */
  lemma {:induction false} StoredShape(host: Host, exts: seq<Extension>, values: map<string, Js>, i: nat, acc: map<string, Js>)
    requires i <= |exts| && UniqueNames(exts)
    requires forall key :: key in acc ==> StoresAttribute(exts[..i], values, key)
    requires forall k :: 0 <= k < i && exts[k].store.Fn? && exts[k].name in values && values[exts[k].name] != Undefined ==>
      exts[k].name in acc && CallStore(host, exts[k].store.f, values[exts[k].name]) == Ok(acc[exts[k].name])
    requires StoredFrom(host, exts, values, i, acc).Ok?
    ensures var m := StoredFrom(host, exts, values, i, acc).value;
      (forall key :: key in m <==> StoresAttribute(exts, values, key)) &&
      (forall k :: 0 <= k < |exts| && exts[k].store.Fn? && exts[k].name in values && values[exts[k].name] != Undefined ==>
         CallStore(host, exts[k].store.f, values[exts[k].name]) == Ok(m[exts[k].name]))
    decreases |exts| - i
  {
    if i == |exts| {
      assert exts[..i] == exts;
      StoresCovered(exts, values, acc);
    } else {
      var e := exts[i];
      StoresPrefixGrows(exts, values, i);
      if Truthy(e.store) && e.store.Fn? && e.name in values && values[e.name] != Undefined {
        var v := CallStore(host, e.store.f, values[e.name]).value;
        var acc' := acc[e.name := v];
        assert exts[..i + 1][i] == e;
        forall k | 0 <= k < i + 1 && exts[k].store.Fn? && exts[k].name in values && values[exts[k].name] != Undefined
          ensures exts[k].name in acc' && CallStore(host, exts[k].store.f, values[exts[k].name]) == Ok(acc'[exts[k].name])
        {
          if k < i { assert exts[k].name != e.name; }
        }
        StoredShape(host, exts, values, i + 1, acc');
      } else {
        assert !e.store.Fn? || e.name !in values || values[e.name] == Undefined;
        StoredShape(host, exts, values, i + 1, acc);
      }
    }
  }

  /** The `store` loop of `ClassMetadata` (`extensions.filter(...).forEach(...)`). */
  method ApplyStores(host: Host, exts: seq<Extension>, values: map<string, Js>) returns (r: Result<map<string, Js>>)
    ensures r == StoredFrom(host, exts, values, 0, map[])
  {
    var stored: map<string, Js> := map[];
    var i := 0;
    while i < |exts|
      invariant 0 <= i <= |exts|
      invariant StoredFrom(host, exts, values, 0, map[]) == StoredFrom(host, exts, values, i, stored)
    {
      var e := exts[i];
      if Truthy(e.store) && e.store.Fn? && e.name in values && values[e.name] != Undefined {
        var v := CallStore(host, e.store.f, values[e.name]);
        if v.Err? {
          return Err(v.error);
        }
        stored := stored[e.name := v.value];
      }
      i := i + 1;
    }
    r := Ok(stored);
  }
}
