/**
 * `getInheritanceChain`: the depth-first, post-order walk over `inherits`
 * that gives `representedClasses`, as a specification over the registry's
 * table, with the facts the walk guarantees.
 */
module Inheritance {
  import opened JsValues
  import opened ClassIds
  import opened Metadata

  /** The registry's table: class id to frozen metadata. */
  type Storage = map<string, ClassMeta>

  /**
   * The class id that `getClassMetadata(className, classVersion)` looks up for
   * one entry of `inherits`: with an undefined version the key is taken as a
   * class id, otherwise a class id is built from both.
   */
  function ParentId(p: (string, Js)): Result<string> {
    if p.1 != Undefined then CreateClassId(Str(p.0), p.1) else Ok(p.0)
  }

  /** Every parent in `ps` resolves to a stored class ranked below `bound`. */
  ghost predicate ParentsBelow(storage: Storage, rank: map<string, nat>, ps: seq<(string, Js)>, bound: nat)
    requires storage.Keys == rank.Keys
  {
    forall j :: 0 <= j < |ps| ==>
      ParentId(ps[j]).Ok? && ParentId(ps[j]).value in storage && rank[ParentId(ps[j]).value] < bound
  }

  /**
   * The registry is acyclic by construction: a parent must be stored before
   * its child is, so a rank (the registration position) decreases from every
   * stored class to each of its parents.
   */
  ghost predicate Ranked(storage: Storage, rank: map<string, nat>) {
    storage.Keys == rank.Keys &&
    (forall id :: id in rank ==> rank[id] < |storage|) &&
    (forall id :: id in storage ==> ParentsBelow(storage, rank, storage[id].inherits, rank[id]))
  }

  /** `findInheritedMetadata(storage[id])` with the list `found` so far. */
  ghost function Visit(storage: Storage, rank: map<string, nat>, id: string, found: seq<string>): Result<seq<string>>
    requires Ranked(storage, rank) && id in storage
    decreases rank[id], 1
  {
    if id in found then Ok(found)
    else match VisitParents(storage, rank, storage[id].inherits, rank[id], 0, found)
      case Err(e) => Err(e)
      case Ok(f) => Ok(f + [id])
  }

  /** The loop of `findInheritedMetadata` over `inherits`, from entry `i` on. */
  ghost function VisitParents(storage: Storage, rank: map<string, nat>, ps: seq<(string, Js)>, bound: nat, i: nat, found: seq<string>): Result<seq<string>>
    requires Ranked(storage, rank) && i <= |ps|
    requires forall j :: i <= j < |ps| && ParentId(ps[j]).Ok? && ParentId(ps[j]).value in storage ==> rank[ParentId(ps[j]).value] < bound
    decreases bound, 0, |ps| - i
  {
    if i == |ps| then Ok(found)
    else match ParentId(ps[i])
      case Err(e) => Err(e)
      case Ok(p) =>
        if p !in storage then Err(NotDefined(p))
        else match Visit(storage, rank, p, found)
          case Err(e) => Err(e)
          case Ok(f) => VisitParents(storage, rank, ps, bound, i + 1, f)
  }

  /**
   * `getInheritanceChain(this)` for a class being defined with id `classId`
   * and parents `inherits`: its ancestors' walk, then the class itself.
   */
  ghost function InheritanceChain(storage: Storage, rank: map<string, nat>, classId: string, inherits: seq<(string, Js)>): Result<seq<string>>
    requires Ranked(storage, rank)
  {
    match VisitParents(storage, rank, inherits, |storage|, 0, [])
    case Err(e) => Err(e)
    case Ok(f) => Ok(f + [classId])
  }

  ghost predicate NoDup(s: seq<string>) {
    forall i, j :: 0 <= i < j < |s| ==> s[i] != s[j]
  }

  /** Every parent in `ps` resolves to a class id listed in `prefix`. */
  ghost predicate ParentsIn(ps: seq<(string, Js)>, prefix: seq<string>) {
    forall j :: 0 <= j < |ps| ==> ParentId(ps[j]).Ok? && ParentId(ps[j]).value in prefix
  }

  /** Every stored class in `s` has all its parents listed before it. */
  ghost predicate ParentsBefore(storage: Storage, s: seq<string>) {
    forall k :: 0 <= k < |s| && s[k] in storage ==> ParentsIn(storage[s[k]].inherits, s[..k])
  }

  ghost predicate AllStored(storage: Storage, s: seq<string>) {
    forall k :: 0 <= k < |s| ==> s[k] in storage
  }

  /** The facts the walk keeps about its list `found`. */
  ghost predicate GoodFound(storage: Storage, s: seq<string>) {
    NoDup(s) && AllStored(storage, s) && ParentsBefore(storage, s)
  }

  lemma ParentsInGrow(ps: seq<(string, Js)>, a: seq<string>, b: seq<string>)
    requires ParentsIn(ps, a) && |a| <= |b| && b[..|a|] == a
    ensures ParentsIn(ps, b)
  {
    forall j | 0 <= j < |ps| ensures ParentId(ps[j]).value in b {
      var x := ParentId(ps[j]).value;
      var k :| 0 <= k < |a| && a[k] == x;
      assert b[k] == x;
    }
  }

  /** Appending a stored class whose parents are all listed already keeps the list good. */
  lemma AppendGood(storage: Storage, s: seq<string>, id: string)
    requires GoodFound(storage, s) && id in storage && id !in s
    requires ParentsIn(storage[id].inherits, s)
    ensures GoodFound(storage, s + [id])
  {
    var t := s + [id];
    assert t[..|s|] == s;
    forall k | 0 <= k < |t| && t[k] in storage ensures ParentsIn(storage[t[k]].inherits, t[..k]) {
      if k < |s| {
        assert t[..k] == s[..k];
      }
    }
  }

  /**
   * The walk from a stored class extends `found`, keeps it free of repeats,
   * keeps every listed class after its parents, lists the class, and adds only
   * the class and classes ranked below it. It never fails on a stored class.
   */
  lemma {:induction false} VisitFacts(storage: Storage, rank: map<string, nat>, id: string, found: seq<string>)
    requires Ranked(storage, rank) && id in storage && GoodFound(storage, found)
    ensures Visit(storage, rank, id, found).Ok?
    ensures var r := Visit(storage, rank, id, found).value;
      GoodFound(storage, r) && |found| <= |r| && r[..|found|] == found && id in r &&
      (forall x :: x in r ==> x in found || rank[x] <= rank[id])
    decreases rank[id], 1
  {
    if id !in found {
      var ps := storage[id].inherits;
      VisitParentsFacts(storage, rank, ps, rank[id], 0, found);
      var f := VisitParents(storage, rank, ps, rank[id], 0, found).value;
      assert id !in f;
      assert ParentsIn(ps, f) by {
        assert ps[0..] == ps;
      }
      AppendGood(storage, f, id);
      assert (f + [id])[..|found|] == f[..|found|];
    }
  }

  /** The loop over `inherits` from entry `i`: the same facts, for every parent from `i` on. */
  lemma {:induction false} VisitParentsFacts(storage: Storage, rank: map<string, nat>, ps: seq<(string, Js)>, bound: nat, i: nat, found: seq<string>)
    requires Ranked(storage, rank) && i <= |ps| && GoodFound(storage, found)
    requires forall j :: i <= j < |ps| && ParentId(ps[j]).Ok? && ParentId(ps[j]).value in storage ==> rank[ParentId(ps[j]).value] < bound
    ensures VisitParents(storage, rank, ps, bound, i, found).Ok? <==>
      forall j :: i <= j < |ps| ==> ParentId(ps[j]).Ok? && ParentId(ps[j]).value in storage
    ensures VisitParents(storage, rank, ps, bound, i, found).Ok? ==>
      var r := VisitParents(storage, rank, ps, bound, i, found).value;
      GoodFound(storage, r) && |found| <= |r| && r[..|found|] == found &&
      ParentsIn(ps[i..], r) &&
      (forall x :: x in r ==> x in found || rank[x] < bound)
    decreases bound, 0, |ps| - i
  {
    if i < |ps| {
      var pid := ParentId(ps[i]);
      if pid.Ok? && pid.value in storage {
        var p := pid.value;
        VisitFacts(storage, rank, p, found);
        var f := Visit(storage, rank, p, found).value;
        VisitParentsFacts(storage, rank, ps, bound, i + 1, f);
        if VisitParents(storage, rank, ps, bound, i + 1, f).Ok? {
          var r := VisitParents(storage, rank, ps, bound, i + 1, f).value;
          VisitParentsStep(storage, rank, ps, bound, i, p, found, f, r);
        }
      }
    }
  }

  /** One step of the loop over `inherits`: the facts of the parent's walk and of the rest combine. */
  lemma VisitParentsStep(storage: Storage, rank: map<string, nat>, ps: seq<(string, Js)>, bound: nat, i: nat, p: string,
                         found: seq<string>, f: seq<string>, r: seq<string>)
    requires storage.Keys == rank.Keys && i < |ps| && ParentId(ps[i]) == Ok(p) && p in storage && rank[p] < bound
    requires forall x :: x in f ==> x in rank
    requires forall x :: x in r ==> x in rank
    requires |found| <= |f| && f[..|found|] == found && p in f
    requires forall x :: x in f ==> x in found || rank[x] <= rank[p]
    requires |f| <= |r| && r[..|f|] == f && ParentsIn(ps[i + 1..], r)
    requires forall x :: x in r ==> x in f || rank[x] < bound
    ensures |found| <= |r| && r[..|found|] == found && ParentsIn(ps[i..], r)
    ensures forall x :: x in r ==> x in found || rank[x] < bound
  {
    assert r[..|found|] == f[..|f|][..|found|];
    assert p in r by {
      var k :| 0 <= k < |f| && f[k] == p;
      assert r[k] == p;
    }
    forall j | 0 <= j < |ps[i..]| ensures ParentId(ps[i..][j]).Ok? && ParentId(ps[i..][j]).value in r {
      if j > 0 {
        assert ps[i..][j] == ps[i + 1..][j - 1];
      }
    }
  }

  /**
   * The error `getClassMetadata` raises for a parent that does not resolve:
   * the class-id error, or "not defined" for an id that is not stored.
   */
  function ParentError(p: (string, Js)): Error {
    match ParentId(p)
    case Err(e) => e
    case Ok(id) => NotDefined(id)
  }

  /** A parent that does not resolve makes the chain fail. */
  lemma UnresolvedChainFails(storage: Storage, rank: map<string, nat>, classId: string, inherits: seq<(string, Js)>, j: nat)
    requires Ranked(storage, rank) && j < |inherits|
    requires !(ParentId(inherits[j]).Ok? && ParentId(inherits[j]).value in storage)
    ensures InheritanceChain(storage, rank, classId, inherits).Err?
  {
    InheritanceChainFacts(storage, rank, classId, inherits);
  }

  /** The walk from a stored class succeeds and keeps the list good. */
  lemma VisitSucceeds(storage: Storage, rank: map<string, nat>, id: string, found: seq<string>)
    requires Ranked(storage, rank) && id in storage && GoodFound(storage, found)
    ensures Visit(storage, rank, id, found).Ok? && GoodFound(storage, Visit(storage, rank, id, found).value)
  {
    VisitFacts(storage, rank, id, found);
  }

  /** The loop over `inherits` fails with the error of the first parent from `i` on that does not resolve. */
  lemma {:induction false} VisitParentsFirstError(storage: Storage, rank: map<string, nat>, ps: seq<(string, Js)>, bound: nat,
                                                  i: nat, found: seq<string>, j: nat)
    requires Ranked(storage, rank) && i <= j < |ps| && GoodFound(storage, found)
    requires forall l :: i <= l < |ps| && ParentId(ps[l]).Ok? && ParentId(ps[l]).value in storage ==> rank[ParentId(ps[l]).value] < bound
    requires forall l :: i <= l < j ==> ParentId(ps[l]).Ok? && ParentId(ps[l]).value in storage
    requires !(ParentId(ps[j]).Ok? && ParentId(ps[j]).value in storage)
    ensures VisitParents(storage, rank, ps, bound, i, found) == Err(ParentError(ps[j]))
    decreases |ps| - i
  {
    if i < j {
      var p := ParentId(ps[i]).value;
      VisitSucceeds(storage, rank, p, found);
      var f := Visit(storage, rank, p, found).value;
      assert VisitParents(storage, rank, ps, bound, i, found) == VisitParents(storage, rank, ps, bound, i + 1, f);
      VisitParentsFirstError(storage, rank, ps, bound, i + 1, f, j);
    }
  }

  /** The chain of a class being defined fails with the error of its first parent that does not resolve. */
  lemma InheritanceChainFirstError(storage: Storage, rank: map<string, nat>, classId: string, inherits: seq<(string, Js)>, j: nat)
    requires Ranked(storage, rank) && j < |inherits|
    requires forall l :: 0 <= l < j ==> ParentId(inherits[l]).Ok? && ParentId(inherits[l]).value in storage
    requires !(ParentId(inherits[j]).Ok? && ParentId(inherits[j]).value in storage)
    ensures InheritanceChain(storage, rank, classId, inherits) == Err(ParentError(inherits[j]))
  {
    VisitParentsFirstError(storage, rank, inherits, |storage|, 0, [], j);
  }

  /**
   * The chain of a class being defined: it exists exactly when every parent
   * resolves to a stored class; then it lists stored classes without repeats,
   * each after all of its parents, followed by the class itself, whose own
   * parents all come before it. A class whose id is not stored yet appears once.
   */
  lemma InheritanceChainFacts(storage: Storage, rank: map<string, nat>, classId: string, inherits: seq<(string, Js)>)
    requires Ranked(storage, rank)
    ensures InheritanceChain(storage, rank, classId, inherits).Ok? <==>
      forall j :: 0 <= j < |inherits| ==> ParentId(inherits[j]).Ok? && ParentId(inherits[j]).value in storage
    ensures InheritanceChain(storage, rank, classId, inherits).Ok? ==>
      var c := InheritanceChain(storage, rank, classId, inherits).value;
      |c| > 0 && c[|c| - 1] == classId &&
      GoodFound(storage, c[..|c| - 1]) &&
      ParentsIn(inherits, c[..|c| - 1]) &&
      (classId !in storage ==> NoDup(c))
  {
    VisitParentsFacts(storage, rank, inherits, |storage|, 0, []);
    var v := VisitParents(storage, rank, inherits, |storage|, 0, []);
    if v.Ok? {
      var c := v.value + [classId];
      assert c[..|c| - 1] == v.value;
      assert inherits[0..] == inherits;
    }
  }
}
