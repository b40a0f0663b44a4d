/**
 * `inheritableStaticDataStorage`: the table of singletons and the table of
 * lazily created static spaces, both keyed by class id.
 */
module StaticStore {
  import opened JsValues

  /**
   * The two tables, and the next object reference: objects the engine
   * creates itself (instances, namespaces, static spaces) are numbered from it.
   */
  datatype StoreState = StoreState(singletons: map<string, Js>, staticSpaces: map<string, Js>, nextRef: nat)

  /** Every object in the tables was created before `nextRef`. */
  ghost predicate Allocated(st: StoreState) {
    (forall id :: id in st.singletons ==> st.singletons[id].Obj? && st.singletons[id].ref < st.nextRef) &&
    (forall id :: id in st.staticSpaces ==> st.staticSpaces[id].Obj? && st.staticSpaces[id].ref < st.nextRef)
  }

  /** Creating an object: a fresh reference. */
  function NewRef(st: StoreState): (r: (nat, StoreState))
    ensures r.0 == st.nextRef && r.1.nextRef > r.0
    ensures r.1.singletons == st.singletons && r.1.staticSpaces == st.staticSpaces
  {
    (st.nextRef, st.(nextRef := st.nextRef + 1))
  }

  /** `getSingleton(classId)`: the registered instance, or undefined. */
  function SingletonOf(st: StoreState, classId: string): Js {
    if classId in st.singletons then st.singletons[classId] else Undefined
  }

  /**
   * `registerSingleton`: fails when the class already has a (truthy)
   * singleton; otherwise records the instance and changes nothing else.
   */
  function WithSingleton(st: StoreState, classId: string, instance: Js): (r: Result<StoreState>)
    ensures Truthy(SingletonOf(st, classId)) ==> r == Err(DuplicateSingleton(classId))
    ensures !Truthy(SingletonOf(st, classId)) ==> (r.Ok? &&
      SingletonOf(r.value, classId) == instance &&
      (forall id :: id != classId ==> SingletonOf(r.value, id) == SingletonOf(st, id)) &&
      r.value.staticSpaces == st.staticSpaces && r.value.nextRef == st.nextRef)
  {
    if Truthy(SingletonOf(st, classId)) then Err(DuplicateSingleton(classId))
    else Ok(st.(singletons := st.singletons[classId := instance]))
  }

  /** `getStaticSpace`: the class's static space, created on first use. */
  function StaticSpace(st: StoreState, classId: string): (r: (Js, StoreState))
    ensures r.1.singletons == st.singletons
    ensures classId in r.1.staticSpaces && r.1.staticSpaces[classId] == r.0
    ensures forall id :: id in st.staticSpaces && id != classId ==>
      id in r.1.staticSpaces && r.1.staticSpaces[id] == st.staticSpaces[id]
    ensures classId in st.staticSpaces && Truthy(st.staticSpaces[classId]) ==> r == (st.staticSpaces[classId], st)
    ensures Allocated(st) ==> Allocated(r.1) && r.1.nextRef >= st.nextRef
  {
    if classId in st.staticSpaces && Truthy(st.staticSpaces[classId]) then (st.staticSpaces[classId], st)
    else
      var (ref, st') := NewRef(st);
      (Obj(ref), st'.(staticSpaces := st'.staticSpaces[classId := Obj(ref)]))
  }

  /** A second `getStaticSpace` for the same class returns the same space and changes nothing. */
  lemma StaticSpaceStable(st: StoreState, classId: string)
    ensures var (s1, st1) := StaticSpace(st, classId);
      Truthy(s1) && StaticSpace(st1, classId) == (s1, st1)
  {
  }

  /** With every object allocated, a newly created static space differs from the spaces of all other classes. */
  lemma StaticSpacesDistinct(st: StoreState, classId: string, other: string)
    requires Allocated(st) && classId !in st.staticSpaces && other in st.staticSpaces
    ensures StaticSpace(st, classId).0 != st.staticSpaces[other]
  {
  }

  /** `inheritableStaticDataStorage`, the object holding both tables. */
  class StaticDataStorage {
    var singletons: map<string, Js>
    var staticSpaces: map<string, Js>
    var nextRef: nat

    function State(): StoreState
      reads this
    {
      StoreState(singletons, staticSpaces, nextRef)
    }

    constructor (firstRef: nat)
      ensures State() == StoreState(map[], map[], firstRef)
    {
      singletons := map[];
      staticSpaces := map[];
      nextRef := firstRef;
    }

    method Allocate() returns (ref: nat)
      modifies this
      ensures (ref, State()) == NewRef(old(State()))
    {
      ref := nextRef;
      nextRef := nextRef + 1;
    }

    method RegisterSingleton(classId: string, instance: Js) returns (r: Result<Unit>)
      modifies this
      ensures var spec := WithSingleton(old(State()), classId, instance);
        (spec.Err? ==> r == Err(spec.error) && State() == old(State())) &&
        (spec.Ok? ==> r == Ok(Unit) && State() == spec.value)
    {
      if classId in singletons && Truthy(singletons[classId]) {
        return Err(DuplicateSingleton(classId));
      }
      singletons := singletons[classId := instance];
      r := Ok(Unit);
    }

    function GetSingleton(classId: string): (v: Js)
      reads this
      ensures v == SingletonOf(State(), classId)
    {
      if classId in singletons then singletons[classId] else Undefined
    }

    method GetStaticSpace(classId: string) returns (space: Js)
      modifies this
      ensures (space, State()) == StaticSpace(old(State()), classId)
    {
      if !(classId in staticSpaces && Truthy(staticSpaces[classId])) {
        staticSpaces := staticSpaces[classId := Obj(nextRef)];
        nextRef := nextRef + 1;
      }
      space := staticSpaces[classId];
    }
  }
}
