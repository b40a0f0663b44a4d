/**
 * `Enum` and its shared numbering counter (`enumManager`), and the four
 * extension types the engine numbers with them.
 */
module Enums {
  import opened JsValues

  /** Index of the first argument that is not a string, or the number of arguments. */
  function FirstNonString(args: seq<Js>): (k: nat)
    ensures k <= |args|
    ensures forall i :: 0 <= i < k ==> args[i].Str?
    ensures k < |args| ==> !args[k].Str?
  {
    if args == [] || !args[0].Str? then 0 else 1 + FirstNonString(args[1..])
  }

  /**
   * The frozen object `Enum(names...)` builds while the counter starts at
   * `start`: the i-th name gets `start + i`, and a repeated name keeps the
   * number of its last occurrence.
   */
  function EnumTable(names: seq<string>, start: int): map<string, int>
    decreases |names|
  {
    if names == [] then map[]
    else EnumTable(names[..|names| - 1], start)[names[|names| - 1] := start + |names| - 1]
  }

  /** The keys of the table are the names given, and each number comes from the range handed out. */
  lemma {:induction false} EnumTableShape(names: seq<string>, start: int)
    ensures EnumTable(names, start).Keys == set x | x in names
    ensures forall x :: x in EnumTable(names, start) ==>
      start <= EnumTable(names, start)[x] < start + |names| &&
      names[EnumTable(names, start)[x] - start] == x
    decreases |names|
  {
    if names != [] {
      var n := |names|;
      var init := names[..n - 1];
      EnumTableShape(init, start);
      assert names == init + [names[n - 1]];
    }
  }

  /** Distinct names get distinct numbers, so the enum values can be told apart. */
  lemma EnumTableInjective(names: seq<string>, start: int, x: string, y: string)
    requires x in EnumTable(names, start) && y in EnumTable(names, start) && x != y
    ensures EnumTable(names, start)[x] != EnumTable(names, start)[y]
  {
    EnumTableShape(names, start);
  }

  function Names(args: seq<Js>): (names: seq<string>)
    requires forall i :: 0 <= i < |args| ==> args[i].Str?
    ensures |names| == |args| && forall i :: 0 <= i < |args| ==> names[i] == args[i].s
  {
    seq(|args|, i requires 0 <= i < |args| => args[i].s)
  }

  /** The numbers of the extension types, as `Enum` hands them out on a fresh counter. */
  const PreInit: int := 1
  const SharedModifier: int := 2
  const PerInheritance: int := 3
  const CompleteTrigger: int := 4

  const BasicTypeNames: seq<string> := ["preInit", "sharedModifier", "perInheritance", "completeTrigger"]

  /** `basicExtensionTypes`, built first on the fresh counter, holds exactly the four constants above. */
  lemma BasicExtensionTypes()
    ensures EnumTable(BasicTypeNames, 1) ==
      map["preInit" := PreInit, "sharedModifier" := SharedModifier,
          "perInheritance" := PerInheritance, "completeTrigger" := CompleteTrigger]
  {
    var n := BasicTypeNames;
    assert EnumTable(n[..1], 1) == map["preInit" := 1] by {
      assert n[..1][..0] == [];
    }
    assert EnumTable(n[..2], 1) == map["preInit" := 1, "sharedModifier" := 2] by {
      assert n[..2][..1] == n[..1];
    }
    assert EnumTable(n[..3], 1) == map["preInit" := 1, "sharedModifier" := 2, "perInheritance" := 3] by {
      assert n[..3][..2] == n[..2];
    }
    assert n[..4][..3] == n[..3];
    assert n[..4] == n;
  }

  /** The shared numbering counter of `enumManager`. */
  class EnumManager {
    var enumber: int

    constructor ()
      ensures enumber == 1
    {
      enumber := 1;
    }

    /** Hands out the current number and advances the counter. */
    method Next() returns (n: int)
      modifies this
      ensures n == old(enumber) && enumber == old(enumber) + 1
    {
      n := enumber;
      enumber := enumber + 1;
    }

    /**
     * `new Enum(args...)`: numbers the names in order; a non-string argument
     * throws, after the names before it have already used up their numbers.
     */
    method Enum(args: seq<Js>) returns (r: Result<map<string, int>>)
      modifies this
      ensures enumber == old(enumber) + FirstNonString(args)
      ensures FirstNonString(args) < |args| ==> r == Err(EnumValueNotString)
      ensures FirstNonString(args) == |args| ==> r == Ok(EnumTable(Names(args), old(enumber)))
    {
      var table: map<string, int> := map[];
      var i := 0;
      while i < |args|
        invariant 0 <= i <= FirstNonString(args)
        invariant enumber == old(enumber) + i
        invariant table == EnumTable(Names(args[..i]), old(enumber))
      {
        if !args[i].Str? {
          return Err(EnumValueNotString);
        }
        var n := Next();
        assert Names(args[..i + 1])[..i] == Names(args[..i]);
        table := table[args[i].s := n];
        i := i + 1;
      }
      assert args[..i] == args;
      r := Ok(table);
    }
  }
}
