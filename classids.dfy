/** Class ids: the registry key `name + ":" + version`. */
module ClassIds {
  import opened JsValues

  /**
   * `createClassId(name, version)`: a falsy name or version throws (the name
   * is checked first); otherwise both are converted with `String` and joined
   * by a colon.
   */
  function CreateClassId(name: Js, version: Js): (r: Result<string>)
    ensures r.Ok? <==> Truthy(name) && Truthy(version)
    ensures !Truthy(name) ==> r == Err(MissingClassName)
    ensures Truthy(name) && !Truthy(version) ==> r == Err(MissingClassVersion)
    ensures r.Ok? ==> (|r.value| > |ToStr(name)| && r.value[..|ToStr(name)|] == ToStr(name) &&
                       r.value[|ToStr(name)|] == ':' && r.value[|ToStr(name)| + 1..] == ToStr(version))
  {
    if !Truthy(name) then Err(MissingClassName)
    else if !Truthy(version) then Err(MissingClassVersion)
    else Ok(ToStr(name) + ":" + ToStr(version))
  }

  /** Index of the last colon in `s`, or -1 when there is none. */
  function LastColon(s: string): (k: int)
    ensures -1 <= k < |s|
    ensures k >= 0 ==> s[k] == ':'
    ensures forall j :: k < j < |s| ==> s[j] != ':'
  {
    if s == [] then -1
    else if s[|s| - 1] == ':' then |s| - 1
    else LastColon(s[..|s| - 1])
  }

  /** Splits a class id back into the name text and the version text, at its last colon. */
  function SplitClassId(id: string): (parts: (string, string))
  {
    var k := LastColon(id);
    if k < 0 then (id, "") else (id[..k], id[k + 1..])
  }

  /**
   * With a numeric version (the engine's versions are numbers), the id can be
   * split back into its two components, whatever the name contains.
   */
  lemma SplitCreateClassId(name: Js, version: int)
    requires Truthy(name) && version != 0
    ensures CreateClassId(name, Num(version)).Ok?
    ensures SplitClassId(CreateClassId(name, Num(version)).value) == (ToStr(name), ToStr(Num(version)))
  {
    var n, v := ToStr(name), ToStr(Num(version));
    var id := n + ":" + v;
    NumberTextHasNoColon(version);
    assert id[|n|] == ':';
    forall j | |n| < j < |id| ensures id[j] != ':' {
      assert id[j] == v[j - |n| - 1];
    }
    assert id[..|n|] == n;
    assert id[|n| + 1..] == v;
  }

  /** Two numeric-version class ids are equal exactly when their name texts and versions are. */
  lemma ClassIdInjective(name1: Js, version1: int, name2: Js, version2: int)
    requires Truthy(name1) && version1 != 0 && Truthy(name2) && version2 != 0
    ensures CreateClassId(name1, Num(version1)) == CreateClassId(name2, Num(version2))
        <==> ToStr(name1) == ToStr(name2) && version1 == version2
  {
    if CreateClassId(name1, Num(version1)) == CreateClassId(name2, Num(version2)) {
      SplitCreateClassId(name1, version1);
      SplitCreateClassId(name2, version2);
      NumberTextInjective(version1, version2);
    }
  }
}
