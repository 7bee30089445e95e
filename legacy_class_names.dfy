/**
 * `cn` as first written: `args.filter(Boolean).join(" ")`. A `true` argument
 * survives the filter and is joined as the text "true".
 */
module LegacyClassNames {
  import opened JsText
  import ClassNames

  /** An argument: `string | boolean | undefined`. */
  datatype LegacyArg = Str(s: string) | Bool(b: bool) | Undefined

  /** `Boolean(arg)`. */
  predicate Truthy(arg: LegacyArg) {
    match arg
    case Str(s) => s != ""
    case Bool(b) => b
    case Undefined => false
  }

  /** How `join` writes a kept argument. */
  function Text(arg: LegacyArg): string {
    match arg
    case Str(s) => s
    case Bool(b) => if b then "true" else "false"
    case Undefined => ""
  }

  /** `args.filter(Boolean)`, as the texts `join` writes. */
  function Kept(args: seq<LegacyArg>): (r: seq<string>)
    ensures forall i :: 0 <= i < |r| ==> r[i] != ""
    ensures (forall i :: 0 <= i < |args| ==> !Truthy(args[i])) ==> r == []
    decreases |args|
  {
    if args == [] then []
    else Kept(args[..|args| - 1]) + (if Truthy(args[|args| - 1]) then [Text(args[|args| - 1])] else [])
  }

  /** `cn(...args)`: with no truthy argument the class string is empty. */
  function Cn(args: seq<LegacyArg>): (r: string)
    ensures (forall i :: 0 <= i < |args| ==> !Truthy(args[i])) ==> r == ""
  {
    Join(Kept(args), " ")
  }

  /** The same argument for the later `cn`. */
  function Upgrade(arg: LegacyArg): ClassNames.ClassArg {
    match arg
    case Str(s) => ClassNames.Str(s)
    case Bool(b) => ClassNames.Bool(b)
    case Undefined => ClassNames.Undefined
  }

  function UpgradeAll(args: seq<LegacyArg>): (r: seq<ClassNames.ClassArg>)
    ensures |r| == |args|
    ensures forall i :: 0 <= i < |args| ==> r[i] == Upgrade(args[i])
    decreases |args|
  {
    if args == [] then [] else UpgradeAll(args[..|args| - 1]) + [Upgrade(args[|args| - 1])]
  }

  /** Without a `true` argument both versions give the same string. */
  lemma {:induction false} AgreesWithoutTrue(args: seq<LegacyArg>)
    requires forall i :: 0 <= i < |args| ==> args[i] != Bool(true)
    ensures Cn(args) == Join(ClassNames.Classes(UpgradeAll(args)), " ")
    decreases |args|
  {
    KeptAgrees(args);
  }

  lemma {:induction false} KeptAgrees(args: seq<LegacyArg>)
    requires forall i :: 0 <= i < |args| ==> args[i] != Bool(true)
    ensures Kept(args) == ClassNames.Classes(UpgradeAll(args))
    decreases |args|
  {
    if args != [] {
      var init := args[..|args| - 1];
      KeptAgrees(init);
      assert UpgradeAll(args)[..|args| - 1] == UpgradeAll(init);
    }
  }

  /** `cn("btn", true)` is "btn true" here and "btn" in the later version. */
  lemma TrueBecomesAClass()
    ensures Cn([Str("btn"), Bool(true)]) == "btn true"
    ensures Join(ClassNames.Classes(UpgradeAll([Str("btn"), Bool(true)])), " ") == "btn"
  {
    var args := [Str("btn"), Bool(true)];
    assert args[..1] == [Str("btn")] && args[..1][..0] == [];
    assert Kept(args) == ["btn", "true"];
    var up := UpgradeAll(args);
    assert up == [ClassNames.Str("btn"), ClassNames.Bool(true)];
    assert up[..1] == [ClassNames.Str("btn")] && up[..1][..0] == [];
    assert ClassNames.Classes(up[..1]) == ["btn"];
    assert ClassNames.ArgClasses(ClassNames.Bool(true)) == [];
    assert ClassNames.Classes(up) == ["btn"];
  }
}
