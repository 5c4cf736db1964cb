/** The add-on's naming conventions: armature names of the form
    `(Art|Avatar)_<letters>[_<two digits>]`, mesh base names, driver variable names and
    argument lists, driver data paths, and the names given to new collections and empties. */
module Naming {
  import opened Wrappers
  import opened Seqs
  import opened Text

  // ---------------------------------------------------------------------------
  // Armature names: ^(Art|Avatar)_[a-zA-Z]+(?:_\d{2})?$

  datatype Prefix = Art | Avatar

  function PrefixText(p: Prefix): string
  {
    match p
    case Art => "Art_"
    case Avatar => "Avatar_"
  }

  predicate IsLetter(c: char) { 'a' <= c <= 'z' || 'A' <= c <= 'Z' }

  predicate AllLetters(s: string) { forall i :: 0 <= i < |s| ==> IsLetter(s[i]) }

  /** The parts of a name the armature pattern accepts: prefix, letter run, optional two-digit serial. */
  datatype ArmatureName = ArmatureName(prefix: Prefix, base: string, serial: Option<string>)

  predicate WellFormed(a: ArmatureName)
  {
    && |a.base| > 0 && AllLetters(a.base)
    && (a.serial.Some? ==> |a.serial.value| == 2 && AllDigits(a.serial.value))
  }

  /** `_dd` for a serial, nothing without one. */
  function SerialText(serial: Option<string>): string
  {
    match serial
    case Some(d) => "_" + d
    case None => ""
  }

  /** The text of a name from its parts. */
  function Compose(a: ArmatureName): string
  {
    PrefixText(a.prefix) + (a.base + SerialText(a.serial))
  }

  /** Split the text that follows the prefix into letter run and optional serial. */
  function ParseTail(p: Prefix, rest: string): Option<ArmatureName>
  {
    var n := |rest|;
    if n >= 3 && rest[n - 3] == '_' && IsDigit(rest[n - 2]) && IsDigit(rest[n - 1]) then
      (if n > 3 && AllLetters(rest[..n - 3]) then Some(ArmatureName(p, rest[..n - 3], Some(rest[n - 2..])))
       else None)
    else if n > 0 && AllLetters(rest) then Some(ArmatureName(p, rest, None))
    else None
  }

  /** Match a name against the armature pattern (with ASCII digits), returning its parts. */
  function ParseArmatureName(name: string): Option<ArmatureName>
  {
    if PrefixText(Art) <= name then ParseTail(Art, name[|PrefixText(Art)|..])
    else if PrefixText(Avatar) <= name then ParseTail(Avatar, name[|PrefixText(Avatar)|..])
    else None
  }

  predicate MatchesArmaturePattern(name: string)
  {
    ParseArmatureName(name).Some?
  }

  /** The letter run of a matching armature name; any other name is returned unchanged. */
  function GetBaseNameFromArmature(name: string): string
  {
    match ParseArmatureName(name)
    case Some(a) => a.base
    case None => name
  }

  lemma ParseTailCompose(a: ArmatureName)
    requires WellFormed(a)
    ensures ParseTail(a.prefix, a.base + SerialText(a.serial)) == Some(a)
  {
    var rest := a.base + SerialText(a.serial);
    var n := |rest|;
    match a.serial
    case Some(d) =>
      assert rest[..n - 3] == a.base && rest[n - 2..] == d;
    case None =>
      assert rest == a.base;
      assert !(n >= 3 && rest[n - 3] == '_') by {
        if n >= 3 { assert IsLetter(rest[n - 3]); }
      }
  }

  /** The letter run and serial that parsing returns reassemble the text after the prefix. */
  lemma ParseTailSound(p: Prefix, rest: string)
    requires ParseTail(p, rest).Some?
    ensures var a := ParseTail(p, rest).value;
      WellFormed(a) && a.prefix == p && a.base + SerialText(a.serial) == rest
  {
    var n := |rest|;
    var a := ParseTail(p, rest).value;
    if a.serial.Some? {
      var d := rest[n - 2..];
      assert a.base == rest[..n - 3] && a.serial.value == d;
      assert |d| == 2 && d[0] == rest[n - 2] && d[1] == rest[n - 1];
      assert AllDigits(d);
      assert rest[n - 3..] == "_" + d;
      assert rest == rest[..n - 3] + rest[n - 3..];
    }
  }

  /** Every well-formed name is accepted by the pattern, and parsing recovers its parts. */
  lemma ParseCompose(a: ArmatureName)
    requires WellFormed(a)
    ensures ParseArmatureName(Compose(a)) == Some(a)
    ensures GetBaseNameFromArmature(Compose(a)) == a.base
  {
    var tail := a.base + SerialText(a.serial);
    assert Compose(a)[|PrefixText(a.prefix)|..] == tail;
    ParseTailCompose(a);
    if a.prefix == Avatar {
      assert !(PrefixText(Art) <= Compose(a)) by { assert Compose(a)[1] == 'v'; }
    }
  }

  /** Every accepted name is well formed and is exactly the text of its parts. */
  lemma ComposeParse(name: string)
    requires MatchesArmaturePattern(name)
    ensures WellFormed(ParseArmatureName(name).value)
    ensures Compose(ParseArmatureName(name).value) == name
  {
    var p := if PrefixText(Art) <= name then Art else Avatar;
    var pre := PrefixText(p);
    assert pre <= name;
    var rest := name[|pre|..];
    assert ParseArmatureName(name) == ParseTail(p, rest);
    ParseTailSound(p, rest);
    assert name == pre + rest;
    assert Compose(ParseArmatureName(name).value) == pre + rest;
  }

  /** A name the pattern rejects is its own base name. */
  lemma BaseNameOfNonMatching(name: string)
    requires !MatchesArmaturePattern(name)
    ensures GetBaseNameFromArmature(name) == name
  {
  }

  /** `Avatar_Kafka_01` has base name `Kafka`; `Art_X` has base name `X`. */
  lemma BaseNameExamples()
    ensures GetBaseNameFromArmature("Avatar_Kafka_01") == "Kafka"
    ensures GetBaseNameFromArmature("Art_X") == "X"
  {
    ParseCompose(ArmatureName(Avatar, "Kafka", Some("01")));
    assert Compose(ArmatureName(Avatar, "Kafka", Some("01"))) == "Avatar_Kafka_01";
    ParseCompose(ArmatureName(Art, "X", None));
    assert Compose(ArmatureName(Art, "X", None)) == "Art_X";
  }

  // ---------------------------------------------------------------------------
  // Mesh names: the part before the first '.' (`name.split('.')[0]`).

  function MeshBaseName(name: string): (r: string)
    ensures '.' !in r
  {
    Split(name, '.')[0]
  }

  /** The mesh names auto-setup links: Body, Face and Hair. */
  const TargetMeshNames: set<string> := {"Body", "Face", "Hair"}

  predicate IsTargetMeshName(name: string)
  {
    MeshBaseName(name) in TargetMeshNames
  }

  /** A numeric (or any) suffix after a dot does not change the base name. */
  lemma MeshBaseNameSuffix(base: string, suffix: string)
    requires '.' !in base
    ensures MeshBaseName(base + "." + suffix) == base
    ensures MeshBaseName(base) == base
  {
    SplitHead(base, suffix, '.');
    assert base + "." + suffix == base + ['.'] + suffix;
    SplitNoSep(base, '.');
  }

  // ---------------------------------------------------------------------------
  // Driver variables and expressions.

  /** `f"var{i}"`. */
  function VarName(i: nat): string
  {
    "var" + NatToString(i)
  }

  /** Distinct positions get distinct variable names. */
  lemma VarNameInjective(i: nat, j: nat)
    requires VarName(i) == VarName(j)
    ensures i == j
  {
    assert NatToString(i) == VarName(i)[3..];
    assert NatToString(j) == VarName(j)[3..];
    NatToStringInjective(i, j);
  }

  /** `[f"var{i}" for i in range(n)]`. */
  function VarNames(n: nat): (r: seq<string>)
    ensures |r| == n && forall i :: 0 <= i < n ==> r[i] == VarName(i)
  {
    seq(n, i requires 0 <= i => VarName(i))
  }

  /** `",".join(f"var{i}" for i in range(n))`: the argument list of the light master's driver. */
  function LightsArgString(n: nat): string
  {
    Join(VarNames(n), ',')
  }

  /** The argument list is empty for no lights and otherwise splits back into var0..var{n-1}. */
  lemma LightsArgStringSplits(n: nat)
    ensures n == 0 ==> LightsArgString(n) == ""
    ensures n > 0 ==> Split(LightsArgString(n), ',') == VarNames(n)
  {
    if n > 0 {
      forall k | 0 <= k < n ensures ',' !in VarNames(n)[k] {
        var t := NatToString(k);
        assert VarNames(n)[k] == "var" + t;
        assert forall c :: c in t ==> IsDigit(c);
      }
      SplitJoin(VarNames(n), ',');
    }
  }

  const DriverFunction := "lvcp_driver_func"

  /** `f'lvcp_driver_func(self["idx"],[{args}])'`. */
  function DriverExpression(args: string): string
  {
    DriverFunction + "(self[\"idx\"],[" + args + "])"
  }

  /** One piece of a variable's data path: `[i]` for "index", the literal text otherwise. */
  function PathPart(part: string, i: nat): string
  {
    if part == "index" then "[" + NatToString(i) + "]" else part
  }

  /** The data path of a variable on driver component `i`. */
  function DataPath(path1: string, path2: string, path3: string, i: nat): string
  {
    path1 + PathPart(path2, i) + PathPart(path3, i)
  }

  /** The light master's variables read `["vecLight"][i]`; the light empties read `matrix_world[2][i]`. */
  lemma DataPathExamples()
    ensures DataPath("[\"vecLight\"]", "index", "", 1) == "[\"vecLight\"][1]"
    ensures DataPath("matrix_world", "[2]", "index", 0) == "matrix_world[2][0]"
  {
    assert NatToString(1) == "1";
    assert NatToString(0) == "0";
  }

  /** What follows the opening bracket. */
  lemma AfterBracket(pre: string, s: string, t: string)
    ensures (pre + ("[" + s + "]") + t)[|pre| + 1..] == s + [']'] + t
  {
    var x := pre + ("[" + s + "]") + t;
    assert |x| == |pre| + 1 + |s| + 1 + |t|;
    forall k | 0 <= k < |x| - |pre| - 1 ensures x[|pre| + 1 + k] == (s + [']'] + t)[k] {
      if k < |s| {
        assert x[|pre| + 1 + k] == ("[" + s + "]")[1 + k];
      } else if k == |s| {
        assert x[|pre| + 1 + k] == ("[" + s + "]")[1 + k];
      }
    }
  }

  /** A bracketed index recovers the index. */
  lemma BracketedIndexUnique(pre: string, i: nat, ti: string, j: nat, tj: string)
    requires pre + ("[" + NatToString(i) + "]") + ti == pre + ("[" + NatToString(j) + "]") + tj
    ensures i == j
  {
    var si, sj := NatToString(i), NatToString(j);
    AfterBracket(pre, si, ti);
    AfterBracket(pre, sj, tj);
    DigitRunUnique(si, ti, sj, tj, ']');
    NatToStringInjective(i, j);
  }

  /** When a path part is "index", each driver component reads its own element: the data path
      determines the component. */
  lemma DataPathInjective(path1: string, path2: string, path3: string, i: nat, j: nat)
    requires path2 == "index" || path3 == "index"
    requires DataPath(path1, path2, path3, i) == DataPath(path1, path2, path3, j)
    ensures i == j
  {
    if path2 == "index" {
      BracketedIndexUnique(path1, i, PathPart(path3, i), j, PathPart(path3, j));
    } else {
      assert DataPath(path1, path2, path3, i) == (path1 + path2) + ("[" + NatToString(i) + "]") + "";
      assert DataPath(path1, path2, path3, j) == (path1 + path2) + ("[" + NatToString(j) + "]") + "";
      BracketedIndexUnique(path1 + path2, i, "", j, "");
    }
  }

  /** `transform_type + ["_X", "_Y", "_Z"][i]`. */
  function AxisTransformType(transformType: string, i: nat): string
    requires i < 3
  {
    transformType + ["_X", "_Y", "_Z"][i]
  }

  // ---------------------------------------------------------------------------
  // Names of new collections and empties.

  const InstancePrefix := "LVCP_"
  const LightGroupPrefix := "LightGroup_"

  /** `f"LVCP_{base}"`: the collection of an LVCP instance. */
  function InstanceCollectionName(base: string): string
  {
    InstancePrefix + base
  }

  /** `name.replace("LVCP_", "")`: the entry name restore derives from a collection name. */
  function RestoredEntryName(collectionName: string): string
  {
    RemoveAll(collectionName, InstancePrefix)
  }

  /** Restoring the collection of an instance gives back its base name
      (when the base name does not itself contain `LVCP_`). */
  lemma RestoredEntryNameInverse(base: string)
    requires !Occurs(InstancePrefix, base)
    ensures RestoredEntryName(InstanceCollectionName(base)) == base
  {
    RemoveAllLeading(InstancePrefix, base);
    RemoveAllAbsent(base, InstancePrefix);
  }

  /** `f"LightGroup_{k}"` (older version's light groups). */
  function LightGroupName(k: nat): string
  {
    LightGroupPrefix + NatToString(k)
  }

  /** Light group names carry the prefix that `update_light_group` unlinks, and differ for different k. */
  lemma LightGroupNameProperties(j: nat, k: nat)
    ensures LightGroupPrefix <= LightGroupName(k)
    ensures LightGroupName(j) == LightGroupName(k) ==> j == k
  {
    if LightGroupName(j) == LightGroupName(k) {
      assert NatToString(j) == LightGroupName(j)[|LightGroupPrefix|..];
      assert NatToString(k) == LightGroupName(k)[|LightGroupPrefix|..];
      NatToStringInjective(j, k);
    }
  }

  /** `f"Light_Direction_{name}_{k}"`. */
  function LightDirectionName(name: string, k: nat): string
  {
    "Light_Direction_" + name + "_" + NatToString(k)
  }

  /** Within one instance, empties added at different group sizes get different names. */
  lemma LightDirectionNameInjective(name: string, j: nat, k: nat)
    requires LightDirectionName(name, j) == LightDirectionName(name, k)
    ensures j == k
  {
    var m := |"Light_Direction_" + name + "_"|;
    assert NatToString(j) == LightDirectionName(name, j)[m..];
    assert NatToString(k) == LightDirectionName(name, k)[m..];
    NatToStringInjective(j, k);
  }
}
