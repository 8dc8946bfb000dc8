/**
 * Names the store gives to things it creates: the reserved primary-key and version
 * properties, the backing class of an entity, and the instance variable and accessor
 * selectors synthesised for every stored property.
 */
module Naming {

  /** The reserved primary-key property holding a record's resource ID, with its setter and ivar. */
  const ResourceIDProperty: string := "_RIS_PK"
  const ResourceIDSetter: string := "set_RIS_PK:"
  const ResourceIDIVar: string := "__RIS_PK"

  /** The reserved property holding a record's version counter, with its setter and ivar. */
  const VersionProperty: string := "_RIS_VER"
  const VersionSetter: string := "set_RIS_VER:"
  const VersionIVar: string := "__RIS_VER"

  /** The name of the backing class synthesised for an entity under a given SDK version. */
  function BackingClassName(sdkVersion: string, entityName: string): (r: string)
    ensures |r| == 6 + |sdkVersion| + |entityName|
    ensures r[..|r| - |entityName|] == "_RIS_" + sdkVersion + "_"
    ensures r[|r| - |entityName|..] == entityName
  {
    "_RIS_" + sdkVersion + "_" + entityName
  }

  /** The backing class names of two different entities differ (under one SDK version). */
  lemma BackingClassNameInjective(sdkVersion: string, a: string, b: string)
    requires a != b
    ensures BackingClassName(sdkVersion, a) != BackingClassName(sdkVersion, b)
  {
  }

  /** Upper-cases an ASCII letter and leaves every other character alone. */
  function UpperChar(c: char): char {
    if 'a' <= c <= 'z' then (c as int - 32) as char else c
  }

  /** Lower-cases an ASCII letter and leaves every other character alone. */
  function LowerChar(c: char): char {
    if 'A' <= c <= 'Z' then (c as int + 32) as char else c
  }

  /**
   * `capitalizedString` of a property name, a single word: its first character in upper case
   * and the rest in lower case. Only ASCII letters change case in this model.
   */
  function Capitalized(s: string): (r: string)
    ensures |r| == |s|
    ensures s != [] ==> r[0] == UpperChar(s[0])
    ensures forall i :: 1 <= i < |s| ==> r[i] == LowerChar(s[i])
  {
    if s == [] then [] else [UpperChar(s[0])] + seq(|s| - 1, i requires 0 <= i < |s| - 1 => LowerChar(s[i + 1]))
  }

  /** The instance variable, getter and setter selector synthesised for one property. */
  datatype SelectorNames = SelectorNames(iVar: string, getter: string, setter: string)

  /** The names synthesised for an attribute-backed property. */
  function SynthesizedNames(propertyName: string): (r: SelectorNames)
    ensures r.iVar == "_" + propertyName
    ensures r.getter == propertyName
    ensures r.setter == "set" + Capitalized(propertyName) + ":"
    ensures |r.setter| == |propertyName| + 4 && r.setter[..3] == "set" && r.setter[|r.setter| - 1] == ':'
  {
    SelectorNames("_" + propertyName, propertyName, "set" + Capitalized(propertyName) + ":")
  }

  /** The names of the two reserved properties. */
  function ResourceIDNames(): SelectorNames {
    SelectorNames(ResourceIDIVar, ResourceIDProperty, ResourceIDSetter)
  }

  function VersionNames(): SelectorNames {
    SelectorNames(VersionIVar, VersionProperty, VersionSetter)
  }

  /**
   * The reserved properties follow the uncapitalised form of the naming rule: the ivar is the
   * property with a leading underscore, the setter is "set" + property + ":".
   */
  lemma ReservedNamesFollowConvention()
    ensures ResourceIDNames().iVar == "_" + ResourceIDProperty
    ensures ResourceIDNames().setter == "set" + ResourceIDProperty + ":"
    ensures VersionNames().iVar == "_" + VersionProperty
    ensures VersionNames().setter == "set" + VersionProperty + ":"
    ensures ResourceIDNames().getter == ResourceIDProperty && VersionNames().getter == VersionProperty
  {
  }

  /** The four selectors the reserved properties add to every backing class are pairwise distinct. */
  lemma ReservedSelectorsDistinct()
    ensures ResourceIDProperty != ResourceIDSetter && ResourceIDProperty != VersionProperty
    ensures ResourceIDProperty != VersionSetter && ResourceIDSetter != VersionProperty
    ensures ResourceIDSetter != VersionSetter && VersionProperty != VersionSetter
  {
  }
}
