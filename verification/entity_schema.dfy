/**
 * Translation of an entity description into the descriptor of its backing store class:
 * the attribute-type table, the value converters for dates and decimals, the default-value
 * table and the property list, together with the process-wide cache keyed by the entity's
 * version hash and the copy kept in the entity's userInfo.
 */
module EntitySchema {
  import opened Wrappers
  import opened Values
  import opened Errors
  import opened Naming

  type VersionHash = seq<bv8>

  /** Core Data's attribute types. */
  datatype AttributeType =
    | UndefinedAttributeType
    | Integer16AttributeType
    | Integer32AttributeType
    | Integer64AttributeType
    | DecimalAttributeType
    | DoubleAttributeType
    | FloatAttributeType
    | StringAttributeType
    | BooleanAttributeType
    | DateAttributeType
    | BinaryDataAttributeType
    | TransformableAttributeType
    | ObjectIDAttributeType

  datatype Attribute = Attribute(name: string, attributeType: AttributeType, indexed: bool, defaultValue: Option<Value>)

  datatype Relationship = Relationship(name: string, destinationEntity: Option<string>, toMany: bool)

  /** The store's column types. */
  datatype PropertyType = BoolType | IntType | FloatType | DoubleType | StringType | DataType

  /** A property of a backing object schema. `objectClassName` is set only for links to other classes. */
  datatype Property = Property(
    name: string,
    propertyType: PropertyType,
    objectClassName: Option<string>,
    indexed: bool,
    optional: bool,
    isPrimary: bool,
    getterName: string,
    setterName: string)

  /** The value conversion a synthesised accessor applies between the object graph and the store. */
  datatype Converter = DateConverter | DecimalConverter

  /** A synthesised accessor pair for one stored property. */
  datatype Accessor = Accessor(iVar: string, getter: string, setter: string, converter: Option<Converter>)

  /** The synthesised backing class: its name, primary key, default values and accessors by property name. */
  datatype BackingClass = BackingClass(
    name: string,
    primaryKey: string,
    defaultPropertyValues: map<string, Value>,
    accessors: map<string, Accessor>)

  datatype ObjectSchema = ObjectSchema(className: string, properties: seq<Property>)

  datatype BackingType = BackingType(backingClass: BackingClass, objectSchema: ObjectSchema)

  datatype UserInfoValue =
    | BackingClassInfo(backingClass: BackingClass)
    | ObjectSchemaInfo(objectSchema: ObjectSchema)
    | OtherInfo(token: string)

  /** An entity description. Attributes are listed in the iteration order of `attributesByName`. */
  datatype Entity = Entity(
    name: string,
    versionHash: VersionHash,
    attributes: seq<Attribute>,
    relationships: seq<Relationship>,
    userInfo: Option<map<string, UserInfoValue>>)

  /** The userInfo keys under which a loaded backing class and object schema are kept. */
  const BackingClassKey: string := "_RISBackingClassKey"
  const ObjectSchemaKey: string := "_RISObjectSchemaKey"

  // ---------------------------------------------------------------------------------------------
  // Type table and converters

  /** The attribute types a backing class can store; the others stop schema construction. */
  predicate Supported(t: AttributeType) {
    !(t.TransformableAttributeType? || t.ObjectIDAttributeType? || t.UndefinedAttributeType?)
  }

  /** The column type of each supported attribute type. */
  function PropertyTypeFor(t: AttributeType): (r: Option<PropertyType>)
    ensures r.Some? <==> Supported(t)
  {
    match t
    case BooleanAttributeType => Some(BoolType)
    case Integer16AttributeType => Some(IntType)
    case Integer32AttributeType => Some(IntType)
    case Integer64AttributeType => Some(IntType)
    case DateAttributeType => Some(DoubleType)
    case DoubleAttributeType => Some(DoubleType)
    case FloatAttributeType => Some(FloatType)
    case DecimalAttributeType => Some(StringType)
    case StringAttributeType => Some(StringType)
    case BinaryDataAttributeType => Some(DataType)
    case TransformableAttributeType => None
    case ObjectIDAttributeType => None
    case UndefinedAttributeType => None
  }

  /** Only dates and decimals are converted on their way into and out of the store. */
  function ConverterFor(t: AttributeType): (r: Option<Converter>)
    ensures r == Some(DateConverter) <==> t.DateAttributeType?
    ensures r == Some(DecimalConverter) <==> t.DecimalAttributeType?
  {
    match t
    case DateAttributeType => Some(DateConverter)
    case DecimalAttributeType => Some(DecimalConverter)
    case _ => None
  }

  /** The setter-side conversion: a date becomes its seconds since 1970, a decimal its description. */
  function ConvertForSetter(c: Converter, v: Option<Value>): (r: Option<Value>)
    ensures c == DateConverter ==> (r.Some? <==> v.Some? && v.value.DateValue?)
    ensures c == DecimalConverter ==> (r.Some? <==> v.Some? && v.value.DecimalValue?)
  {
    match (c, v)
    case (DateConverter, Some(DateValue(t))) => Some(DoubleValue(t))
    case (DecimalConverter, Some(DecimalValue(d))) => Some(StringValue(d))
    case _ => None
  }

  /** The getter-side conversion: a stored number becomes a date, a stored string a decimal. */
  function ConvertForGetter(c: Converter, v: Option<Value>): (r: Option<Value>)
    ensures c == DateConverter ==> (r.Some? <==> v.Some? && IsNumber(v.value))
    ensures c == DecimalConverter ==> (r.Some? <==> v.Some? && v.value.StringValue?)
  {
    match c
    case DateConverter =>
      if v.Some? && IsNumber(v.value) then Some(DateValue(DoubleValueOf(v.value))) else None
    case DecimalConverter =>
      if v.Some? && v.value.StringValue? then Some(DecimalValue(v.value.s)) else None
  }

  /** What a setter stores for a given value: converted when the property has a converter, verbatim otherwise. */
  function Stored(converter: Option<Converter>, v: Option<Value>): Option<Value> {
    match converter
    case Some(c) => ConvertForSetter(c, v)
    case None => v
  }

  /** What a getter returns for a stored column. */
  function Loaded(converter: Option<Converter>, stored: Option<Value>): Option<Value> {
    match converter
    case Some(c) => ConvertForGetter(c, stored)
    case None => stored
  }

  /** The values an attribute of type `t` takes on the object graph side. */
  predicate IsAttributeValue(t: AttributeType, v: Value) {
    match t
    case BooleanAttributeType => v.BoolValue?
    case Integer16AttributeType => v.IntValue?
    case Integer32AttributeType => v.IntValue?
    case Integer64AttributeType => v.IntValue?
    case DateAttributeType => v.DateValue?
    case DoubleAttributeType => v.DoubleValue?
    case FloatAttributeType => v.FloatValue?
    case DecimalAttributeType => v.DecimalValue?
    case StringAttributeType => v.StringValue?
    case BinaryDataAttributeType => v.DataValue?
    case _ => false
  }

  /** The values a column of a given type holds. */
  predicate FitsColumn(v: Value, t: PropertyType) {
    match t
    case BoolType => v.BoolValue?
    case IntType => v.IntValue?
    case FloatType => v.FloatValue?
    case DoubleType => v.DoubleValue?
    case StringType => v.StringValue?
    case DataType => v.DataValue?
  }

  /**
   * The converter table agrees with the type table: a well-typed attribute value is stored as a
   * value of the mapped column type, and the getter gives the original value back.
   */
  lemma ConverterRoundTrip(t: AttributeType, v: Value)
    requires IsAttributeValue(t, v)
    ensures Supported(t)
    ensures Stored(ConverterFor(t), Some(v)).Some?
    ensures FitsColumn(Stored(ConverterFor(t), Some(v)).value, PropertyTypeFor(t).value)
    ensures Loaded(ConverterFor(t), Stored(ConverterFor(t), Some(v))) == Some(v)
  {
  }

  // ---------------------------------------------------------------------------------------------
  // Properties

  /** The reserved primary-key property: an indexed, non-optional, primary string. */
  function ResourceIDPropertyDescriptor(): (p: Property)
    ensures p.name == ResourceIDProperty && p.propertyType == StringType
    ensures p.indexed && !p.optional && p.isPrimary && p.objectClassName.None?
  {
    Property(ResourceIDProperty, StringType, None, true, false, true, ResourceIDProperty, ResourceIDSetter)
  }

  /** The reserved version property: a non-indexed, non-optional integer. */
  function VersionPropertyDescriptor(): (p: Property)
    ensures p.name == VersionProperty && p.propertyType == IntType
    ensures !p.indexed && !p.optional && !p.isPrimary && p.objectClassName.None?
  {
    Property(VersionProperty, IntType, None, false, false, false, VersionProperty, VersionSetter)
  }

  /** The optional property backing one attribute, with the attribute's index flag and synthesised accessors. */
  function AttributeProperty(a: Attribute): (p: Property)
    requires Supported(a.attributeType)
    ensures p.name == a.name && p.propertyType == PropertyTypeFor(a.attributeType).value
    ensures p.optional && p.indexed == a.indexed && !p.isPrimary && p.objectClassName.None?
    ensures p.getterName == SynthesizedNames(a.name).getter && p.setterName == SynthesizedNames(a.name).setter
  {
    var names := SynthesizedNames(a.name);
    Property(a.name, PropertyTypeFor(a.attributeType).value, None, a.indexed, true, false, names.getter, names.setter)
  }

  predicate AllSupported(attributes: seq<Attribute>) {
    forall i :: 0 <= i < |attributes| ==> Supported(attributes[i].attributeType)
  }

  /** The stored properties of an entity: the two reserved ones, then one per attribute. */
  function SchemaProperties(attributes: seq<Attribute>): (r: seq<Property>)
    requires AllSupported(attributes)
    ensures |r| == 2 + |attributes|
  {
    [ResourceIDPropertyDescriptor(), VersionPropertyDescriptor()] + AttributeProperties(attributes)
  }

  function AttributeProperties(attributes: seq<Attribute>): (r: seq<Property>)
    requires AllSupported(attributes)
    ensures |r| == |attributes|
  {
    seq(|attributes|, i requires 0 <= i < |attributes| => AttributeProperty(attributes[i]))
  }

  /** The accessor synthesised for one attribute. */
  function AttributeAccessor(a: Attribute): Accessor {
    var names := SynthesizedNames(a.name);
    Accessor(names.iVar, names.getter, names.setter, ConverterFor(a.attributeType))
  }

  /** The accessors of a backing class: one per attribute plus the two reserved ones. */
  function Accessors(attributes: seq<Attribute>): map<string, Accessor> {
    AttributeAccessors(attributes)
      [ResourceIDProperty := Accessor(ResourceIDIVar, ResourceIDProperty, ResourceIDSetter, None)]
      [VersionProperty := Accessor(VersionIVar, VersionProperty, VersionSetter, None)]
  }

  function AttributeAccessors(attributes: seq<Attribute>): (r: map<string, Accessor>)
    ensures r.Keys == set i | 0 <= i < |attributes| :: attributes[i].name
  {
    if attributes == [] then map[]
    else AttributeAccessors(attributes[1..])[attributes[0].name := AttributeAccessor(attributes[0])]
  }

  /** With distinct attribute names, each attribute is served by the accessor synthesised for it. */
  lemma {:induction false} AttributeAccessorsEntry(attributes: seq<Attribute>, i: nat)
    requires NamesDistinct(attributes)
    requires i < |attributes|
    ensures attributes[i].name in AttributeAccessors(attributes)
    ensures AttributeAccessors(attributes)[attributes[i].name] == AttributeAccessor(attributes[i])
    decreases |attributes|
  {
    var rest := attributes[1..];
    var first := attributes[0];
    assert AttributeAccessors(attributes) == AttributeAccessors(rest)[first.name := AttributeAccessor(first)];
    if i > 0 {
      assert rest[i - 1] == attributes[i];
      assert attributes[i].name != first.name;
      AttributeAccessorsEntry(rest, i - 1);
    }
  }

  // ---------------------------------------------------------------------------------------------
  // Default values

  /** The default-value table: the version starts at 0, then each attribute's default is added in order. */
  function DefaultValues(attributes: seq<Attribute>): (d: map<string, Value>)
    ensures !NamedIn(VersionProperty, attributes) ==> VersionProperty in d && d[VersionProperty] == IntValue(0)
    ensures forall k :: k in d ==> k == VersionProperty || NamedIn(k, attributes)
  {
    var m := map[VersionProperty := IntValue(0)];
    if NamedIn(VersionProperty, attributes) then AddDefaults(m, attributes)
    else AddDefaultsFrame(m, attributes, VersionProperty); AddDefaults(m, attributes)
  }

  /** Each attribute's default in order, on top of the given table: only attribute names gain or lose entries. */
  function AddDefaults(m: map<string, Value>, attributes: seq<Attribute>): (r: map<string, Value>)
    ensures forall k :: k in r ==> k in m || NamedIn(k, attributes)
    decreases |attributes|
  {
    if attributes == [] then m else AddDefaults(WithDefault(m, attributes[0]), attributes[1..])
  }

  /**
   * One attribute's contribution: nothing without a default; with one, the setter's form of the
   * default, and a converter yielding nil removes the entry (assigning nil to a dictionary key).
   */
  function WithDefault(m: map<string, Value>, a: Attribute): map<string, Value> {
    match a.defaultValue
    case None => m
    case Some(_) =>
      match Stored(ConverterFor(a.attributeType), a.defaultValue)
      case Some(x) => m[a.name := x]
      case None => m - {a.name}
  }

  predicate NamesDistinct(attributes: seq<Attribute>) {
    forall i, j :: 0 <= i < j < |attributes| ==> attributes[i].name != attributes[j].name
  }

  predicate NamedIn(name: string, attributes: seq<Attribute>) {
    exists i :: 0 <= i < |attributes| && attributes[i].name == name
  }

  /** Adding the defaults of attributes with distinct names leaves every other key alone. */
  lemma {:induction false} AddDefaultsFrame(m: map<string, Value>, attributes: seq<Attribute>, k: string)
    requires !NamedIn(k, attributes)
    ensures k in AddDefaults(m, attributes) <==> k in m
    ensures k in m ==> AddDefaults(m, attributes)[k] == m[k]
    decreases |attributes|
  {
    if attributes != [] {
      assert attributes[0].name != k;
      var rest := attributes[1..];
      assert !NamedIn(k, rest);
      AddDefaultsFrame(WithDefault(m, attributes[0]), rest, k);
    }
  }

  /** Each attribute's entry in the table is exactly the setter's form of its own default. */
  lemma {:induction false} AddDefaultsEntry(m: map<string, Value>, attributes: seq<Attribute>, i: nat)
    requires NamesDistinct(attributes)
    requires i < |attributes|
    ensures var a := attributes[i];
            var entry := if a.defaultValue.None? then (if a.name in m then Some(m[a.name]) else None)
                         else Stored(ConverterFor(a.attributeType), a.defaultValue);
            (a.name in AddDefaults(m, attributes) <==> entry.Some?) &&
            (entry.Some? ==> AddDefaults(m, attributes)[a.name] == entry.value)
    decreases |attributes|
  {
    var a := attributes[i];
    var rest := attributes[1..];
    if i == 0 {
      assert !NamedIn(a.name, rest);
      AddDefaultsFrame(WithDefault(m, a), rest, a.name);
    } else {
      assert rest[i - 1] == a;
      assert a.name != attributes[0].name;
      AddDefaultsEntry(WithDefault(m, attributes[0]), rest, i - 1);
    }
  }

  /**
   * The default table maps the version to 0 and each attribute with a default to the converted
   * default (when a converter exists and accepts it) or to the default verbatim; an attribute
   * without a default has no entry. Nothing else is in the table.
   */
  lemma DefaultValuesTable(attributes: seq<Attribute>)
    requires NamesDistinct(attributes)
    requires !NamedIn(VersionProperty, attributes)
    ensures var d := DefaultValues(attributes);
            VersionProperty in d && d[VersionProperty] == IntValue(0)
    ensures forall i :: 0 <= i < |attributes| ==>
              var a := attributes[i];
              var d := DefaultValues(attributes);
              (a.defaultValue.None? ==> a.name !in d) &&
              (a.defaultValue.Some? && ConverterFor(a.attributeType).None? ==>
                 a.name in d && d[a.name] == a.defaultValue.value) &&
              (a.defaultValue.Some? && ConverterFor(a.attributeType).Some? ==>
                 var converted := ConvertForSetter(ConverterFor(a.attributeType).value, a.defaultValue);
                 (a.name in d <==> converted.Some?) && (converted.Some? ==> d[a.name] == converted.value))
    ensures forall k :: k in DefaultValues(attributes) ==> k == VersionProperty || NamedIn(k, attributes)
  {
    var m := map[VersionProperty := IntValue(0)];
    AddDefaultsFrame(m, attributes, VersionProperty);
    forall i | 0 <= i < |attributes|
      ensures var a := attributes[i];
              var d := DefaultValues(attributes);
              (a.defaultValue.None? ==> a.name !in d) &&
              (a.defaultValue.Some? && ConverterFor(a.attributeType).None? ==>
                 a.name in d && d[a.name] == a.defaultValue.value) &&
              (a.defaultValue.Some? && ConverterFor(a.attributeType).Some? ==>
                 var converted := ConvertForSetter(ConverterFor(a.attributeType).value, a.defaultValue);
                 (a.name in d <==> converted.Some?) && (converted.Some? ==> d[a.name] == converted.value))
    {
      assert attributes[i].name != VersionProperty;
      AddDefaultsEntry(m, attributes, i);
    }
    forall k | k in DefaultValues(attributes)
      ensures k == VersionProperty || NamedIn(k, attributes)
    {
      if !NamedIn(k, attributes) {
        AddDefaultsFrame(m, attributes, k);
      }
    }
  }

  // ---------------------------------------------------------------------------------------------
  // Selector synthesis: every added instance method must be new to the class

  /** Adds selectors in order; adding one the class already has stops the process. */
  function AddSelectors(names: seq<string>, selectors: set<string>): (r: Result<set<string>, Failure>)
    ensures r.Failure? ==> r.error.Trap?
    ensures r.Failure? ==> r.error.reason.DuplicateSelector? && r.error.reason.selector in names
    ensures r.Success? ==> selectors <= r.value && forall i :: 0 <= i < |names| ==> names[i] in r.value
    decreases |names|
  {
    if names == [] then Success(selectors)
    else if names[0] in selectors then Failure(Trap(DuplicateSelector(names[0])))
    else
      assert forall i :: 1 <= i < |names| ==> names[i] == names[1..][i - 1];
      AddSelectors(names[1..], selectors + {names[0]})
  }

  /** The getter and setter synthesised for one attribute. */
  function AttributeSelectors(a: Attribute): seq<string> {
    [SynthesizedNames(a.name).getter, SynthesizedNames(a.name).setter]
  }

  /** The selectors of the reserved properties, added after the attributes' selectors. */
  const ReservedSelectors: seq<string> := [ResourceIDProperty, ResourceIDSetter, VersionProperty, VersionSetter]

  /** Checks each attribute's type, then synthesises its accessors, in attribute order. */
  function SynthesizeAttributes(attributes: seq<Attribute>, selectors: set<string>): (r: Result<set<string>, Failure>)
    ensures r.Success? ==> AllSupported(attributes)
    ensures r.Success? ==> selectors <= r.value
    ensures r.Failure? ==> r.error.Trap?
    decreases |attributes|
  {
    if attributes == [] then Success(selectors)
    else if !Supported(attributes[0].attributeType) then Failure(Trap(UnsupportedAttributeType(attributes[0].name)))
    else
      var added :- AddSelectors(AttributeSelectors(attributes[0]), selectors);
      var r := SynthesizeAttributes(attributes[1..], added);
      assert r.Success? ==> AllSupported(attributes) by {
        if r.Success? {
          forall i | 0 <= i < |attributes| ensures Supported(attributes[i].attributeType) {
            if i > 0 { assert attributes[i] == attributes[1..][i - 1]; }
          }
        }
      }
      AddSelectorsGrows(AttributeSelectors(attributes[0]), selectors);
      r
  }

  /** The selectors synthesised for the attributes, in order: getter then setter of each. */
  function AttributeSelectorList(attributes: seq<Attribute>): (r: seq<string>)
    ensures |r| == 2 * |attributes|
    decreases |attributes|
  {
    if attributes == [] then [] else AttributeSelectors(attributes[0]) + AttributeSelectorList(attributes[1..])
  }

  /** All selectors a backing class receives, in the order they are added. */
  function SelectorList(attributes: seq<Attribute>): seq<string> {
    AttributeSelectorList(attributes) + ReservedSelectors
  }

  predicate Distinct(names: seq<string>) {
    forall i, j :: 0 <= i < j < |names| ==> names[i] != names[j]
  }

  predicate Disjoint(names: seq<string>, selectors: set<string>) {
    forall i :: 0 <= i < |names| ==> names[i] !in selectors
  }

  /** Adding selectors succeeds exactly when they are pairwise distinct and new. */
  lemma {:induction false} AddSelectorsSucceeds(names: seq<string>, selectors: set<string>)
    ensures AddSelectors(names, selectors).Success? <==> Distinct(names) && Disjoint(names, selectors)
    ensures AddSelectors(names, selectors).Success? ==>
              AddSelectors(names, selectors).value == selectors + set x | x in names
    decreases |names|
  {
    if names != [] {
      var rest := names[1..];
      AddSelectorsSucceeds(rest, selectors + {names[0]});
      if names[0] !in selectors {
        if Distinct(names) && Disjoint(names, selectors) {
          assert Distinct(rest) && Disjoint(rest, selectors + {names[0]}) by {
            forall i | 0 <= i < |rest| ensures rest[i] !in selectors + {names[0]} {
              assert rest[i] == names[i + 1];
            }
            forall i, j | 0 <= i < j < |rest| ensures rest[i] != rest[j] {
              assert rest[i] == names[i + 1] && rest[j] == names[j + 1];
            }
          }
          assert names == [names[0]] + rest;
        }
        if Distinct(rest) && Disjoint(rest, selectors + {names[0]}) {
          assert Distinct(names) && Disjoint(names, selectors) by {
            forall i, j | 0 <= i < j < |names| ensures names[i] != names[j] {
              if i == 0 { assert names[j] == rest[j - 1]; }
              else { assert names[i] == rest[i - 1] && names[j] == rest[j - 1]; }
            }
            forall i | 0 <= i < |names| ensures names[i] !in selectors {
              if i > 0 { assert names[i] == rest[i - 1]; }
            }
          }
        }
      } else {
        assert !Disjoint(names, selectors);
      }
    }
  }

  /** A successful addition keeps the selectors already present. */
  lemma {:induction false} AddSelectorsGrows(names: seq<string>, selectors: set<string>)
    ensures AddSelectors(names, selectors).Success? ==> selectors <= AddSelectors(names, selectors).value
    decreases |names|
  {
    if names != [] && names[0] !in selectors {
      AddSelectorsGrows(names[1..], selectors + {names[0]});
    }
  }

  lemma DistinctConcat(a: seq<string>, b: seq<string>)
    ensures Distinct(a + b) <==> Distinct(a) && Distinct(b) && Disjoint(b, set x | x in a)
  {
    var ab := a + b;
    if Distinct(a) && Distinct(b) && Disjoint(b, set x | x in a) {
      forall i, j | 0 <= i < j < |ab| ensures ab[i] != ab[j] {
        if j >= |a| && i < |a| {
          assert ab[j] == b[j - |a|] && ab[i] in a;
        }
      }
    }
    if Distinct(ab) {
      forall i, j | 0 <= i < j < |a| ensures a[i] != a[j] {
        assert a[i] == ab[i] && a[j] == ab[j];
      }
      forall i, j | 0 <= i < j < |b| ensures b[i] != b[j] {
        assert b[i] == ab[i + |a|] && b[j] == ab[j + |a|];
      }
      forall i, k | 0 <= i < |b| && 0 <= k < |a| ensures a[k] != b[i] {
        assert ab[k] == a[k] && ab[i + |a|] == b[i];
      }
    }
  }

  lemma AllSupportedCons(attributes: seq<Attribute>)
    requires attributes != []
    ensures AllSupported(attributes) <==> Supported(attributes[0].attributeType) && AllSupported(attributes[1..])
  {
    if Supported(attributes[0].attributeType) && AllSupported(attributes[1..]) {
      forall i | 0 <= i < |attributes| ensures Supported(attributes[i].attributeType) {
        if i > 0 { assert attributes[i] == attributes[1..][i - 1]; }
      }
    }
  }

  lemma DisjointConcat(a: seq<string>, b: seq<string>, selectors: set<string>)
    ensures Disjoint(a + b, selectors) <==> Disjoint(a, selectors) && Disjoint(b, selectors)
  {
    var ab := a + b;
    if Disjoint(ab, selectors) {
      forall i | 0 <= i < |b| ensures b[i] !in selectors { assert b[i] == ab[i + |a|]; }
      forall i | 0 <= i < |a| ensures a[i] !in selectors { assert a[i] == ab[i]; }
    }
  }

  /** The elements of a concatenation are those of its parts. */
  lemma ElementsOfConcat(a: seq<string>, b: seq<string>)
    ensures (set x | x in a + b) == (set x | x in a) + (set x | x in b)
  {
    assert forall x :: x in a + b <==> x in a || x in b;
  }

  lemma DisjointUnion(names: seq<string>, s1: set<string>, s2: set<string>)
    ensures Disjoint(names, s1 + s2) <==> Disjoint(names, s1) && Disjoint(names, s2)
  {
  }

  /** The attributes' accessors synthesise exactly when every type is supported and every selector is new. */
  lemma {:induction false} SynthesizeAttributesSucceeds(attributes: seq<Attribute>, selectors: set<string>)
    ensures var list := AttributeSelectorList(attributes);
            SynthesizeAttributes(attributes, selectors).Success? <==>
              AllSupported(attributes) && Distinct(list) && Disjoint(list, selectors)
    ensures SynthesizeAttributes(attributes, selectors).Success? ==>
              SynthesizeAttributes(attributes, selectors).value == selectors + set x | x in AttributeSelectorList(attributes)
    decreases |attributes|
  {
    if attributes != [] {
      var a, rest := attributes[0], attributes[1..];
      var first := AttributeSelectors(a);
      var restList := AttributeSelectorList(rest);
      assert AttributeSelectorList(attributes) == first + restList;
      AllSupportedCons(attributes);
      DistinctConcat(first, restList);
      DisjointConcat(first, restList, selectors);
      AddSelectorsSucceeds(first, selectors);
      if Supported(a.attributeType) && AddSelectors(first, selectors).Success? {
        var added := AddSelectors(first, selectors).value;
        SynthesizeAttributesSucceeds(rest, added);
        DisjointUnion(restList, selectors, set x | x in first);
        ElementsOfConcat(first, restList);
        assert SynthesizeAttributes(attributes, selectors) == SynthesizeAttributes(rest, added);
      }
    }
  }

  /** Position `2i` of the attribute selector list is attribute `i`'s getter, which is its name. */
  lemma {:induction false} AttributeSelectorListAt(attributes: seq<Attribute>, i: nat)
    requires i < |attributes|
    ensures AttributeSelectorList(attributes)[2 * i] == attributes[i].name
    decreases |attributes|
  {
    var rest := AttributeSelectorList(attributes[1..]);
    if i > 0 {
      AttributeSelectorListAt(attributes[1..], i - 1);
      assert rest[2 * (i - 1)] == attributes[i].name by {
        assert attributes[1..][i - 1] == attributes[i];
      }
      assert AttributeSelectorList(attributes)[2 * i] == rest[2 * (i - 1)] by {
        assert AttributeSelectorList(attributes) == AttributeSelectors(attributes[0]) + rest;
        assert 2 * i == 2 * (i - 1) + 2;
      }
    } else {
      assert AttributeSelectorList(attributes) == AttributeSelectors(attributes[0]) + rest;
    }
  }

  /** When the selectors are distinct, the attribute names are distinct and none is a reserved name. */
  lemma DistinctSelectorsNames(attributes: seq<Attribute>)
    requires Distinct(SelectorList(attributes))
    ensures NamesDistinct(attributes)
    ensures !NamedIn(ResourceIDProperty, attributes) && !NamedIn(VersionProperty, attributes)
  {
    var list := SelectorList(attributes);
    forall i, j | 0 <= i < j < |attributes| ensures attributes[i].name != attributes[j].name {
      AttributeSelectorListAt(attributes, i);
      AttributeSelectorListAt(attributes, j);
      assert list[2 * i] == attributes[i].name && list[2 * j] == attributes[j].name;
    }
    var n := 2 * |attributes|;
    assert list[n] == ResourceIDProperty && list[n + 2] == VersionProperty;
    forall i | 0 <= i < |attributes|
      ensures attributes[i].name != ResourceIDProperty && attributes[i].name != VersionProperty
    {
      AttributeSelectorListAt(attributes, i);
      assert list[2 * i] == attributes[i].name;
    }
  }

  // ---------------------------------------------------------------------------------------------
  // Building the backing type

  /**
   * Builds the backing class and object schema of an entity. The process stops on an attribute
   * type the store cannot hold and on a selector the class already has.
   */
  function BuildBackingType(entity: Entity, sdkVersion: string): (r: Result<BackingType, Failure>)
    ensures r.Success? ==> AllSupported(entity.attributes)
    ensures r.Failure? ==> r.error.Trap?
  {
    var selectors :- SynthesizeAttributes(entity.attributes, {});
    var _ :- AddSelectors(ReservedSelectors, selectors);
    var className := BackingClassName(sdkVersion, entity.name);
    var backingClass := BackingClass(className, ResourceIDProperty, DefaultValues(entity.attributes), Accessors(entity.attributes));
    var properties := SchemaProperties(entity.attributes);
    Success(BackingType(backingClass, ObjectSchema(className, properties)))
  }

  /** Building succeeds exactly for entities of supported types whose synthesised selectors are all distinct. */
  lemma BuildBackingTypeSucceeds(entity: Entity, sdkVersion: string)
    ensures BuildBackingType(entity, sdkVersion).Success? <==>
              AllSupported(entity.attributes) && Distinct(SelectorList(entity.attributes))
  {
    var attrs := entity.attributes;
    var list := AttributeSelectorList(attrs);
    SynthesizeAttributesSucceeds(attrs, {});
    DistinctConcat(list, ReservedSelectors);
    if SynthesizeAttributes(attrs, {}).Success? {
      var selectors := SynthesizeAttributes(attrs, {}).value;
      AddSelectorsSucceeds(ReservedSelectors, selectors);
      assert selectors == set x | x in list;
    }
  }

  /**
   * The layout of a built schema: the primary-key and version properties first, then exactly one
   * optional, non-link property per attribute, in attribute order, with the attribute's index flag
   * and mapped type. The class is named after the entity, keyed by the resource ID, and carries the
   * default table and one accessor per stored property.
   */
  lemma BackingTypeLayout(entity: Entity, sdkVersion: string)
    requires BuildBackingType(entity, sdkVersion).Success?
    ensures var bt := BuildBackingType(entity, sdkVersion).value;
            var props := bt.objectSchema.properties;
            && bt.backingClass.name == bt.objectSchema.className == BackingClassName(sdkVersion, entity.name)
            && bt.backingClass.primaryKey == ResourceIDProperty
            && |props| == 2 + |entity.attributes|
            && props[0] == ResourceIDPropertyDescriptor()
            && props[1] == VersionPropertyDescriptor()
            && (forall i :: 0 <= i < |entity.attributes| ==>
                  var a := entity.attributes[i];
                  && props[i + 2].name == a.name
                  && props[i + 2].propertyType == PropertyTypeFor(a.attributeType).value
                  && props[i + 2].optional
                  && props[i + 2].indexed == a.indexed)
            && (forall p :: p in props ==> p.objectClassName.None? && p.getterName == p.name)
            && bt.backingClass.defaultPropertyValues == DefaultValues(entity.attributes)
            && bt.backingClass.accessors.Keys == PropertyNameSet(props)
    ensures NamesDistinct(entity.attributes)
    ensures !NamedIn(ResourceIDProperty, entity.attributes) && !NamedIn(VersionProperty, entity.attributes)
  {
    BuiltAttributeNames(entity, sdkVersion);
    BuiltValue(entity, sdkVersion);
    SchemaPropertiesAt(entity.attributes);
    SchemaPropertiesPlain(entity.attributes);
    PropertyNames(entity.attributes);
  }

  /** The value a successful build produces, written out. */
  lemma BuiltValue(entity: Entity, sdkVersion: string)
    requires BuildBackingType(entity, sdkVersion).Success?
    ensures var className := BackingClassName(sdkVersion, entity.name);
            BuildBackingType(entity, sdkVersion).value ==
              BackingType(BackingClass(className, ResourceIDProperty, DefaultValues(entity.attributes), Accessors(entity.attributes)),
                          ObjectSchema(className, SchemaProperties(entity.attributes)))
  {
  }

  /** A built entity's attributes have distinct names, none of them reserved, and its version default is 0. */
  lemma BuiltAttributeNames(entity: Entity, sdkVersion: string)
    requires BuildBackingType(entity, sdkVersion).Success?
    ensures NamesDistinct(entity.attributes)
    ensures !NamedIn(ResourceIDProperty, entity.attributes) && !NamedIn(VersionProperty, entity.attributes)
    ensures var defaults := BuildBackingType(entity, sdkVersion).value.backingClass.defaultPropertyValues;
            VersionProperty in defaults && defaults[VersionProperty] == IntValue(0)
  {
    BuildBackingTypeSucceeds(entity, sdkVersion);
    DistinctSelectorsNames(entity.attributes);
    DefaultValuesTable(entity.attributes);
  }

  /** In a built class, each attribute's accessor carries its type's converter; the reserved ones carry none. */
  lemma BuiltAccessorConverters(entity: Entity, sdkVersion: string)
    requires BuildBackingType(entity, sdkVersion).Success?
    ensures var accessors := BuildBackingType(entity, sdkVersion).value.backingClass.accessors;
            && (forall i :: 0 <= i < |entity.attributes| ==>
                  && entity.attributes[i].name in accessors
                  && accessors[entity.attributes[i].name].converter == ConverterFor(entity.attributes[i].attributeType))
            && ResourceIDProperty in accessors && accessors[ResourceIDProperty].converter.None?
            && VersionProperty in accessors && accessors[VersionProperty].converter.None?
  {
    BuiltAttributeNames(entity, sdkVersion);
    BuiltValue(entity, sdkVersion);
    var attrs := entity.attributes;
    forall i | 0 <= i < |attrs|
      ensures attrs[i].name in Accessors(attrs) && Accessors(attrs)[attrs[i].name].converter == ConverterFor(attrs[i].attributeType)
    {
      AccessorAt(attrs, i);
    }
  }

  /** With distinct attribute names none of which is reserved, an attribute's accessor carries its type's converter. */
  lemma AccessorAt(attributes: seq<Attribute>, i: nat)
    requires NamesDistinct(attributes) && i < |attributes|
    requires !NamedIn(ResourceIDProperty, attributes) && !NamedIn(VersionProperty, attributes)
    ensures attributes[i].name in Accessors(attributes)
    ensures Accessors(attributes)[attributes[i].name].converter == ConverterFor(attributes[i].attributeType)
  {
    AttributeAccessorsEntry(attributes, i);
    assert attributes[i].name != ResourceIDProperty && attributes[i].name != VersionProperty;
  }

  /** The reserved properties come first, then each attribute's property at its index plus two. */
  lemma SchemaPropertiesAt(attributes: seq<Attribute>)
    requires AllSupported(attributes)
    ensures var props := SchemaProperties(attributes);
            && props[0] == ResourceIDPropertyDescriptor() && props[1] == VersionPropertyDescriptor()
            && forall i :: 0 <= i < |attributes| ==> props[i + 2] == AttributeProperty(attributes[i])
  {
    var head := [ResourceIDPropertyDescriptor(), VersionPropertyDescriptor()];
    var tail := AttributeProperties(attributes);
    assert SchemaProperties(attributes) == head + tail;
    forall i | 0 <= i < |attributes| ensures (head + tail)[i + 2] == AttributeProperty(attributes[i]) {
      assert tail[i] == AttributeProperty(attributes[i]);
    }
  }

  /** No stored property links to another class, and each is read through a getter named after it. */
  lemma SchemaPropertiesPlain(attributes: seq<Attribute>)
    requires AllSupported(attributes)
    ensures forall p :: p in SchemaProperties(attributes) ==> p.objectClassName.None? && p.getterName == p.name
  {
    var props := SchemaProperties(attributes);
    SchemaPropertiesAt(attributes);
    forall k | 0 <= k < |props| ensures props[k].objectClassName.None? && props[k].getterName == props[k].name {
      if k >= 2 { assert props[k] == AttributeProperty(attributes[k - 2]); }
    }
  }

  function PropertyNameSet(props: seq<Property>): set<string> {
    set p | p in props :: p.name
  }

  function AttributeNameSet(attributes: seq<Attribute>): set<string> {
    set i | 0 <= i < |attributes| :: attributes[i].name
  }

  lemma AttributeNamesListed(attributes: seq<Attribute>)
    requires AllSupported(attributes)
    ensures AttributeNameSet(attributes) <= PropertyNameSet(SchemaProperties(attributes))
  {
    var props := SchemaProperties(attributes);
    forall x | x in AttributeNameSet(attributes) ensures x in PropertyNameSet(props) {
      var i :| 0 <= i < |attributes| && attributes[i].name == x;
      assert props[i + 2] in props && props[i + 2].name == x;
    }
  }

  lemma SchemaPropertyName(attributes: seq<Attribute>, k: nat)
    requires AllSupported(attributes) && k < 2 + |attributes|
    ensures k == 0 ==> SchemaProperties(attributes)[k].name == ResourceIDProperty
    ensures k == 1 ==> SchemaProperties(attributes)[k].name == VersionProperty
    ensures k >= 2 ==> SchemaProperties(attributes)[k].name in AttributeNameSet(attributes)
  {
    if k >= 2 {
      assert attributes[k - 2].name in AttributeNameSet(attributes);
    }
  }

  lemma ListedNamesKnown(attributes: seq<Attribute>)
    requires AllSupported(attributes)
    ensures PropertyNameSet(SchemaProperties(attributes)) <= AttributeNameSet(attributes) + {ResourceIDProperty, VersionProperty}
  {
    var props := SchemaProperties(attributes);
    forall p | p in props ensures p.name in AttributeNameSet(attributes) + {ResourceIDProperty, VersionProperty} {
      var k :| 0 <= k < |props| && props[k] == p;
      SchemaPropertyName(attributes, k);
    }
  }

  /** The names of the schema properties are the reserved names and the attribute names. */
  lemma PropertyNames(attributes: seq<Attribute>)
    requires AllSupported(attributes)
    ensures Accessors(attributes).Keys == PropertyNameSet(SchemaProperties(attributes))
  {
    var props := SchemaProperties(attributes);
    assert Accessors(attributes).Keys == AttributeNameSet(attributes) + {ResourceIDProperty, VersionProperty};
    AttributeNamesListed(attributes);
    ListedNamesKnown(attributes);
    assert ResourceIDProperty in PropertyNameSet(props) && VersionProperty in PropertyNameSet(props) by {
      SchemaPropertyName(attributes, 0);
      SchemaPropertyName(attributes, 1);
      assert props[0] in props && props[1] in props;
    }
  }

  // ---------------------------------------------------------------------------------------------
  // The schema cache and the entity's userInfo

  /** Backing types by version hash, and the class names already registered with the runtime. */
  datatype SchemaCache = SchemaCache(classes: map<VersionHash, BackingType>, classNames: set<string>)

  /** Every cached backing type's class name is registered, and its class and schema agree on the name. */
  predicate CacheConsistent(cache: SchemaCache) {
    forall h :: h in cache.classes ==>
      && cache.classes[h].backingClass.name in cache.classNames
      && cache.classes[h].objectSchema.className == cache.classes[h].backingClass.name
  }

  /** Every entry of the first cache is in the second, unchanged. */
  predicate KeepsEntries(before: map<VersionHash, BackingType>, after: map<VersionHash, BackingType>) {
    forall h :: h in before ==> h in after && after[h] == before[h]
  }

  datatype LoadResult = LoadResult(backingType: BackingType, entity: Entity, cache: SchemaCache)

  /** The entity with the backing class and object schema recorded in its userInfo. */
  function Publish(entity: Entity, backingType: BackingType): (r: Entity)
    ensures r.name == entity.name && r.versionHash == entity.versionHash
    ensures r.attributes == entity.attributes && r.relationships == entity.relationships
    ensures r.userInfo.Some?
    ensures BackingClassKey in r.userInfo.value && r.userInfo.value[BackingClassKey] == BackingClassInfo(backingType.backingClass)
    ensures ObjectSchemaKey in r.userInfo.value && r.userInfo.value[ObjectSchemaKey] == ObjectSchemaInfo(backingType.objectSchema)
    ensures r.userInfo.value.Keys == entity.userInfo.GetOr(map[]).Keys + {BackingClassKey, ObjectSchemaKey}
    ensures forall k :: k in entity.userInfo.GetOr(map[]) && k != BackingClassKey && k != ObjectSchemaKey ==>
              r.userInfo.value[k] == entity.userInfo.GetOr(map[])[k]
  {
    var info := entity.userInfo.GetOr(map[]);
    entity.(userInfo := Some(info[BackingClassKey := BackingClassInfo(backingType.backingClass)]
                                 [ObjectSchemaKey := ObjectSchemaInfo(backingType.objectSchema)]))
  }

  /**
   * Returns the cached backing type for the entity's version hash, or builds one, registers its
   * class name and caches it under that hash; either way the result is recorded in the entity's
   * userInfo. A class name already registered under another hash stops the process.
   */
  function LoadRealmBackingTypeIfNeeded(entity: Entity, cache: SchemaCache, sdkVersion: string): (r: Result<LoadResult, Failure>)
    ensures entity.versionHash in cache.classes ==>
              r == Success(LoadResult(cache.classes[entity.versionHash], Publish(entity, cache.classes[entity.versionHash]), cache))
    ensures entity.versionHash !in cache.classes ==>
              (r.Success? <==> BackingClassName(sdkVersion, entity.name) !in cache.classNames && BuildBackingType(entity, sdkVersion).Success?)
    ensures entity.versionHash !in cache.classes && r.Success? ==>
              && r.value.backingType == BuildBackingType(entity, sdkVersion).value
              && r.value.cache.classes == cache.classes[entity.versionHash := r.value.backingType]
    ensures r.Success? ==> r.value.entity == Publish(entity, r.value.backingType)
    ensures r.Failure? ==> r.error.Trap?
  {
    var hash := entity.versionHash;
    if hash in cache.classes then
      var existing := cache.classes[hash];
      Success(LoadResult(existing, Publish(entity, existing), cache))
    else
      var className := BackingClassName(sdkVersion, entity.name);
      if className in cache.classNames then Failure(Trap(ClassNameTaken(className)))
      else
        var backingType :- BuildBackingType(entity, sdkVersion);
        var cache' := SchemaCache(cache.classes[hash := backingType], cache.classNames + {className});
        Success(LoadResult(backingType, Publish(entity, backingType), cache'))
  }

  /** Loading keeps the cache consistent and never drops or changes an entry. */
  lemma LoadKeepsCacheConsistent(entity: Entity, cache: SchemaCache, sdkVersion: string)
    requires CacheConsistent(cache)
    requires LoadRealmBackingTypeIfNeeded(entity, cache, sdkVersion).Success?
    ensures var c' := LoadRealmBackingTypeIfNeeded(entity, cache, sdkVersion).value.cache;
            CacheConsistent(c') && cache.classNames <= c'.classNames &&
            forall h :: h in cache.classes ==> h in c'.classes && c'.classes[h] == cache.classes[h]
  {
    if entity.versionHash !in cache.classes {
      BackingTypeLayout(entity, sdkVersion);
    }
  }

  /**
   * A second load for the same version hash, from the cache the first load left, returns the same
   * backing type and leaves the cache as it is.
   */
  lemma LoadTwice(entity: Entity, other: Entity, cache: SchemaCache, sdkVersion: string)
    requires LoadRealmBackingTypeIfNeeded(entity, cache, sdkVersion).Success?
    requires other.versionHash == entity.versionHash
    ensures var first := LoadRealmBackingTypeIfNeeded(entity, cache, sdkVersion).value;
            var second := LoadRealmBackingTypeIfNeeded(other, first.cache, sdkVersion);
            second.Success? && second.value.backingType == first.backingType && second.value.cache == first.cache
  {
  }

  /** Whether the entity's userInfo records a backing class. */
  predicate HasBackingClassInfo(entity: Entity) {
    entity.userInfo.Some? && BackingClassKey in entity.userInfo.value && entity.userInfo.value[BackingClassKey].BackingClassInfo?
  }

  /** Whether the entity's userInfo records an object schema. */
  predicate HasObjectSchemaInfo(entity: Entity) {
    entity.userInfo.Some? && ObjectSchemaKey in entity.userInfo.value && entity.userInfo.value[ObjectSchemaKey].ObjectSchemaInfo?
  }

  /**
   * `realmBackingClass`: the class recorded in userInfo if there is one, otherwise the loaded one.
   * The entity whose userInfo the load publishes to is not returned: a later access with the same
   * entity finds the same value in the cache (`LoadTwice`), which is what the published entity
   * would give (`AccessorsAfterLoad`).
   */
  function RealmBackingClass(entity: Entity, cache: SchemaCache, sdkVersion: string): (r: Result<(BackingClass, SchemaCache), Failure>)
    ensures r.Failure? ==> r.error.Trap?
    ensures r.Success? ==> KeepsEntries(cache.classes, r.value.1.classes)
    ensures !HasBackingClassInfo(entity) && entity.versionHash in cache.classes ==>
              r == Success((cache.classes[entity.versionHash].backingClass, cache))
    ensures !HasBackingClassInfo(entity) && entity.versionHash !in cache.classes && r.Success? ==>
              BuildBackingType(entity, sdkVersion).Success? && r.value.0 == BuildBackingType(entity, sdkVersion).value.backingClass
  {
    if HasBackingClassInfo(entity) then
      Success((entity.userInfo.value[BackingClassKey].backingClass, cache))
    else
      var loaded :- LoadRealmBackingTypeIfNeeded(entity, cache, sdkVersion);
      Success((loaded.backingType.backingClass, loaded.cache))
  }

  /**
   * `realmObjectSchema`: the schema recorded in userInfo if there is one, otherwise the loaded one.
   * As for `RealmBackingClass`, the published entity is not returned.
   */
  function RealmObjectSchema(entity: Entity, cache: SchemaCache, sdkVersion: string): (r: Result<(ObjectSchema, SchemaCache), Failure>)
    ensures r.Failure? ==> r.error.Trap?
    ensures r.Success? ==> KeepsEntries(cache.classes, r.value.1.classes)
    ensures !HasObjectSchemaInfo(entity) && entity.versionHash in cache.classes ==>
              r == Success((cache.classes[entity.versionHash].objectSchema, cache))
    ensures !HasObjectSchemaInfo(entity) && entity.versionHash !in cache.classes && r.Success? ==>
              BuildBackingType(entity, sdkVersion).Success? && r.value.0 == BuildBackingType(entity, sdkVersion).value.objectSchema
  {
    if HasObjectSchemaInfo(entity) then
      Success((entity.userInfo.value[ObjectSchemaKey].objectSchema, cache))
    else
      var loaded :- LoadRealmBackingTypeIfNeeded(entity, cache, sdkVersion);
      Success((loaded.backingType.objectSchema, loaded.cache))
  }

  /**
   * After a load, both accessors on the updated entity return the loaded class and schema from
   * userInfo, without consulting or changing any cache.
   */
  lemma AccessorsAfterLoad(entity: Entity, cache: SchemaCache, sdkVersion: string, anyCache: SchemaCache)
    requires LoadRealmBackingTypeIfNeeded(entity, cache, sdkVersion).Success?
    ensures var loaded := LoadRealmBackingTypeIfNeeded(entity, cache, sdkVersion).value;
            && RealmBackingClass(loaded.entity, anyCache, sdkVersion) == Success((loaded.backingType.backingClass, anyCache))
            && RealmObjectSchema(loaded.entity, anyCache, sdkVersion) == Success((loaded.backingType.objectSchema, anyCache))
  {
  }
}
