/**
 * Records of the store and the operations on them that the backing classes provide: creating a
 * record under a resource ID, reading and writing its version counter, and copying a managed
 * object's values into it.
 */
module BackingObject {
  import opened Wrappers
  import opened Values
  import opened Errors
  import opened Naming
  import opened EntitySchema

  /** A stored record: column name to value; an absent column is nil. */
  type Record = map<string, Value>

  const UInt64Limit: int := 0x1_0000_0000_0000_0000

  /** An unsigned 64-bit integer. */
  type UInt64 = x: int | 0 <= x < UInt64Limit

  /** A managed object: its ID, its entity and the values its properties hold (absent is nil). */
  datatype ManagedObject = ManagedObject(objectID: ObjectID, entity: Entity, values: map<string, Value>)

  /** `valueForKey` on a managed object. */
  function ValueForKey(managed: ManagedObject, key: string): Option<Value> {
    if key in managed.values then Some(managed.values[key]) else None
  }

  function Column(record: Record, name: string): Option<Value> {
    if name in record then Some(record[name]) else None
  }

  /**
   * A new record created with only its resource ID given: every other column takes the class's
   * default value or stays nil.
   */
  function CreateBackingObject(backingClass: BackingClass, reference: string): (r: Record)
    ensures Column(r, ResourceIDProperty) == Some(StringValue(reference))
    ensures forall k :: k != ResourceIDProperty ==> Column(r, k) == Column(backingClass.defaultPropertyValues, k)
  {
    backingClass.defaultPropertyValues[ResourceIDProperty := StringValue(reference)]
  }

  /**
   * The record's version: the version column as an unsigned 64-bit number (congruent to the stored
   * integer modulo 2^64), 0 when it is unset or holds a non-integer value (the version column is
   * always an integer column, so the latter does not arise for a stored record).
   */
  function ObjectVersion(record: Record): (v: UInt64)
    ensures VersionProperty !in record || !record[VersionProperty].IntValue? ==> v == 0
    ensures VersionProperty in record && record[VersionProperty].IntValue? ==>
              (v - record[VersionProperty].i) % UInt64Limit == 0
    ensures VersionProperty in record && record[VersionProperty].IntValue? && 0 <= record[VersionProperty].i < UInt64Limit ==>
              v == record[VersionProperty].i
  {
    if VersionProperty in record && record[VersionProperty].IntValue? then record[VersionProperty].i % UInt64Limit else 0
  }

  /** Stores a version; reading it back gives exactly that version and no other column changes. */
  function SetObjectVersion(record: Record, version: UInt64): (r: Record)
    ensures ObjectVersion(r) == version
    ensures forall k :: k != VersionProperty ==> Column(r, k) == Column(record, k)
  {
    record[VersionProperty := IntValue(version)]
  }

  /** The converter of the accessor synthesised for a property, if the class has one for it. */
  function ConverterOf(backingClass: BackingClass, name: string): Option<Converter> {
    if name in backingClass.accessors then backingClass.accessors[name].converter else None
  }

  /** Writes a column through its synthesised setter; a nil result clears the column. */
  function WriteColumn(backingClass: BackingClass, record: Record, name: string, value: Option<Value>): (r: Record)
    ensures Column(r, name) == Stored(ConverterOf(backingClass, name), value)
    ensures forall k :: k != name ==> Column(r, k) == Column(record, k)
  {
    match Stored(ConverterOf(backingClass, name), value)
    case Some(x) => record[name := x]
    case None => record - {name}
  }

  /** Reads a column through its synthesised getter. */
  function ReadColumn(backingClass: BackingClass, record: Record, name: string): (r: Option<Value>)
    ensures Column(record, name).None? ==> r.None?
    ensures ConverterOf(backingClass, name).None? ==> r == Column(record, name)
  {
    Loaded(ConverterOf(backingClass, name), Column(record, name))
  }

  /**
   * A value written through an attribute's setter reads back unchanged through its getter, when it
   * has the attribute's type or is nil.
   */
  lemma WriteThenRead(backingClass: BackingClass, record: Record, a: Attribute, value: Option<Value>)
    requires ConverterOf(backingClass, a.name) == ConverterFor(a.attributeType)
    requires value.None? || IsAttributeValue(a.attributeType, value.value)
    ensures ReadColumn(backingClass, WriteColumn(backingClass, record, a.name, value), a.name) == value
  {
    if value.Some? {
      ConverterRoundTrip(a.attributeType, value.value);
    }
  }

  predicate IsReserved(name: string) {
    name == ResourceIDProperty || name == VersionProperty
  }

  /** Copies every attribute value except those named like the reserved properties. */
  function CopyAttributes(backingClass: BackingClass, record: Record, managed: ManagedObject, attributes: seq<Attribute>): Record
    decreases |attributes|
  {
    if attributes == [] then record
    else
      var name := attributes[0].name;
      var record' := if IsReserved(name) then record else WriteColumn(backingClass, record, name, ValueForKey(managed, name));
      CopyAttributes(backingClass, record', managed, attributes[1..])
  }

  /** Whether saving clears a relationship column: a to-one relationship whose value is not a managed object. */
  predicate ClearsRelationship(managed: ManagedObject, r: Relationship) {
    !r.toMany && !(ValueForKey(managed, r.name).Some? && ValueForKey(managed, r.name).value.ManagedObjectValue?)
  }

  /** Relationship handling: a to-one relationship without an managed clears its column; nothing else is written. */
  function WriteRelationships(record: Record, managed: ManagedObject, relationships: seq<Relationship>): Record
    decreases |relationships|
  {
    if relationships == [] then record
    else
      var r := relationships[0];
      var record' := if ClearsRelationship(managed, r) then record - {r.name} else record;
      WriteRelationships(record', managed, relationships[1..])
  }

  /**
   * `setValuesFromManagedObject`: copies the attributes, clears empty to-one relationships and adds
   * one to the version; adding one to the largest 64-bit version overflows and stops the process.
   */
  function SetValuesFromManagedObject(backingClass: BackingClass, record: Record, managed: ManagedObject): (r: Result<Record, Failure>)
    ensures r.Failure? ==> r.error == Trap(VersionOverflow)
  {
    var copied := CopyAttributes(backingClass, record, managed, managed.entity.attributes);
    var written := WriteRelationships(copied, managed, managed.entity.relationships);
    var version := ObjectVersion(written);
    if version == UInt64Limit - 1 then Failure(Trap(VersionOverflow))
    else Success(SetObjectVersion(written, version + 1))
  }

  // ---------------------------------------------------------------------------------------------
  // What setValuesFromManagedObject writes

  /** Copying attributes leaves every column alone that no copied attribute names. */
  lemma {:induction false} CopyAttributesFrame(backingClass: BackingClass, record: Record, managed: ManagedObject, attributes: seq<Attribute>, k: string)
    requires IsReserved(k) || !NamedIn(k, attributes)
    ensures Column(CopyAttributes(backingClass, record, managed, attributes), k) == Column(record, k)
    decreases |attributes|
  {
    if attributes != [] {
      var rest := attributes[1..];
      assert IsReserved(k) || !NamedIn(k, rest);
      var name := attributes[0].name;
      var record' := if IsReserved(name) then record else WriteColumn(backingClass, record, name, ValueForKey(managed, name));
      CopyAttributesFrame(backingClass, record', managed, rest, k);
    }
  }

  /** Each non-reserved attribute's column ends up holding the setter's form of the object's value. */
  lemma {:induction false} CopyAttributesEntry(backingClass: BackingClass, record: Record, managed: ManagedObject, attributes: seq<Attribute>, i: nat)
    requires NamesDistinct(attributes)
    requires i < |attributes| && !IsReserved(attributes[i].name)
    ensures var name := attributes[i].name;
            Column(CopyAttributes(backingClass, record, managed, attributes), name) ==
              Stored(ConverterOf(backingClass, name), ValueForKey(managed, name))
    decreases |attributes|
  {
    var rest := attributes[1..];
    var name := attributes[0].name;
    var record' := if IsReserved(name) then record else WriteColumn(backingClass, record, name, ValueForKey(managed, name));
    if i == 0 {
      assert !NamedIn(name, rest);
      CopyAttributesFrame(backingClass, record', managed, rest, name);
    } else {
      assert rest[i - 1] == attributes[i];
      CopyAttributesEntry(backingClass, record', managed, rest, i - 1);
    }
  }

  predicate ClearedBy(managed: ManagedObject, relationships: seq<Relationship>, k: string) {
    exists i :: 0 <= i < |relationships| && relationships[i].name == k && ClearsRelationship(managed, relationships[i])
  }

  /** After the relationship pass a column is present exactly when it was and no relationship cleared it. */
  lemma {:induction false} WriteRelationshipsColumn(record: Record, managed: ManagedObject, relationships: seq<Relationship>, k: string)
    ensures Column(WriteRelationships(record, managed, relationships), k) ==
              if ClearedBy(managed, relationships, k) then None else Column(record, k)
    decreases |relationships|
  {
    if relationships != [] {
      var r := relationships[0];
      var rest := relationships[1..];
      var record' := if ClearsRelationship(managed, r) then record - {r.name} else record;
      WriteRelationshipsColumn(record', managed, rest, k);
      assert ClearedBy(managed, relationships, k) <==> (r.name == k && ClearsRelationship(managed, r)) || ClearedBy(managed, rest, k) by {
        if ClearedBy(managed, rest, k) {
          var i :| 0 <= i < |rest| && rest[i].name == k && ClearsRelationship(managed, rest[i]);
          assert relationships[i + 1] == rest[i];
        }
        if ClearedBy(managed, relationships, k) && !(r.name == k && ClearsRelationship(managed, r)) {
          var i :| 0 <= i < |relationships| && relationships[i].name == k && ClearsRelationship(managed, relationships[i]);
          assert rest[i - 1] == relationships[i];
        }
      }
    }
  }

  /**
   * The effect of `setValuesFromManagedObject` on a record, for an entity whose attribute names are
   * distinct and whose relationships are not named like the reserved properties: it fails only when
   * the version is the largest 64-bit value; otherwise the version goes up by exactly one, the
   * resource ID stays, every non-reserved attribute's column holds the setter's form of the
   * object's value (unless an empty to-one relationship of the same name cleared it), every empty
   * to-one relationship's column is cleared, and every other column is unchanged.
   */
  lemma SetValuesEffect(backingClass: BackingClass, record: Record, managed: ManagedObject)
    requires NamesDistinct(managed.entity.attributes)
    requires !ClearedBy(managed, managed.entity.relationships, ResourceIDProperty)
    requires !ClearedBy(managed, managed.entity.relationships, VersionProperty)
    ensures var r := SetValuesFromManagedObject(backingClass, record, managed);
            r.Success? <==> ObjectVersion(record) < UInt64Limit - 1
    ensures var r := SetValuesFromManagedObject(backingClass, record, managed);
            r.Success? ==>
              && ObjectVersion(r.value) == ObjectVersion(record) + 1
              && Column(r.value, ResourceIDProperty) == Column(record, ResourceIDProperty)
              && (forall i :: (0 <= i < |managed.entity.attributes| && !IsReserved(managed.entity.attributes[i].name) &&
                               !ClearedBy(managed, managed.entity.relationships, managed.entity.attributes[i].name)) ==>
                    var name := managed.entity.attributes[i].name;
                    Column(r.value, name) == Stored(ConverterOf(backingClass, name), ValueForKey(managed, name)))
              && (forall k :: ClearedBy(managed, managed.entity.relationships, k) ==> k !in r.value)
              && (forall k :: (!IsReserved(k) && !NamedIn(k, managed.entity.attributes) &&
                               !ClearedBy(managed, managed.entity.relationships, k)) ==> Column(r.value, k) == Column(record, k))
  {
    var attrs, rels := managed.entity.attributes, managed.entity.relationships;
    var copied := CopyAttributes(backingClass, record, managed, attrs);
    var written := WriteRelationships(copied, managed, rels);
    CopyAttributesFrame(backingClass, record, managed, attrs, VersionProperty);
    CopyAttributesFrame(backingClass, record, managed, attrs, ResourceIDProperty);
    WriteRelationshipsColumn(copied, managed, rels, VersionProperty);
    WriteRelationshipsColumn(copied, managed, rels, ResourceIDProperty);
    assert ObjectVersion(written) == ObjectVersion(record);
    forall i | 0 <= i < |attrs| && !IsReserved(attrs[i].name) && !ClearedBy(managed, rels, attrs[i].name)
      ensures Column(written, attrs[i].name) == Stored(ConverterOf(backingClass, attrs[i].name), ValueForKey(managed, attrs[i].name))
    {
      CopyAttributesEntry(backingClass, record, managed, attrs, i);
      WriteRelationshipsColumn(copied, managed, rels, attrs[i].name);
    }
    forall k | ClearedBy(managed, rels, k) ensures k !in written {
      WriteRelationshipsColumn(copied, managed, rels, k);
    }
    forall k | !IsReserved(k) && !NamedIn(k, attrs) && !ClearedBy(managed, rels, k)
      ensures Column(written, k) == Column(record, k)
    {
      CopyAttributesFrame(backingClass, record, managed, attrs, k);
      WriteRelationshipsColumn(copied, managed, rels, k);
    }
  }
}
