/**
 * Handing stored objects back to the object graph: an object's attribute values and version,
 * the targets of its relationships, and permanent IDs for new objects.
 */
module StoreObjects {
  import opened Wrappers
  import opened Values
  import opened Errors
  import opened Naming
  import opened EntitySchema
  import opened BackingObject
  import opened StoreModel
  import opened StoreRequests

  /** The values a store hands back for one object, with the version they have. */
  datatype IncrementalStoreNode = IncrementalStoreNode(objectID: ObjectID, values: map<string, Value>, version: UInt64)

  /**
   * The values of an object's set, non-link properties, keyed by getter name, each read through
   * its getter; a getter that yields nil gives the null value.
   */
  function NodeValues(backingClass: BackingClass, schema: ObjectSchema, record: Record): (values: map<string, Value>)
    ensures forall i :: (0 <= i < |schema.properties| && schema.properties[i].objectClassName.None? &&
                         Column(record, schema.properties[i].name).Some?) ==> schema.properties[i].getterName in values
    ensures forall k :: k in values ==>
              exists i :: && 0 <= i < |schema.properties| && schema.properties[i].getterName == k
                          && schema.properties[i].objectClassName.None? && Column(record, schema.properties[i].name).Some?
  {
    map p | p in schema.properties && p.objectClassName.None? && Column(record, p.name).Some? ::
      p.getterName := ReadColumn(backingClass, record, p.getterName).GetOr(NullValue)
  }

  /**
   * `newValuesForObjectWithID`: an object without a stored record is ObjectNotFound; otherwise its
   * node carries the record's property values and version. The store file is not changed.
   */
  function NewValuesForObjectWithID(store: Store, objectID: ObjectID, entity: Entity): (r: Result<(Store, IncrementalStoreNode), Failure>)
    ensures RealmBackingClass(entity, store.cache, store.sdkVersion).Success? ==>
              (r == Failure(Thrown(ObjectNotFound)) <==> FindRecord(store.realm, ObjectKey(entity.name, objectID.reference)).None?)
    ensures r.Failure? && r.error.Thrown? ==> r.error.error == ObjectNotFound
    ensures r.Success? ==>
              && FindRecord(store.realm, ObjectKey(entity.name, objectID.reference)).Some?
              && r.value.0.realm == store.realm
              && r.value.1.objectID == objectID
              && r.value.1.version == ObjectVersion(FindRecord(store.realm, ObjectKey(entity.name, objectID.reference)).value)
  {
    var resolved :- RealmBackingClass(entity, store.cache, store.sdkVersion);
    match FindRecord(store.realm, ObjectKey(entity.name, objectID.reference))
    case None => Failure(Thrown(ObjectNotFound))
    case Some(record) =>
      var schema :- RealmObjectSchema(entity, resolved.1, store.sdkVersion);
      Success((store.(cache := schema.1), IncrementalStoreNode(objectID, NodeValues(resolved.0, schema.0, record), ObjectVersion(record))))
  }

  /** The node of a stored object of a resolved entity: the record's values and version, the store as it was. */
  lemma ResolvedNewValues(store: Store, objectID: ObjectID, entity: Entity)
    requires Resolves(store, entity)
    requires FindRecord(store.realm, ObjectKey(entity.name, objectID.reference)).Some?
    ensures var bt := BuildBackingType(entity, store.sdkVersion).value;
            var record := FindRecord(store.realm, ObjectKey(entity.name, objectID.reference)).value;
            NewValuesForObjectWithID(store, objectID, entity) ==
              Success((store, IncrementalStoreNode(objectID, NodeValues(bt.backingClass, bt.objectSchema, record), ObjectVersion(record))))
  {
  }

  /** A node of a built backing type holds only the reserved properties and the entity's attributes. */
  lemma NodeKeys(entity: Entity, sdkVersion: string, record: Record)
    requires BuildBackingType(entity, sdkVersion).Success?
    ensures var bt := BuildBackingType(entity, sdkVersion).value;
            forall k :: k in NodeValues(bt.backingClass, bt.objectSchema, record) ==> IsReserved(k) || NamedIn(k, entity.attributes)
  {
    var attributes := entity.attributes;
    var bt := BuildBackingType(entity, sdkVersion).value;
    BuiltValue(entity, sdkVersion);
    var props := SchemaProperties(attributes);
    SchemaPropertiesPlain(attributes);
    ListedNamesKnown(attributes);
    forall k | k in NodeValues(bt.backingClass, bt.objectSchema, record) ensures IsReserved(k) || NamedIn(k, attributes) {
      var p :| p in props && p.objectClassName.None? && Column(record, p.name).Some? && p.getterName == k;
      assert k == p.name && p.name in PropertyNameSet(props);
      if !IsReserved(k) {
        var i :| 0 <= i < |attributes| && attributes[i].name == k;
      }
    }
  }

  /** In a built backing type, a stored property's value is in the node exactly when its column is set. */
  lemma BuiltNodeValues(entity: Entity, sdkVersion: string, record: Record, name: string)
    requires BuildBackingType(entity, sdkVersion).Success?
    requires IsReserved(name) || NamedIn(name, entity.attributes)
    ensures var bt := BuildBackingType(entity, sdkVersion).value;
            var values := NodeValues(bt.backingClass, bt.objectSchema, record);
            && (name in values <==> Column(record, name).Some?)
            && (name in values ==> values[name] == ReadColumn(bt.backingClass, record, name).GetOr(NullValue))
            && (forall k :: k in values ==> IsReserved(k) || NamedIn(k, entity.attributes))
  {
    NodeKeys(entity, sdkVersion, record);
    BackingTypeLayout(entity, sdkVersion);
    var props := BuildBackingType(entity, sdkVersion).value.objectSchema.properties;
    if name == ResourceIDProperty {
      assert props[0] in props;
    } else if name == VersionProperty {
      assert props[1] in props;
    } else {
      var i :| 0 <= i < |entity.attributes| && entity.attributes[i].name == name;
      assert props[i + 2] in props;
    }
  }

  /** The object's attribute values have their attributes' types. */
  predicate WellTyped(managed: ManagedObject) {
    forall i :: 0 <= i < |managed.entity.attributes| && ValueForKey(managed, managed.entity.attributes[i].name).Some? ==>
      IsAttributeValue(managed.entity.attributes[i].attributeType, ValueForKey(managed, managed.entity.attributes[i].name).value)
  }

  /** No relationship of the object's entity clears a column that backs one of its attributes. */
  predicate KeepsAttributeColumns(managed: ManagedObject) {
    forall i :: 0 <= i < |managed.entity.attributes| ==>
      !ClearedBy(managed, managed.entity.relationships, managed.entity.attributes[i].name)
  }

  /**
   * Saving a new object and reading it back gives the object's own attribute values: each set
   * attribute has its value, an unset one is absent, and the node has version 1 and carries the
   * reserved resource ID and version.
   */
  lemma InsertThenNewValues(store: Store, managed: ManagedObject)
    requires Resolves(store, managed.entity)
    requires FindRecord(store.realm, KeyOf(managed)).None?
    requires KeepsReservedColumns(managed) && KeepsAttributeColumns(managed)
    requires WellTyped(managed)
    ensures InsertObject(store, managed).Success?
    ensures var node := NewValuesForObjectWithID(InsertObject(store, managed).value, managed.objectID, managed.entity);
            var attributes := managed.entity.attributes;
            && node.Success?
            && node.value.1.version == 1
            && ResourceIDProperty in node.value.1.values
            && node.value.1.values[ResourceIDProperty] == StringValue(managed.objectID.reference)
            && VersionProperty in node.value.1.values
            && node.value.1.values[VersionProperty] == IntValue(1)
            && forall i :: 0 <= i < |attributes| ==>
                 && (attributes[i].name in node.value.1.values <==> ValueForKey(managed, attributes[i].name).Some?)
                 && (attributes[i].name in node.value.1.values ==>
                       node.value.1.values[attributes[i].name] == ValueForKey(managed, attributes[i].name).value)
  {
    var entity := managed.entity;
    var bt := BuildBackingType(entity, store.sdkVersion).value;
    InsertEffect(store, managed);
    var saved := InsertObject(store, managed).value;
    var record := FindRecord(saved.realm, KeyOf(managed)).value;
    assert Resolves(saved, entity) by {
      assert saved.cache == store.cache && saved.sdkVersion == store.sdkVersion;
    }
    ResolvedNewValues(saved, managed.objectID, entity);
    var values := NodeValues(bt.backingClass, bt.objectSchema, record);
    ReservedReadsBack(entity, store.sdkVersion, record, ResourceIDProperty);
    ReservedReadsBack(entity, store.sdkVersion, record, VersionProperty);
    forall i | 0 <= i < |entity.attributes|
      ensures (entity.attributes[i].name in values <==> ValueForKey(managed, entity.attributes[i].name).Some?)
      ensures entity.attributes[i].name in values ==> values[entity.attributes[i].name] == ValueForKey(managed, entity.attributes[i].name).value
    {
      AttributeReadsBack(store.sdkVersion, record, managed, i);
    }
  }

  /** A set reserved column reads back through the built class unchanged. */
  lemma ReservedReadsBack(entity: Entity, sdkVersion: string, record: Record, name: string)
    requires BuildBackingType(entity, sdkVersion).Success?
    requires IsReserved(name) && Column(record, name).Some?
    ensures var bt := BuildBackingType(entity, sdkVersion).value;
            var values := NodeValues(bt.backingClass, bt.objectSchema, record);
            name in values && values[name] == Column(record, name).value
  {
    BuiltAccessorConverters(entity, sdkVersion);
    BuiltNodeValues(entity, sdkVersion, record, name);
  }

  /** A stored, well-typed attribute value reads back through the built class as the value itself. */
  lemma AttributeReadsBack(sdkVersion: string, record: Record, managed: ManagedObject, i: nat)
    requires BuildBackingType(managed.entity, sdkVersion).Success?
    requires StoresAttributes(record, managed) && KeepsAttributeColumns(managed) && WellTyped(managed)
    requires i < |managed.entity.attributes|
    ensures var bt := BuildBackingType(managed.entity, sdkVersion).value;
            var values := NodeValues(bt.backingClass, bt.objectSchema, record);
            var name := managed.entity.attributes[i].name;
            && (name in values <==> ValueForKey(managed, name).Some?)
            && (name in values ==> values[name] == ValueForKey(managed, name).value)
  {
    var entity := managed.entity;
    var bt := BuildBackingType(entity, sdkVersion).value;
    var a := entity.attributes[i];
    BuiltAccessorConverters(entity, sdkVersion);
    BuiltNodeValues(entity, sdkVersion, record, a.name);
    assert ConverterOf(bt.backingClass, a.name) == ConverterFor(a.attributeType);
    if ValueForKey(managed, a.name).Some? {
      ConverterRoundTrip(a.attributeType, ValueForKey(managed, a.name).value);
    }
  }

  // ---------------------------------------------------------------------------------------------
  // Relationships

  /** The value of a relationship: nothing, one object ID, or an ordered list of them. */
  datatype RelationshipValue = NullRelationship | ToOne(id: ObjectID) | ToMany(ids: seq<ObjectID>)

  /**
   * `newValueForRelationship`: null when the object has no stored record or the relationship no
   * destination; otherwise the permanent IDs, in the destination entity, of the records its
   * column links to, or null when the column does not hold a link of the relationship's kind.
   */
  function NewValueForRelationship(store: Store, lookup: Lookup, relationship: Relationship, objectID: ObjectID): (r: RelationshipValue)
    ensures lookup(objectID).None? || relationship.destinationEntity.None? ==> r == NullRelationship
    ensures lookup(objectID).Some? && FindRecord(store.realm, lookup(objectID).value).None? ==> r == NullRelationship
    ensures r.ToOne? ==> !relationship.toMany && r.id == NewObjectID(relationship.destinationEntity.value, r.id.reference)
    ensures r.ToMany? ==>
              && relationship.toMany
              && forall i :: 0 <= i < |r.ids| ==> r.ids[i] == NewObjectID(relationship.destinationEntity.value, r.ids[i].reference)
  {
    match lookup(objectID)
    case None => NullRelationship
    case Some(key) =>
      match FindRecord(store.realm, key)
      case None => NullRelationship
      case Some(record) =>
        match relationship.destinationEntity
        case None => NullRelationship
        case Some(destination) =>
          if relationship.toMany then
            match Column(record, relationship.name)
            case Some(RecordListValue(keys)) => ToMany(seq(|keys|, i requires 0 <= i < |keys| => NewObjectID(destination, keys[i].resourceID)))
            case _ => NullRelationship
          else
            match Column(record, relationship.name)
            case Some(RecordValue(target)) => ToOne(NewObjectID(destination, target.resourceID))
            case _ => NullRelationship
  }

  /** The links a relationship column holds, read back in order in the destination entity. */
  lemma RelationshipTargets(store: Store, lookup: Lookup, relationship: Relationship, objectID: ObjectID)
    requires lookup(objectID).Some? && FindRecord(store.realm, lookup(objectID).value).Some?
    requires relationship.destinationEntity.Some?
    ensures var record := FindRecord(store.realm, lookup(objectID).value).value;
            var r := NewValueForRelationship(store, lookup, relationship, objectID);
            var destination := relationship.destinationEntity.value;
            && (relationship.toMany && Column(record, relationship.name).Some? && record[relationship.name].RecordListValue? ==>
                  var keys := record[relationship.name].keys;
                  r.ToMany? && |r.ids| == |keys| && forall i :: 0 <= i < |keys| ==> r.ids[i].reference == keys[i].resourceID)
            && (!relationship.toMany && Column(record, relationship.name).Some? && record[relationship.name].RecordValue? ==>
                  r == ToOne(NewObjectID(destination, record[relationship.name].key.resourceID)))
            && (r == NullRelationship <==>
                  !(Column(record, relationship.name).Some? &&
                    (if relationship.toMany then record[relationship.name].RecordListValue? else record[relationship.name].RecordValue?)))
  {
  }

  /**
   * Saving an object whose to-one relationship is nil clears the link, so the relationship reads
   * back as null afterwards.
   */
  lemma ClearedRelationshipReadsNull(store: Store, lookup: Lookup, managed: ManagedObject, j: nat)
    requires Resolves(store, managed.entity)
    requires FindRecord(store.realm, KeyOf(managed)).Some?
    requires KeepsReservedColumns(managed)
    requires UpdateObject(store, managed).Success?
    requires j < |managed.entity.relationships| && ClearsRelationship(managed, managed.entity.relationships[j])
    requires lookup(managed.objectID) == Some(KeyOf(managed))
    ensures NewValueForRelationship(UpdateObject(store, managed).value, lookup, managed.entity.relationships[j], managed.objectID) == NullRelationship
  {
    var backingClass := BuildBackingType(managed.entity, store.sdkVersion).value.backingClass;
    var before := FindRecord(store.realm, KeyOf(managed)).value;
    BuiltAttributeNames(managed.entity, store.sdkVersion);
    SetValuesEffect(backingClass, before, managed);
    var after := SetValuesFromManagedObject(backingClass, before, managed).value;
    assert UpdateObject(store, managed) == Success(store.(realm := PutRecord(store.realm, KeyOf(managed), after)));
    assert ClearedBy(managed, managed.entity.relationships, managed.entity.relationships[j].name);
  }

  // ---------------------------------------------------------------------------------------------
  // Permanent IDs

  /**
   * `obtainPermanentIDsForObjects`: one ID per object, in order; a permanent ID is kept and a
   * temporary one is replaced by a permanent ID of the object's entity with a fresh reference
   * (the i-th object's candidate is `freshReference(i)`).
   */
  function ObtainPermanentIDs(objects: seq<ManagedObject>, freshReference: nat -> string): (r: seq<ObjectID>)
    ensures |r| == |objects|
    ensures forall i :: 0 <= i < |objects| ==> !r[i].temporary
    ensures forall i :: 0 <= i < |objects| && !objects[i].objectID.temporary ==> r[i] == objects[i].objectID
    ensures forall i :: 0 <= i < |objects| && objects[i].objectID.temporary ==>
              r[i].entityName == objects[i].entity.name && r[i].reference == freshReference(i)
  {
    var r := seq(|objects|, i requires 0 <= i < |objects| =>
      if objects[i].objectID.temporary then NewObjectID(objects[i].entity.name, freshReference(i)) else objects[i].objectID);
    assert forall i :: 0 <= i < |objects| && objects[i].objectID.temporary ==> r[i] == NewObjectID(objects[i].entity.name, freshReference(i));
    r
  }

  /** The objects with their IDs replaced. */
  function WithIDs(objects: seq<ManagedObject>, ids: seq<ObjectID>): (r: seq<ManagedObject>)
    requires |ids| == |objects|
    ensures |r| == |objects|
    ensures forall i :: 0 <= i < |objects| ==> r[i] == objects[i].(objectID := ids[i])
  {
    seq(|objects|, i requires 0 <= i < |objects| => objects[i].(objectID := ids[i]))
  }

  /** Once the objects carry their permanent IDs, asking again returns the same IDs, whatever references are on offer. */
  lemma ObtainPermanentIDsStable(objects: seq<ManagedObject>, freshReference: nat -> string, laterReference: nat -> string)
    ensures var ids := ObtainPermanentIDs(objects, freshReference);
            ObtainPermanentIDs(WithIDs(objects, ids), laterReference) == ids
  {
  }

  /**
   * With distinct fresh references that no permanent reference of the same entity uses, the
   * objects' IDs stay distinct when their temporary IDs are replaced.
   */
  lemma ObtainPermanentIDsDistinct(objects: seq<ManagedObject>, freshReference: nat -> string)
    requires forall i, j :: 0 <= i < j < |objects| ==> objects[i].objectID != objects[j].objectID
    requires forall i, j :: 0 <= i < j < |objects| ==> freshReference(i) != freshReference(j)
    requires forall i, j :: 0 <= i < |objects| && 0 <= j < |objects| && !objects[j].objectID.temporary ==>
               freshReference(i) != objects[j].objectID.reference
    ensures var ids := ObtainPermanentIDs(objects, freshReference);
            forall i, j :: 0 <= i < j < |ids| ==> ids[i] != ids[j]
  {
  }
}
