/**
 * The objects that flow between the object graph and the store: attribute values,
 * object identifiers, store records and the collections of them that may appear as
 * query constants.
 */
module Values {
  import opened Wrappers

  /** Core Data's object identifier: an entity, the store's reference object and whether it is temporary. */
  datatype ObjectID = ObjectID(entityName: string, reference: string, temporary: bool)

  /** Where a store record lives: the backing table of an entity and the record's primary key. */
  datatype ObjectKey = ObjectKey(entityName: string, resourceID: string)

  /**
   * Any object that can be an attribute value, a default value, a stored column or a query
   * constant. A Foundation set is represented by its enumeration order.
   */
  datatype Value =
    | NullValue                          // NSNull
    | BoolValue(b: bool)
    | IntValue(i: int)
    | FloatValue(f: real)
    | DoubleValue(d: real)
    | StringValue(s: string)
    | DataValue(bytes: seq<bv8>)
    | DateValue(sinceEpoch: real)        // an instant, as seconds since 1970
    | DecimalValue(description: string) // a decimal number, by its POSIX-locale description
    | ObjectIDValue(id: ObjectID)
    | ManagedObjectValue(id: ObjectID)   // a managed object, known by its object ID
    | RecordValue(key: ObjectKey)        // a store record
    | RecordListValue(keys: seq<ObjectKey>)
    | SetValue(elements: seq<Value>)
    | ArrayValue(elements: seq<Value>)
    | OtherValue(token: string)

  /** Boxed numbers (`NSNumber`): booleans, integers and floating-point values. */
  predicate IsNumber(v: Value) {
    v.BoolValue? || v.IntValue? || v.FloatValue? || v.DoubleValue?
  }

  /** `doubleValue` of a boxed number. */
  function DoubleValueOf(v: Value): real
    requires IsNumber(v)
  {
    match v
    case BoolValue(b) => if b then 1.0 else 0.0
    case IntValue(i) => i as real
    case FloatValue(f) => f
    case DoubleValue(d) => d
  }

  /** The primary-key lookup of an object ID in the store (`realmObject()`), supplied from outside. */
  type Lookup = ObjectID -> Option<ObjectKey>
}
