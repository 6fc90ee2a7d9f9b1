/**
 * The reflective view of Java types that the SQL providers consume, written out as values.
 * `Class.getDeclaredFields`, `Field.get` and `Class.getGenericInterfaces` are not modelled
 * as calls: their answers are the contents of these datatypes.
 */
module JavaModel {
  import opened Wrappers

  /** A field declared directly on a class; only its name matters to the providers. */
  datatype Field = Field(name: string)

  /** A non-null Java value held by a field. The providers only ever ask whether a value is null. */
  datatype Value =
    | IntegerValue(i: int)
    | StringValue(s: string)
    | BooleanValue(b: bool)
    | TemporalValue(iso: string)

  /** A declared field of an object together with its current value (`None` is `null`). */
  datatype FieldValue = FieldValue(field: Field, value: Option<Value>)

  /**
   * A non-null object: the declared fields of its run-time class, in the order in which
   * `getDeclaredFields` returned them, each with its value.
   */
  datatype Bean = Bean(fields: seq<FieldValue>)

  /** A class: its binary name, its simple name and its declared fields in reflection order. */
  datatype JavaClass = JavaClass(name: string, simpleName: string, declaredFields: seq<Field>)

  /**
   * A `java.lang.reflect.Type` as `getGenericInterfaces` can return it: a plain class,
   * a parameterized type (whose raw type is named by its binary name; Java guarantees at
   * least one type argument), or anything else (type variable, wildcard, generic array).
   */
  datatype JavaType =
    | ClassType(cls: JavaClass)
    | ParameterizedType(rawType: string, firstArgument: JavaType, otherArguments: seq<JavaType>)
    | OtherType(typeName: string)

  /** A mapper interface: its binary name and the generic interfaces it extends directly. */
  datatype MapperInterface = MapperInterface(name: string, genericInterfaces: seq<JavaType>)

  /** Java forbids two fields of one class with the same name. */
  ghost predicate DistinctNames(fields: seq<FieldValue>)
  {
    forall i, j :: 0 <= i < j < |fields| ==> fields[i].field.name != fields[j].field.name
  }
}
