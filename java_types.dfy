/**
 * The Java entities the mapping engine works with, made explicit: classes are tags,
 * reflected fields are (name, type) pairs, converted field values and thrown
 * exceptions are data, and the libraries the engine calls (java.util.regex,
 * ConverterUtils, user converter classes) are supplied as functions.
 */
module JavaTypes {
  import opened Wrappers

  /** Identity of a Java class (an entity class, a handler's type argument). */
  type ClassId = string

  /** The declared type of a field, or the type argument of a Converter. */
  datatype JavaType =
    | StringType
    | BooleanType | ByteType | ShortType | IntegerType | LongType | FloatType | DoubleType
    | OtherType(name: string)

  /** A reflected field of an entity class: equal fields have equal name and type. */
  datatype Field = Field(name: string, fieldType: JavaType)

  /** The converter class named by a field's annotation. */
  datatype ConverterRef =
    | DefaultConverter                  // by-type conversion through ConverterUtils
    | BooleanConverterClass             // ff2j's BooleanConverter, built by its no-argument constructor
    | CustomConverter(className: string)

  /** A value stored into an entity field. */
  datatype Value =
    | Str(text: Option<string>)         // a String field receives the group text itself (null if the group did not take part)
    | Bool(b: bool)                     // the result of a BooleanConverter
    | Decoded(valueType: JavaType, repr: string)  // any other converter's result

  /** A thrown exception. */
  datatype Exception =
    | IndexOutOfBounds(index: int)      // Matcher.group with a group the pattern does not have
    | Thrown(message: string)           // anything thrown by a converter, a callback or the reader

  /** A populated entity: its class and the values of its mapped fields (others keep their defaults). */
  datatype Entity = Entity(entityClass: ClassId, values: map<Field, Value>)

  /**
   * The library calls the engine makes, abstracted:
   * - compiles(regex): Pattern.compile(regex) succeeds;
   * - fullMatch(regex, line): Matcher.matches() on the whole line, giving group(0..groupCount);
   * - convertByType(text, type): ConverterUtils.convert(text, type);
   * - decodeWith(className, text): newInstance().decode(text) of a custom converter class.
   */
  datatype Runtime = Runtime(
    compiles: string -> bool,
    fullMatch: (string, string) -> Option<seq<Option<string>>>,
    convertByType: (Option<string>, JavaType) -> Result<Value, Exception>,
    decodeWith: (string, Option<string>) -> Result<Value, Exception>)
}
