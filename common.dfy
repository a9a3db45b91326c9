/** Values shared by every component: optional values, results with the
    library's error taxonomy, attribute values and the mutable attribute
    mapping that entities and filters pass around by reference. */
module Common {

  datatype Option<+T> = None | Some(value: T)

  /** The exceptions the library raises on purpose. */
  datatype Error =
    | UnsupportedFrequency   // NotImplementedError: sample frequency outside {0.01, 0.1, 1}
    | NotDisposed            // "Entity has not been disposed"
    | NoRunYet               // "Run a simulation before querying for statistics"
    | MissingInterarrival    // no usable interarrival_time: AttributeError when absent, NotImplementedError when None

  datatype Result<+T> = Ok(value: T) | Err(error: Error)

  /** An attribute value. Python's bool is a subclass of int (True == 1), so
      booleans are the numbers 1 and 0; `ClassRef` stands for a class object. */
  datatype Value = Num(n: int) | Text(s: string) | ClassRef(className: string)

  const TrueValue: Value := Num(1)
  const FalseValue: Value := Num(0)

  /** Python truthiness of an attribute value. */
  predicate Truthy(v: Value) {
    match v
    case Num(n) => n != 0
    case Text(s) => s != ""
    case ClassRef(_) => true
  }

  /** A Python dict of attributes. It is an object because the source shares
      and mutates these mappings by reference. */
  class Attributes {
    var entries: map<string, Value>

    constructor (initial: map<string, Value>)
      ensures entries == initial
    {
      entries := initial;
    }
  }

  /** An entity matches a filter when every filter key is present among its
      attributes with an equal value. */
  predicate Matches(attributes: map<string, Value>, filter: map<string, Value>) {
    forall k :: k in filter ==> k in attributes && attributes[k] == filter[k]
  }
}
