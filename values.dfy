/** The Python values that crystals, collections and class namespaces hold,
    the types they carry, and their `str()` forms. */
module Values {
  import opened Strings

  /** A type as it appears in an annotation or as `type(v)` of a value. */
  datatype TypeTag =
    | IntType
    | StrType
    | BoolType
    | NoneType
    | ClassType(qualname: string)    // any other class, shown as <class 'qualname'>
    | TypingForm(display: string)    // a typing construct such as typing.Any or typing.List

  /** A field or attribute value. `OtherVal` stands for a value of any other class
      (a Decimal, a float, a function), known by its class and its `str()` text;
      in a crystal field it is an atomic value, never a dataclass instance or a
      container that `asdict` would copy. */
  datatype Value =
    | IntVal(i: int)
    | StrVal(s: string)
    | BoolVal(b: bool)
    | NoneVal
    | OtherVal(cls: string, display: string)

  /** `type(v)` */
  function TypeOf(v: Value): TypeTag
  {
    match v
    case IntVal(_) => IntType
    case StrVal(_) => StrType
    case BoolVal(_) => BoolType
    case NoneVal => NoneType
    case OtherVal(cls, _) => ClassType(cls)
  }

  /** `str(v)`, as an f-string shows the value. */
  function Show(v: Value): string
  {
    match v
    case IntVal(i) => IntToString(i)
    case StrVal(s) => s
    case BoolVal(b) => if b then "True" else "False"
    case NoneVal => "None"
    case OtherVal(_, display) => display
  }

  /** `str(t)` of a type. */
  function TypeName(t: TypeTag): string
  {
    match t
    case IntType => "<class 'int'>"
    case StrType => "<class 'str'>"
    case BoolType => "<class 'bool'>"
    case NoneType => "<class 'NoneType'>"
    case ClassType(q) => "<class '" + q + "'>"
    case TypingForm(d) => d
  }
}
