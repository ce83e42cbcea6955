/**
 * One vocabulary for reading any entity's fields. Each entity module
 * enumerates its fields and reads them into this type, so that what a
 * constructor or a setter does can be stated field by field, and two
 * records can be compared through their fields alone.
 */
module Records {

  import opened Wrappers
  import opened Ints
  import opened Tokens
  import opened Json

  datatype FieldValue =
    | IdVal(id: Int64)
    | TextVal(text: string)
    | OptTextVal(opt: Option<string>)
    | BoolVal(flag: bool)
    | TimeVal(at: Instant)
    | ConfigVal(config: map<string, Json>)
}
