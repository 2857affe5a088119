/** JSON values, and a printer and parser taken as given. */
module Json {
  import opened Strings
  import opened Base64Url

  /** The bits of a finite IEEE 754 double; canonical printing refuses the others. */
  type Double = x: int | 0 <= x < 0x1_0000_0000_0000_0000 && x / 0x10_0000_0000_0000 % 2048 != 2047

  const ONE: Double := 0x3FF0_0000_0000_0000

  /** JSON as Python reads it: integers of any size, and finite doubles. */
  datatype Json =
    | Null
    | Bool(flag: bool)
    | Int(number: int)
    | Float(bits: Double)
    | Str(value: string)
    | Arr(items: seq<Json>)
    | Obj(members: map<string, Json>)

  /** Canonical printing and parsing of JSON. */
  datatype Text = Text(print_: Json -> Bytes, parse: Bytes -> Option<Json>)

  /** Parsing inverts canonical printing, a double being printed with enough digits to read it back; so
      canonical texts of different values differ. */
  ghost predicate Faithful(t: Text) {
    forall v :: t.parse(t.print_(v)) == Some(v)
  }

  /** Python's `dict.get`. */
  function Get(o: map<string, Json>, key: string): Option<Json> {
    if key in o then Some(o[key]) else None
  }
}
