/** Raw records as the spreadsheet-backed record store returns them: each record
    carries a bag of named cells (`record.fields`), any of which may be absent.
    A cell holds text or a number. */
module Records {

  import opened Optional

  datatype Value = Text(text: string) | Number(number: int)

  type Fields = map<string, Value>

  datatype Record = Record(fields: Fields)

  /** JavaScript truthiness of a cell: the empty string and zero are falsy. */
  predicate Truthy(v: Value)
  {
    match v
    case Text(s) => s != ""
    case Number(n) => n != 0
  }

  /** `v` is what `fields[key] || fallback` yields, whatever the cell holds. */
  ghost predicate OrCell(fields: Fields, key: string, v: Value, fallback: Value)
  {
    (key in fields && Truthy(fields[key]) ==> v == fields[key]) &&
    (!(key in fields && Truthy(fields[key])) ==> v == fallback)
  }

  /** `fields[key] || fallback`: the cell when it is present and truthy,
      otherwise the fallback. */
  function Or(fields: Fields, key: string, fallback: Value): (v: Value)
    ensures OrCell(fields, key, v, fallback)
  {
    if key in fields && Truthy(fields[key]) then fields[key] else fallback
  }

  /** `fields[key] || ''` read from a text column. */
  function TextField(fields: Fields, key: string): (s: string)
    ensures key in fields && fields[key].Text? ==> s == fields[key].text
    ensures !(key in fields && fields[key].Text?) ==> s == ""
  {
    match Or(fields, key, Text(""))
    case Text(s) => s
    case Number(_) => ""
  }

  /** `fields[key] || 0` read from a numeric column. */
  function NumberField(fields: Fields, key: string): (n: int)
    ensures key in fields && fields[key].Number? ==> n == fields[key].number
    ensures !(key in fields && fields[key].Number?) ==> n == 0
  {
    match Or(fields, key, Number(0))
    case Number(n) => n
    case Text(_) => 0
  }

  /** `fields[key]` as it is written into an outgoing JSON payload: an absent
      cell is `undefined`, which `JSON.stringify` leaves out. */
  function Lookup(fields: Fields, key: string): (v: Option<Value>)
    ensures v.Some? <==> key in fields
    ensures v.Some? ==> v.value == fields[key]
  {
    if key in fields then Some(fields[key]) else None
  }

  /** `s` is what `fields[key] || ''` yields from a text column: the cell's text
      when the cell is there, the empty string when it is missing. */
  ghost predicate TextCell(fields: Fields, key: string, s: string)
  {
    (key !in fields ==> s == "") &&
    (key in fields && fields[key].Text? ==> s == fields[key].text)
  }

  /** `n` is what `fields[key] || 0` yields from a numeric column. */
  ghost predicate NumberCell(fields: Fields, key: string, n: int)
  {
    (key !in fields ==> n == 0) &&
    (key in fields && fields[key].Number? ==> n == fields[key].number)
  }
}
