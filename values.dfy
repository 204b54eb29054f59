/** The loosely typed cell values of a booking row, and the JavaScript
    conversions the generator applies to them: truthiness, `||` and `String(v)`. */
module Values {
  import opened Options
  import opened Strings

  type Hour = h: int | 0 <= h < 24
  type Minute = m: int | 0 <= m < 60

  /** A cell value as the spreadsheet reader delivers it. `Null` stands for
      both `null` (an empty cell) and `undefined` (a missing column), which
      the generator only ever compares loosely. A date object is reduced to
      what the generator reads from it: its `String(d)` rendering, the UTC
      calendar day `toISOString().slice(0, 10)`, and its local `getHours()`
      and `getMinutes()`. Numbers are integers. */
  datatype Value =
    | Null
    | Str(s: string)
    | Num(n: int)
    | Date(text: string, day: string, hours: Hour, minutes: Minute)

  /** A booking row: column name to cell value. */
  type Row = map<string, Value>

  /** `row[key]`, which is `undefined` for a missing column. */
  function Get(row: Row, key: string): Value {
    if key in row then row[key] else Null
  }

  /** JavaScript truthiness: `null`, `undefined`, `""` and `0` are falsy. */
  predicate Truthy(v: Value) {
    match v
    case Null => false
    case Str(s) => s != ""
    case Num(n) => n != 0
    case Date(_, _, _, _) => true
  }

  /** `v || fallback`. */
  function Or(v: Value, fallback: Value): Value {
    if Truthy(v) then v else fallback
  }

  /** `String(v)`. */
  function Text(v: Value): string {
    match v
    case Null => "null"
    case Str(s) => s
    case Num(n) => IntToString(n)
    case Date(t, _, _, _) => t
  }
}
