/** The boundary of the remote table client: a fetched dataset is an HTTP
    status, a message and a table of tuples; fields are read by position.
    Reading a tuple or field that is not there, or a field of the other kind,
    gives a zero value and a nonzero error code. */
module Wda {
  import opened Results
  import opened Decimal

  /** A signed 64-bit integer (long). */
  type i64 = x: int | -0x8000_0000_0000_0000 <= x < 0x8000_0000_0000_0000

  datatype Field = Int(number: i64) | Str(text: string)

  type Tuple = seq<Field>

  datatype Dataset = Dataset(status: int, message: string, tuples: seq<Tuple>)

  /** A decoded field value with the error code the reader reports. */
  datatype Decoded<T> = Decoded(value: T, err: int)

  const NoError := 0
  const DecodeFailure := 1

  /** getTuple: tuple i of the dataset, if there is a dataset and it has that tuple. */
  function GetTuple(ds: Option<Dataset>, i: int): (t: Option<Tuple>)
    ensures t.Some? <==> ds.Some? && 0 <= i < |ds.value.tuples|
    ensures t.Some? ==> t.value == ds.value.tuples[i]
  {
    if ds.Some? && 0 <= i < |ds.value.tuples| then Some(ds.value.tuples[i]) else None
  }

  /** getLongValue. */
  function GetLongValue(t: Option<Tuple>, col: int): (d: Decoded<i64>)
    ensures d.err == NoError <==> t.Some? && 0 <= col < |t.value| && t.value[col].Int?
    ensures d.err == NoError ==> d.value == t.value[col].number
    ensures d.err != NoError ==> d.value == 0
  {
    if t.Some? && 0 <= col < |t.value| && t.value[col].Int? then Decoded(t.value[col].number, NoError)
    else Decoded(0, DecodeFailure)
  }

  /** getStringValue (without the caller's buffer-size truncation). */
  function GetStringValue(t: Option<Tuple>, col: int): (d: Decoded<string>)
    ensures d.err == NoError <==> t.Some? && 0 <= col < |t.value| && t.value[col].Str?
    ensures d.err == NoError ==> d.value == t.value[col].text
    ensures d.err != NoError ==> d.value == ""
  {
    if t.Some? && 0 <= col < |t.value| && t.value[col].Str? then Decoded(t.value[col].text, NoError)
    else Decoded("", DecodeFailure)
  }

  /** The conversion (std::uint64_t) applied to a long: two's-complement wrap-around. */
  function ToUInt64(v: i64): (u: u64)
    ensures v >= 0 ==> u == v
    ensures v < 0 ==> u == v + 0x1_0000_0000_0000_0000
  {
    v % 0x1_0000_0000_0000_0000
  }
}
