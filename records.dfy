/**
 * The data an insert works on: a signal turned into a dictionary.
 *
 * A Python dictionary keeps its keys in insertion order, and both `data.keys()`
 * and `data.values()` walk that order, so a record is modelled as the sequence
 * of its (key, value) pairs. Keys and values are two projections of the same
 * sequence, which is why the i-th column and the i-th bound value always belong
 * to the same pair.
 */
module Records {

  /** One byte of what the database driver produces. */
  type Byte = b: int | 0 <= b < 256

  type Bytes = seq<Byte>

  /** A column value as a signal holds it. The model never looks inside a value:
      values are only handed to the driver as bound parameters. */
  datatype Value =
    | Text(text: string)
    | Number(number: int)
    | Flag(flag: bool)
    | Null
    | Blob(bytes: Bytes)

  datatype Field = Field(key: string, value: Value)

  /** The dictionary `signal.to_dict()` returns, in insertion order. */
  type Record = seq<Field>

  /** `list(data.keys())`. */
  function Keys(rec: Record): (ks: seq<string>)
    ensures |ks| == |rec|
    ensures forall k :: 0 <= k < |rec| ==> ks[k] == rec[k].key
  {
    if rec == [] then [] else [rec[0].key] + Keys(rec[1..])
  }

  /** `tuple(data.values())`. */
  function Values(rec: Record): (vs: seq<Value>)
    ensures |vs| == |rec|
    ensures forall k :: 0 <= k < |rec| ==> vs[k] == rec[k].value
  {
    if rec == [] then [] else [rec[0].value] + Values(rec[1..])
  }

  /** Pairs a column list with a value tuple position by position. */
  function Zip(ks: seq<string>, vs: seq<Value>): (rec: Record)
    requires |ks| == |vs|
    ensures |rec| == |ks|
  {
    if ks == [] then [] else [Field(ks[0], vs[0])] + Zip(ks[1..], vs[1..])
  }

  /** The column list and the value tuple of a record put it back together:
      the value bound to the i-th placeholder is the value of the i-th column. */
  lemma {:induction false} ZipKeysValues(rec: Record)
    ensures Zip(Keys(rec), Values(rec)) == rec
  {
    if rec != [] {
      assert Keys(rec)[1..] == Keys(rec[1..]);
      assert Values(rec)[1..] == Values(rec[1..]);
      ZipKeysValues(rec[1..]);
    }
  }
}
