/** Stream records and the values they carry (common/serialization.py:131-178). */
module Records {
  type Positive = n: int | n > 0 witness 1

  /** The Python values that the modelled operators tell apart. */
  datatype Value = Nothing | Num(n: real) | Text(s: string) | Items(vs: seq<Value>)

  /** Record keys; NoKey is Python's None. */
  datatype Key = NoKey | NumKey(k: int) | TextKey(name: string)

  datatype Record = Record(value: Value, key: Key, timestamp: int) {
    function WithValue(v: Value): Record {
      this.(value := v)
    }

    function WithKey(k: Key): Record {
      this.(key := k)
    }

    function WithTimestamp(t: int): Record {
      this.(timestamp := t)
    }
  }

  /** What travels between operators: records, and watermarks in between. */
  datatype StreamItem = Data(record: Record) | Mark(timestamp: int)
}
