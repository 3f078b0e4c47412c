/** Document-database notions shared by both collections: object ids and
    timestamps. The driver's ObjectId generator is modelled by a counter held
    in each collection; timestamps are abstract clock readings given as
    parameters. */
module Documents {

  /** An ObjectId. Ids are handed out in increasing order by each collection. */
  type ObjectId = nat

  /** A `new Date()` reading, in milliseconds. */
  type Time = nat

  function Digit(d: nat): (c: char)
    requires d < 10
    ensures '0' <= c <= '9'
  {
    "0123456789"[d]
  }

  /** `_id.toString()`: the id's text form, modelled as its decimal digits. */
  function IdText(id: ObjectId): (s: string)
    ensures |s| > 0
    ensures forall k :: 0 <= k < |s| ==> '0' <= s[k] <= '9'
    decreases id
  {
    if id < 10 then [Digit(id)] else IdText(id / 10) + [Digit(id % 10)]
  }
}
