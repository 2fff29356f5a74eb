/** Small datatypes and functions shared by the whole project. */
module Common {

  /** Bytes whose contents the model never inspects. */
  type Bytes = seq<char>

  datatype Option<+T> = None | Some(value: T)

  datatype Result<+T> = Err | Ok(value: T)

  /** A signature, the bytes it is over, and the serialized identity that claims it. */
  datatype SignedData = SignedData(data: Bytes, identity: Bytes, signature: Bytes)

  predicate NoRepeats<T(==)>(s: seq<T>) {
    forall i, j | 0 <= i < j < |s| :: s[i] != s[j]
  }

  /** The numbers from `from` up to but not including `end`. */
  function Range(from: nat, end: nat): (r: seq<nat>)
    ensures |r| == (if from < end then end - from else 0) && forall i | 0 <= i < |r| :: r[i] == from + i
  {
    if from < end then seq(end - from, i => from + i) else []
  }

  const UINT64 := 0x1_0000_0000_0000_0000

  /** One less in unsigned arithmetic. */
  function MinusOne(height: nat): (r: nat)
    requires height < UINT64
    ensures r == if height == 0 then UINT64 - 1 else height - 1
  {
    (height + UINT64 - 1) % UINT64
  }
}
