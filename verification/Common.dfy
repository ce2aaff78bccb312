/** Shared vocabulary: bytes, optional values and overlays on byte stores. */
module Common {
  type byte = b: int | 0 <= b < 256

  datatype Option<+T> = None | Some(value: T)

  function Min(a: int, b: int): int {
    if a < b then a else b
  }

  /** `store` with `data` laid over it from `at` on. */
  function Splice<T>(store: seq<T>, at: nat, data: seq<T>): (r: seq<T>)
    requires at + |data| <= |store|
    ensures |r| == |store|
    ensures forall k :: 0 <= k < |store| ==>
      r[k] == if at <= k < at + |data| then data[k - at] else store[k]
  {
    store[..at] + data + store[at + |data|..]
  }
}
