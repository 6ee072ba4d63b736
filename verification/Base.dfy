/** Small shared types. */
module Base {

  datatype Option<+T> = None | Some(value: T)

  /** One byte of memory or of a file. */
  type Byte = b: int | 0 <= b < 0x100

  /** The prefix of `source` of length `n` written over the front of `target`. */
  function Overlay(target: seq<Byte>, source: seq<Byte>, n: nat): (r: seq<Byte>)
    requires n <= |target| && n <= |source|
    ensures |r| == |target|
    ensures forall k :: 0 <= k < |r| ==> r[k] == if k < n then source[k] else target[k]
  {
    source[..n] + target[n..]
  }

  /** `q` without its element at `k`. */
  function Without<T>(q: seq<T>, k: nat): seq<T> {
    if k < |q| then q[..k] + q[k + 1..] else q
  }
}
