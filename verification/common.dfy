/** Shared vocabulary: bytes, optional values and flattening of nested sequences. */
module Common {

  /** One octet of an opaque binary payload (recorded audio, synthesised audio). */
  newtype byte = x: int | 0 <= x < 256

  /** A value that may be absent; Python's `None` is `None` here. */
  datatype Option<+T> = None | Some(value: T) {

    /** The carried value, or `default` when absent (a session key not yet set reads as its default). */
    function GetOr(default: T): T {
      match this
      case Some(v) => v
      case None => default
    }
  }

  /** Concatenation of a sequence of sequences, left to right
      (`b"".join(chunks)`, or repeated `+=` on a string). */
  function Flatten<T>(xss: seq<seq<T>>): seq<T> {
    if xss == [] then [] else xss[0] + Flatten(xss[1..])
  }

  /** Sum of the lengths of the parts. */
  function TotalLength<T>(xss: seq<seq<T>>): nat {
    if xss == [] then 0 else |xss[0]| + TotalLength(xss[1..])
  }

  /** Flattening keeps every element: the result is exactly as long as the parts together. */
  lemma {:induction false} FlattenLength<T>(xss: seq<seq<T>>)
    ensures |Flatten(xss)| == TotalLength(xss)
  {
    if xss != [] {
      FlattenLength(xss[1..]);
    }
  }

  /** Each part appears in the flattening, in place, at the offset given by the parts before it. */
  lemma {:induction false} FlattenSlice<T>(xss: seq<seq<T>>, k: nat)
    requires k < |xss|
    ensures TotalLength(xss[..k]) + |xss[k]| <= |Flatten(xss)|
    ensures Flatten(xss)[TotalLength(xss[..k])..TotalLength(xss[..k]) + |xss[k]|] == xss[k]
  {
    FlattenLength(xss);
    if k == 0 {
      assert xss[..0] == [];
    } else {
      assert xss[..k][1..] == xss[1..][..k - 1];
      FlattenSlice(xss[1..], k - 1);
      assert TotalLength(xss[..k]) == |xss[0]| + TotalLength(xss[1..][..k - 1]);
    }
  }

  /** Every part appears in the flattening at the offset of the parts before it. */
  lemma FlattenContents<T>(xss: seq<seq<T>>)
    ensures forall k :: 0 <= k < |xss| ==>
      TotalLength(xss[..k]) + |xss[k]| <= |Flatten(xss)|
      && Flatten(xss)[TotalLength(xss[..k])..TotalLength(xss[..k]) + |xss[k]|] == xss[k]
  {
    forall k | 0 <= k < |xss|
      ensures TotalLength(xss[..k]) + |xss[k]| <= |Flatten(xss)|
      ensures Flatten(xss)[TotalLength(xss[..k])..TotalLength(xss[..k]) + |xss[k]|] == xss[k]
    {
      FlattenSlice(xss, k);
    }
  }
}
