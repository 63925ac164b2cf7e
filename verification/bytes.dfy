/** Bytes and byte arrays. */
module Bytes {
  newtype Byte = x: int | 0 <= x < 256

  /** `view.set(src, pos)` */
  method SetAt(view: array<Byte>, src: seq<Byte>, pos: nat)
    requires pos + |src| <= view.Length
    modifies view
    ensures view[..] == old(view[..pos]) + src + old(view[pos + |src|..])
  {
    for i := 0 to |src|
      invariant forall k :: 0 <= k < view.Length ==>
        view[k] == if pos <= k < pos + i then src[k - pos] else old(view[k])
    {
      view[pos + i] := src[i];
    }
  }
}
