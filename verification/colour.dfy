/** The colour conversion applied to each state record (cas.js:126-127). */
module Colour {
  import opened Text

  /**
   * Reorders the six characters of an on-disk colour as positions
   * 4,5,2,3,0,1: the first and third byte pairs change places.
   */
  function SwapPairs(h: string): (r: string)
    requires |h| == 6
    ensures |r| == 6
    ensures r[0] == h[4] && r[1] == h[5]
    ensures r[2] == h[2] && r[3] == h[3]
    ensures r[4] == h[0] && r[5] == h[1]
    ensures multiset(r) == multiset(h)
  {
    assert h == h[..2] + h[2..4] + h[4..];
    h[4..] + h[2..4] + h[..2]
  }

  /** Swapping twice gives back the original colour. */
  lemma SwapPairsInvolution(h: string)
    requires |h| == 6
    ensures SwapPairs(SwapPairs(h)) == h
  {
  }

  /** A colour written in `[0-9A-F]{6}` stays in that form after the swap. */
  lemma SwapPairsKeepsHex(h: string)
    requires IsHex6(h)
    ensures IsHex6(SwapPairs(h))
  {
  }
}
