/** Powers of two, shared by the backoff delays and the bit strings of the PDU tool. */
module Powers {

  /** `2 ** n`. */
  function Pow2(n: nat): (r: nat)
    ensures r >= 1
  {
    if n == 0 then 1 else 2 * Pow2(n - 1)
  }
}
