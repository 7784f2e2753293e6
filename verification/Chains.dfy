/** Chain identifiers and the one rule for normalising an address. */
module Chains {
  import opened Text

  datatype Chain = BTC | ETH | TRON

  /** `normalize_address`: Ethereum addresses are case-insensitive and stored lower case. */
  function NormalizeAddress(chain: Chain, address: string): string {
    if chain == ETH then Lower(address) else address
  }

  /** Two spellings are one address exactly if they are equal, or on Ethereum equal up to case; and a
      stored form is stored as it is. */
  lemma OneAddress(chain: Chain, a: string, b: string)
    ensures NormalizeAddress(chain, a) == NormalizeAddress(chain, b) <==> a == b || (chain == ETH && Lower(a) == Lower(b))
    ensures NormalizeAddress(chain, NormalizeAddress(chain, a)) == NormalizeAddress(chain, a)
  {
    var n := Lower(a);
    forall i | 0 <= i < |n| ensures LowerChar(n[i]) == n[i] {}
    assert Lower(n) == n;
  }
}
