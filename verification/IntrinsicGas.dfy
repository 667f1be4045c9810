/** The gas a message owes before it runs (core/state_transition.go). */
module IntrinsicGas {
  import opened Types

  const TX_GAS: nat := 21000
  const TX_GAS_CONTRACT_CREATION: nat := 53000
  const TX_DATA_ZERO_GAS: nat := 4
  const TX_DATA_NON_ZERO_GAS: nat := 68

  function NonZero(data: seq<nat>): nat {
    if data == [] then 0 else NonZero(data[..|data| - 1]) + if data[|data| - 1] != 0 then 1 else 0
  }

  /** The charge in unbounded arithmetic: a base plus a price for every byte of either kind. */
  function Charge(data: seq<nat>, creation: bool, homestead: bool): nat {
    (if creation && homestead then TX_GAS_CONTRACT_CREATION else TX_GAS)
    + NonZero(data) * TX_DATA_NON_ZERO_GAS
    + (|data| - NonZero(data)) * TX_DATA_ZERO_GAS
  }

  lemma {:induction false} NonZeroBound(data: seq<nat>)
    ensures NonZero(data) <= |data|
  {
    if data != [] { NonZeroBound(data[..|data| - 1]); }
  }

  /** Yields the charge, or out of gas exactly when the charge does not fit into 64 bits. */
  method Compute(data: seq<nat>, creation: bool, homestead: bool) returns (r: Option<nat>)
    ensures NonZero(data) <= |data|
    ensures var charge := Charge(data, creation, homestead);
            r == if charge <= MAX_UINT64 then Some(charge) else None
  {
    var gas := if creation && homestead then TX_GAS_CONTRACT_CREATION else TX_GAS;
    NonZeroBound(data);
    if |data| > 0 {
      var nz := 0;
      for i := 0 to |data|
        invariant nz == NonZero(data[..i])
      {
        assert data[..i + 1][..i] == data[..i];
        if data[i] != 0 { nz := nz + 1; }
      }
      assert data[..|data|] == data;
      if (MAX_UINT64 - gas) / TX_DATA_NON_ZERO_GAS < nz {
        return None;
      }
      gas := gas + nz * TX_DATA_NON_ZERO_GAS;
      var z := |data| - nz;
      if (MAX_UINT64 - gas) / TX_DATA_ZERO_GAS < z {
        return None;
      }
      gas := gas + z * TX_DATA_ZERO_GAS;
    }
    return Some(gas);
  }
}
