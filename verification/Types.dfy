/** What several of the components share. */
module Types {
  type Hash = nat
  type Address = nat

  datatype Option<+T> = None | Some(value: T)

  const NO_HASH: Hash := 0   // the zero hash, which no header has
  const MAX_UINT64: nat := 0xFFFF_FFFF_FFFF_FFFF

  function Min(a: nat, b: nat): nat {
    if a < b then a else b
  }

  /**
   A transaction, by the fields the pool reads.  The sender is fixed by the signature, `signed` tells whether a
   sender can be derived at all, `cost` is value + price * gas, and `data` with `creation`
   decide the intrinsic gas.
   */
  datatype Tx = Tx(
    hash: Hash,
    sender: Address,
    nonce: nat,
    price: nat,
    cost: nat,
    gas: nat,
    value: int,
    size: nat,
    signed: bool,
    creation: bool,
    data: seq<nat>)
}
