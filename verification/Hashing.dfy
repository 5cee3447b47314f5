/**
  The hash values of the chain.  The pair hash is left uninterpreted: everything
  proved about it holds for every two-argument function, keccak256 among them.
 */
module Hashing {
  type Hash(==, 0, !new)

  const zeroHash: Hash
  const hashPair: (Hash, Hash) -> Hash
}
