/**
  The header's extra data under Holocene: a zero version byte, then the EIP-1559
  denominator and elasticity as four big-endian bytes each.  The rules are those of the
  OP Stack Holocene execution engine specification, section "EIP-1559 parameters in
  block header"; the chain leaves the bytes themselves to op-geth's encoder.
 */
module ExtraData {
  import opened Options
  import opened ByteCodec

  type Param = n: nat | n < 0x1_0000_0000
  type NonZero = n: nat | 0 < n < 0x1_0000_0000 witness 1

  function Encoded(denominator: Param, elasticity: Param): (x: seq<Byte>)
    ensures |x| == 9
  {
    [0] + BE(FOUR, denominator) + BE(FOUR, elasticity)
  }

  predicate ValidExtra(x: seq<Byte>) {
    |x| == 9 && x[0] == 0 && FromBE(x[1..5]) != 0
  }

  /** The attributes' parameters, which must be eight bytes and may be zero only together. */
  function Decoded(params: seq<Byte>): (r: Option<(nat, nat)>) {
    if |params| != 8 then None
    else
      var d, e := FromBE(params[..4]), FromBE(params[4..]);
      if d == 0 && e != 0 then None else Some((d, e))
  }

  /** The extra data for payload attributes: zeroed parameters ask for the chain's defaults. */
  function ExtraFor(denominator: NonZero, elasticity: Param, params: seq<Byte>): (r: Option<seq<Byte>>) {
    var p := Decoded(params);
    if p.None? then None
    else if p.value.0 == 0 then Some(Encoded(denominator, elasticity))
    else
      DecodedRange(params);
      Some(Encoded(p.value.0, p.value.1))
  }

  lemma {:induction false} DecodedRange(params: seq<Byte>)
    ensures var p := Decoded(params);
      p.Some? ==> p.value.0 < 0x1_0000_0000 && p.value.1 < 0x1_0000_0000
  {
    HalfBound();
    if |params| == 8 {
      FromBEBound(params[..4]);
      FromBEBound(params[4..]);
      assert |params[..4]| == FOUR && |params[4..]| == FOUR;
    }
  }

  /** What was encoded reads back. */
  lemma {:induction false} ExtraRoundTrip(denominator: Param, elasticity: Param)
    ensures var x := Encoded(denominator, elasticity);
      FromBE(x[1..5]) == denominator && FromBE(x[5..]) == elasticity
  {
    HalfBound();
    var x := Encoded(denominator, elasticity);
    assert x[1..5] == BE(FOUR, denominator) && x[5..] == BE(FOUR, elasticity);
    BERoundTrip(FOUR, denominator);
    BERoundTrip(FOUR, elasticity);
  }

  /** Whatever the sequencer writes, the importer's validator accepts, and it carries the parameters asked for. */
  lemma {:induction false} WrittenIsValid(denominator: NonZero, elasticity: Param, params: seq<Byte>)
    ensures var r := ExtraFor(denominator, elasticity, params);
      && (r.Some? <==> |params| == 8 && (FromBE(params[..4]) == 0 ==> FromBE(params[4..]) == 0))
      && (r.Some? ==>
            && ValidExtra(r.value)
            && (FromBE(r.value[1..5]), FromBE(r.value[5..])) ==
               if FromBE(params[..4]) == 0 then (denominator, elasticity) else (FromBE(params[..4]), FromBE(params[4..])))
  {
    ExtraRoundTrip(denominator, elasticity);
    DecodedRange(params);
    var p := Decoded(params);
    if p.Some? { ExtraRoundTrip(p.value.0, p.value.1); }
  }
}
