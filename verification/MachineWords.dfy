/** The 64-bit machine words the node counts and measures with. */
module MachineWords {
  const TWO_64 := 0x1_0000_0000_0000_0000

  /** The low 64 bits of a number. */
  function Low64(x: nat): (r: nat)
    ensures r < TWO_64
    ensures r == x <==> x < TWO_64
  {
    if x < TWO_64 then x else Low64(x - TWO_64)
  }

  /** Addition of machine words. */
  function Add64(a: nat, b: nat): (r: nat) {
    Low64(a + b)
  }

  lemma {:induction false} AddLow(a: nat, b: nat)
    ensures Add64(Low64(a), b) == Low64(a + b)
  {
    if a >= TWO_64 {
      AddLow(a - TWO_64, b);
      assert a + b - TWO_64 == a - TWO_64 + b;
    }
  }
}
