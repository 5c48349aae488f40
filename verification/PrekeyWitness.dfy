/** Primitives and randomness that never fail, for the runs that show a bound is reached. */
module PrekeyWitness {
  import opened Bytes
  import opened PrekeyState
  import opened PrekeyReachable

  function Zeros(n: nat): bytes {
    seq(n, _ => 0)
  }

  function Willing(): Primitives {
    Primitives(_ => Ok(Zeros(32)), _ => Zeros(32), (_, _) => Ok(Zeros(64)), (_, _, _) => Ok(()), _ => Ok(Zeros(32)),
               (_, _) => Zeros(32), _ => Ok(Zeros(32)), (_, _, _, _) => Ok([]), (_, _, _, _, _, _, _) => Ok([]),
               (_, _) => Ok(Zeros(32)))
  }

  function Plenty(): Supply {
    Supply(Ok(Zeros(16)), _ => Ok(Zeros(32)), _ => Ok((Zeros(1184), Zeros(2400))))
  }

  lemma WillingIsCorrect()
    ensures Correct(Willing()) && GoodSupply(Plenty())
  {
  }
}
