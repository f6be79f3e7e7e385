/** What the staking and vesting panels know of a wallet transaction and of
    the token amounts they keep as decimal strings. */
module Transactions {
  /** How an awaited contract call ends, as a handler sees it. */
  datatype TxOutcome =
    | Confirmed    // the receipt has what the handler checks for (a transaction hash, or a decodable last event)
    | Unconfirmed  // a receipt without it: the success branch is skipped and nothing is reset
    | Failed       // the call or the wait throws

  /** A token amount held as a decimal string: empty, or a number of wei
      (`parseEther` of the string; `formatEther` writes it back). */
  datatype Amount = Blank | Wei(wei: int)

  /** `+amount`: the empty string is 0. */
  function Value(a: Amount): (v: int)
    ensures a.Wei? ==> v == a.wei
    ensures a.Blank? ==> v == 0
    ensures v == 0 <==> a.Blank? || a == Wei(0)
  {
    if a.Blank? then 0 else a.wei
  }

  /** Reading an amount loses only the difference between empty text and
      zero: any two amounts that read the same are equal, or are those two. */
  lemma ValueIdentifiesOnlyBlankAndZero(a: Amount, b: Amount)
    requires Value(a) == Value(b)
    ensures a == b || {a, b} == {Blank, Wei(0)}
  {
    if a.Blank? && b.Wei? {
      assert b == Wei(0);
    } else if a.Wei? && b.Blank? {
      assert a == Wei(0);
    }
  }
}
