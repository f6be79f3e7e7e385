/** The "My stake" panel's figures: the pool total, the APR and the APY shown
    in its header, the user's share of the pool and estimated weekly reward,
    the flag that warns a user with escrowed but no staked THALES, and the
    compact number label the APY is written with. */
module MyStake {
  import opened Common

  /** A JavaScript number as the panel's arithmetic can produce it: dividing
      by an empty pool yields an infinity or NaN rather than an error. */
  datatype JsNumber = Finite(value: real) | PosInf | NegInf | NaN

  /** JavaScript `a / b` on finite operands. */
  function Divide(a: real, b: real): (q: JsNumber)
    ensures q.Finite? <==> b != 0.0
    ensures q.Finite? ==> q.value * b == a
    ensures q.NaN? <==> a == 0.0 && b == 0.0
    ensures q.PosInf? <==> b == 0.0 && a > 0.0
  {
    if b != 0.0 then Finite(a / b)
    else if a > 0.0 then PosInf
    else if a < 0.0 then NegInf
    else NaN
  }

  /** JavaScript `n * c` for a finite c: an infinity keeps or flips its sign,
      and becomes NaN when multiplied by zero. */
  function Times(n: JsNumber, c: real): (r: JsNumber)
    ensures r.Finite? <==> n.Finite?
    ensures r.Finite? ==> r.value == n.value * c
    ensures r.NaN? <==> n.NaN? || (!n.Finite? && c == 0.0)
  {
    match n
    case Finite(v) => Finite(v * c)
    case NaN => NaN
    case PosInf => if c > 0.0 then PosInf else if c < 0.0 then NegInf else NaN
    case NegInf => if c > 0.0 then NegInf else if c < 0.0 then PosInf else NaN
  }

  /** `totalThalesStaked`: the staked amount plus the escrowed rewards, less
      the escrowed balance that is not staked. */
  function TotalThalesStaked(totalStakedAmount: real, totalEscrowedRewards: real,
                             totalEscrowBalanceNotIncludedInStaking: real): real
  {
    totalStakedAmount + totalEscrowedRewards - totalEscrowBalanceNotIncludedInStaking
  }

  /** `APR`: a week's fixed reward, over 52 weeks, as a percentage of the
      pool. An empty pool is not guarded against. */
  function Apr(fixedPeriodReward: real, totalStakedAmount: real, totalEscrowedRewards: real,
               totalEscrowBalanceNotIncludedInStaking: real): (apr: JsNumber)
    ensures var pool := TotalThalesStaked(totalStakedAmount, totalEscrowedRewards, totalEscrowBalanceNotIncludedInStaking);
      (pool != 0.0 ==> apr.Finite? && apr.value * pool == 52.0 * 100.0 * fixedPeriodReward) &&
      (pool == 0.0 ==> !apr.Finite?)
  {
    Divide(fixedPeriodReward * 52.0 * 100.0,
      TotalThalesStaked(totalStakedAmount, totalEscrowedRewards, totalEscrowBalanceNotIncludedInStaking))
  }

  /** `myStakedShare`: the user's stake as a percentage of the pool, with no
      guard against an empty pool. */
  function Share(thalesStaked: real, totalThalesStaked: real): (share: JsNumber)
    ensures totalThalesStaked != 0.0 ==> share.Finite? && share.value * totalThalesStaked == 100.0 * thalesStaked
    ensures totalThalesStaked == 0.0 && thalesStaked > 0.0 ==> share == PosInf
    ensures totalThalesStaked == 0.0 && thalesStaked == 0.0 ==> share == NaN
  {
    Divide(100.0 * thalesStaked, totalThalesStaked)
  }

  /** `estimatedRewards`: the share, as a fraction, of the weekly rewards. */
  function EstimatedRewards(myStakedShare: JsNumber, weeklyRewards: real): JsNumber
  {
    Times(Times(myStakedShare, 1.0 / 100.0), weeklyRewards)
  }

  /** The shares of two stakes add up to the share of their sum. */
  lemma ShareAdditive(a: real, b: real, total: real)
    requires total != 0.0
    ensures Share(a + b, total).value == Share(a, total).value + Share(b, total).value
  {
    var sa, sb, sab := Share(a, total).value, Share(b, total).value, Share(a + b, total).value;
    assert (sa + sb) * total == sab * total;
    assert sa + sb == sab by {
      assert (sa + sb - sab) * total == 0.0;
    }
  }

  /** The estimate is the user's fraction of the pool times the weekly
      rewards; an empty pool gives a non-finite estimate unless the weekly
      rewards are zero. */
  lemma EstimatedRewardsOfStake(thalesStaked: real, total: real, weeklyRewards: real)
    ensures total != 0.0 ==>
      EstimatedRewards(Share(thalesStaked, total), weeklyRewards) == Finite(thalesStaked / total * weeklyRewards)
    ensures total == 0.0 && weeklyRewards != 0.0 ==>
      !EstimatedRewards(Share(thalesStaked, total), weeklyRewards).Finite?
  {
    if total != 0.0 {
      var share := Share(thalesStaked, total).value;
      assert share == 100.0 * thalesStaked / total;
    }
  }

  /** Holding the whole pool earns the whole weekly reward. */
  lemma WholePoolEarnsAll(total: real, weeklyRewards: real)
    requires total != 0.0
    ensures Share(total, total) == Finite(100.0)
    ensures EstimatedRewards(Share(total, total), weeklyRewards) == Finite(weeklyRewards)
  {
    EstimatedRewardsOfStake(total, total, weeklyRewards);
  }

  /** `notEligibleForStakingRewards`: nothing staked while something is
      escrowed. */
  function NotEligible(thalesStaked: real, escrowedBalance: real): bool
  {
    thalesStaked == 0.0 && escrowedBalance != 0.0
  }

  /** A user the panel warns is not eligible has a zero share of a non-empty
      pool and is estimated to earn nothing, however much is escrowed. */
  lemma NotEligibleEarnsNothing(thalesStaked: real, escrowedBalance: real, total: real, weeklyRewards: real)
    requires NotEligible(thalesStaked, escrowedBalance) && total != 0.0
    ensures Share(thalesStaked, total) == Finite(0.0)
    ensures EstimatedRewards(Share(thalesStaked, total), weeklyRewards) == Finite(0.0)
  {
    assert Share(thalesStaked, total) == Divide(0.0, total) == Finite(0.0);
    assert Times(Finite(0.0), 1.0 / 100.0) == Finite(0.0);
  }

  /** `x ** n` for a natural exponent. */
  function Pow(x: real, n: nat): real
  {
    if n == 0 then 1.0 else Pow(x, n - 1) * x
  }

  /** `aprToApy`: the yield of the interest compounded `frequency` times.
      With no compounding the division yields an infinity or NaN, whose zeroth
      power is 1, so the yield is 0. */
  function AprToApy(interest: real, frequency: nat): real
  {
    if frequency == 0 then 0.0
    else (Pow(1.0 + interest / 100.0 / frequency as real, frequency) - 1.0) * 100.0
  }

  /** Compounding once is no compounding. */
  lemma AprToApyOnce(interest: real)
    ensures AprToApy(interest, 1) == interest
  {
    assert Pow(1.0 + interest / 100.0, 1) == 1.0 + interest / 100.0;
  }

  /** Bernoulli's inequality for a non-negative rate. */
  lemma {:induction false} Bernoulli(x: real, n: nat)
    requires x >= 0.0
    ensures Pow(1.0 + x, n) >= 1.0 + n as real * x
  {
    if n > 0 {
      Bernoulli(x, n - 1);
      var p := Pow(1.0 + x, n - 1);
      var q := 1.0 + (n - 1) as real * x;
      assert Pow(1.0 + x, n) == p * (1.0 + x);
      MulNonNegative(p - q, 1.0 + x);
      assert p * (1.0 + x) == q * (1.0 + x) + (p - q) * (1.0 + x);
      MulNonNegative((n - 1) as real * x, x);
      assert q * (1.0 + x) == 1.0 + n as real * x + (n - 1) as real * x * x;
    }
  }

  lemma MulNonNegative(a: real, b: real)
    requires a >= 0.0 && b >= 0.0
    ensures a * b >= 0.0
  {
  }

  /** Compounding a non-negative rate yields at least the rate itself. */
  lemma AprToApyAtLeastApr(interest: real, frequency: nat)
    requires interest >= 0.0 && frequency >= 1
    ensures AprToApy(interest, frequency) >= interest
  {
    var f := frequency as real;
    var x := interest / 100.0 / f;
    Bernoulli(x, frequency);
    assert f * x == interest / 100.0;
  }

  /** `aprToApy(APR, 52)` on whatever the APR is: an empty pool's infinity
      stays infinite (an even power of minus infinity is plus infinity), and
      NaN stays NaN. */
  function Apy(apr: JsNumber): (apy: JsNumber)
    ensures apr.Finite? ==> apy == Finite(AprToApy(apr.value, 52))
    ensures !apr.Finite? ==> apy == if apr.NaN? then NaN else PosInf
  {
    match apr
    case Finite(v) => Finite(AprToApy(v, 52))
    case NaN => NaN
    case _ => PosInf
  }

  /** A non-negative APR shows an APY no lower than itself. */
  lemma ApyAtLeastApr(fixedPeriodReward: real, totalStakedAmount: real, totalEscrowedRewards: real,
                      totalEscrowBalanceNotIncludedInStaking: real)
    requires var apr := Apr(fixedPeriodReward, totalStakedAmount, totalEscrowedRewards, totalEscrowBalanceNotIncludedInStaking);
      apr.Finite? && apr.value >= 0.0
    ensures var apr := Apr(fixedPeriodReward, totalStakedAmount, totalEscrowedRewards, totalEscrowBalanceNotIncludedInStaking);
      Apy(apr).value >= apr.value
  {
    var apr := Apr(fixedPeriodReward, totalStakedAmount, totalEscrowedRewards, totalEscrowBalanceNotIncludedInStaking);
    AprToApyAtLeastApr(apr.value, 52);
  }

  /** `Math.round`: the nearest integer, halves rounded up. */
  function Round(v: real): (n: int)
    ensures n as real - 0.5 <= v < n as real + 0.5
  {
    (v + 0.5).Floor
  }

  function Abs(x: real): (a: real)
    ensures a >= 0.0 && (a == x || a == -x)
  {
    if x < 0.0 then -x else x
  }

  predicate IsDigit(c: char)
  {
    '0' <= c <= '9'
  }

  /** A character `\w` matches. */
  predicate IsWordChar(c: char)
  {
    'a' <= c <= 'z' || 'A' <= c <= 'Z' || IsDigit(c) || c == '_'
  }

  predicate AllDigits(s: string)
  {
    forall i :: 0 <= i < |s| ==> IsDigit(s[i])
  }

  predicate NoCommas(s: string)
  {
    forall i :: 0 <= i < |s| ==> s[i] != ','
  }

  /** The length of the run of digits that starts at i. */
  function DigitRun(s: string, i: nat): (n: nat)
    requires i <= |s|
    ensures i + n <= |s|
    ensures forall k :: i <= k < i + n ==> IsDigit(s[k])
    ensures i + n < |s| ==> !IsDigit(s[i + n])
    decreases |s| - i
  {
    if i < |s| && IsDigit(s[i]) then 1 + DigitRun(s, i + 1) else 0
  }

  /** Where `/\B(?=(\d{3})+(?!\d))/g` matches, before character i: not at a
      word boundary (the digit at i is a word character, so the one before
      must be one too), and the digits from i on form whole groups of three
      with no digit after them. */
  predicate CommaBefore(s: string, i: nat)
    requires i <= |s|
  {
    1 <= i < |s| && IsWordChar(s[i - 1]) && DigitRun(s, i) > 0 && DigitRun(s, i) % 3 == 0
  }

  /** The replacement's output for the first j characters of s. */
  function CommasUpTo(s: string, j: nat): string
    requires j <= |s|
  {
    if j == 0 then ""
    else CommasUpTo(s, j - 1) + (if CommaBefore(s, j - 1) then [',', s[j - 1]] else [s[j - 1]])
  }

  /** `numberWithCommas` as written: a comma wherever the regular expression
      matches, in the fraction as well as in the integer part. */
  function NumberWithCommasAsWritten(s: string): string
  {
    CommasUpTo(s, |s|)
  }

  /** Digits grouped in threes from the right, the groups separated by
      commas. */
  function Grouped(d: string): string
    decreases |d|
  {
    if |d| <= 3 then d else Grouped(d[..|d| - 3]) + "," + d[|d| - 3..]
  }

  /** `numberWithCommas` as evidently intended: only the leading run of
      digits, the integer part, is grouped; the rest is kept as it is. */
  function NumberWithCommas(s: string): string
  {
    var n := DigitRun(s, 0);
    Grouped(s[..n]) + s[n..]
  }

  function RemoveCommas(s: string): (r: string)
    ensures NoCommas(r)
  {
    if s == [] then ""
    else RemoveCommas(s[..|s| - 1]) + (if s[|s| - 1] == ',' then "" else [s[|s| - 1]])
  }

  lemma {:induction false} RemoveCommasAppend(a: string, b: string)
    ensures RemoveCommas(a + b) == RemoveCommas(a) + RemoveCommas(b)
    decreases |b|
  {
    if b != [] {
      assert (a + b)[..|a + b| - 1] == a + b[..|b| - 1];
      RemoveCommasAppend(a, b[..|b| - 1]);
    } else {
      assert a + b == a;
    }
  }

  lemma {:induction false} RemoveCommasKeeps(s: string)
    requires NoCommas(s)
    ensures RemoveCommas(s) == s
  {
    if s != [] {
      RemoveCommasKeeps(s[..|s| - 1]);
    }
  }

  /** A grouped number has one comma fewer than it has groups of three. */
  lemma {:induction false} GroupedLength(d: string)
    requires d != []
    ensures |Grouped(d)| == |d| + (|d| - 1) / 3
    decreases |d|
  {
    if |d| > 3 {
      GroupedLength(d[..|d| - 3]);
    }
  }

  /** Deleting the commas of a grouped number gives the digits back. */
  lemma {:induction false} GroupedRoundTrip(d: string)
    requires NoCommas(d)
    ensures RemoveCommas(Grouped(d)) == d
    decreases |d|
  {
    if |d| <= 3 {
      RemoveCommasKeeps(d);
    } else {
      var head, tail := d[..|d| - 3], d[|d| - 3..];
      assert NoCommas(head) by {
        forall k | 0 <= k < |head| ensures head[k] != ',' {
          assert head[k] == d[k];
        }
      }
      assert NoCommas(tail) by {
        forall k | 0 <= k < |tail| ensures tail[k] != ',' {
          assert tail[k] == d[|d| - 3 + k];
        }
      }
      GroupedRoundTrip(head);
      RemoveJoiningComma(Grouped(head), head, tail);
      assert head + tail == d;
    }
  }

  /** Deleting the commas of two pieces joined by a comma. */
  lemma RemoveJoiningComma(g: string, head: string, tail: string)
    requires RemoveCommas(g) == head && NoCommas(tail)
    ensures RemoveCommas(g + "," + tail) == head + tail
  {
    assert RemoveCommas(g + ",") == head by {
      RemoveCommasAppend(g, ",");
      assert RemoveCommas(",") == "";
    }
    RemoveCommasAppend(g + ",", tail);
    RemoveCommasKeeps(tail);
  }

  /** Deleting the commas the corrected `numberWithCommas` inserts gives the
      input back. */
  lemma NumberWithCommasRoundTrip(s: string)
    requires NoCommas(s)
    ensures RemoveCommas(NumberWithCommas(s)) == s
  {
    var n := DigitRun(s, 0);
    GroupedRoundTrip(s[..n]);
    RemoveCommasAppend(Grouped(s[..n]), s[n..]);
    RemoveCommasKeeps(s[n..]);
    assert s[..n] + s[n..] == s;
  }

  /** The corrected version groups a string of digits exactly as the
      original does. */
  lemma NumberWithCommasOnDigits(d: string)
    requires AllDigits(d)
    ensures NumberWithCommas(d) == Grouped(d) == NumberWithCommasAsWritten(d)
  {
    assert d[..|d|] == d && d[|d|..] == "";
    AsWrittenOnDigits(d);
  }

  /** On a string of digits the regular expression matches before i exactly
      when a whole number of groups of three follows. */
  lemma CommaBeforeOnDigits(d: string, i: nat)
    requires AllDigits(d) && i <= |d|
    ensures CommaBefore(d, i) <==> 1 <= i < |d| && (|d| - i) % 3 == 0
  {
    assert DigitRun(d, i) == |d| - i;
  }

  /** Cutting whole groups of three digits off the end does not move the
      commas before the cut. */
  lemma {:induction false} CommasUpToPrefix(d: string, m: nat, j: nat)
    requires AllDigits(d) && j <= m <= |d| && (|d| - m) % 3 == 0
    ensures CommasUpTo(d, j) == CommasUpTo(d[..m], j)
  {
    if j > 0 {
      var t := d[..m];
      assert CommasUpTo(d, j - 1) == CommasUpTo(t, j - 1) by {
        CommasUpToPrefix(d, m, j - 1);
      }
      assert t[j - 1] == d[j - 1];
      CommaBeforePrefix(d, m, j - 1);
      CommasUpToAgree(d, t, j);
    }
  }

  /** Cutting whole groups of three digits off the end keeps every comma
      before the cut. */
  lemma CommaBeforePrefix(d: string, m: nat, i: nat)
    requires AllDigits(d) && i < m <= |d| && (|d| - m) % 3 == 0
    ensures CommaBefore(d, i) == CommaBefore(d[..m], i)
  {
    var t := d[..m];
    assert AllDigits(t) by {
      forall k | 0 <= k < |t| ensures IsDigit(t[k]) {
        assert t[k] == d[k];
      }
    }
    CommaBeforeOnDigits(d, i);
    CommaBeforeOnDigits(t, i);
    assert |d| - i == (|d| - m) + (m - i);
  }

  /** Two texts that agree up to the last character and on the comma before
      it agree on the replacement's output one character further. */
  lemma CommasUpToAgree(s: string, t: string, j: nat)
    requires 0 < j <= |s| && j <= |t|
    requires CommasUpTo(s, j - 1) == CommasUpTo(t, j - 1) && s[j - 1] == t[j - 1]
    requires CommaBefore(s, j - 1) == CommaBefore(t, j - 1)
    ensures CommasUpTo(s, j) == CommasUpTo(t, j)
  {
  }

  /** At most three digits get no comma. */
  lemma {:induction false} CommasUpToShort(d: string, j: nat)
    requires AllDigits(d) && |d| <= 3 && j <= |d|
    ensures CommasUpTo(d, j) == d[..j]
  {
    if j > 0 {
      CommasUpToShort(d, j - 1);
      CommaBeforeOnDigits(d, j - 1);
      assert d[..j] == d[..j - 1] + [d[j - 1]];
    }
  }

  /** On a string of digits, `numberWithCommas` as written puts a comma
      before each group of three counted from the right. */
  lemma {:induction false} AsWrittenOnDigits(d: string)
    requires AllDigits(d)
    ensures NumberWithCommasAsWritten(d) == Grouped(d)
    decreases |d|
  {
    var n := |d|;
    if n <= 3 {
      CommasUpToShort(d, n);
      assert d[..n] == d;
    } else {
      AsWrittenOnDigits(d[..n - 3]);
      CommasUpToPrefix(d, n - 3, n - 3);
      assert d[..n - 3][..n - 3] == d[..n - 3];
      LastGroup(d);
    }
  }

  /** The last three digits of a longer run get a comma before them. */
  lemma LastGroup(d: string)
    requires AllDigits(d) && |d| > 3
    ensures CommasUpTo(d, |d|) == CommasUpTo(d, |d| - 3) + "," + d[|d| - 3..]
  {
    var n := |d|;
    CommaBeforeOnDigits(d, n - 3);
    CommaBeforeOnDigits(d, n - 2);
    CommaBeforeOnDigits(d, n - 1);
    CommaThenTwo(d, n - 3);
  }

  /** A comma before j and none before the two characters after it. */
  lemma CommaThenTwo(s: string, j: nat)
    requires j + 3 == |s|
    requires CommaBefore(s, j) && !CommaBefore(s, j + 1) && !CommaBefore(s, j + 2)
    ensures CommasUpTo(s, j + 3) == CommasUpTo(s, j) + "," + s[j..]
  {
    var p := CommasUpTo(s, j);
    assert CommasUpTo(s, j + 1) == p + [',', s[j]];
    assert CommasUpTo(s, j + 2) == p + [',', s[j]] + [s[j + 1]];
    assert CommasUpTo(s, j + 3) == p + [',', s[j]] + [s[j + 1]] + [s[j + 2]];
    assert s[j..] == [s[j], s[j + 1], s[j + 2]];
  }

  /** The original inserts a comma into the fraction of a number with four
      decimals, which then reads as a different number; the corrected
      version leaves it alone. */
  lemma AsWrittenGroupsFraction()
    ensures NumberWithCommasAsWritten("10.5064") == "10.5,064"
    ensures NumberWithCommas("10.5064") == "10.5064"
  {
    var s := "10.5064";
    assert DigitRun(s, 7) == 0;
    assert DigitRun(s, 6) == 1;
    assert DigitRun(s, 5) == 2;
    assert DigitRun(s, 4) == 3;
    assert DigitRun(s, 3) == 4;
    assert DigitRun(s, 2) == 0;
    assert DigitRun(s, 1) == 1;
    assert DigitRun(s, 0) == 2;
    assert !CommaBefore(s, 0) && !CommaBefore(s, 1) && !CommaBefore(s, 2) && !CommaBefore(s, 3);
    assert CommaBefore(s, 4) && !CommaBefore(s, 5) && !CommaBefore(s, 6);
    assert CommasUpTo(s, 4) == "10.5";
    assert s[..2] == "10" && s[2..] == ".5064";
  }

  /** The text `getNumberLabel` hands to `numberWithCommas`: the magnitude,
      compacted to billions, millions or thousands when it reaches them. How
      a non-integral number is written out is the engine's own affair and is
      taken as given (`show`). NaN fails every comparison and prints as
      "NaN"; an infinite magnitude is at least a billion. */
  function LabelText(x: JsNumber, show: real -> string): string
  {
    match x
    case NaN => "NaN"
    case PosInf => "Infinity" + "B"
    case NegInf => "Infinity" + "B"
    case Finite(v) => MagnitudeText(Abs(v), show)
  }

  /** The text of a finite magnitude. */
  function MagnitudeText(a: real, show: real -> string): string
  {
    if a >= 1000000000.0 then NatToString(Round(a / 1000000000.0) as nat) + "B"
    else if a >= 1000000.0 then NatToString(Round(a / 1000000.0) as nat) + "M"
    else if a >= 1000.0 then NatToString(Round(a / 1000.0) as nat) + "K"
    else show(a)
  }

  /** `getNumberLabel` as written: the text grouped by the original
      `numberWithCommas`. */
  function NumberLabel(x: JsNumber, show: real -> string): string
  {
    NumberWithCommasAsWritten(LabelText(x, show))
  }

  /** The label with the corrected grouping, which leaves the fraction
      alone. */
  function NumberLabelCorrected(x: JsNumber, show: real -> string): string
  {
    NumberWithCommas(LabelText(x, show))
  }

  /** The label the APY is shown with. */
  function ApyLabel(fixedPeriodReward: real, totalStakedAmount: real, totalEscrowedRewards: real,
                    totalEscrowBalanceNotIncludedInStaking: real, show: real -> string): string
  {
    NumberLabel(Apy(Apr(fixedPeriodReward, totalStakedAmount, totalEscrowedRewards,
      totalEscrowBalanceNotIncludedInStaking)), show)
  }

  /** The label drops the sign. */
  lemma NumberLabelDropsSign(v: real, show: real -> string)
    ensures NumberLabel(Finite(-v), show) == NumberLabel(Finite(v), show)
  {
    assert Abs(-v) == Abs(v);
  }

  /** The scale and letter of a compacted magnitude. */
  function Scale(a: real): (scale: real)
    ensures scale > 0.0
  {
    if a >= 1000000000.0 then 1000000000.0 else if a >= 1000000.0 then 1000000.0 else 1000.0
  }

  function Suffix(a: real): char
  {
    if a >= 1000000000.0 then 'B' else if a >= 1000000.0 then 'M' else 'K'
  }

  /** From a thousand up, the magnitude over its scale rounds to at least 1
      and, below a billion, to at most 1000 (so 999 999 shows as 1,000K). */
  lemma CompactLabelBounds(a: real)
    requires a >= 1000.0
    ensures 1 <= Round(a / Scale(a)) && (a < 1000000000.0 ==> Round(a / Scale(a)) <= 1000)
  {
    assert a / Scale(a) >= 1.0;
    assert a < 1000000000.0 ==> a / Scale(a) < 1000.0;
  }

  /** From a thousand up, the label is the rounded multiple of the scale with
      its digits grouped in threes, then the scale's letter; deleting the
      commas leaves the integer's digits and the letter. */
  lemma CompactLabel(v: real, show: real -> string)
    requires Abs(v) >= 1000.0
    ensures var a := Abs(v); var n := Round(a / Scale(a));
      n >= 1 &&
      NumberLabel(Finite(v), show) == Grouped(NatToString(n)) + [Suffix(a)] &&
      RemoveCommas(NumberLabel(Finite(v), show)) == NatToString(n) + [Suffix(a)]
  {
    var a := Abs(v);
    CompactLabelBounds(a);
    var n := Round(a / Scale(a));
    var digits := NatToString(n);
    MagnitudeCompact(a, show);
    AsWrittenDigitsThenLetter(digits, Suffix(a));
    AsWrittenRoundTrip(digits + [Suffix(a)]);
  }

  lemma MagnitudeCompact(a: real, show: real -> string)
    requires a >= 1000.0
    ensures Round(a / Scale(a)) >= 0
    ensures MagnitudeText(a, show) == NatToString(Round(a / Scale(a)) as nat) + [Suffix(a)]
  {
    CompactLabelBounds(a);
  }

  /** A run of digits followed by a letter: the regular expression groups
      the digits and puts nothing before the letter. */
  lemma AsWrittenDigitsThenLetter(d: string, c: char)
    requires AllDigits(d) && !IsDigit(c)
    ensures NumberWithCommasAsWritten(d + [c]) == Grouped(d) + [c]
  {
    var s := d + [c];
    DigitRunBeforeLetter(d, c, |d|);
    CommasUpToThenLetter(d, c, |d|);
    AsWrittenOnDigits(d);
  }

  /** The digits from k on run up to the letter. */
  lemma {:induction false} DigitRunBeforeLetter(d: string, c: char, k: nat)
    requires AllDigits(d) && !IsDigit(c) && k <= |d|
    ensures DigitRun(d + [c], k) == |d| - k
    decreases |d| - k
  {
    if k < |d| {
      DigitRunBeforeLetter(d, c, k + 1);
      assert (d + [c])[k] == d[k];
    } else {
      assert (d + [c])[k] == c;
    }
  }

  /** Before the letter, the commas fall where they fall in the digits
      alone. */
  lemma {:induction false} CommasUpToThenLetter(d: string, c: char, j: nat)
    requires AllDigits(d) && !IsDigit(c) && j <= |d|
    ensures CommasUpTo(d + [c], j) == CommasUpTo(d, j)
  {
    if j > 0 {
      var s := d + [c];
      assert CommasUpTo(s, j - 1) == CommasUpTo(d, j - 1) by {
        CommasUpToThenLetter(d, c, j - 1);
      }
      assert s[j - 1] == d[j - 1];
      assert CommaBefore(s, j - 1) == CommaBefore(d, j - 1) by {
        DigitRunBeforeLetter(d, c, j - 1);
        CommaBeforeOnDigits(d, j - 1);
        if j > 1 {
          assert s[j - 2] == d[j - 2];
        }
      }
      CommasUpToAgree(s, d, j);
    }
  }

  /** The original only inserts commas: deleting them gives back a text
      that had none. */
  lemma AsWrittenRoundTrip(s: string)
    requires NoCommas(s)
    ensures RemoveCommas(NumberWithCommasAsWritten(s)) == s
  {
    CommasUpToRemoved(s, |s|);
    assert s[..|s|] == s;
  }

  lemma {:induction false} CommasUpToRemoved(s: string, j: nat)
    requires NoCommas(s) && j <= |s|
    ensures RemoveCommas(CommasUpTo(s, j)) == s[..j]
  {
    if j > 0 {
      var prefix, c := CommasUpTo(s, j - 1), s[j - 1];
      assert RemoveCommas(prefix) == s[..j - 1] by {
        CommasUpToRemoved(s, j - 1);
      }
      assert RemoveCommas(CommasUpTo(s, j)) == s[..j - 1] + [c] by {
        RemoveCommasStep(prefix, s[..j - 1], c, CommaBefore(s, j - 1));
      }
      assert s[..j] == s[..j - 1] + [c];
    }
  }

  /** Deleting the commas after one more piece of the replacement's output. */
  lemma RemoveCommasStep(prefix: string, before: string, c: char, comma: bool)
    requires c != ',' && RemoveCommas(prefix) == before
    ensures RemoveCommas(prefix + (if comma then [',', c] else [c])) == before + [c]
  {
    RemoveCommasAppend(prefix, if comma then [',', c] else [c]);
    RemovePieceCommas(c, comma);
  }

  /** The piece the replacement writes for one character loses its comma. */
  lemma RemovePieceCommas(c: char, comma: bool)
    requires c != ','
    ensures RemoveCommas(if comma then [',', c] else [c]) == [c]
  {
    assert [c][..0] == [];
    if comma {
      assert [',', c][..1] == [','];
      assert [','][..0] == [];
    }
  }

  /** Below a thousand the label is the magnitude as written, run through the
      original `numberWithCommas`: a string of digits is grouped in threes,
      and only commas are ever added. */
  lemma PlainLabel(v: real, show: real -> string)
    requires Abs(v) < 1000.0
    ensures NumberLabel(Finite(v), show) == NumberWithCommasAsWritten(show(Abs(v)))
    ensures AllDigits(show(Abs(v))) ==> NumberLabel(Finite(v), show) == Grouped(show(Abs(v)))
    ensures NoCommas(show(Abs(v))) ==> RemoveCommas(NumberLabel(Finite(v), show)) == show(Abs(v))
  {
    var text := show(Abs(v));
    if AllDigits(text) {
      AsWrittenOnDigits(text);
    }
    if NoCommas(text) {
      AsWrittenRoundTrip(text);
    }
  }

  /** An APY of 10.5064, written out by the engine as "10.5064", is labelled
      "10.5,064"; the corrected grouping labels it "10.5064". */
  lemma LabelGroupsFraction(show: real -> string)
    requires show(10.5064) == "10.5064"
    ensures NumberLabel(Finite(10.5064), show) == "10.5,064"
    ensures NumberLabelCorrected(Finite(10.5064), show) == "10.5064"
  {
    assert Abs(10.5064) == 10.5064;
    AsWrittenGroupsFraction();
  }

  /** With the corrected grouping, the label below a thousand keeps the
      fraction as it is and groups only the integer part. */
  lemma PlainLabelCorrected(v: real, show: real -> string)
    requires Abs(v) < 1000.0
    ensures var text := show(Abs(v)); var n := DigitRun(text, 0);
      NumberLabelCorrected(Finite(v), show) == Grouped(text[..n]) + text[n..]
    ensures NoCommas(show(Abs(v))) ==> RemoveCommas(NumberLabelCorrected(Finite(v), show)) == show(Abs(v))
  {
    if NoCommas(show(Abs(v))) {
      NumberWithCommasRoundTrip(show(Abs(v)));
    }
  }
}
