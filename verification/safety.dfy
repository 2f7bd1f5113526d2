/** The safety gate: a threshold classifier that turns a company's leverage
    and dividend payout into an ordered list of issues. The payout ratio is in
    percent. */
module Safety {

  datatype IssueKind = Leverage | YieldTrap

  datatype Issue = Issue(ticker: string, kind: IssueKind, message: string)

  /** Debt-to-equity strictly above this is high leverage. */
  const MaxDebtToEquity: real := 2.0
  /** A payout ratio (percent) strictly above this is a yield trap. */
  const MaxPayoutPercent: real := 80.0

  /** The fixed message of each issue kind. */
  function MessageOf(kind: IssueKind): string
  {
    match kind
    case Leverage => "High leverage"
    case YieldTrap => "High payout ratio"
  }

  /** The issue kinds present in `issues`. */
  function Kinds(issues: seq<Issue>): set<IssueKind>
  {
    set i | 0 <= i < |issues| :: issues[i].kind
  }

  /** `checkSafety`: a LEVERAGE issue exactly when debt-to-equity is above
      2.0, a YIELD_TRAP issue exactly when the payout is above 80 percent, each
      kind at most once, LEVERAGE first, every issue carrying the ticker and its
      kind's fixed message. */
  function CheckSafety(ticker: string, debtToEquity: real, payoutRatio: real): (r: seq<Issue>)
    ensures Leverage in Kinds(r) <==> debtToEquity > MaxDebtToEquity
    ensures YieldTrap in Kinds(r) <==> payoutRatio > MaxPayoutPercent
    ensures |r| == |Kinds(r)| <= 2
    ensures |r| == 2 ==> r[0].kind == Leverage && r[1].kind == YieldTrap
    ensures forall i :: 0 <= i < |r| ==> r[i].ticker == ticker && r[i].message == MessageOf(r[i].kind)
  {
    var leverage := if debtToEquity > MaxDebtToEquity then [Issue(ticker, Leverage, MessageOf(Leverage))] else [];
    var yieldTrap := if payoutRatio > MaxPayoutPercent then [Issue(ticker, YieldTrap, MessageOf(YieldTrap))] else [];
    var r := leverage + yieldTrap;
    assert |r| == 2 ==> Kinds(r) == {r[0].kind, r[1].kind};
    assert |r| == 1 ==> Kinds(r) == {r[0].kind};
    r
  }

  /** The gate's three recorded cases, and the boundary: a debt-to-equity of
      exactly 2.0 and a payout of exactly 80 are not flagged. */
  lemma CheckSafetyExamples()
    ensures CheckSafety("MSFT", 2.5, 30.0) == [Issue("MSFT", Leverage, "High leverage")]
    ensures CheckSafety("T", 1.5, 95.0) == [Issue("T", YieldTrap, "High payout ratio")]
    ensures CheckSafety("JNJ", 0.5, 50.0) == []
    ensures CheckSafety("KO", 2.0, 80.0) == []
  {
  }

  /** Raising either figure never removes an issue. */
  lemma CheckSafetyMonotone(ticker: string, d1: real, p1: real, d2: real, p2: real)
    requires d1 <= d2 && p1 <= p2
    ensures Kinds(CheckSafety(ticker, d1, p1)) <= Kinds(CheckSafety(ticker, d2, p2))
  {
  }
}
