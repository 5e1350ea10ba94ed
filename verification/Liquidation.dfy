/** The liquidation service: creating, triggering and settling liquidations of
    defaulted agents, and the portfolio summary. */
module Liquidation {
  import opened Wrappers
  import opened Sums
  import opened Division
  import Tables
  import Text

  type AgentId = Tables.AgentId

  datatype LiquidationStatus = Pending | AuctionActive | Settled | Expired | WriteOff

  datatype AuctionStatus = Running | AuctionSettled | AuctionExpired

  const AUCTION_SECONDS := 21600

  /** Prices in tenths of a micro-unit: 150% and 30% of the debt are whole there. */
  datatype Auction = Auction(
    startPrice: int,
    minPrice: int,
    durationSeconds: int,
    status: AuctionStatus,
    settledPrice: Option<int>,
    buyer: Option<string>)

  datatype Liquidation = Liquidation(
    agent: AgentId,
    debt: int,
    recovered: int,
    loss: int,
    recoveryRateBps: int,
    status: LiquidationStatus,
    triggeredBy: Option<string>,
    auction: Option<Auction>)

  predicate IsActive(l: Liquidation) {
    l.status.Pending? || l.status.AuctionActive?
  }

  /** int(recovered * 10000 / debt), truncating towards zero. */
  function Bps(recovered: int, debt: int): int
    requires debt > 0
  {
    if recovered >= 0 then recovered * 10000 / debt else -((-recovered) * 10000 / debt)
  }

  /** Truncation is towards zero on either side of it. */
  lemma BpsTruncates(recovered: int, debt: int)
    requires debt > 0
    ensures recovered >= 0 ==> Bps(recovered, debt) * debt <= recovered * 10000 < (Bps(recovered, debt) + 1) * debt
    ensures recovered < 0 ==> (Bps(recovered, debt) - 1) * debt < recovered * 10000 <= Bps(recovered, debt) * debt
  {
    if recovered >= 0 {
      QuotientBounds(recovered * 10000, debt);
    } else {
      var q := (-recovered) * 10000 / debt;
      QuotientBounds((-recovered) * 10000, debt);
      assert (-q) * debt == -(q * debt) && (-q - 1) * debt == -((q + 1) * debt);
    }
  }

  // ----- Operations -----

  predicate HasActive(rows: seq<Liquidation>, agent: AgentId) {
    exists i :: 0 <= i < |rows| && rows[i].agent == agent && IsActive(rows[i])
  }

  /** status is the agent's row, None when there is none. */
  function CreateError(rows: seq<Liquidation>, agent: AgentId, status: Option<Tables.AgentStatus>): Option<Error> {
    if status.None? then Some(NotFound)
    else if status.value != Tables.Defaulted || HasActive(rows, agent) then Some(BadRequest)
    else None
  }

  function Opened(agent: AgentId, debt: int): Liquidation {
    Liquidation(agent, debt, 0, 0, 0, Pending, None, None)
  }

  function Triggered(l: Liquidation, keeper: string): Liquidation {
    l.(status := AuctionActive, triggeredBy := Some(Text.Lower(keeper)),
       auction := Some(Auction(15 * l.debt, 3 * l.debt, AUCTION_SECONDS, Running, None, None)))
  }

  function SettledAuction(a: Auction, recovered: int, buyer: string): Auction {
    if recovered > 0
    then a.(status := AuctionSettled, settledPrice := Some(recovered),
            buyer := if buyer == "" then None else Some(Text.Lower(buyer)))
    else a.(status := AuctionExpired)
  }

  /** buyer is "" when none is given. */
  function SettledWith(l: Liquidation, recovered: int, buyer: string): Liquidation {
    var (loss, rate, status) :=
      if recovered >= l.debt then (0, 10000, Settled)
      else if recovered > 0 then (l.debt - recovered, Bps(recovered, l.debt), Settled)
      else (l.debt, 0, WriteOff);
    l.(recovered := recovered, loss := loss, recoveryRateBps := rate, status := status,
       auction := if l.auction.Some? then Some(SettledAuction(l.auction.value, recovered, buyer)) else None)
  }

  function FindError(rows: seq<Liquidation>, id: nat, expected: LiquidationStatus): Option<Error> {
    if id >= |rows| then Some(NotFound)
    else if rows[id].status != expected then Some(BadRequest)
    else None
  }

  datatype Op =
    | Create(agent: AgentId, status: Option<Tables.AgentStatus>, debt: int)
    | Trigger(id: nat, keeper: string)
    | Settle(id: nat, recovered: int, buyer: string)

  /** One operation; a refused one changes nothing. */
  function Step(rows: seq<Liquidation>, op: Op): seq<Liquidation> {
    match op
    case Create(agent, status, debt) =>
      if CreateError(rows, agent, status).Some? then rows else rows + [Opened(agent, debt)]
    case Trigger(id, keeper) =>
      if FindError(rows, id, Pending).Some? then rows else rows[id := Triggered(rows[id], keeper)]
    case Settle(id, recovered, buyer) =>
      if FindError(rows, id, AuctionActive).Some? then rows else rows[id := SettledWith(rows[id], recovered, buyer)]
  }

  function Run(ops: seq<Op>): seq<Liquidation> {
    if ops == [] then [] else Step(Run(ops[..|ops| - 1]), ops[|ops| - 1])
  }

  // ----- The service -----

  function Debts(rows: seq<Liquidation>): seq<int> {
    seq(|rows|, i requires 0 <= i < |rows| => rows[i].debt)
  }

  function Recoveries(rows: seq<Liquidation>): seq<int> {
    seq(|rows|, i requires 0 <= i < |rows| => rows[i].recovered)
  }

  function Losses(rows: seq<Liquidation>): seq<int> {
    seq(|rows|, i requires 0 <= i < |rows| => rows[i].loss)
  }

  function AtAuction(rows: seq<Liquidation>): set<int> {
    set i | 0 <= i < |rows| && rows[i].status.AuctionActive?
  }

  lemma AtAuctionSnoc(rows: seq<Liquidation>, l: Liquidation)
    ensures |AtAuction(rows + [l])| == |AtAuction(rows)| + (if l.status.AuctionActive? then 1 else 0)
  {
    var all := rows + [l];
    assert all[|rows|] == l && forall i :: 0 <= i < |rows| ==> all[i] == rows[i];
    assert AtAuction(all) == AtAuction(rows) + (if l.status.AuctionActive? then {|rows|} else {});
  }

  datatype Summary = Summary(
    liquidations: nat,
    activeAuctions: nat,
    totalDebt: int,
    totalRecovered: int,
    totalLosses: int,
    overallBps: int)

  /** What the summary of a table must be. */
  function Summarize(rows: seq<Liquidation>): Summary {
    var debt, recovered := Sum(Debts(rows)), Sum(Recoveries(rows));
    Summary(|rows|, |AtAuction(rows)|, debt, recovered, Sum(Losses(rows)), if debt > 0 then Bps(recovered, debt) else 0)
  }

  class LiquidationService {
    /** A liquidation's id is its position in the table. */
    var rows: seq<Liquidation>

    constructor ()
      ensures rows == []
    {
      rows := [];
    }

    method CreateLiquidationForAgent(agents: map<AgentId, Tables.AgentStatus>, agent: AgentId, debt: int)
      returns (r: Result<nat>)
      modifies this
      ensures var status := if agent in agents then Some(agents[agent]) else None;
        && rows == Step(old(rows), Create(agent, status, debt))
        && r == match CreateError(old(rows), agent, status)
                case Some(e) => Err(e) case None => Ok(|old(rows)|)
      ensures r == Err(NotFound) <==> agent !in agents
      ensures r.Ok? <==> && agent in agents && agents[agent] == Tables.Defaulted
                         && forall i :: 0 <= i < |old(rows)| && old(rows)[i].agent == agent ==>
                              old(rows)[i].status !in {Pending, AuctionActive}
      ensures r.Ok? ==> rows == old(rows) + [Liquidation(agent, debt, 0, 0, 0, Pending, None, None)]
    {
      if agent !in agents {
        return Err(NotFound);
      }
      if agents[agent] != Tables.Defaulted {
        return Err(BadRequest);
      }
      if exists i :: 0 <= i < |rows| && rows[i].agent == agent && IsActive(rows[i]) {
        return Err(BadRequest);
      }
      r := Ok(|rows|);
      rows := rows + [Liquidation(agent, debt, 0, 0, 0, Pending, None, None)];
    }

    method TriggerLiquidation(id: nat, keeper: string) returns (r: Result<Liquidation>)
      modifies this
      ensures rows == Step(old(rows), Trigger(id, keeper))
      ensures r == match FindError(old(rows), id, Pending) case Some(e) => Err(e) case None => Ok(rows[id])
      ensures r == Err(NotFound) <==> id >= |old(rows)|
      ensures r.Ok? <==> id < |old(rows)| && old(rows)[id].status == Pending
      ensures r.Ok? ==> r.value == old(rows)[id].(
        status := AuctionActive, triggeredBy := Some(Text.Lower(keeper)), auction := r.value.auction)
      ensures r.Ok? ==> r.value.auction.Some? && var a := r.value.auction.value;
        && a.startPrice * 2 == old(rows)[id].debt * 10 * 3 && a.minPrice * 10 == old(rows)[id].debt * 10 * 3
        && a.durationSeconds == 6 * 60 * 60 && a.status == Running && a.settledPrice.None? && a.buyer.None?
    {
      if id >= |rows| {
        return Err(NotFound);
      }
      var l := rows[id];
      if l.status != Pending {
        return Err(BadRequest);
      }
      l := l.(status := AuctionActive);
      l := l.(triggeredBy := Some(Text.Lower(keeper)));
      var auction := Auction(l.debt * 15, l.debt * 3, AUCTION_SECONDS, Running, None, None);
      l := l.(auction := Some(auction));
      rows := rows[id := l];
      return Ok(l);
    }

    method SettleLiquidation(id: nat, recovered: int, buyer: string) returns (r: Result<Liquidation>)
      modifies this
      ensures rows == Step(old(rows), Settle(id, recovered, buyer))
      ensures r == match FindError(old(rows), id, AuctionActive) case Some(e) => Err(e) case None => Ok(rows[id])
      ensures r == Err(NotFound) <==> id >= |old(rows)|
      ensures r.Ok? <==> id < |old(rows)| && old(rows)[id].status == AuctionActive
      ensures r.Ok? ==> var l, was := r.value, old(rows)[id];
        && l.recovered == recovered && l.debt == was.debt && l.agent == was.agent && l.triggeredBy == was.triggeredBy
        && l.loss == (if recovered >= l.debt then 0 else if recovered > 0 then l.debt - recovered else l.debt)
        && (l.status == WriteOff <==> recovered < l.debt && recovered <= 0)
        && (l.status == Settled <==> l.status != WriteOff)
        && (was.auction.Some? && recovered > 0 ==> l.auction == Some(was.auction.value.(
              status := AuctionSettled, settledPrice := Some(recovered),
              buyer := if buyer == "" then None else Some(Text.Lower(buyer)))))
        && (was.auction.Some? && recovered <= 0 ==>
              l.auction == Some(was.auction.value.(status := AuctionExpired)))
    {
      if id >= |rows| {
        return Err(NotFound);
      }
      var l := rows[id];
      if l.status != AuctionActive {
        return Err(BadRequest);
      }
      l := l.(recovered := recovered);
      if recovered >= l.debt {
        l := l.(loss := 0, recoveryRateBps := 10000, status := Settled);
      } else if recovered > 0 {
        var loss := l.debt - recovered;
        l := l.(loss := loss);
        l := l.(recoveryRateBps := recovered * 10000 / l.debt);
        l := l.(status := Settled);
      } else {
        l := l.(loss := l.debt, recoveryRateBps := 0, status := WriteOff);
      }
      if l.auction.Some? {
        var auction := l.auction.value;
        if recovered > 0 {
          auction := auction.(status := AuctionSettled);
          auction := auction.(settledPrice := Some(recovered));
          auction := auction.(buyer := if buyer == "" then None else Some(Text.Lower(buyer)));
        } else {
          auction := auction.(status := AuctionExpired);
        }
        l := l.(auction := Some(auction));
      }
      rows := rows[id := l];
      return Ok(l);
    }

    method GetSummary() returns (s: Summary)
      ensures s == Summarize(rows)
      ensures s.activeAuctions == |set i | 0 <= i < |rows| && rows[i].status == AuctionActive|
    {
      var active, debt, recovered, losses := 0, 0, 0, 0;
      for i := 0 to |rows|
        invariant active == |AtAuction(rows[..i])|
        invariant debt == Sum(Debts(rows)[..i]) && recovered == Sum(Recoveries(rows)[..i])
        invariant losses == Sum(Losses(rows)[..i])
      {
        assert rows[..i + 1] == rows[..i] + [rows[i]];
        AtAuctionSnoc(rows[..i], rows[i]);
        assert Debts(rows)[..i + 1][..i] == Debts(rows)[..i];
        assert Recoveries(rows)[..i + 1][..i] == Recoveries(rows)[..i];
        assert Losses(rows)[..i + 1][..i] == Losses(rows)[..i];
        active := if rows[i].status == AuctionActive then active + 1 else active;
        debt := debt + rows[i].debt;
        recovered := recovered + rows[i].recovered;
        losses := losses + rows[i].loss;
      }
      assert Debts(rows)[..|rows|] == Debts(rows) && Recoveries(rows)[..|rows|] == Recoveries(rows);
      assert Losses(rows)[..|rows|] == Losses(rows) && rows[..|rows|] == rows;
      assert AtAuction(rows) == set i | 0 <= i < |rows| && rows[i].status == AuctionActive;
      s := Summary(|rows|, active, debt, recovered, losses, if debt > 0 then Bps(recovered, debt) else 0);
    }
  }

  // ----- Lifecycle -----

  /** The liquidation and its auction tell the same story. */
  predicate Matches(l: Liquidation) {
    match l.status
    case Pending => l.auction.None?
    case AuctionActive => l.auction.Some? && l.auction.value.status.Running?
    case Settled => l.auction.Some? && l.auction.value.status.AuctionSettled?
    case WriteOff => l.auction.Some? && l.auction.value.status.AuctionExpired?
    case Expired => false
  }

  /** Settled although nothing was recovered, because nothing was owed. */
  predicate SettledForNothing(l: Liquidation) {
    l.status.Settled? && l.debt <= l.recovered <= 0
  }

  /** The accounts of one row. */
  predicate Accounted(l: Liquidation) {
    match l.status
    case Pending => l.recovered == 0 && l.loss == 0
    case AuctionActive => l.recovered == 0 && l.loss == 0
    case Settled =>
      if l.recovered >= l.debt then l.loss == 0 && l.recoveryRateBps == 10000
      else 0 < l.recovered < l.debt && l.loss == l.debt - l.recovered
           && l.recoveryRateBps == l.recovered * 10000 / l.debt
    case WriteOff => l.recovered <= 0 && l.recovered < l.debt && l.loss == l.debt && l.recoveryRateBps == 0
    case Expired => false
  }

  ghost predicate Coherent(rows: seq<Liquidation>) {
    && (forall i, j :: 0 <= i < j < |rows| && IsActive(rows[i]) && IsActive(rows[j]) ==> rows[i].agent != rows[j].agent)
    && (forall i :: 0 <= i < |rows| ==> Accounted(rows[i]) && (Matches(rows[i]) <==> !SettledForNothing(rows[i])))
  }

  lemma StepCoherent(rows: seq<Liquidation>, op: Op)
    requires Coherent(rows)
    ensures Coherent(Step(rows, op))
  {
    if op.Create? && CreateError(rows, op.agent, op.status).None? {
      assert forall i :: 0 <= i < |rows| && IsActive(rows[i]) ==> rows[i].agent != op.agent;
    }
  }

  /** In every run an agent has at most one liquidation pending or at auction, and a
      liquidation's status matches its auction's exactly unless it was settled with
      debt <= recovered <= 0; so always, when debts are positive. */
  lemma {:induction false} LifecycleCoherent(ops: seq<Op>)
    ensures Coherent(Run(ops))
    ensures (forall i :: 0 <= i < |ops| && ops[i].Create? ==> ops[i].debt > 0) ==>
      forall i :: 0 <= i < |Run(ops)| ==> Run(ops)[i].debt > 0 && Matches(Run(ops)[i])
  {
    if ops != [] {
      LifecycleCoherent(ops[..|ops| - 1]);
      StepCoherent(Run(ops[..|ops| - 1]), ops[|ops| - 1]);
    }
  }

  /** A debt of 0 settled with nothing: settled, with an expired auction. */
  lemma SettledForNothingHappens(agent: AgentId, keeper: string, buyer: string)
    ensures var rows := Run([Create(agent, Some(Tables.Defaulted), 0), Trigger(0, keeper), Settle(0, 0, buyer)]);
      |rows| == 1 && SettledForNothing(rows[0]) && rows[0].auction.Some? && rows[0].auction.value.status.AuctionExpired?
  {
    var ops := [Create(agent, Some(Tables.Defaulted), 0), Trigger(0, keeper), Settle(0, 0, buyer)];
    assert ops[..2][..1] == [ops[0]] && ops[..2][..1][..0] == [] && ops[..2] == [ops[0], ops[1]];
    assert Run(ops[..2][..1]) == [Opened(agent, 0)];
    assert Run(ops[..2]) == [Triggered(Opened(agent, 0), keeper)];
  }

  // ----- The portfolio -----

  predicate Finished(l: Liquidation) { !IsActive(l) }

  /** Debt not yet finished, and what recoveries outside 0..debt leave unbalanced. */
  function Unbalanced(l: Liquidation): int {
    if IsActive(l) then -l.debt
    else if l.recovered >= l.debt then l.recovered - l.debt
    else if l.recovered < 0 then l.recovered
    else 0
  }

  function Imbalances(rows: seq<Liquidation>): seq<int> {
    seq(|rows|, i requires 0 <= i < |rows| => Unbalanced(rows[i]))
  }

  lemma RowBalances(l: Liquidation)
    requires Accounted(l)
    ensures l.debt + Unbalanced(l) + 0 == l.recovered + l.loss + 0
  {
  }

  /** In every run the books balance: total debt is recovered, lost, or still open, up
      to recoveries above the debt or below zero. */
  lemma PortfolioBalances(ops: seq<Op>)
    ensures var s := Summarize(Run(ops));
      s.totalDebt + Sum(Imbalances(Run(ops))) == s.totalRecovered + s.totalLosses
  {
    LifecycleCoherent(ops);
    var rows := Run(ops);
    var zeros := seq(|rows|, _ => 0);
    forall i | 0 <= i < |rows| {
      RowBalances(rows[i]);
    }
    SumsBalance(Debts(rows), Imbalances(rows), Recoveries(rows), Losses(rows), zeros);
    SumOfZeros(|rows|);
  }

  /** Every liquidation is finished, with a positive debt and a recovery between 0 and it. */
  ghost predicate Closed(rows: seq<Liquidation>) {
    forall i :: 0 <= i < |rows| ==>
      Accounted(rows[i]) && Finished(rows[i]) && rows[i].debt > 0 && 0 <= rows[i].recovered <= rows[i].debt
  }

  lemma RateBrackets(l: Liquidation)
    requires Accounted(l) && Finished(l) && l.debt > 0 && 0 <= l.recovered <= l.debt
    ensures l.recoveryRateBps * l.debt <= l.recovered * 10000 < (l.recoveryRateBps + 1) * l.debt
  {
    QuotientBounds(l.recovered * 10000, l.debt);
  }

  lemma Distribute(q: int, x: int, y: int)
    ensures q * (x + y) == q * x + q * y
  {
  }

  /** Rates between low and high bracket the recovered share of total debt. */
  lemma {:induction false} TotalsBracket(rows: seq<Liquidation>, low: int, high: int)
    requires Closed(rows) && forall i :: 0 <= i < |rows| ==> low <= rows[i].recoveryRateBps <= high
    ensures low * Sum(Debts(rows)) <= Sum(Recoveries(rows)) * 10000 <= (high + 1) * Sum(Debts(rows))
    ensures rows != [] ==> Sum(Recoveries(rows)) * 10000 < (high + 1) * Sum(Debts(rows))
  {
    if rows != [] {
      var n := |rows| - 1;
      var l := rows[n];
      TotalsBracket(rows[..n], low, high);
      assert Debts(rows)[..n] == Debts(rows[..n]) && Recoveries(rows)[..n] == Recoveries(rows[..n]);
      RateBrackets(l);
      ScaledAtMost(low, l.recoveryRateBps, l.debt);
      ScaledAtMost(l.recoveryRateBps + 1, high + 1, l.debt);
      Distribute(low, Sum(Debts(rows[..n])), l.debt);
      Distribute(high + 1, Sum(Debts(rows[..n])), l.debt);
    }
  }

  lemma {:induction false} TotalsPositive(rows: seq<Liquidation>)
    requires Closed(rows)
    ensures Sum(Recoveries(rows)) >= 0 && Sum(Debts(rows)) >= |rows|
  {
    if rows != [] {
      var n := |rows| - 1;
      TotalsPositive(rows[..n]);
      assert Debts(rows)[..n] == Debts(rows[..n]) && Recoveries(rows)[..n] == Recoveries(rows[..n]);
    }
  }

  /** Once every liquidation is finished with a recovery within its debt, total debt is
      exactly what was recovered plus what was lost, and the overall rate lies between
      the smallest and the largest individual rate, through the truncations of both. */
  lemma PortfolioRecovery(rows: seq<Liquidation>, low: int, high: int)
    requires Closed(rows) && rows != []
    requires forall i :: 0 <= i < |rows| ==> low <= rows[i].recoveryRateBps <= high
    ensures var s := Summarize(rows);
      s.totalDebt == s.totalRecovered + s.totalLosses && low <= s.overallBps <= high
  {
    var zeros := seq(|rows|, _ => 0);
    SumsBalance(Debts(rows), zeros, Recoveries(rows), Losses(rows), zeros);
    SumOfZeros(|rows|);
    TotalsBracket(rows, low, high);
    TotalsPositive(rows);
    QuotientBetween(Sum(Recoveries(rows)) * 10000, Sum(Debts(rows)), low, high);
  }
}
