/** The credit service: scoring an agent, drawing on its line, repaying a draw.
    Each operation is given as a function on database states and as a method of
    the service that updates the tables and is proved to do the same. */
module Credit {
  import opened Wrappers
  import opened Tables
  import opened Rounding
  import opened Sums
  import opened Scoring

  const MICROS_PER_CENT := 10_000

  /** What scoring can produce (TermsInRange). */
  type Terms = t: CreditScoreResult |
    0 <= t.creditScore && 0 <= t.creditLine && 0 <= t.interestRateBps && 0 <= t.repaymentRateBps
    witness CreditScoreResult(0, 0, 0, 0)

  // ----- score_agent -----

  function ScoreError(db: Db, agent: AgentId): Option<Error> {
    if agent !in db.agents then Some(NotFound)
    else if db.agents[agent].Active? || db.agents[agent].Delinquent? then None
    else Some(BadRequest)
  }

  /** The terms are replaced; what is already used stays used. */
  function Score(db: Db, agent: AgentId, t: Terms): Db {
    if ScoreError(db, agent).Some? then db
    else
      var used := if agent in db.lines then db.lines[agent].usedAmount else 0;
      db.(lines := db.lines[agent := CreditLine(t.creditLine * MICROS_PER_CENT, used,
                                                t.interestRateBps, t.repaymentRateBps, t.creditScore)])
  }

  // ----- draw_credit -----

  function DrawError(db: Db, agent: AgentId, amount: int, tenorDays: int): Option<Error> {
    if amount <= 0 || tenorDays < 7 || tenorDays > 90 then Some(Unprocessable)
    else if agent !in db.lines then Some(NotFound)
    else if amount > db.lines[agent].maxAmount - db.lines[agent].usedAmount then Some(InsufficientCredit)
    else None
  }

  /** amount * (bps / 10000) * (tenorDays / 365), to the nearest micro-unit. */
  function Interest(amount: int, rateBps: int, tenorDays: int): int {
    RoundHalfEven(amount * rateBps * tenorDays, 3_650_000)
  }

  /** The interest is the annual rate over the tenor's share of 365 days, to within half a micro-unit. */
  lemma InterestIsProRata(amount: int, rateBps: int, tenorDays: int)
    ensures var exact := amount as real * (rateBps as real / 10_000.0) * (tenorDays as real / 365.0);
      -0.5 <= Interest(amount, rateBps, tenorDays) as real - exact <= 0.5
    ensures IsNearestEven(Interest(amount, rateBps, tenorDays), amount * rateBps * tenorDays, 10_000 * 365)
  {
    var n := amount * rateBps * tenorDays;
    RoundIsNearestEven(n, 3_650_000);
    RoundError(n, 3_650_000);
    assert n as real == (amount * rateBps) as real * tenorDays as real;
    assert (amount * rateBps) as real == amount as real * rateBps as real;
    var annual := amount as real * (rateBps as real / 10_000.0);
    assert annual == (amount * rateBps) as real / 10_000.0;
    assert annual * (tenorDays as real / 365.0) == n as real / 3_650_000.0;
  }

  function Draw(db: Db, agent: AgentId, amount: int, tenorDays: int, now: int): Db {
    if DrawError(db, agent, amount, tenorDays).Some? then db
    else
      var line := db.lines[agent];
      var rate := line.interestRateBps;
      db.(lines := db.lines[agent := line.(usedAmount := line.usedAmount + amount)],
          draws := db.draws + [CreditDraw(agent, amount, rate, amount + Interest(amount, rate, tenorDays), 0,
                                          DrawActive, None, now + tenorDays * MICROS_PER_DAY, None)])
  }

  // ----- repay_credit -----

  function RepayError(db: Db, agent: AgentId, id: nat, amount: int): Option<Error> {
    if amount <= 0 then Some(Unprocessable)
    else if id >= |db.draws| || db.draws[id].agent != agent then Some(NotFound)
    else if !db.draws[id].status.DrawActive? && !db.draws[id].status.DrawPending? then Some(BadRequest)
    else if amount > db.draws[id].amountDue - db.draws[id].amountRepaid then Some(BadRequest)
    else None
  }

  function Credited(d: CreditDraw, amount: int, now: int): CreditDraw {
    if d.amountRepaid + amount >= d.amountDue
    then d.(amountRepaid := d.amountRepaid + amount, status := DrawRepaid, repaidAt := Some(now))
    else d.(amountRepaid := d.amountRepaid + amount)
  }

  /** The principal share of a repayment: amount * (principal / due), to the nearest micro-unit. */
  function Released(d: CreditDraw, amount: int): int
    requires d.amountDue > 0
  {
    RoundHalfEven(amount * d.amount, d.amountDue)
  }

  function Clamp(x: int): int { if x < 0 then 0 else x }

  function Repay(db: Db, agent: AgentId, id: nat, amount: int, now: int): Db
    requires DuePositive(db)
  {
    if RepayError(db, agent, id, amount).Some? then db
    else
      var d := db.draws[id];
      db.(draws := db.draws[id := Credited(d, amount, now)],
          lines := if agent !in db.lines then db.lines
                   else db.lines[agent := db.lines[agent].(
                     usedAmount := Clamp(db.lines[agent].usedAmount - Released(d, amount)))])
  }

  /** Every draw owes something; without it a repayment would divide by zero. */
  ghost predicate DuePositive(db: Db) {
    forall i :: 0 <= i < |db.draws| ==> db.draws[i].amountDue > 0
  }

  /** What every writer of the tables keeps. */
  ghost predicate Sound(db: Db) {
    && (forall a :: a in db.lines ==> db.lines[a].usedAmount >= 0 && db.lines[a].interestRateBps >= 0)
    && (forall i :: 0 <= i < |db.draws| ==> SoundDraw(db, db.draws[i]))
  }

  predicate SoundDraw(db: Db, d: CreditDraw) {
    && d.agent in db.lines
    && 0 < d.amount <= d.amountDue && 0 <= d.amountRepaid
    && !d.status.DrawPending?
    && (d.status.DrawRepaid? <==> d.amountRepaid >= d.amountDue)
  }

  // ----- get_outstanding_total -----

  function OutstandingOf(d: CreditDraw, agent: AgentId): int {
    if d.agent == agent && d.status.DrawActive? then d.amountDue - d.amountRepaid else 0
  }

  function Outstanding(draws: seq<CreditDraw>, agent: AgentId): seq<int> {
    seq(|draws|, i requires 0 <= i < |draws| => OutstandingOf(draws[i], agent))
  }

  // ----- The service -----

  class CreditService {
    const log10: real -> real

    constructor (log10: real -> real)
      ensures this.log10 == log10
    {
      this.log10 := log10;
    }

    /** inp is the revenue summary joined with the agent's reputation and verification. */
    method ScoreAgent(db: Database, agent: AgentId, inp: CreditScoreInput) returns (r: Result<Terms>)
      modifies db
      ensures var t := ComputeCreditScore(log10, inp);
              && 0 <= t.creditScore && 0 <= t.creditLine && 0 <= t.interestRateBps && 0 <= t.repaymentRateBps
              && db.State() == Score(old(db.State()), agent, t)
              && r == match ScoreError(old(db.State()), agent) case Some(e) => Err(e) case None => Ok(t)
      ensures r == Err(NotFound) <==> agent !in old(db.agents)
      ensures r.Ok? <==> agent in old(db.agents) && old(db.agents)[agent] in {Active, Delinquent}
      ensures r.Ok? ==> agent in db.lines && var line := db.lines[agent];
        && line.maxAmount == r.value.creditLine * 10_000 && line.creditScore == r.value.creditScore
        && line.interestRateBps == r.value.interestRateBps && line.repaymentRateBps == r.value.repaymentRateBps
        && line.usedAmount == if agent in old(db.lines) then old(db.lines)[agent].usedAmount else 0
    {
      TermsInRange(log10, inp);
      var result := ComputeCreditScore(log10, inp);
      if agent !in db.agents {
        return Err(NotFound);
      }
      var status := db.agents[agent];
      if status != Active && status != Delinquent {
        return Err(BadRequest);
      }
      var maxAmount := result.creditLine * MICROS_PER_CENT;
      if agent !in db.lines {
        var line := CreditLine(maxAmount, 0, result.interestRateBps, result.repaymentRateBps, result.creditScore);
        db.lines := db.lines[agent := line];
      } else {
        var line := db.lines[agent];
        line := line.(maxAmount := maxAmount);
        line := line.(interestRateBps := result.interestRateBps);
        line := line.(repaymentRateBps := result.repaymentRateBps);
        line := line.(creditScore := result.creditScore);
        db.lines := db.lines[agent := line];
      }
      return Ok(result);
    }

    method DrawCredit(db: Database, agent: AgentId, amount: int, tenorDays: int, now: int)
      returns (r: Result<nat>)
      modifies db
      ensures db.State() == Draw(old(db.State()), agent, amount, tenorDays, now)
      ensures r == match DrawError(old(db.State()), agent, amount, tenorDays)
                   case Some(e) => Err(e) case None => Ok(|old(db.draws)|)
      ensures r == Err(Unprocessable) <==> amount <= 0 || !(7 <= tenorDays <= 90)
      ensures r == Err(NotFound) <==> amount > 0 && 7 <= tenorDays <= 90 && agent !in old(db.lines)
      ensures r.Ok? <==> && amount > 0 && 7 <= tenorDays <= 90 && agent in old(db.lines)
                         && old(db.lines)[agent].usedAmount + amount <= old(db.lines)[agent].maxAmount
      ensures r.Ok? ==> db.draws == old(db.draws) + [db.draws[r.value]] && var d := db.draws[r.value];
        && d.agent == agent && d.amount == amount && d.amountRepaid == 0 && d.status == DrawActive
        && d.interestRateBps == old(db.lines)[agent].interestRateBps
        && d.amountDue == amount + Interest(amount, d.interestRateBps, tenorDays)
        && d.dueAt == now + tenorDays * 86_400_000_000 && d.txHash.None? && d.repaidAt.None?
        && db.lines[agent] == old(db.lines)[agent].(usedAmount := old(db.lines)[agent].usedAmount + amount)
    {
      if amount <= 0 || tenorDays < 7 || tenorDays > 90 {
        return Err(Unprocessable);
      }
      if agent !in db.lines {
        return Err(NotFound);
      }
      var line := db.lines[agent];
      var available := line.maxAmount - line.usedAmount;
      if amount > available {
        return Err(InsufficientCredit);
      }
      var interest := Interest(amount, line.interestRateBps, tenorDays);
      var amountDue := amount + interest;
      var dueAt := now + tenorDays * MICROS_PER_DAY;
      var draw := CreditDraw(agent, amount, line.interestRateBps, amountDue, 0, DrawActive, None, dueAt, None);
      r := Ok(|db.draws|);
      db.draws := db.draws + [draw];
      line := line.(usedAmount := line.usedAmount + amount);
      db.lines := db.lines[agent := line];
    }

    /** Returns what is still due on the draw and whether it is now fully repaid. */
    method RepayCredit(db: Database, agent: AgentId, id: nat, amount: int, now: int)
      returns (r: Result<(int, bool)>)
      requires DuePositive(db.State())
      modifies db
      ensures db.State() == Repay(old(db.State()), agent, id, amount, now)
      ensures r == match RepayError(old(db.State()), agent, id, amount)
                   case Some(e) => Err(e)
                   case None =>
                     var d := db.draws[id];
                     Ok((d.amountDue - d.amountRepaid, d.status == DrawRepaid))
      ensures r == Err(Unprocessable) <==> amount <= 0
      ensures r == Err(NotFound) <==> amount > 0 && (id >= |old(db.draws)| || old(db.draws)[id].agent != agent)
      ensures r.Ok? <==> && amount > 0 && id < |old(db.draws)| && old(db.draws)[id].agent == agent
                         && old(db.draws)[id].status in {DrawActive, DrawPending}
                         && old(db.draws)[id].amountRepaid + amount <= old(db.draws)[id].amountDue
      ensures r.Ok? ==> var d, was := db.draws[id], old(db.draws)[id];
        && d.amountRepaid == was.amountRepaid + amount
        && (r.value.1 <==> d.amountRepaid == d.amountDue)
        && d == was.(amountRepaid := d.amountRepaid,
                     status := if r.value.1 then DrawRepaid else was.status,
                     repaidAt := if r.value.1 then Some(now) else was.repaidAt)
    {
      if amount <= 0 {
        return Err(Unprocessable);
      }
      if id >= |db.draws| || db.draws[id].agent != agent {
        return Err(NotFound);
      }
      var draw := db.draws[id];
      if draw.status != DrawActive && draw.status != DrawPending {
        return Err(BadRequest);
      }
      var remaining := draw.amountDue - draw.amountRepaid;
      if amount > remaining {
        return Err(BadRequest);
      }
      assert db.State().draws[id].amountDue > 0;
      draw := draw.(amountRepaid := draw.amountRepaid + amount);
      var fullyRepaid := draw.amountRepaid >= draw.amountDue;
      if fullyRepaid {
        draw := draw.(status := DrawRepaid);
        draw := draw.(repaidAt := Some(now));
      }
      db.draws := db.draws[id := draw];
      if agent in db.lines {
        var line := db.lines[agent];
        var released := RoundHalfEven(amount * draw.amount, draw.amountDue);
        var used := line.usedAmount - released;
        line := line.(usedAmount := if used < 0 then 0 else used);
        db.lines := db.lines[agent := line];
      }
      return Ok((draw.amountDue - draw.amountRepaid, fullyRepaid));
    }

    /** The database sums the remaining balance of the agent's active draws. */
    method GetOutstandingTotal(db: Database, agent: AgentId) returns (total: int)
      ensures total == Sum(Outstanding(db.draws, agent))
    {
      total := 0;
      ghost var all := Outstanding(db.draws, agent);
      for i := 0 to |db.draws|
        invariant total == Sum(all[..i])
      {
        var draw := db.draws[i];
        if draw.agent == agent && draw.status == DrawActive {
          total := total + (draw.amountDue - draw.amountRepaid);
        }
        assert all[..i + 1] == all[..i] + [all[i]];
        SumAppend(all[..i], all[i]);
      }
      assert all[..|all|] == all;
    }
  }
}
