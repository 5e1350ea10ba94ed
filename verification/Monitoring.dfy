/** The monitoring worker's overdue sweep: two ordered passes over the active draws
    that default draws, move agents along their status machine and raise alerts. */
module Monitoring {
  import opened Tables

  const OVERDUE_DAYS_DELINQUENT := 7
  const OVERDUE_DAYS_DEFAULT := 30
  const PAYMENT_OVERDUE := "Payment overdue"
  const CREDIT_DEFAULT := "Credit default"

  predicate Overdue(d: CreditDraw, now: int) {
    && d.status.DrawActive?
    && d.dueAt < now - OVERDUE_DAYS_DELINQUENT * MICROS_PER_DAY
    && d.dueAt >= now - OVERDUE_DAYS_DEFAULT * MICROS_PER_DAY
  }

  predicate InDefault(d: CreditDraw, now: int) {
    && d.status.DrawActive?
    && d.dueAt < now - OVERDUE_DAYS_DEFAULT * MICROS_PER_DAY
  }

  function SweptDraw(d: CreditDraw, now: int): CreditDraw {
    if InDefault(d, now) then d.(status := DrawDefaulted) else d
  }

  function SweptDraws(draws: seq<CreditDraw>, now: int): seq<CreditDraw> {
    seq(|draws|, i requires 0 <= i < |draws| => SweptDraw(draws[i], now))
  }

  ghost predicate HasOverdue(draws: seq<CreditDraw>, a: AgentId, now: int) {
    exists i :: 0 <= i < |draws| && draws[i].agent == a && Overdue(draws[i], now)
  }

  ghost predicate HasDefault(draws: seq<CreditDraw>, a: AgentId, now: int) {
    exists i :: 0 <= i < |draws| && draws[i].agent == a && InDefault(draws[i], now)
  }

  /** Where the first pass leaves the agents. */
  ghost function FlaggedAgents(agents: map<AgentId, AgentStatus>, draws: seq<CreditDraw>, now: int)
    : map<AgentId, AgentStatus>
  {
    map a | a in agents ::
      if agents[a].Active? && HasOverdue(draws, a, now) then Delinquent else agents[a]
  }

  /** Where the second pass leaves them. */
  ghost function DefaultedAgents(agents: map<AgentId, AgentStatus>, draws: seq<CreditDraw>, now: int)
    : map<AgentId, AgentStatus>
  {
    map a | a in agents :: if HasDefault(draws, a, now) then Defaulted else agents[a]
  }

  /** Where a sweep leaves an agent, whatever order it meets the draws in. */
  ghost function SweptStatus(s: AgentStatus, draws: seq<CreditDraw>, a: AgentId, now: int): AgentStatus {
    if HasDefault(draws, a, now) then Defaulted
    else if s.Active? && HasOverdue(draws, a, now) then Delinquent
    else s
  }

  ghost function SweptAgents(agents: map<AgentId, AgentStatus>, draws: seq<CreditDraw>, now: int)
    : map<AgentId, AgentStatus>
  {
    map a | a in agents :: SweptStatus(agents[a], draws, a, now)
  }

  // ----- Alerts -----

  predicate IsOpen(al: Alert, a: AgentId, title: string) {
    al.agent == a && al.title == title && !al.resolved
  }

  predicate HasOpen(alerts: seq<Alert>, a: AgentId, title: string) {
    exists i :: 0 <= i < |alerts| && IsOpen(alerts[i], a, title)
  }

  function Raise(alerts: seq<Alert>, a: AgentId, title: string): seq<Alert> {
    if HasOpen(alerts, a, title) then alerts else alerts + [Alert(a, title, false)]
  }

  /** Alerts after the overdue pass over the draws. */
  function RaiseOverdue(alerts: seq<Alert>, draws: seq<CreditDraw>, now: int): seq<Alert> {
    if draws == [] then alerts
    else
      var n := |draws| - 1;
      var rest := RaiseOverdue(alerts, draws[..n], now);
      if Overdue(draws[n], now) then Raise(rest, draws[n].agent, PAYMENT_OVERDUE) else rest
  }

  /** Alerts after the default pass over the draws. */
  function RaiseDefaults(alerts: seq<Alert>, draws: seq<CreditDraw>, now: int): seq<Alert> {
    if draws == [] then alerts
    else
      var n := |draws| - 1;
      var rest := RaiseDefaults(alerts, draws[..n], now);
      if InDefault(draws[n], now) then Raise(rest, draws[n].agent, CREDIT_DEFAULT) else rest
  }

  /** One sweep. */
  ghost function Sweep(db: Db, now: int): Db {
    db.(agents := SweptAgents(db.agents, db.draws, now),
        draws := SweptDraws(db.draws, now),
        alerts := RaiseDefaults(RaiseOverdue(db.alerts, db.draws, now), db.draws, now))
  }

  function CountOverdue(draws: seq<CreditDraw>, now: int): nat {
    if draws == [] then 0
    else CountOverdue(draws[..|draws| - 1], now) + (if Overdue(draws[|draws| - 1], now) then 1 else 0)
  }

  function CountDefaults(draws: seq<CreditDraw>, now: int): nat {
    if draws == [] then 0
    else CountDefaults(draws[..|draws| - 1], now) + (if InDefault(draws[|draws| - 1], now) then 1 else 0)
  }

  // ----- The worker -----

  class MonitoringWorker {
    constructor () {}

    method CreateAlertIfNew(db: Database, a: AgentId, title: string)
      modifies db`alerts
      ensures db.alerts == Raise(old(db.alerts), a, title)
    {
      if HasOpen(db.alerts, a, title) {
        return;
      }
      db.alerts := db.alerts + [Alert(a, title, false)];
    }

    /** The first loop, over the draws the delinquency query selects. */
    method FlagDelinquent(db: Database, now: int) returns (count: nat)
      modifies db`agents, db`alerts
      ensures count == CountOverdue(db.draws, now)
      ensures db.alerts == RaiseOverdue(old(db.alerts), db.draws, now)
      ensures db.agents == FlaggedAgents(old(db.agents), db.draws, now)
    {
      var selected := db.draws;
      count := 0;
      for i := 0 to |selected|
        modifies db`agents, db`alerts
        invariant count == CountOverdue(selected[..i], now)
        invariant db.alerts == RaiseOverdue(old(db.alerts), selected[..i], now)
        invariant db.agents == FlaggedAgents(old(db.agents), selected[..i], now)
      {
        var draw := selected[i];
        OverdueStep(old(db.agents), old(db.alerts), selected, i, now);
        if Overdue(draw, now) {
          if draw.agent in db.agents && db.agents[draw.agent] == Active {
            db.agents := db.agents[draw.agent := Delinquent];
          }
          CreateAlertIfNew(db, draw.agent, PAYMENT_OVERDUE);
          count := count + 1;
        }
      }
      assert selected[..|selected|] == selected;
    }

    /** The second loop, over the draws the default query selects. */
    method FlagDefaults(db: Database, now: int) returns (count: nat)
      modifies db`agents, db`alerts, db`draws
      ensures count == CountDefaults(old(db.draws), now)
      ensures db.draws == SweptDraws(old(db.draws), now)
      ensures db.alerts == RaiseDefaults(old(db.alerts), old(db.draws), now)
      ensures db.agents == DefaultedAgents(old(db.agents), old(db.draws), now)
    {
      var selected := db.draws;
      count := 0;
      for i := 0 to |selected|
        modifies db`agents, db`alerts, db`draws
        invariant count == CountDefaults(selected[..i], now)
        invariant db.draws == SweptDraws(selected[..i], now) + selected[i..]
        invariant db.alerts == RaiseDefaults(old(db.alerts), selected[..i], now)
        invariant db.agents == DefaultedAgents(old(db.agents), selected[..i], now)
      {
        var draw := selected[i];
        DefaultStep(old(db.agents), old(db.alerts), selected, i, now);
        if InDefault(draw, now) {
          db.draws := db.draws[i := draw.(status := DrawDefaulted)];
          if draw.agent in db.agents {
            db.agents := db.agents[draw.agent := Defaulted];
          }
          CreateAlertIfNew(db, draw.agent, CREDIT_DEFAULT);
          count := count + 1;
        }
      }
      assert selected[..|selected|] == selected;
    }

    method CheckOverdueDraws(db: Database, now: int) returns (delinquent: nat, defaulted: nat)
      modifies db
      ensures db.State() == Sweep(old(db.State()), now)
      ensures delinquent == CountOverdue(old(db.draws), now) && defaulted == CountDefaults(old(db.draws), now)
    {
      delinquent := FlagDelinquent(db, now);
      defaulted := FlagDefaults(db, now);
      assert db.agents == SweptAgents(old(db.agents), old(db.draws), now);
    }
  }

  lemma HasSnoc(draws: seq<CreditDraw>, d: CreditDraw, a: AgentId, now: int)
    ensures HasOverdue(draws + [d], a, now) <==> HasOverdue(draws, a, now) || (d.agent == a && Overdue(d, now))
    ensures HasDefault(draws + [d], a, now) <==> HasDefault(draws, a, now) || (d.agent == a && InDefault(d, now))
  {
    var all := draws + [d];
    assert all[|draws|] == d && forall i :: 0 <= i < |draws| ==> all[i] == draws[i];
  }

  function OverdueIn(draws: seq<CreditDraw>, now: int): set<int> {
    set i | 0 <= i < |draws| && Overdue(draws[i], now)
  }

  function DefaultsIn(draws: seq<CreditDraw>, now: int): set<int> {
    set i | 0 <= i < |draws| && InDefault(draws[i], now)
  }

  lemma OverdueInSnoc(draws: seq<CreditDraw>, d: CreditDraw, now: int)
    ensures |OverdueIn(draws + [d], now)| == |OverdueIn(draws, now)| + (if Overdue(d, now) then 1 else 0)
  {
    var all := draws + [d];
    assert all[|draws|] == d && forall i :: 0 <= i < |draws| ==> all[i] == draws[i];
    assert OverdueIn(all, now) == OverdueIn(draws, now) + (if Overdue(d, now) then {|draws|} else {});
  }

  lemma DefaultsInSnoc(draws: seq<CreditDraw>, d: CreditDraw, now: int)
    ensures |DefaultsIn(draws + [d], now)| == |DefaultsIn(draws, now)| + (if InDefault(d, now) then 1 else 0)
  {
    var all := draws + [d];
    assert all[|draws|] == d && forall i :: 0 <= i < |draws| ==> all[i] == draws[i];
    assert DefaultsIn(all, now) == DefaultsIn(draws, now) + (if InDefault(d, now) then {|draws|} else {});
  }

  /** The two counts are the numbers of overdue draws and of draws in default. */
  lemma {:induction false} CountsAreExact(draws: seq<CreditDraw>, now: int)
    ensures CountOverdue(draws, now) == |OverdueIn(draws, now)|
    ensures CountDefaults(draws, now) == |DefaultsIn(draws, now)|
  {
    if draws != [] {
      var n := |draws| - 1;
      CountsAreExact(draws[..n], now);
      OverdueInSnoc(draws[..n], draws[n], now);
      DefaultsInSnoc(draws[..n], draws[n], now);
      assert draws == draws[..n] + [draws[n]];
    }
  }

  lemma FlaggedSnoc(agents: map<AgentId, AgentStatus>, draws: seq<CreditDraw>, d: CreditDraw, now: int)
    ensures var before := FlaggedAgents(agents, draws, now);
      FlaggedAgents(agents, draws + [d], now)
      == if Overdue(d, now) && d.agent in before && before[d.agent].Active?
         then before[d.agent := Delinquent] else before
  {
    forall a {
      HasSnoc(draws, d, a, now);
    }
  }

  lemma DefaultedSnoc(agents: map<AgentId, AgentStatus>, draws: seq<CreditDraw>, d: CreditDraw, now: int)
    ensures var before := DefaultedAgents(agents, draws, now);
      DefaultedAgents(agents, draws + [d], now)
      == if InDefault(d, now) && d.agent in before then before[d.agent := Defaulted] else before
  {
    forall a {
      HasSnoc(draws, d, a, now);
    }
  }

  lemma SweptSnoc(draws: seq<CreditDraw>, i: nat, now: int)
    requires i < |draws|
    ensures var before := SweptDraws(draws[..i], now) + draws[i..];
      SweptDraws(draws[..i + 1], now) + draws[i + 1..]
      == if InDefault(draws[i], now) then before[i := draws[i].(status := DrawDefaulted)] else before
  {
  }

  /** What the first loop does at draw i. */
  lemma OverdueStep(agents: map<AgentId, AgentStatus>, alerts: seq<Alert>, draws: seq<CreditDraw>, i: nat, now: int)
    requires i < |draws|
    ensures var d, flagged := draws[i], FlaggedAgents(agents, draws[..i], now);
      if Overdue(d, now) then
        && CountOverdue(draws[..i + 1], now) == CountOverdue(draws[..i], now) + 1
        && RaiseOverdue(alerts, draws[..i + 1], now)
           == Raise(RaiseOverdue(alerts, draws[..i], now), d.agent, PAYMENT_OVERDUE)
        && FlaggedAgents(agents, draws[..i + 1], now)
           == if d.agent in flagged && flagged[d.agent] == Active then flagged[d.agent := Delinquent] else flagged
      else
        && CountOverdue(draws[..i + 1], now) == CountOverdue(draws[..i], now)
        && RaiseOverdue(alerts, draws[..i + 1], now) == RaiseOverdue(alerts, draws[..i], now)
        && FlaggedAgents(agents, draws[..i + 1], now) == flagged
  {
    assert draws[..i + 1] == draws[..i] + [draws[i]] && draws[..i + 1][..i] == draws[..i];
    FlaggedSnoc(agents, draws[..i], draws[i], now);
  }

  /** What the second loop does at draw i. */
  lemma DefaultStep(agents: map<AgentId, AgentStatus>, alerts: seq<Alert>, draws: seq<CreditDraw>, i: nat, now: int)
    requires i < |draws|
    ensures var d, defaulted := draws[i], DefaultedAgents(agents, draws[..i], now);
      var swept := SweptDraws(draws[..i], now) + draws[i..];
      if InDefault(d, now) then
        && CountDefaults(draws[..i + 1], now) == CountDefaults(draws[..i], now) + 1
        && RaiseDefaults(alerts, draws[..i + 1], now)
           == Raise(RaiseDefaults(alerts, draws[..i], now), d.agent, CREDIT_DEFAULT)
        && DefaultedAgents(agents, draws[..i + 1], now)
           == (if d.agent in defaulted then defaulted[d.agent := Defaulted] else defaulted)
        && SweptDraws(draws[..i + 1], now) + draws[i + 1..] == swept[i := d.(status := DrawDefaulted)]
      else
        && CountDefaults(draws[..i + 1], now) == CountDefaults(draws[..i], now)
        && RaiseDefaults(alerts, draws[..i + 1], now) == RaiseDefaults(alerts, draws[..i], now)
        && DefaultedAgents(agents, draws[..i + 1], now) == defaulted
        && SweptDraws(draws[..i + 1], now) + draws[i + 1..] == swept
  {
    assert draws[..i + 1] == draws[..i] + [draws[i]] && draws[..i + 1][..i] == draws[..i];
    DefaultedSnoc(agents, draws[..i], draws[i], now);
    SweptSnoc(draws, i, now);
  }

  /** The moves of an agent's status: a draw in default takes any agent to Defaulted; an
      overdue draw takes an active one to Delinquent; nothing else moves. */
  lemma SweepMoves(db: Db, now: int, a: AgentId)
    requires a in db.agents
    ensures var was, after := db.agents[a], Sweep(db, now).agents;
      && a in after && (HasDefault(db.draws, a, now) ==> after[a] == Defaulted)
      && (!HasDefault(db.draws, a, now) ==>
            after[a] == if was == Active && HasOverdue(db.draws, a, now) then Delinquent else was)
  {
  }

  // ----- The law of repeated sweeps -----

  /** An earlier sweep neither hides an agent's default from a later one nor invents one. */
  lemma DefaultsSeenOnce(draws: seq<CreditDraw>, a: AgentId, t1: int, t2: int)
    requires t1 <= t2
    ensures HasDefault(draws, a, t2)
      <==> HasDefault(draws, a, t1) || HasDefault(SweptDraws(draws, t1), a, t2)
  {
    var swept := SweptDraws(draws, t1);
    if HasDefault(draws, a, t2) && !HasDefault(draws, a, t1) {
      var i :| 0 <= i < |draws| && draws[i].agent == a && InDefault(draws[i], t2);
      assert !InDefault(draws[i], t1);
      assert swept[i] == draws[i];
    }
    if HasDefault(swept, a, t2) {
      var i :| 0 <= i < |swept| && swept[i].agent == a && InDefault(swept[i], t2);
      assert swept[i] == draws[i];
    }
    if HasDefault(draws, a, t1) {
      var i :| 0 <= i < |draws| && draws[i].agent == a && InDefault(draws[i], t1);
      assert InDefault(draws[i], t2);
    }
  }

  /** Without a default at the later time, the agent was delinquent-worthy early
      only if it still is, and the earlier sweep left its overdue draws alone. */
  lemma OverduePersists(draws: seq<CreditDraw>, a: AgentId, t1: int, t2: int)
    requires t1 <= t2 && !HasDefault(draws, a, t2)
    ensures HasOverdue(draws, a, t1) ==> HasOverdue(draws, a, t2)
    ensures HasOverdue(SweptDraws(draws, t1), a, t2) <==> HasOverdue(draws, a, t2)
  {
    var swept := SweptDraws(draws, t1);
    forall i | 0 <= i < |draws| && draws[i].agent == a
      ensures swept[i] == draws[i] && (Overdue(draws[i], t1) ==> Overdue(draws[i], t2))
    {
      assert !InDefault(draws[i], t2);
    }
    if HasOverdue(draws, a, t1) {
      var i :| 0 <= i < |draws| && draws[i].agent == a && Overdue(draws[i], t1);
      assert Overdue(draws[i], t2);
    }
    if HasOverdue(draws, a, t2) {
      var i :| 0 <= i < |draws| && draws[i].agent == a && Overdue(draws[i], t2);
      assert swept[i].agent == a && Overdue(swept[i], t2);
    }
    if HasOverdue(swept, a, t2) {
      var i :| 0 <= i < |swept| && swept[i].agent == a && Overdue(swept[i], t2);
      assert draws[i].agent == a && Overdue(draws[i], t2);
    }
  }

  /** A later sweep absorbs any earlier one: the statuses of draws and agents are
      those of the later sweep alone, so missed or extra sweeps do not matter. */
  lemma SweepAbsorbsEarlier(db: Db, t1: int, t2: int)
    requires t1 <= t2
    ensures Sweep(Sweep(db, t1), t2).draws == Sweep(db, t2).draws
    ensures Sweep(Sweep(db, t1), t2).agents == Sweep(db, t2).agents
  {
    var swept := SweptDraws(db.draws, t1);
    forall a | a in db.agents
      ensures SweptStatus(SweptStatus(db.agents[a], db.draws, a, t1), swept, a, t2)
           == SweptStatus(db.agents[a], db.draws, a, t2)
    {
      DefaultsSeenOnce(db.draws, a, t1, t2);
      if !HasDefault(db.draws, a, t2) {
        OverduePersists(db.draws, a, t1, t2);
      }
    }
    assert SweptDraws(swept, t2) == SweptDraws(db.draws, t2);
  }

  // ----- Alerts under repeated sweeps -----

  /** No agent has two unresolved alerts with one title, which the worker's
      one-or-none query relies on. */
  ghost predicate OpenAlertsUnique(alerts: seq<Alert>) {
    forall i, j :: 0 <= i < j < |alerts| && !alerts[i].resolved ==>
      !IsOpen(alerts[j], alerts[i].agent, alerts[i].title)
  }

  lemma RaiseKeeps(alerts: seq<Alert>, a: AgentId, title: string)
    ensures HasOpen(Raise(alerts, a, title), a, title)
    ensures forall b, t :: HasOpen(alerts, b, t) ==> HasOpen(Raise(alerts, a, title), b, t)
    ensures OpenAlertsUnique(alerts) ==> OpenAlertsUnique(Raise(alerts, a, title))
  {
    var out := Raise(alerts, a, title);
    if !HasOpen(alerts, a, title) {
      assert IsOpen(out[|alerts|], a, title);
    }
    forall b, t | HasOpen(alerts, b, t)
      ensures HasOpen(out, b, t)
    {
      var i :| 0 <= i < |alerts| && IsOpen(alerts[i], b, t);
      assert IsOpen(out[i], b, t);
    }
  }

  lemma RaiseOpens(alerts: seq<Alert>, a: AgentId, title: string, b: AgentId, t: string)
    ensures var out := Raise(alerts, a, title);
      && alerts <= out
      && (HasOpen(out, b, t) <==> HasOpen(alerts, b, t) || (b == a && t == title))
  {
    var out := Raise(alerts, a, title);
    if !HasOpen(alerts, a, title) {
      assert IsOpen(out[|alerts|], a, title);
      assert forall i :: 0 <= i < |alerts| ==> out[i] == alerts[i];
    }
    if i :| 0 <= i < |alerts| && IsOpen(alerts[i], b, t) {
      assert IsOpen(out[i], b, t);
    }
  }

  lemma {:induction false} OverdueAlerts(alerts: seq<Alert>, draws: seq<CreditDraw>, now: int, a: AgentId, t: string)
    ensures var out := RaiseOverdue(alerts, draws, now);
      && alerts <= out
      && (HasOpen(out, a, t) <==> HasOpen(alerts, a, t) || (t == "Payment overdue" && HasOverdue(draws, a, now)))
  {
    if draws != [] {
      var n := |draws| - 1;
      OverdueAlerts(alerts, draws[..n], now, a, t);
      RaiseOpens(RaiseOverdue(alerts, draws[..n], now), draws[n].agent, PAYMENT_OVERDUE, a, t);
      assert draws == draws[..n] + [draws[n]];
      HasSnoc(draws[..n], draws[n], a, now);
    }
  }

  lemma {:induction false} DefaultAlerts(alerts: seq<Alert>, draws: seq<CreditDraw>, now: int, a: AgentId, t: string)
    ensures var out := RaiseDefaults(alerts, draws, now);
      && alerts <= out
      && (HasOpen(out, a, t) <==> HasOpen(alerts, a, t) || (t == "Credit default" && HasDefault(draws, a, now)))
  {
    if draws != [] {
      var n := |draws| - 1;
      DefaultAlerts(alerts, draws[..n], now, a, t);
      RaiseOpens(RaiseDefaults(alerts, draws[..n], now), draws[n].agent, CREDIT_DEFAULT, a, t);
      assert draws == draws[..n] + [draws[n]];
      HasSnoc(draws[..n], draws[n], a, now);
    }
  }

  /** A sweep keeps every alert and leaves an agent with an open alert of a title if and
      only if it had one or one of its draws calls for it. */
  lemma SweepAlerts(db: Db, now: int, a: AgentId, t: string)
    ensures var out := Sweep(db, now).alerts;
      && db.alerts <= out
      && (HasOpen(out, a, t) <==>
          || HasOpen(db.alerts, a, t)
          || (t == "Payment overdue" && HasOverdue(db.draws, a, now))
          || (t == "Credit default" && HasDefault(db.draws, a, now)))
  {
    OverdueAlerts(db.alerts, db.draws, now, a, t);
    DefaultAlerts(RaiseOverdue(db.alerts, db.draws, now), db.draws, now, a, t);
  }

  lemma {:induction false} RaiseOverdueOpens(alerts: seq<Alert>, draws: seq<CreditDraw>, now: int)
    ensures var out := RaiseOverdue(alerts, draws, now);
            && (forall i :: 0 <= i < |draws| && Overdue(draws[i], now) ==>
                  HasOpen(out, draws[i].agent, PAYMENT_OVERDUE))
            && (OpenAlertsUnique(alerts) ==> OpenAlertsUnique(out))
  {
    if draws != [] {
      var n := |draws| - 1;
      RaiseOverdueOpens(alerts, draws[..n], now);
      RaiseKeeps(RaiseOverdue(alerts, draws[..n], now), draws[n].agent, PAYMENT_OVERDUE);
    }
  }

  lemma {:induction false} RaiseDefaultsKeeps(alerts: seq<Alert>, draws: seq<CreditDraw>, now: int)
    ensures var out := RaiseDefaults(alerts, draws, now);
            && (forall b, t :: HasOpen(alerts, b, t) ==> HasOpen(out, b, t))
            && (OpenAlertsUnique(alerts) ==> OpenAlertsUnique(out))
  {
    if draws != [] {
      var n := |draws| - 1;
      RaiseDefaultsKeeps(alerts, draws[..n], now);
      RaiseKeeps(RaiseDefaults(alerts, draws[..n], now), draws[n].agent, CREDIT_DEFAULT);
    }
  }

  lemma {:induction false} NothingToRaise(alerts: seq<Alert>, draws: seq<CreditDraw>, now: int)
    requires forall i :: 0 <= i < |draws| ==> !InDefault(draws[i], now)
    requires forall i :: 0 <= i < |draws| && Overdue(draws[i], now) ==> HasOpen(alerts, draws[i].agent, PAYMENT_OVERDUE)
    ensures RaiseDefaults(RaiseOverdue(alerts, draws, now), draws, now) == alerts
    ensures RaiseOverdue(alerts, draws, now) == alerts
  {
    if draws != [] {
      NothingToRaise(alerts, draws[..|draws| - 1], now);
    }
  }

  /** Sweeping twice at one time is sweeping once, alerts included, and a sweep
      never leaves two open alerts with one title. */
  lemma SweepIdempotent(db: Db, now: int)
    ensures Sweep(Sweep(db, now), now) == Sweep(db, now)
    ensures OpenAlertsUnique(db.alerts) ==> OpenAlertsUnique(Sweep(db, now).alerts)
  {
    SweepAbsorbsEarlier(db, now, now);
    RaiseOverdueOpens(db.alerts, db.draws, now);
    RaiseDefaultsKeeps(RaiseOverdue(db.alerts, db.draws, now), db.draws, now);
    var once := Sweep(db, now);
    forall i | 0 <= i < |once.draws|
      ensures !InDefault(once.draws[i], now)
      ensures Overdue(once.draws[i], now) ==> HasOpen(once.alerts, once.draws[i].agent, PAYMENT_OVERDUE)
    {
      assert Overdue(once.draws[i], now) ==> once.draws[i] == db.draws[i];
    }
    NothingToRaise(once.alerts, once.draws, now);
  }
}
