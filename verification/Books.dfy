/** Whole runs of the credit tables under every writer at once: the credit
    service, the scoring and monitoring workers and the chain sync worker. */
module Books {
  import opened Wrappers
  import opened Tables
  import opened Rounding
  import opened Sums
  import opened Credit
  import Monitoring
  import ChainSync

  /** One committed transaction. SetAgent is registration and every status change made elsewhere. */
  datatype Op =
    | SetAgent(agent: AgentId, status: AgentStatus)
    | ScoreAgent(agent: AgentId, terms: Terms)
    | DrawCredit(agent: AgentId, amount: int, tenorDays: int, now: int)
    | RepayCredit(agent: AgentId, id: nat, amount: int, now: int)
    | SweepOverdue(now: int)
    | ChainEvent(event: ChainSync.Event)

  const EMPTY := Db(map[], map[], [], map[], [])

  ghost function Step(db: Db, op: Op): Db
    requires Sound(db)
  {
    match op
    case SetAgent(a, s) => db.(agents := db.agents[a := s])
    case ScoreAgent(a, terms) => Score(db, a, terms)
    case DrawCredit(a, amount, tenorDays, now) => Draw(db, a, amount, tenorDays, now)
    case RepayCredit(a, id, amount, now) => Repay(db, a, id, amount, now)
    case SweepOverdue(now) => Monitoring.Sweep(db, now)
    case ChainEvent(e) => ChainSync.Apply(db, e)
  }

  predicate DrawAccepted(db: Db, op: Op) {
    op.DrawCredit? && DrawError(db, op.agent, op.amount, op.tenorDays).None?
  }

  predicate RepayAccepted(db: Db, op: Op) {
    op.RepayCredit? && RepayError(db, op.agent, op.id, op.amount).None?
  }

  /** An on-chain payment the handler books. */
  predicate ChainPaid(db: Db, op: Op) {
    op.ChainEvent? && ChainSync.Effective(db, op.event)
  }

  /** The step books an on-chain payment on a draw of a's. */
  predicate PaidOnChain(db: Db, op: Op, a: AgentId) {
    ChainPaid(db, op) && db.draws[op.event.draw.value].agent == a
  }

  /** The tables, with what has happened so far to agent a's credit:
      apiPaid - paid on each draw through the repayment endpoint;
      repayments - how many such repayments of a's draws were accepted;
      accepted - what has been paid on a's draws, through the endpoint or on chain;
      limit - the largest credit limit a has had. */
  datatype Book = Book(db: Db, apiPaid: seq<int>, repayments: nat, accepted: int, limit: int)

  ghost function Next(bk: Book, op: Op, a: AgentId): Book
    requires Sound(bk.db) && |bk.apiPaid| == |bk.db.draws|
  {
    var db := Step(bk.db, op);
    Book(
      db,
      if DrawAccepted(bk.db, op) then bk.apiPaid + [0]
      else if RepayAccepted(bk.db, op) then bk.apiPaid[op.id := bk.apiPaid[op.id] + op.amount]
      else bk.apiPaid,
      if RepayAccepted(bk.db, op) && op.agent == a then bk.repayments + 1 else bk.repayments,
      if RepayAccepted(bk.db, op) && op.agent == a then bk.accepted + op.amount
      else if PaidOnChain(bk.db, op, a) then bk.accepted + op.event.amount
      else bk.accepted,
      if a in db.lines && db.lines[a].maxAmount > bk.limit then db.lines[a].maxAmount else bk.limit)
  }

  // ----- What is measured -----

  function Used(db: Db, a: AgentId): int {
    if a in db.lines then db.lines[a].usedAmount else 0
  }

  /** The principal left of a draw once paid of its due is paid: amount * (due - paid) / due. */
  function Share(amount: int, due: int, paid: int): real
    requires due > 0
  {
    (amount * (due - paid)) as real / due as real
  }

  function ShareOf(d: CreditDraw, paid: int, a: AgentId): real {
    if d.agent == a && d.amountDue > 0 then Share(d.amount, d.amountDue, paid) else 0.0
  }

  /** Per draw, the principal its payments through the endpoint leave. */
  function NetShares(draws: seq<CreditDraw>, apiPaid: seq<int>, a: AgentId): seq<real>
    requires |draws| == |apiPaid|
  {
    seq(|draws|, i requires 0 <= i < |draws| => ShareOf(draws[i], apiPaid[i], a))
  }

  /** What payments cover of a draw: what is paid beyond its due covers nothing. */
  function Covered(d: CreditDraw): int {
    if d.amountRepaid > d.amountDue then d.amountDue else d.amountRepaid
  }

  /** Per draw, the principal still outstanding; an overpaid draw has none. */
  function OutstandingShares(draws: seq<CreditDraw>, a: AgentId): seq<real> {
    seq(|draws|, i requires 0 <= i < |draws| => ShareOf(draws[i], Covered(draws[i]), a))
  }

  /** Agent a's exact outstanding principal, of which used_amount is the cached copy. */
  function OutstandingPrincipal(db: Db, a: AgentId): real {
    SumR(OutstandingShares(db.draws, a))
  }

  datatype Measure = Due | RepaidSoFar | Overpaid | OnActive | OnDefaulted

  function Of(m: Measure, d: CreditDraw, a: AgentId): int {
    if d.agent != a then 0
    else match m
      case Due => d.amountDue
      case RepaidSoFar => d.amountRepaid
      case Overpaid => if d.status.DrawRepaid? then d.amountRepaid - d.amountDue else 0
      case OnActive => OutstandingOf(d, a)
      case OnDefaulted => if d.status.DrawDefaulted? then d.amountDue - d.amountRepaid else 0
  }

  function Column(m: Measure, draws: seq<CreditDraw>, a: AgentId): seq<int> {
    seq(|draws|, i requires 0 <= i < |draws| => Of(m, draws[i], a))
  }

  function Total(m: Measure, db: Db, a: AgentId): int {
    Sum(Column(m, db.draws, a))
  }

  // ----- The invariant of every run -----

  ghost predicate Kept(bk: Book, a: AgentId) {
    && Sound(bk.db)
    && History(bk, a)
  }

  ghost predicate History(bk: Book, a: AgentId) {
    && |bk.apiPaid| == |bk.db.draws|
    && (forall i :: 0 <= i < |bk.apiPaid| ==>
          0 <= bk.apiPaid[i] <= bk.db.draws[i].amountRepaid && bk.apiPaid[i] <= bk.db.draws[i].amountDue)
    && Tracks(bk, a)
    && bk.accepted == Total(RepaidSoFar, bk.db, a)
    && Used(bk.db, a) <= bk.limit
    && (a in bk.db.lines ==> bk.db.lines[a].maxAmount <= bk.limit)
  }

  /** used_amount is within half a micro-unit per repayment of the principal that
      the endpoint's payments leave. */
  ghost predicate Tracks(bk: Book, a: AgentId)
    requires |bk.apiPaid| == |bk.db.draws|
  {
    -(bk.repayments as real) / 2.0
      <= Used(bk.db, a) as real - SumR(NetShares(bk.db.draws, bk.apiPaid, a))
      <= bk.repayments as real / 2.0
  }

  /** Only what a measure reads of a draw matters to its total. */
  lemma SameColumn(m: Measure, draws: seq<CreditDraw>, after: seq<CreditDraw>, a: AgentId)
    requires |draws| == |after|
    requires forall i :: 0 <= i < |draws| ==> Of(m, draws[i], a) == Of(m, after[i], a)
    ensures Sum(Column(m, draws, a)) == Sum(Column(m, after, a))
  {
    assert Column(m, draws, a) == Column(m, after, a);
  }

  lemma SameShares(draws: seq<CreditDraw>, after: seq<CreditDraw>, apiPaid: seq<int>, a: AgentId)
    requires |draws| == |after| == |apiPaid|
    requires forall i :: 0 <= i < |draws| ==>
      draws[i].agent == after[i].agent && draws[i].amount == after[i].amount && draws[i].amountDue == after[i].amountDue
    ensures NetShares(draws, apiPaid, a) == NetShares(after, apiPaid, a)
  {
  }

  lemma InterestNonNegative(amount: int, rateBps: int, tenorDays: int)
    requires amount >= 0 && rateBps >= 0 && tenorDays >= 0
    ensures Interest(amount, rateBps, tenorDays) >= 0
  {
    assert amount * rateBps >= 0;
    assert amount * rateBps * tenorDays >= 0;
    RoundExact(0, 3_650_000);
    RoundMonotone(0, amount * rateBps * tenorDays, 3_650_000);
  }

  /** Every operation of every writer keeps the tables sound. */
  lemma StepSound(db: Db, op: Op)
    requires Sound(db)
    ensures Sound(Step(db, op))
  {
    if DrawAccepted(db, op) {
      InterestNonNegative(op.amount, db.lines[op.agent].interestRateBps, op.tenorDays);
    } else if op.ChainEvent? && !ChainPaid(db, op) {
      ChainSync.DrawsFrame(db, op.event);
    }
    DrawsSound(db, op);
  }

  lemma DrawsSound(db: Db, op: Op)
    requires Sound(db)
    requires DrawAccepted(db, op) ==>
      Interest(op.amount, db.lines[op.agent].interestRateBps, op.tenorDays) >= 0
    ensures forall i :: 0 <= i < |Step(db, op).draws| ==> SoundDraw(Step(db, op), Step(db, op).draws[i])
  {
    var after := Step(db, op);
    forall i | 0 <= i < |after.draws|
      ensures SoundDraw(after, after.draws[i])
    {
      if i < |db.draws| {
        assert SoundDraw(db, db.draws[i]);
      }
    }
  }

  lemma ScoreKeeps(bk: Book, op: Op, a: AgentId)
    requires Kept(bk, a) && (op.SetAgent? || op.ScoreAgent?)
    ensures History(Next(bk, op, a), a)
  {
  }

  lemma SharesSnoc(draws: seq<CreditDraw>, apiPaid: seq<int>, d: CreditDraw, a: AgentId)
    requires |draws| == |apiPaid| && d.amountDue > 0
    ensures SumR(NetShares(draws + [d], apiPaid + [0], a))
      == SumR(NetShares(draws, apiPaid, a)) + (if d.agent == a then d.amount as real else 0.0)
  {
    FullShare(d.amount, d.amountDue);
    SumRAppend(NetShares(draws, apiPaid, a), ShareOf(d, 0, a));
    assert NetShares(draws + [d], apiPaid + [0], a) == NetShares(draws, apiPaid, a) + [ShareOf(d, 0, a)];
  }

  lemma ColumnSnoc(m: Measure, draws: seq<CreditDraw>, d: CreditDraw, a: AgentId)
    ensures Sum(Column(m, draws + [d], a)) == Sum(Column(m, draws, a)) + Of(m, d, a)
  {
    SumAppend(Column(m, draws, a), Of(m, d, a));
    assert Column(m, draws + [d], a) == Column(m, draws, a) + [Of(m, d, a)];
  }

  lemma DrawKeeps(bk: Book, op: Op, a: AgentId)
    requires Kept(bk, a) && DrawAccepted(bk.db, op)
    ensures History(Next(bk, op, a), a)
  {
    InterestNonNegative(op.amount, bk.db.lines[op.agent].interestRateBps, op.tenorDays);
    var db := Step(bk.db, op);
    var d := db.draws[|bk.db.draws|];
    assert db.draws == bk.db.draws + [d];
    SharesSnoc(bk.db.draws, bk.apiPaid, d, a);
    ColumnSnoc(RepaidSoFar, bk.db.draws, d, a);
  }

  lemma FullShare(amount: int, due: int)
    requires due > 0
    ensures Share(amount, due, 0) == amount as real
  {
    assert (amount * due) as real == amount as real * due as real;
  }

  /** A repayment of x lowers the share by x * amount / due. */
  lemma ShareDrops(amount: int, due: int, paid: int, x: int)
    requires due > 0
    ensures Share(amount, due, paid + x) == Share(amount, due, paid) - (x * amount) as real / due as real
  {
    var before, drop := amount * (due - paid), x * amount;
    assert amount * (due - (paid + x)) == before - drop;
    assert (before - drop) as real / due as real == before as real / due as real - drop as real / due as real;
  }

  lemma ShareNonNegative(amount: int, due: int, paid: int)
    requires amount > 0 && due > 0 && paid <= due
    ensures Share(amount, due, paid) >= 0.0
  {
    assert amount * (due - paid) >= 0;
  }

  lemma ReleasedNearShare(d: CreditDraw, x: int)
    requires x > 0 && d.amount > 0 && d.amountDue > 0
    ensures 0 <= Released(d, x)
    ensures -0.5 <= Released(d, x) as real - (x * d.amount) as real / d.amountDue as real <= 0.5
  {
    assert x * d.amount >= 0;
    RoundExact(0, d.amountDue);
    RoundMonotone(0, x * d.amount, d.amountDue);
    RoundError(x * d.amount, d.amountDue);
  }

  lemma SharesNonNegative(bk: Book, a: AgentId)
    requires Sound(bk.db) && |bk.apiPaid| == |bk.db.draws|
    requires forall i :: 0 <= i < |bk.apiPaid| ==> bk.apiPaid[i] <= bk.db.draws[i].amountDue
    ensures SumR(NetShares(bk.db.draws, bk.apiPaid, a)) >= 0.0
  {
    var shares := NetShares(bk.db.draws, bk.apiPaid, a);
    forall i | 0 <= i < |shares|
      ensures shares[i] >= 0.0
    {
      var d := bk.db.draws[i];
      assert SoundDraw(bk.db, d);
      ShareNonNegative(d.amount, d.amountDue, bk.apiPaid[i]);
    }
    SumRNonNegative(shares);
  }

  /** Clamping at zero only moves the used amount towards the exact value, which is
      never negative; the rounding of the release adds at most one half. */
  lemma ClampedRelease(used: int, released: int, net: real, drop: real, k: nat)
    requires -(k as real) / 2.0 <= used as real - net <= k as real / 2.0
    requires -0.5 <= released as real - drop <= 0.5
    requires net - drop >= 0.0
    ensures -((k + 1) as real) / 2.0 <= Clamp(used - released) as real - (net - drop) <= (k + 1) as real / 2.0
  {
  }

  lemma RepayTracks(bk: Book, op: Op, a: AgentId)
    requires Kept(bk, a) && RepayAccepted(bk.db, op) && op.agent == a
    requires Sound(Step(bk.db, op))
    ensures Tracks(Next(bk, op, a), a)
    ensures 0 <= Used(Step(bk.db, op), a) <= Used(bk.db, a)
  {
    var after := Next(bk, op, a);
    var d, paid := bk.db.draws[op.id], bk.apiPaid[op.id];
    assert SoundDraw(bk.db, d);
    ReleasedNearShare(d, op.amount);
    ShareDrops(d.amount, d.amountDue, paid, op.amount);
    var shares := NetShares(bk.db.draws, bk.apiPaid, a);
    var share := ShareOf(d, paid + op.amount, a);
    assert NetShares(after.db.draws, after.apiPaid, a) == shares[op.id := share];
    SumRUpdate(shares, op.id, share);
    SharesNonNegative(after, a);
    ClampedRelease(Used(bk.db, a), Released(d, op.amount), SumR(shares),
                   (op.amount * d.amount) as real / d.amountDue as real, bk.repayments);
  }

  /** A repayment of another agent's draw leaves a's shares alone. */
  lemma OthersRepayTracks(bk: Book, op: Op, a: AgentId)
    requires Kept(bk, a) && RepayAccepted(bk.db, op) && op.agent != a
    ensures Tracks(Next(bk, op, a), a)
  {
    var after := Next(bk, op, a);
    assert NetShares(after.db.draws, after.apiPaid, a) == NetShares(bk.db.draws, bk.apiPaid, a);
  }

  lemma RepayKeeps(bk: Book, op: Op, a: AgentId)
    requires Kept(bk, a) && RepayAccepted(bk.db, op)
    requires Sound(Step(bk.db, op))
    ensures History(Next(bk, op, a), a)
  {
    PaymentColumn(bk.db.draws, op.id, Step(bk.db, op).draws[op.id], a);
    if op.agent == a {
      RepayTracks(bk, op, a);
    } else {
      OthersRepayTracks(bk, op, a);
    }
  }

  lemma PaymentColumn(draws: seq<CreditDraw>, id: nat, d: CreditDraw, a: AgentId)
    requires id < |draws| && d.agent == draws[id].agent
    ensures Sum(Column(RepaidSoFar, draws[id := d], a))
      == Sum(Column(RepaidSoFar, draws, a)) + (if d.agent == a then d.amountRepaid - draws[id].amountRepaid else 0)
  {
    SumUpdate(Column(RepaidSoFar, draws, a), id, Of(RepaidSoFar, d, a));
    assert Column(RepaidSoFar, draws[id := d], a)
        == Column(RepaidSoFar, draws, a)[id := Of(RepaidSoFar, d, a)];
  }

  /** Sweeps and chain events write to draws only what neither sum reads, payments aside. */
  lemma SweepKeeps(bk: Book, op: Op, a: AgentId)
    requires Kept(bk, a) && op.SweepOverdue?
    ensures History(Next(bk, op, a), a)
  {
    var db := Step(bk.db, op);
    SameShares(bk.db.draws, db.draws, bk.apiPaid, a);
    SameColumn(RepaidSoFar, bk.db.draws, db.draws, a);
  }

  lemma ChainPaymentKeeps(bk: Book, op: Op, a: AgentId)
    requires Kept(bk, a) && ChainPaid(bk.db, op)
    ensures History(Next(bk, op, a), a)
  {
    var db, id := Step(bk.db, op), op.event.draw.value;
    SameShares(bk.db.draws, db.draws, bk.apiPaid, a);
    PaymentColumn(bk.db.draws, id, db.draws[id], a);
  }

  lemma OtherEventKeeps(bk: Book, op: Op, a: AgentId)
    requires Kept(bk, a) && op.ChainEvent? && !ChainPaid(bk.db, op)
    ensures History(Next(bk, op, a), a)
  {
    var db := Step(bk.db, op);
    ChainSync.DrawsFrame(bk.db, op.event);
    SameShares(bk.db.draws, db.draws, bk.apiPaid, a);
    SameColumn(RepaidSoFar, bk.db.draws, db.draws, a);
  }

  /** Every operation of every writer keeps the books. */
  lemma NextKeeps(bk: Book, op: Op, a: AgentId)
    requires Kept(bk, a)
    ensures Kept(Next(bk, op, a), a)
  {
    StepSound(bk.db, op);
    match op
    case SetAgent(_, _) => ScoreKeeps(bk, op, a);
    case ScoreAgent(_, _) => ScoreKeeps(bk, op, a);
    case DrawCredit(_, _, _, _) => if DrawAccepted(bk.db, op) { DrawKeeps(bk, op, a); }
    case RepayCredit(_, _, _, _) => if RepayAccepted(bk.db, op) { RepayKeeps(bk, op, a); }
    case SweepOverdue(_) => SweepKeeps(bk, op, a);
    case ChainEvent(_) => if ChainPaid(bk.db, op) { ChainPaymentKeeps(bk, op, a); } else { OtherEventKeeps(bk, op, a); }
  }

  /** A run from empty tables, watched for agent a. */
  ghost function Run(ops: seq<Op>, a: AgentId): (bk: Book)
    ensures Kept(bk, a)
  {
    if ops == [] then
      Book(EMPTY, [], 0, 0, 0)
    else
      var before := Run(ops[..|ops| - 1], a);
      NextKeeps(before, ops[|ops| - 1], a);
      Next(before, ops[|ops| - 1], a)
  }

  lemma RunSnoc(ops: seq<Op>, op: Op, a: AgentId)
    ensures Run(ops + [op], a) == Next(Run(ops, a), op, a)
  {
    assert (ops + [op])[..|ops + [op]| - 1] == ops;
  }

  // ----- From a draw to its default -----

  const DAY := 86_400_000_000

  /** A draw for n days falls due after n days, is overdue once n + 7 days are past and is
      defaulted by the first sweep once n + 30 are, and its agent and alerts with it. */
  lemma DrawFallsDue(db: Db, a: AgentId, amount: int, tenorDays: int, now: int, t: int)
    requires DrawError(db, a, amount, tenorDays).None? && a in db.agents
    ensures var drawn := Draw(db, a, amount, tenorDays, now); var swept := Monitoring.Sweep(drawn, t);
      var i := |db.draws|; var late := t > now + (tenorDays + 30) * DAY;
      && |swept.draws| == i + 1 && drawn.draws[i].dueAt == now + tenorDays * DAY
      && (swept.draws[i].status == if late then DrawDefaulted else DrawActive)
      && (Monitoring.Overdue(drawn.draws[i], t) <==> t > now + (tenorDays + 7) * DAY && !late)
      && (late ==> swept.agents[a].Defaulted? && Monitoring.HasOpen(swept.alerts, a, "Credit default"))
      && (t > now + (tenorDays + 7) * DAY && !late ==>
            !swept.agents[a].Active? && Monitoring.HasOpen(swept.alerts, a, "Payment overdue"))
  {
    var drawn := Draw(db, a, amount, tenorDays, now);
    assert drawn.draws[|db.draws|].agent == a;
    Monitoring.SweepAlerts(drawn, t, a, "Credit default");
    Monitoring.SweepAlerts(drawn, t, a, "Payment overdue");
  }

  // ----- Drift of the used amount -----

  /** No draw of a's is ever paid on chain. */
  ghost predicate NoChainRepayments(ops: seq<Op>, a: AgentId) {
    ops == [] ||
    var n := |ops| - 1;
    NoChainRepayments(ops[..n], a) && !PaidOnChain(Run(ops[..n], a).db, ops[n], a)
  }

  ghost predicate AllThroughEndpoint(bk: Book, a: AgentId) {
    && |bk.apiPaid| == |bk.db.draws|
    && forall i :: 0 <= i < |bk.apiPaid| && bk.db.draws[i].agent == a ==> bk.apiPaid[i] == bk.db.draws[i].amountRepaid
  }

  lemma NextThroughEndpoint(bk: Book, op: Op, a: AgentId)
    requires Sound(bk.db) && AllThroughEndpoint(bk, a) && !PaidOnChain(bk.db, op, a)
    ensures AllThroughEndpoint(Next(bk, op, a), a)
  {
  }

  lemma {:induction false} OnlyEndpointPays(ops: seq<Op>, a: AgentId)
    requires NoChainRepayments(ops, a)
    ensures AllThroughEndpoint(Run(ops, a), a)
  {
    if ops != [] {
      var n := |ops| - 1;
      OnlyEndpointPays(ops[..n], a);
      NextThroughEndpoint(Run(ops[..n], a), ops[n], a);
    }
  }

  /** The principal of a draw that was paid on chain: amount * (covered - apiPaid) / due. */
  function ChainShareOf(d: CreditDraw, apiPaid: int, a: AgentId): real {
    if d.agent == a && d.amountDue > 0
    then (d.amount * (Covered(d) - apiPaid)) as real / d.amountDue as real
    else 0.0
  }

  function ChainShares(draws: seq<CreditDraw>, apiPaid: seq<int>, a: AgentId): seq<real>
    requires |draws| == |apiPaid|
  {
    seq(|draws|, i requires 0 <= i < |draws| => ChainShareOf(draws[i], apiPaid[i], a))
  }

  /** The principal agent a has paid on chain. */
  function PrincipalOnChain(bk: Book, a: AgentId): real
    requires |bk.apiPaid| == |bk.db.draws|
  {
    SumR(ChainShares(bk.db.draws, bk.apiPaid, a))
  }

  lemma SharesSplit(d: CreditDraw, paid: int, a: AgentId)
    requires d.amount > 0 && d.amountDue > 0 && paid <= Covered(d)
    ensures ShareOf(d, paid, a) == ShareOf(d, Covered(d), a) + ChainShareOf(d, paid, a)
    ensures ChainShareOf(d, paid, a) >= 0.0
  {
    var left, chain, due := d.amount * (d.amountDue - Covered(d)), d.amount * (Covered(d) - paid), d.amountDue as real;
    assert d.amount * (d.amountDue - paid) == left + chain;
    assert chain >= 0;
    assert (left + chain) as real / due == left as real / due + chain as real / due;
  }

  /** In every run, whoever writes: the used amount is within half a micro-unit per
      repayment of the outstanding principal plus the principal paid on chain, which
      the chain handler does not release. */
  lemma DriftLaw(ops: seq<Op>, a: AgentId)
    ensures var bk := Run(ops, a); var exact := OutstandingPrincipal(bk.db, a) + PrincipalOnChain(bk, a);
      && -(bk.repayments as real) / 2.0 <= Used(bk.db, a) as real - exact <= bk.repayments as real / 2.0
      && 0.0 <= PrincipalOnChain(bk, a)
      && (NoChainRepayments(ops, a) ==> PrincipalOnChain(bk, a) == 0.0)
  {
    var bk := Run(ops, a);
    var net, out := NetShares(bk.db.draws, bk.apiPaid, a), OutstandingShares(bk.db.draws, a);
    var chain := ChainShares(bk.db.draws, bk.apiPaid, a);
    forall i | 0 <= i < |net|
      ensures net[i] == out[i] + chain[i] && chain[i] >= 0.0
    {
      assert SoundDraw(bk.db, bk.db.draws[i]);
      SharesSplit(bk.db.draws[i], bk.apiPaid[i], a);
    }
    SumRPlus(net, out, chain);
    SumRNonNegative(chain);
    if NoChainRepayments(ops, a) {
      OnlyEndpointPays(ops, a);
      NothingOnChain(bk, a);
    }
  }

  lemma NothingOnChain(bk: Book, a: AgentId)
    requires Kept(bk, a) && AllThroughEndpoint(bk, a)
    ensures PrincipalOnChain(bk, a) == 0.0
  {
    var chain := ChainShares(bk.db.draws, bk.apiPaid, a);
    forall i | 0 <= i < |chain|
      ensures chain[i] == 0.0
    {
      assert bk.apiPaid[i] <= bk.db.draws[i].amountDue;
    }
    assert chain == seq(|chain|, _ => 0.0);
    SumROfZeros(|chain|);
  }

  /** So with every writer interleaved the used amount never falls below the exact
      outstanding principal by more than half a micro-unit per repayment, and
      available credit is never overstated by more than that. */
  lemma CreditNeverOverstated(ops: seq<Op>, a: AgentId)
    ensures var bk := Run(ops, a);
      Used(bk.db, a) as real >= OutstandingPrincipal(bk.db, a) - bk.repayments as real / 2.0
  {
    DriftLaw(ops, a);
  }

  /** And without on-chain payments of the agent's draws the used amount drifts from the
      exact outstanding principal by at most half a micro-unit per repayment. */
  lemma DriftBound(ops: seq<Op>, a: AgentId)
    requires NoChainRepayments(ops, a)
    ensures var bk := Run(ops, a);
      -(bk.repayments as real) / 2.0
        <= Used(bk.db, a) as real - OutstandingPrincipal(bk.db, a)
        <= bk.repayments as real / 2.0
  {
    DriftLaw(ops, a);
  }

  /** Once every draw of the agent is repaid, what still counts as used is the principal
      paid on chain, rounding aside; so rounding alone when none was. */
  lemma DriftOnceRepaid(ops: seq<Op>, a: AgentId)
    requires var db := Run(ops, a).db;
      forall i :: 0 <= i < |db.draws| && db.draws[i].agent == a ==> db.draws[i].status.DrawRepaid?
    ensures var bk := Run(ops, a);
      && -(bk.repayments as real) / 2.0
           <= Used(bk.db, a) as real - PrincipalOnChain(bk, a)
           <= bk.repayments as real / 2.0
      && (NoChainRepayments(ops, a) ==> 0 <= 2 * Used(bk.db, a) <= bk.repayments)
  {
    DriftLaw(ops, a);
    var bk := Run(ops, a);
    var out := OutstandingShares(bk.db.draws, a);
    forall i | 0 <= i < |out|
      ensures out[i] == 0.0
    {
      var d := bk.db.draws[i];
      assert SoundDraw(bk.db, d);
      NoShare(d.amount, d.amountDue);
    }
    assert out == seq(|out|, _ => 0.0);
    SumROfZeros(|out|);
  }

  lemma NoShare(amount: int, due: int)
    requires due > 0
    ensures Share(amount, due, due) == 0.0
  {
  }

  // ----- The bound is attained -----

  /** Score a line of 50 dollars and m cents, draw 1825 m for 10 days at 18% (1834 m due). */
  function Opening(m: nat): seq<Op> {
    [SetAgent(0, Active),
     ScoreAgent(0, Scoring.CreditScoreResult(200, 5000 + m, 1800, 6000)),
     DrawCredit(0, 1825 * m, 10, 0)]
  }

  /** Then repay 917 k times. */
  function TightRun(m: nat, k: nat): seq<Op> {
    Opening(m) + seq(k, _ => RepayCredit(0, 0, 917, 0))
  }

  /** After k repayments each released 912 of the 912.5 it should have. */
  ghost predicate TightState(bk: Book, m: nat, k: nat) {
    && |bk.db.draws| == |bk.apiPaid| == 1 && bk.repayments == k
    && 0 in bk.db.lines && bk.db.lines[0].usedAmount == 1825 * m - 912 * k
    && var d := bk.db.draws[0];
       && d.agent == 0 && d.amount == 1825 * m && d.amountDue == 1834 * m && d.amountRepaid == 917 * k
       && d.status == if k == 2 * m then DrawRepaid else DrawActive
  }

  lemma TightRelease(m: nat)
    requires m > 0
    ensures RoundHalfEven(917 * (1825 * m), 1834 * m) == 912
  {
    RoundIsNearestEven(917 * (1825 * m), 1834 * m);
    assert 2 * (912 * (1834 * m) - 917 * (1825 * m)) == -(1834 * m);
    NearestEvenUnique(RoundHalfEven(917 * (1825 * m), 1834 * m), 912, 917 * (1825 * m), 1834 * m);
  }

  lemma TightInterest(m: nat)
    ensures Interest(1825 * m, 1800, 10) == 9 * m
  {
    assert 1825 * m * 1800 * 10 == (9 * m) * 3_650_000;
    RoundExact(9 * m, 3_650_000);
  }

  function Scored(m: nat): Book {
    var limit := 10_000 * (5000 + m);
    Book(Db(map[0 := Active], map[0 := CreditLine(limit, 0, 1800, 6000, 200)], [], map[], []), [], 0, 0, limit)
  }

  lemma TightScored(m: nat)
    ensures Run(Opening(m)[..2], 0) == Scored(m)
  {
    var ops := Opening(m);
    RunSnoc([], ops[0], 0);
    RunSnoc([ops[0]], ops[1], 0);
    assert [] + [ops[0]] == [ops[0]] && [ops[0]] + [ops[1]] == ops[..2];
  }

  lemma TightDrawn(m: nat)
    requires m > 0 && Sound(Scored(m).db)
    ensures TightState(Next(Scored(m), DrawCredit(0, 1825 * m, 10, 0), 0), m, 0)
  {
    TightInterest(m);
  }

  lemma TightStart(m: nat)
    requires m > 0
    ensures TightState(Run(Opening(m), 0), m, 0)
  {
    var ops := Opening(m);
    TightScored(m);
    TightDrawn(m);
    RunSnoc(ops[..2], ops[2], 0);
    assert ops == ops[..2] + [ops[2]];
  }

  lemma TightStep(bk: Book, m: nat, k: nat)
    requires Sound(bk.db) && TightState(bk, m, k) && 0 < m && k < 2 * m
    ensures TightState(Next(bk, RepayCredit(0, 0, 917, 0), 0), m, k + 1)
  {
    TightRelease(m);
  }

  lemma {:induction false} TightRepays(m: nat, k: nat)
    requires m > 0 && k <= 2 * m
    ensures TightState(Run(TightRun(m, k), 0), m, k)
  {
    if k == 0 {
      TightStart(m);
      assert TightRun(m, 0) == Opening(m);
    } else {
      TightRepays(m, k - 1);
      assert TightRun(m, k) == TightRun(m, k - 1) + [RepayCredit(0, 0, 917, 0)];
      TightStep(Run(TightRun(m, k - 1), 0), m, k - 1);
      RunSnoc(TightRun(m, k - 1), RepayCredit(0, 0, 917, 0), 0);
    }
  }

  /** 2 m repayments, every draw repaid, nothing outstanding, and m still used. */
  ghost predicate LeavesUsed(bk: Book, m: nat) {
    && bk.repayments == 2 * m && Used(bk.db, 0) == m && OutstandingPrincipal(bk.db, 0) == 0.0
    && forall i :: 0 <= i < |bk.db.draws| ==> bk.db.draws[i].status.DrawRepaid?
  }

  lemma SingleDrawSettled(db: Db)
    requires |db.draws| == 1 && db.draws[0].amountRepaid >= db.draws[0].amountDue
    ensures OutstandingPrincipal(db, 0) == 0.0
  {
    var d := db.draws[0];
    if d.amountDue > 0 {
      NoShare(d.amount, d.amountDue);
    }
    assert OutstandingShares(db.draws, 0) == [0.0];
    assert SumR([0.0]) == 0.0;
  }

  lemma {:induction false} NoEventsNoPayments(ops: seq<Op>, a: AgentId)
    requires forall i :: 0 <= i < |ops| ==> !ops[i].ChainEvent?
    ensures NoChainRepayments(ops, a)
  {
    if ops != [] {
      NoEventsNoPayments(ops[..|ops| - 1], a);
    }
  }

  lemma TightLeavesUsed(bk: Book, m: nat)
    requires m > 0 && TightState(bk, m, 2 * m)
    ensures LeavesUsed(bk, m)
  {
    SingleDrawSettled(bk.db);
  }

  lemma TightHasNoEvents(m: nat, k: nat)
    ensures NoChainRepayments(TightRun(m, k), 0)
  {
    NoEventsNoPayments(TightRun(m, k), 0);
  }

  /** No smaller bound holds: for every m some run of 2 m repayments leaves every
      draw repaid, no principal outstanding, and m micro-units still counted as used. */
  lemma DriftBoundAttained(m: nat)
    requires m > 0
    ensures exists ops :: NoChainRepayments(ops, 0) && LeavesUsed(Run(ops, 0), m)
  {
    TightRepays(m, 2 * m);
    TightLeavesUsed(Run(TightRun(m, 2 * m), 0), m);
    TightHasNoEvents(m, 2 * m);
  }

  /** On-chain repayments release nothing: a draw settled entirely on chain leaves its
      whole principal counted as used, and nothing outstanding. */
  lemma ChainRepaymentsReleaseNothing(m: nat)
    requires m > 0
    ensures var bk := Run(Opening(m) + [SettleOnChain(m)], 0);
      bk.repayments == 0 && OutstandingPrincipal(bk.db, 0) == 0.0 && Used(bk.db, 0) == 1825 * m
  {
    TightStart(m);
    RunSnoc(Opening(m), SettleOnChain(m), 0);
    SettledOnChain(Run(Opening(m), 0), m);
  }

  function SettleOnChain(m: nat): Op {
    ChainEvent(ChainSync.Repayment("0x", Some(0), 1834 * m))
  }

  lemma SettledOnChain(bk: Book, m: nat)
    requires m > 0 && Sound(bk.db) && TightState(bk, m, 0)
    ensures var after := Next(bk, SettleOnChain(m), 0);
      after.repayments == 0 && OutstandingPrincipal(after.db, 0) == 0.0 && Used(after.db, 0) == 1825 * m
  {
    SingleDrawSettled(Next(bk, SettleOnChain(m), 0).db);
  }

  // ----- Conservation of debt -----

  lemma DrawBalances(db: Db, d: CreditDraw, a: AgentId)
    requires SoundDraw(db, d)
    ensures Of(Due, d, a) + Of(Overpaid, d, a)
      == Of(RepaidSoFar, d, a) + Of(OnActive, d, a) + Of(OnDefaulted, d, a)
    ensures Of(Overpaid, d, a) >= 0
  {
  }

  lemma DrawsBalance(db: Db, a: AgentId)
    requires Sound(db)
    ensures Total(Due, db, a) + Total(Overpaid, db, a)
      == Total(RepaidSoFar, db, a) + Total(OnActive, db, a) + Total(OnDefaulted, db, a)
  {
    forall i | 0 <= i < |db.draws| {
      DrawBalances(db, db.draws[i], a);
    }
    SumsBalance(Column(Due, db.draws, a), Column(Overpaid, db.draws, a), Column(RepaidSoFar, db.draws, a),
                Column(OnActive, db.draws, a), Column(OnDefaulted, db.draws, a));
  }

  /** Every micro-unit of debt is accounted for, whoever writes: what was ever due,
      plus what was paid beyond it, is what was paid plus what active and defaulted
      draws still owe. Without on-chain repayments nothing is overpaid. */
  lemma DebtConserved(ops: seq<Op>, a: AgentId)
    ensures var bk := Run(ops, a);
      && Total(Due, bk.db, a) + Total(Overpaid, bk.db, a)
         == bk.accepted + Sum(Outstanding(bk.db.draws, a)) + Total(OnDefaulted, bk.db, a)
      && 0 <= Total(Overpaid, bk.db, a)
      && (NoChainRepayments(ops, a) ==> Total(Overpaid, bk.db, a) == 0)
  {
    var bk := Run(ops, a);
    DrawsBalance(bk.db, a);
    assert Outstanding(bk.db.draws, a) == Column(OnActive, bk.db.draws, a);
    OverpaidSign(bk, a);
    if NoChainRepayments(ops, a) {
      OnlyEndpointPays(ops, a);
      NothingOverpaid(bk, a);
    }
  }

  lemma OverpaidSign(bk: Book, a: AgentId)
    requires Kept(bk, a)
    ensures 0 <= Total(Overpaid, bk.db, a)
  {
    var over := Column(Overpaid, bk.db.draws, a);
    forall i | 0 <= i < |over|
      ensures 0 <= over[i]
    {
      DrawBalances(bk.db, bk.db.draws[i], a);
    }
    SumOfZeros(|over|);
    SumMonotone(seq(|over|, _ => 0), over);
  }

  lemma NothingOverpaid(bk: Book, a: AgentId)
    requires Kept(bk, a) && AllThroughEndpoint(bk, a)
    ensures Total(Overpaid, bk.db, a) == 0
  {
    var over := Column(Overpaid, bk.db.draws, a);
    forall i | 0 <= i < |over|
      ensures over[i] == 0
    {
      assert SoundDraw(bk.db, bk.db.draws[i]);
      assert bk.apiPaid[i] <= bk.db.draws[i].amountDue;
    }
    assert over == seq(|over|, _ => 0);
    SumOfZeros(|over|);
  }

  /** In every run a draw is marked repaid exactly when its payments cover what is due. */
  lemma RepaidIffCovered(ops: seq<Op>, a: AgentId, i: nat)
    requires i < |Run(ops, a).db.draws|
    ensures var d := Run(ops, a).db.draws[i]; d.status.DrawRepaid? <==> d.amountRepaid >= d.amountDue
  {
    var db := Run(ops, a).db;
    assert SoundDraw(db, db.draws[i]);
  }

  // ----- The credit limit -----

  /** In every run the used amount stays within the largest limit ever in force. */
  lemma UsedWithinLargestLimit(ops: seq<Op>, a: AgentId)
    ensures var bk := Run(ops, a); 0 <= Used(bk.db, a) <= bk.limit
  {
    var bk := Run(ops, a);
    assert Kept(bk, a);
  }

  function LineLimit(db: Db, a: AgentId): int {
    if a in db.lines then db.lines[a].maxAmount else 0
  }

  /** The limit in force after n operations; 0 without a line. */
  ghost function LimitAt(ops: seq<Op>, a: AgentId, n: nat): int
    requires n <= |ops|
  {
    LineLimit(Run(ops[..n], a).db, a)
  }

  lemma LimitAtPrefix(ops: seq<Op>, a: AgentId, k: nat, n: nat)
    requires n <= k <= |ops|
    ensures LimitAt(ops[..k], a, n) == LimitAt(ops, a, n)
  {
    assert ops[..k][..n] == ops[..n];
  }

  lemma LastLimit(ops: seq<Op>, a: AgentId)
    requires ops != []
    ensures var before, after, last := Run(ops[..|ops| - 1], a).limit, Run(ops, a).limit, LimitAt(ops, a, |ops|);
      before <= after && last <= after && (after == before || after == last)
  {
    assert ops[..|ops|] == ops;
    assert Kept(Run(ops, a), a) && Kept(Run(ops[..|ops| - 1], a), a);
  }

  lemma NoLimitYet(a: AgentId)
    ensures Run([], a).limit == 0 && LimitAt([], a, 0) == 0
  {
  }

  lemma {:induction false} NoLimitLarger(ops: seq<Op>, a: AgentId, n: nat)
    requires n <= |ops|
    ensures LimitAt(ops, a, n) <= Run(ops, a).limit
  {
    if ops == [] {
      NoLimitYet(a);
    } else {
      LastLimit(ops, a);
      if n < |ops| {
        NoLimitLarger(ops[..|ops| - 1], a, n);
        LimitAtPrefix(ops, a, |ops| - 1, n);
      }
    }
  }

  /** bk.limit is the largest limit there was: it is 0 or was in force at some point of
      the run, and no limit in force was larger. */
  lemma {:induction false} LimitWasInForce(ops: seq<Op>, a: AgentId, n: nat) returns (m: nat)
    requires n <= |ops|
    ensures LimitAt(ops, a, n) <= Run(ops, a).limit
    ensures m <= |ops| && (Run(ops, a).limit == 0 || Run(ops, a).limit == LimitAt(ops, a, m))
    decreases |ops|
  {
    NoLimitLarger(ops, a, n);
    m := |ops|;
    if ops == [] {
      NoLimitYet(a);
    } else {
      LastLimit(ops, a);
      if Run(ops, a).limit != LimitAt(ops, a, m) {
        m := LimitWasInForce(ops[..|ops| - 1], a, 0);
        LimitAtPrefix(ops, a, |ops| - 1, m);
      }
    }
  }

  /** Only an accepted draw raises the used amount, and never past the limit in
      force: an agent re-scored below what it uses can only come down. */
  lemma OverLimitNeverRises(db: Db, op: Op, a: AgentId)
    requires Sound(db)
    ensures Used(Step(db, op), a) > Used(db, a) ==>
      && DrawAccepted(db, op) && op.agent == a
      && a in Step(db, op).lines && Used(Step(db, op), a) <= Step(db, op).lines[a].maxAmount
  {
    if RepayAccepted(db, op) {
      var d := db.draws[op.id];
      assert SoundDraw(db, d);
      ReleasedNearShare(d, op.amount);
    }
  }
}
