/** The rows shared by the credit service and the workers. Money is in
    micro-units (Numeric(18,6)); times are microseconds. */
module Tables {
  import opened Wrappers

  const MICROS_PER_DAY := 86_400_000_000

  type AgentId = nat

  datatype AgentStatus = Pending | Active | Suspended | Delinquent | Defaulted

  datatype DrawStatus = DrawPending | DrawActive | DrawRepaid | DrawDefaulted

  datatype CreditLine = CreditLine(
    maxAmount: int,
    usedAmount: int,
    interestRateBps: int,
    repaymentRateBps: int,
    creditScore: int)

  datatype CreditDraw = CreditDraw(
    agent: AgentId,
    amount: int,
    interestRateBps: int,
    amountDue: int,
    amountRepaid: int,
    status: DrawStatus,
    txHash: Option<string>,
    dueAt: int,
    repaidAt: Option<int>)

  datatype DepositStatus = DepositActive | DepositWithdrawn

  datatype PoolDeposit = PoolDeposit(depositor: string, amount: int, shares: int, status: DepositStatus)

  datatype Alert = Alert(agent: AgentId, title: string, resolved: bool)

  /** One committed database state. A draw's id is its position in the table. */
  datatype Db = Db(
    agents: map<AgentId, AgentStatus>,
    lines: map<AgentId, CreditLine>,
    draws: seq<CreditDraw>,
    deposits: map<string, PoolDeposit>,
    alerts: seq<Alert>)

  /** The database the services write to, table by table. */
  class Database {
    var agents: map<AgentId, AgentStatus>
    var lines: map<AgentId, CreditLine>
    var draws: seq<CreditDraw>
    var deposits: map<string, PoolDeposit>
    var alerts: seq<Alert>

    function State(): Db
      reads this
    {
      Db(agents, lines, draws, deposits, alerts)
    }

    constructor ()
      ensures State() == Db(map[], map[], [], map[], [])
    {
      agents, lines, draws, deposits, alerts := map[], map[], [], map[], [];
    }
  }
}
