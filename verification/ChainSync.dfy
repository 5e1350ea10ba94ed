/** The chain sync worker: it reads the pool's events in block order from a
    persisted cursor and applies them to the tables. A crash between the commit
    and the cursor write makes it apply the same events again. */
module ChainSync {
  import opened Wrappers
  import opened Tables

  /** depositTx is "" when the event carries none. */
  datatype Event =
    | Deposit(tx: string, depositor: string, amount: int, shares: int)
    | Withdrawal(tx: string, depositTx: string)
    | Borrow(tx: string, draw: Option<nat>)
    | Repayment(tx: string, draw: Option<nat>, amount: int)
    | Unknown(kind: string)

  // ----- Event handlers -----

  function Paid(d: CreditDraw, amount: int): CreditDraw {
    if d.amountRepaid + amount >= d.amountDue
    then d.(amountRepaid := d.amountRepaid + amount, status := DrawRepaid)
    else d.(amountRepaid := d.amountRepaid + amount)
  }

  /** The event names an existing draw. */
  predicate Names(db: Db, draw: Option<nat>) {
    draw.Some? && draw.value < |db.draws|
  }

  function Apply(db: Db, e: Event): Db {
    match e
    case Deposit(tx, depositor, amount, shares) =>
      if tx in db.deposits then db
      else db.(deposits := db.deposits[tx := PoolDeposit(depositor, amount, shares, DepositActive)])
    case Withdrawal(_, h) =>
      if h == "" || h !in db.deposits then db
      else db.(deposits := db.deposits[h := db.deposits[h].(status := DepositWithdrawn)])
    case Borrow(tx, draw) =>
      if !Names(db, draw) then db
      else db.(draws := db.draws[draw.value := db.draws[draw.value].(txHash := Some(tx))])
    case Repayment(_, draw, amount) =>
      if !Names(db, draw) || amount <= 0 then db
      else db.(draws := db.draws[draw.value := Paid(db.draws[draw.value], amount)])
    case Unknown(_) => db
  }

  function ApplyAll(db: Db, es: seq<Event>): Db {
    if es == [] then db else Apply(ApplyAll(db, es[..|es| - 1]), es[|es| - 1])
  }

  // ----- The chain, and runs of the worker -----

  /** The events of each block; a block past the end has none. */
  type Chain = seq<seq<Event>>

  function Block(chain: Chain, b: nat): seq<Event> {
    if b < |chain| then chain[b] else []
  }

  /** The events of blocks lo..hi, in order: what the log query returns. */
  function Between(chain: Chain, lo: nat, hi: int): seq<Event>
    decreases hi
  {
    if hi < lo then [] else Between(chain, lo, hi - 1) + Block(chain, hi)
  }

  /** Where an execution dies, if it does. An exception while processing is BeforeCommit. */
  datatype Crash = NoCrash | BeforeCommit | BeforeCursor

  /** committed is the highest block whose events have been committed. */
  datatype Sync = Sync(db: Db, cursor: nat, committed: nat)

  function Execute(chain: Chain, s: Sync, latest: nat, crash: Crash): Sync {
    if latest <= s.cursor || crash.BeforeCommit? then s
    else Sync(ApplyAll(s.db, Between(chain, s.cursor + 1, latest)),
              if crash.BeforeCursor? then s.cursor else latest,
              if latest > s.committed then latest else s.committed)
  }

  /** The latest block each execution saw, and how it ended. */
  type Schedule = seq<(nat, Crash)>

  function Run(chain: Chain, db: Db, steps: Schedule): Sync {
    if steps == [] then Sync(db, 0, 0)
    else
      var n := |steps| - 1;
      Execute(chain, Run(chain, db, steps[..n]), steps[n].0, steps[n].1)
  }

  /** The chain head never goes backwards. */
  ghost predicate HeadMonotone(steps: Schedule) {
    forall i, j :: 0 <= i < j < |steps| ==> steps[i].0 <= steps[j].0
  }

  // ----- The worker -----

  class ChainSyncWorker {
    /** The cursor as stored in Redis; a missing key reads as 0. */
    var cursor: nat
    /** The highest committed block, which the worker itself does not keep. */
    ghost var committed: nat

    ghost function State(db: Database): Sync
      reads this, db
    {
      Sync(db.State(), cursor, committed)
    }

    constructor ()
      ensures cursor == 0 && committed == 0
    {
      cursor, committed := 0, 0;
    }

    /** One handler call on the session's uncommitted state. */
    method ProcessEvent(session: Db, e: Event) returns (after: Db)
      ensures after == Apply(session, e)
    {
      after := session;
      match e {
        case Deposit(tx, depositor, amount, shares) =>
          if tx in session.deposits {
            return;
          }
          var deposit := PoolDeposit(depositor, amount, shares, DepositActive);
          after := after.(deposits := after.deposits[tx := deposit]);
        case Withdrawal(_, depositTx) =>
          if depositTx != "" && depositTx in session.deposits {
            var deposit := session.deposits[depositTx];
            deposit := deposit.(status := DepositWithdrawn);
            after := after.(deposits := after.deposits[depositTx := deposit]);
          }
        case Borrow(tx, id) =>
          if id.Some? && id.value < |session.draws| {
            var draw := session.draws[id.value];
            draw := draw.(txHash := Some(tx));
            after := after.(draws := after.draws[id.value := draw]);
          }
        case Repayment(_, id, amount) =>
          if id.Some? && amount > 0 && id.value < |session.draws| {
            var draw := session.draws[id.value];
            draw := draw.(amountRepaid := draw.amountRepaid + amount);
            if draw.amountRepaid >= draw.amountDue {
              draw := draw.(status := DrawRepaid);
            }
            after := after.(draws := after.draws[id.value := draw]);
          }
        case Unknown(_) =>
      }
    }

    method ProcessEvents(session: Db, events: seq<Event>) returns (after: Db, processed: nat)
      ensures after == ApplyAll(session, events) && processed == |events|
    {
      after, processed := session, 0;
      while processed < |events|
        invariant processed <= |events|
        invariant after == ApplyAll(session, events[..processed])
      {
        assert events[..processed + 1][..processed] == events[..processed];
        after := ProcessEvent(after, events[processed]);
        processed := processed + 1;
      }
      assert events[..|events|] == events;
    }

    /** latest and chain are the node's answers; crash says where the process dies. */
    method ExecuteOnce(db: Database, chain: Chain, latest: nat, crash: Crash) returns (processed: nat)
      modifies this, db
      ensures State(db) == Execute(chain, old(State(db)), latest, crash)
      ensures processed == |Between(chain, old(cursor) + 1, latest)|
      ensures old(cursor) <= cursor && (latest <= old(cursor) ==> State(db) == old(State(db)))
    {
      if latest <= cursor {
        return 0;
      }
      var session: Db;
      session, processed := ProcessEvents(db.State(), Between(chain, cursor + 1, latest));
      if crash == BeforeCommit {
        return;
      }
      db.agents, db.lines, db.draws := session.agents, session.lines, session.draws;
      db.deposits, db.alerts := session.deposits, session.alerts;
      committed := if latest > committed then latest else committed;
      if crash == BeforeCursor {
        return;
      }
      cursor := latest;
    }
  }

  // ----- Sequences of events -----

  lemma {:induction false} ApplyAllConcat(db: Db, es: seq<Event>, fs: seq<Event>)
    ensures ApplyAll(db, es + fs) == ApplyAll(ApplyAll(db, es), fs)
  {
    if fs == [] {
      assert es + fs == es;
    } else {
      assert (es + fs)[..|es + fs| - 1] == es + fs[..|fs| - 1];
      ApplyAllConcat(db, es, fs[..|fs| - 1]);
    }
  }

  lemma {:induction false} BetweenSplit(chain: Chain, lo: nat, mid: int, hi: int)
    requires lo <= mid + 1 && mid <= hi
    ensures Between(chain, lo, hi) == Between(chain, lo, mid) + Between(chain, mid + 1, hi)
    decreases hi
  {
    if mid != hi {
      BetweenSplit(chain, lo, mid, hi - 1);
    }
  }

  /** Blocks end to end, oldest first. */
  function Flat(blocks: seq<seq<Event>>): seq<Event> {
    if blocks == [] then [] else blocks[0] + Flat(blocks[1..])
  }

  lemma {:induction false} FlatSnoc(blocks: seq<seq<Event>>, last: seq<Event>)
    ensures Flat(blocks + [last]) == Flat(blocks) + last
  {
    if blocks == [] {
      assert [last][1..] == [] && blocks + [last] == [last];
    } else {
      FlatSnoc(blocks[1..], last);
      assert (blocks + [last])[1..] == blocks[1..] + [last];
    }
  }

  /** A query from lo to hi returns those blocks' events, each once and in order. */
  lemma {:induction false} BetweenIsFlat(chain: Chain, lo: nat, hi: int)
    requires lo <= hi + 1 <= |chain|
    ensures Between(chain, lo, hi) == Flat(chain[lo..hi + 1])
    decreases hi
  {
    if lo <= hi {
      BetweenIsFlat(chain, lo, hi - 1);
      FlatSnoc(chain[lo..hi], chain[hi]);
      assert chain[lo..hi + 1] == chain[lo..hi] + [chain[hi]];
    }
  }

  // ----- What a batch does to one row -----

  predicate Withdraws(e: Event, h: string) {
    e.Withdrawal? && e.depositTx == h && h != ""
  }

  predicate HasWithdrawal(es: seq<Event>, h: string) {
    exists i :: 0 <= i < |es| && Withdraws(es[i], h)
  }

  predicate Deposits(e: Event, h: string) {
    e.Deposit? && e.tx == h
  }

  predicate HasDeposit(es: seq<Event>, h: string) {
    exists i :: 0 <= i < |es| && Deposits(es[i], h)
  }

  /** A repayment that names an existing draw and pays a positive amount. */
  predicate Effective(db: Db, e: Event) {
    e.Repayment? && Names(db, e.draw) && e.amount > 0
  }

  lemma Snoc(es: seq<Event>, e: Event, h: string)
    ensures HasWithdrawal(es + [e], h) <==> HasWithdrawal(es, h) || Withdraws(e, h)
    ensures HasDeposit(es + [e], h) <==> HasDeposit(es, h) || Deposits(e, h)
  {
    var all := es + [e];
    assert all[|es|] == e && forall i :: 0 <= i < |es| ==> all[i] == es[i];
  }

  /** What an event may write of a draw: its hash, and on an effective repayment its balance and status. */
  lemma DrawsFrame(db: Db, e: Event)
    ensures var out := Apply(db, e);
      && out.agents == db.agents && out.lines == db.lines && |out.draws| == |db.draws|
      && forall i :: 0 <= i < |db.draws| ==>
           && out.draws[i].agent == db.draws[i].agent && out.draws[i].amount == db.draws[i].amount
           && out.draws[i].amountDue == db.draws[i].amountDue
           && out.draws[i].interestRateBps == db.draws[i].interestRateBps
           && out.draws[i].dueAt == db.draws[i].dueAt && out.draws[i].repaidAt == db.draws[i].repaidAt
           && (!Effective(db, e) ==>
                 out.draws[i].amountRepaid == db.draws[i].amountRepaid && out.draws[i].status == db.draws[i].status)
  {
  }

  /** Events leave agents, lines, alerts and the set of draws alone. */
  lemma {:induction false} UntouchedTables(db: Db, es: seq<Event>)
    ensures var out := ApplyAll(db, es);
            out.agents == db.agents && out.lines == db.lines && out.alerts == db.alerts && |out.draws| == |db.draws|
  {
    if es != [] {
      UntouchedTables(db, es[..|es| - 1]);
    }
  }

  /** A recorded deposit only ever becomes withdrawn. */
  lemma {:induction false} RecordedDeposit(db: Db, es: seq<Event>, h: string)
    requires h in db.deposits
    ensures h in ApplyAll(db, es).deposits
    ensures ApplyAll(db, es).deposits[h]
      == if HasWithdrawal(es, h) then db.deposits[h].(status := DepositWithdrawn) else db.deposits[h]
  {
    if es != [] {
      var n := |es| - 1;
      RecordedDeposit(db, es[..n], h);
      Snoc(es[..n], es[n], h);
      assert es == es[..n] + [es[n]];
    }
  }

  lemma {:induction false} UnrecordedDeposit(db: Db, es: seq<Event>, h: string)
    requires h !in db.deposits && !HasDeposit(es, h)
    ensures h !in ApplyAll(db, es).deposits
  {
    if es != [] {
      var n := |es| - 1;
      Snoc(es[..n], es[n], h);
      assert es == es[..n] + [es[n]];
      UnrecordedDeposit(db, es[..n], h);
    }
  }

  /** A new deposit is recorded by its first event and then sees only later withdrawals. */
  lemma FirstDeposit(db: Db, es: seq<Event>, j: nat)
    requires j < |es| && es[j].Deposit? && es[j].tx !in db.deposits && !HasDeposit(es[..j], es[j].tx)
    ensures es[j].tx in ApplyAll(db, es).deposits
    ensures ApplyAll(db, es).deposits[es[j].tx]
      == PoolDeposit(es[j].depositor, es[j].amount, es[j].shares,
                     if HasWithdrawal(es[j + 1..], es[j].tx) then DepositWithdrawn else DepositActive)
  {
    var upTo := es[..j + 1];
    assert upTo[..j] == es[..j] && upTo[j] == es[j];
    UnrecordedDeposit(db, es[..j], es[j].tx);
    RecordedDeposit(ApplyAll(db, upTo), es[j + 1..], es[j].tx);
    assert es == upTo + es[j + 1..];
    ApplyAllConcat(db, upTo, es[j + 1..]);
  }

  /** What the batch's repayments add to draw i. */
  function PaidTo(es: seq<Event>, i: nat): nat {
    if es == [] then 0
    else
      var e := es[|es| - 1];
      PaidTo(es[..|es| - 1], i) + (if e.Repayment? && e.draw == Some(i) && e.amount > 0 then e.amount else 0)
  }

  /** The hash draw i carries after the batch: that of the last borrow naming it. */
  function BorrowHash(es: seq<Event>, i: nat, before: Option<string>): Option<string> {
    if es == [] then before
    else
      var e := es[|es| - 1];
      if e.Borrow? && e.draw == Some(i) then Some(e.tx) else BorrowHash(es[..|es| - 1], i, before)
  }

  lemma {:induction false} DrawAfter(db: Db, es: seq<Event>, i: nat)
    requires i < |db.draws|
    ensures var out := ApplyAll(db, es);
            && i < |out.draws|
            && out.draws[i].amountRepaid == db.draws[i].amountRepaid + PaidTo(es, i)
            && out.draws[i].txHash == BorrowHash(es, i, db.draws[i].txHash)
            && (PaidTo(es, i) == 0 ==> out.draws[i].(txHash := None) == db.draws[i].(txHash := None))
  {
    UntouchedTables(db, es);
    if es != [] {
      DrawAfter(db, es[..|es| - 1], i);
      UntouchedTables(db, es[..|es| - 1]);
    }
  }

  lemma {:induction false} BorrowHashForgets(es: seq<Event>, i: nat, x: Option<string>, y: Option<string>)
    ensures BorrowHash(es, i, x) == x || BorrowHash(es, i, y) == BorrowHash(es, i, x)
  {
    if es != [] {
      BorrowHashForgets(es[..|es| - 1], i, x, y);
    }
  }

  lemma {:induction false} PaidToPositive(es: seq<Event>, i: nat)
    ensures PaidTo(es, i) > 0 <==>
      exists k :: 0 <= k < |es| && es[k].Repayment? && es[k].draw == Some(i) && es[k].amount > 0
  {
    if es != [] {
      var n := |es| - 1;
      PaidToPositive(es[..n], i);
      if exists k :: 0 <= k < n && es[k].Repayment? && es[k].draw == Some(i) && es[k].amount > 0 {
        var k :| 0 <= k < n && es[k].Repayment? && es[k].draw == Some(i) && es[k].amount > 0;
        assert es[..n][k] == es[k];
      }
    }
  }

  // ----- Replaying a batch -----

  /** The batch may be applied twice: it pays no existing draw, and a deposit it
      records after a withdrawal that names it is withdrawn again later on. */
  ghost predicate Settled(db: Db, es: seq<Event>) {
    && (forall i :: 0 <= i < |es| ==> !Effective(db, es[i]))
    && (forall j :: 0 <= j < |es| ==> SettledAt(db, es, j))
  }

  ghost predicate SettledAt(db: Db, es: seq<Event>, j: nat)
    requires j < |es|
  {
    es[j].Deposit? && es[j].tx !in db.deposits && !HasDeposit(es[..j], es[j].tx) && HasWithdrawal(es[..j], es[j].tx)
    ==> HasWithdrawal(es[j + 1..], es[j].tx)
  }

  lemma {:induction false} FindFirstDeposit(es: seq<Event>, h: string) returns (j: nat)
    requires HasDeposit(es, h)
    ensures j < |es| && Deposits(es[j], h) && !HasDeposit(es[..j], h)
  {
    var n := |es| - 1;
    if HasDeposit(es[..n], h) {
      j := FindFirstDeposit(es[..n], h);
      assert es[..n][..j] == es[..j];
    } else {
      Snoc(es[..n], es[n], h);
      assert es == es[..n] + [es[n]];
      j := n;
    }
  }

  lemma DepositSplit(es: seq<Event>, fs: seq<Event>, h: string)
    ensures HasDeposit(es + fs, h) <==> HasDeposit(es, h) || HasDeposit(fs, h)
  {
    if HasDeposit(es, h) {
      var i :| 0 <= i < |es| && Deposits(es[i], h);
      assert Deposits((es + fs)[i], h);
    }
    if HasDeposit(fs, h) {
      var i :| 0 <= i < |fs| && Deposits(fs[i], h);
      assert Deposits((es + fs)[|es| + i], h);
    }
  }

  lemma WithdrawalSplit(es: seq<Event>, j: nat, h: string)
    requires j < |es| && !Withdraws(es[j], h)
    ensures HasWithdrawal(es, h) <==> HasWithdrawal(es[..j], h) || HasWithdrawal(es[j + 1..], h)
  {
    if HasWithdrawal(es, h) {
      var i :| 0 <= i < |es| && Withdraws(es[i], h);
      if i < j { assert es[..j][i] == es[i]; } else { assert es[j + 1..][i - j - 1] == es[i]; }
    }
    if HasWithdrawal(es[..j], h) {
      var i :| 0 <= i < j && Withdraws(es[..j][i], h);
      assert Withdraws(es[i], h);
    }
    if HasWithdrawal(es[j + 1..], h) {
      var i :| 0 <= i < |es[j + 1..]| && Withdraws(es[j + 1..][i], h);
      assert Withdraws(es[i + j + 1], h);
    }
  }

  /** Applying a batch to its own result changes a deposit it records exactly when
      the deposit is not settled. */
  lemma ReplayedDeposit(db: Db, es: seq<Event>, j: nat)
    requires j < |es| && es[j].Deposit? && es[j].tx !in db.deposits && !HasDeposit(es[..j], es[j].tx)
    ensures var once, twice := ApplyAll(db, es), ApplyAll(ApplyAll(db, es), es);
            && es[j].tx in once.deposits && es[j].tx in twice.deposits
            && (once.deposits[es[j].tx] == twice.deposits[es[j].tx] <==> SettledAt(db, es, j))
  {
    FirstDeposit(db, es, j);
    RecordedDeposit(ApplyAll(db, es), es, es[j].tx);
    WithdrawalSplit(es, j, es[j].tx);
  }

  lemma ReplayKeepsDeposits(db: Db, es: seq<Event>)
    requires Settled(db, es)
    ensures ApplyAll(ApplyAll(db, es), es).deposits == ApplyAll(db, es).deposits
  {
    var once, twice := ApplyAll(db, es), ApplyAll(ApplyAll(db, es), es);
    forall h
      ensures h in once.deposits <==> h in twice.deposits
      ensures h in once.deposits ==> once.deposits[h] == twice.deposits[h]
    {
      if h in db.deposits {
        RecordedDeposit(db, es, h);
        RecordedDeposit(once, es, h);
      } else if HasDeposit(es, h) {
        var j := FindFirstDeposit(es, h);
        ReplayedDeposit(db, es, j);
      } else {
        UnrecordedDeposit(db, es, h);
        UnrecordedDeposit(once, es, h);
      }
    }
  }

  lemma ReplayKeepsDraws(db: Db, es: seq<Event>)
    requires forall i :: 0 <= i < |es| ==> !Effective(db, es[i])
    ensures ApplyAll(ApplyAll(db, es), es).draws == ApplyAll(db, es).draws
  {
    var once, twice := ApplyAll(db, es), ApplyAll(ApplyAll(db, es), es);
    UntouchedTables(db, es);
    UntouchedTables(once, es);
    forall i | 0 <= i < |db.draws|
      ensures once.draws[i] == twice.draws[i]
    {
      PaidToPositive(es, i);
      DrawAfter(db, es, i);
      DrawAfter(once, es, i);
      BorrowHashForgets(es, i, db.draws[i].txHash, once.draws[i].txHash);
      assert once.draws[i] == once.draws[i].(txHash := None).(txHash := once.draws[i].txHash);
      assert twice.draws[i] == twice.draws[i].(txHash := None).(txHash := twice.draws[i].txHash);
    }
  }

  /** Replaying a batch is harmless exactly when the batch is settled. */
  lemma ReplayHarmlessIffSettled(db: Db, es: seq<Event>)
    ensures ApplyAll(ApplyAll(db, es), es) == ApplyAll(db, es) <==> Settled(db, es)
  {
    var once, twice := ApplyAll(db, es), ApplyAll(ApplyAll(db, es), es);
    if Settled(db, es) {
      ReplayKeepsDeposits(db, es);
      ReplayKeepsDraws(db, es);
      UntouchedTables(db, es);
      UntouchedTables(once, es);
    } else if i :| 0 <= i < |es| && Effective(db, es[i]) {
      var k := es[i].draw.value;
      PaidToPositive(es, k);
      DrawAfter(db, es, k);
      DrawAfter(once, es, k);
    } else {
      var j :| 0 <= j < |es| && !SettledAt(db, es, j);
      ReplayedDeposit(db, es, j);
    }
  }

  // ----- Crash safety over whole runs -----

  /** The log is settled at the end of every block. */
  ghost predicate Clean(chain: Chain, db: Db) {
    forall b: nat :: Settled(db, Between(chain, 1, b))
  }

  /** What has been committed is one in-order pass over the events up to the highest committed block. */
  ghost predicate OnePass(chain: Chain, db: Db, s: Sync) {
    s.db == ApplyAll(db, Between(chain, 1, s.committed))
  }

  lemma SettledAfter(db: Db, es: seq<Event>, fs: seq<Event>)
    requires Settled(db, es + fs)
    ensures Settled(ApplyAll(db, es), fs)
  {
    var mid, all := ApplyAll(db, es), es + fs;
    UntouchedTables(db, es);
    forall i | 0 <= i < |fs|
      ensures !Effective(mid, fs[i])
    {
      assert all[|es| + i] == fs[i];
    }
    forall j | 0 <= j < |fs|
      ensures SettledAt(mid, fs, j)
    {
      var h := if fs[j].Deposit? then fs[j].tx else "";
      if fs[j].Deposit? && h !in mid.deposits && !HasDeposit(fs[..j], h) && HasWithdrawal(fs[..j], h) {
        NewToTheLog(db, es, fs, j, h);
        var i :| 0 <= i < j && Withdraws(fs[..j][i], h);
        assert all[..|es| + j][|es| + i] == fs[i];
        assert SettledAt(db, all, |es| + j);
        assert all[|es| + j + 1..] == fs[j + 1..];
      }
    }
  }

  /** A deposit not recorded after es, first seen in fs at j, is first seen in es + fs there. */
  lemma NewToTheLog(db: Db, es: seq<Event>, fs: seq<Event>, j: nat, h: string)
    requires j < |fs| && h !in ApplyAll(db, es).deposits && !HasDeposit(fs[..j], h)
    ensures h !in db.deposits && !HasDeposit((es + fs)[..|es| + j], h)
  {
    if h in db.deposits {
      RecordedDeposit(db, es, h);
    } else if HasDeposit(es, h) {
      var k := FindFirstDeposit(es, h);
      FirstDeposit(db, es, k);
    }
    DepositSplit(es, fs[..j], h);
    assert (es + fs)[..|es| + j] == es + fs[..j];
  }

  /** After done and again are in, applying again once more and going on to more
      is applying done, again and more once each. */
  lemma ReplayThenMore(db: Db, done: seq<Event>, again: seq<Event>, more: seq<Event>)
    requires Settled(db, done + again)
    ensures ApplyAll(ApplyAll(db, done + again), again + more) == ApplyAll(db, done + again + more)
  {
    var base := ApplyAll(db, done);
    ApplyAllConcat(db, done, again);
    SettledAfter(db, done, again);
    ReplayHarmlessIffSettled(base, again);
    ApplyAllConcat(ApplyAll(base, again), again, more);
    ApplyAllConcat(db, done + again, more);
  }

  /** What an execution that reaches its commit applies, and up to where. */
  lemma ExecuteAdvances(chain: Chain, s: Sync, latest: nat, crash: Crash)
    requires s.committed <= latest && s.cursor < latest && !crash.BeforeCommit?
    ensures Execute(chain, s, latest, crash).db == ApplyAll(s.db, Between(chain, s.cursor + 1, latest))
    ensures Execute(chain, s, latest, crash).committed == latest
  {
  }

  /** One execution after any number of crashes: the events from the cursor on are
      applied over a database that already holds those up to the committed block. */
  lemma ExecuteKeepsOnePass(chain: Chain, db: Db, s: Sync, latest: nat, crash: Crash)
    requires Settled(db, Between(chain, 1, s.committed))
    requires OnePass(chain, db, s) && s.cursor <= s.committed <= latest
    ensures OnePass(chain, db, Execute(chain, s, latest, crash))
  {
    if latest > s.cursor && !crash.BeforeCommit? {
      var done, again, more := CutLog(chain, s.cursor, s.committed, latest);
      ReplayThenMore(db, done, again, more);
      ExecuteAdvances(chain, s, latest, crash);
    }
  }

  /** The log up to latest, cut at the cursor and at the committed block. */
  lemma CutLog(chain: Chain, cursor: nat, committed: nat, latest: nat)
    returns (done: seq<Event>, again: seq<Event>, more: seq<Event>)
    requires cursor <= committed <= latest
    ensures Between(chain, 1, committed) == done + again
    ensures Between(chain, cursor + 1, latest) == again + more
    ensures Between(chain, 1, latest) == done + again + more
  {
    done, again, more := Between(chain, 1, cursor), Between(chain, cursor + 1, committed),
                         Between(chain, committed + 1, latest);
    BetweenSplit(chain, 1, cursor, committed);
    BetweenSplit(chain, cursor + 1, committed, latest);
    BetweenSplit(chain, 1, committed, latest);
  }

  lemma {:induction false} RunKeepsOnePass(chain: Chain, db: Db, steps: Schedule)
    requires HeadMonotone(steps)
    ensures var s := Run(chain, db, steps);
            && s.cursor <= s.committed
            && s.committed <= (if steps == [] then 0 else steps[|steps| - 1].0)
            && (Clean(chain, db) ==> OnePass(chain, db, s))
  {
    if steps != [] {
      var n := |steps| - 1;
      RunKeepsOnePass(chain, db, steps[..n]);
      if Clean(chain, db) {
        var s := Run(chain, db, steps[..n]);
        assert Settled(db, Between(chain, 1, s.committed));
        ExecuteKeepsOnePass(chain, db, s, steps[n].0, steps[n].1);
      }
    }
  }

  /** No execution dies between its commit and its cursor write. */
  ghost predicate CursorAlwaysWritten(steps: Schedule) {
    forall i :: 0 <= i < |steps| ==> !steps[i].1.BeforeCursor?
  }

  lemma ExecuteInStep(chain: Chain, db: Db, s: Sync, latest: nat, crash: Crash)
    requires OnePass(chain, db, s) && s.cursor == s.committed <= latest && !crash.BeforeCursor?
    ensures var after := Execute(chain, s, latest, crash);
      && OnePass(chain, db, after)
      && after.cursor == after.committed == (if crash.NoCrash? then latest else s.cursor)
  {
    BetweenSplit(chain, 1, s.cursor, latest);
    ApplyAllConcat(db, Between(chain, 1, s.cursor), Between(chain, s.cursor + 1, latest));
  }

  /** If no execution dies between commit and cursor write the cursor is the committed
      block and the tables are one pass over the log up to it, for every log,
      repayments included, and however often an execution dies before its commit. */
  lemma {:induction false} AppliedOnceInStep(chain: Chain, db: Db, steps: Schedule)
    requires HeadMonotone(steps) && CursorAlwaysWritten(steps)
    ensures var s := Run(chain, db, steps);
            && OnePass(chain, db, s) && s.cursor == s.committed
            && s.committed <= (if steps == [] then 0 else steps[|steps| - 1].0)
  {
    if steps != [] {
      var n := |steps| - 1;
      AppliedOnceInStep(chain, db, steps[..n]);
      ExecuteInStep(chain, db, Run(chain, db, steps[..n]), steps[n].0, steps[n].1);
    }
  }

  /** After any crashes an execution that does not die brings the cursor and the
      tables up to the head it saw. */
  lemma CursorReachesHead(chain: Chain, db: Db, steps: Schedule)
    requires HeadMonotone(steps) && steps != [] && steps[|steps| - 1].1.NoCrash?
    ensures var s := Run(chain, db, steps);
      s.cursor == s.committed == steps[|steps| - 1].0 && (Clean(chain, db) ==> OnePass(chain, db, s))
  {
    RunKeepsOnePass(chain, db, steps);
    RunKeepsOnePass(chain, db, steps[..|steps| - 1]);
  }

  /** Dying between commit and cursor write, then running again, applies the blocks twice. */
  lemma CommittedTwice(chain: Chain, db: Db, b: nat)
    requires b > 0
    ensures var es := Between(chain, 1, b);
            var s := Run(chain, db, [(b, BeforeCursor), (b, NoCrash)]);
            s.db == ApplyAll(ApplyAll(db, es), es) && s.committed == b
  {
    var steps: Schedule := [(b, BeforeCursor), (b, NoCrash)];
    assert steps[..1] == [(b, BeforeCursor)] && steps[..1][..0] == [];
    assert Run(chain, db, []) == Sync(db, 0, 0);
    assert Run(chain, db, steps[..1]) == Execute(chain, Sync(db, 0, 0), b, BeforeCursor);
  }

  /** The worker is crash-safe, for every schedule of executions and crashes, exactly
      when the log is clean; and the cursor never passes the committed block. */
  lemma CrashSafeIffClean(chain: Chain, db: Db)
    ensures Clean(chain, db) <==>
      forall steps :: HeadMonotone(steps) ==> OnePass(chain, db, Run(chain, db, steps))
    ensures forall steps :: HeadMonotone(steps) ==>
      Run(chain, db, steps).cursor <= Run(chain, db, steps).committed
  {
    forall steps | HeadMonotone(steps)
      ensures Run(chain, db, steps).cursor <= Run(chain, db, steps).committed
      ensures Clean(chain, db) ==> OnePass(chain, db, Run(chain, db, steps))
    {
      RunKeepsOnePass(chain, db, steps);
    }
    if !Clean(chain, db) {
      var b: nat :| !Settled(db, Between(chain, 1, b));
      CommittedTwice(chain, db, b);
      ReplayHarmlessIffSettled(db, Between(chain, 1, b));
      assert HeadMonotone([(b, BeforeCursor), (b, NoCrash)]);
    }
  }

  /** So one on-chain repayment can be booked twice: the handler has no check of its hash. */
  lemma RepaymentBookedTwice(db: Db, id: nat, tx: string, amount: int)
    requires id < |db.draws| && amount > 0
    ensures var chain: Chain := [[], [Repayment(tx, Some(id), amount)]];
            var s := Run(chain, db, [(1, BeforeCursor), (1, NoCrash)]);
            id < |s.db.draws| && s.db.draws[id].amountRepaid == db.draws[id].amountRepaid + 2 * amount
  {
    var chain: Chain := [[], [Repayment(tx, Some(id), amount)]];
    var es := [Repayment(tx, Some(id), amount)];
    assert Between(chain, 1, 1) == es by {
      assert Between(chain, 1, 0) == [] && Block(chain, 1) == es;
    }
    CommittedTwice(chain, db, 1);
    assert PaidTo(es, id) == amount by { assert es[..0] == []; }
    DrawAfter(db, es, id);
    DrawAfter(ApplyAll(db, es), es, id);
  }
}
