/** The fiat ramp: sessions create transactions, provider webhooks bind orders to them
    and move them along. */
module Fiat {
  import opened Wrappers
  import Text

  datatype RampType = OnRamp | OffRamp

  datatype Status = Created | Pending | Processing | Completed | Failed | Expired | Cancelled | Refunded

  datatype FiatTx = FiatTx(
    user: string,
    kind: RampType,
    amountFiat: int,
    amountCrypto: Option<int>,
    fiatCurrency: string,
    cryptoCurrency: string,
    status: Status,
    orderId: Option<string>,
    network: string,
    wallet: string,
    txHash: Option<string>,
    failureReason: Option<string>,
    completedAt: Option<int>)

  const SUPPORTED_FIAT := {"USD", "EUR"}
  const SUPPORTED_CRYPTO := {"USDT"}
  const SUPPORTED_NETWORKS := {"base"}

  function MapStatus(s: string): Option<Status> {
    if s == "AWAITING_PAYMENT_FROM_USER" then Some(Pending)
    else if s == "PAYMENT_DONE_MARKED_BY_USER" || s == "PROCESSING" || s == "PENDING_DELIVERY_FROM_TRANSAK"
         || s == "ON_HOLD_PENDING_DELIVERY_FROM_TRANSAK" then Some(Processing)
    else if s == "COMPLETED" then Some(Completed)
    else if s == "CANCELLED" then Some(Cancelled)
    else if s == "FAILED" then Some(Failed)
    else if s == "REFUNDED" then Some(Refunded)
    else if s == "EXPIRED" then Some(Expired)
    else None
  }

  /** Unknown provider statuses count as pending. */
  function NewStatus(s: string): Status {
    var mapped := MapStatus(Text.Upper(s));
    if mapped.Some? then mapped.value else Pending
  }

  /** What a session request says. */
  datatype Session = Session(
    kind: RampType, user: string, fiat: string, amount: int, crypto: string, wallet: string, network: string)

  predicate Supported(s: Session) {
    && Text.Upper(s.fiat) in SUPPORTED_FIAT && Text.Upper(s.crypto) in SUPPORTED_CRYPTO
    && Text.Lower(s.network) in SUPPORTED_NETWORKS
  }

  function NewTx(s: Session): FiatTx {
    FiatTx(Text.Lower(s.user), s.kind, s.amount, None, Text.Upper(s.fiat), Text.Upper(s.crypto), Created, None,
           s.network, Text.Lower(s.wallet), None, None, None)
  }

  /** What a webhook says; txHash and reason are "" and wallet is "" when absent. */
  datatype Webhook = Webhook(
    orderId: string,
    status: string,
    cryptoAmount: Option<int>,
    fiatAmount: Option<int>,
    txHash: string,
    wallet: string,
    reason: string)

  /** The transaction already bound to the order. */
  function FindBound(rows: seq<FiatTx>, order: string): Option<nat> {
    if rows == [] then None
    else if rows[|rows| - 1].orderId == Some(order) then Some(|rows| - 1)
    else FindBound(rows[..|rows| - 1], order)
  }

  /** The newest transaction still CREATED for the wallet; rows are in creation order. */
  function FindNewest(rows: seq<FiatTx>, wallet: string): Option<nat> {
    if rows == [] then None
    else if rows[|rows| - 1].status.Created? && rows[|rows| - 1].wallet == wallet then Some(|rows| - 1)
    else FindNewest(rows[..|rows| - 1], wallet)
  }

  /** The row a webhook is about. */
  function Target(rows: seq<FiatTx>, w: Webhook): Option<nat> {
    var bound := FindBound(rows, w.orderId);
    if bound.Some? then bound else FindNewest(rows, Text.Lower(w.wallet))
  }

  function Updated(tx: FiatTx, w: Webhook, now: int): FiatTx {
    tx.(orderId := Some(w.orderId),
        status := NewStatus(w.status),
        amountCrypto := if w.cryptoAmount.Some? then w.cryptoAmount else tx.amountCrypto,
        amountFiat := if w.fiatAmount.Some? then w.fiatAmount.value else tx.amountFiat,
        txHash := if w.txHash != "" then Some(w.txHash) else tx.txHash,
        failureReason := if w.reason != "" then Some(w.reason) else tx.failureReason,
        completedAt := if NewStatus(w.status).Completed? then Some(now) else tx.completedAt)
  }

  datatype Op = Open(s: Session) | Notify(w: Webhook, now: int)

  function Step(rows: seq<FiatTx>, op: Op): seq<FiatTx> {
    match op
    case Open(s) => if Supported(s) then rows + [NewTx(s)] else rows
    case Notify(w, now) =>
      var t := Target(rows, w);
      if t.Some? && t.value < |rows| then rows[t.value := Updated(rows[t.value], w, now)] else rows
  }

  function Run(ops: seq<Op>): seq<FiatTx> {
    if ops == [] then [] else Step(Run(ops[..|ops| - 1]), ops[|ops| - 1])
  }

  // ----- The service -----

  class FiatRampService {
    var rows: seq<FiatTx>

    constructor ()
      ensures rows == []
    {
      rows := [];
    }

    /** On-ramp and off-ramp sessions differ only in the recorded type. */
    method CreateSession(s: Session) returns (r: Result<nat>)
      modifies this
      ensures rows == Step(old(rows), Open(s))
      ensures r == if Supported(s) then Ok(|old(rows)|) else Err(BadRequest)
      ensures r.Ok? <==> && Text.Upper(s.fiat) in {"USD", "EUR"} && Text.Upper(s.crypto) == "USDT"
                         && Text.Lower(s.network) == "base"
      ensures r.Ok? ==> rows == old(rows) + [FiatTx(
        Text.Lower(s.user), s.kind, s.amount, None, Text.Upper(s.fiat), Text.Upper(s.crypto), Created, None,
        s.network, Text.Lower(s.wallet), None, None, None)]
    {
      if Text.Upper(s.fiat) !in SUPPORTED_FIAT {
        return Err(BadRequest);
      }
      if Text.Upper(s.crypto) !in SUPPORTED_CRYPTO {
        return Err(BadRequest);
      }
      if Text.Lower(s.network) !in SUPPORTED_NETWORKS {
        return Err(BadRequest);
      }
      r := Ok(|rows|);
      rows := rows + [NewTx(s)];
    }

    method ProcessWebhook(w: Webhook, now: int) returns (r: Result<nat>)
      modifies this
      ensures rows == Step(old(rows), Notify(w, now))
      ensures r == var t := Target(old(rows), w); if t.Some? then Ok(t.value) else Err(NotFound)
    {
      TargetInTable(rows, w);
      var found := FindBound(rows, w.orderId);
      if found.None? {
        found := FindNewest(rows, Text.Lower(w.wallet));
        if found.None? {
          return Err(NotFound);
        }
      }
      var tx := rows[found.value];
      tx := tx.(orderId := Some(w.orderId));
      var mapped := MapStatus(Text.Upper(w.status));
      var status := if mapped.Some? then mapped.value else Pending;
      tx := tx.(status := status);
      if w.cryptoAmount.Some? {
        tx := tx.(amountCrypto := w.cryptoAmount);
      }
      if w.fiatAmount.Some? {
        tx := tx.(amountFiat := w.fiatAmount.value);
      }
      if w.txHash != "" {
        tx := tx.(txHash := Some(w.txHash));
      }
      if w.reason != "" {
        tx := tx.(failureReason := Some(w.reason));
      }
      if status == Completed {
        tx := tx.(completedAt := Some(now));
      }
      rows := rows[found.value := tx];
      return Ok(found.value);
    }
  }

  /** Which provider statuses mean what, without regard to case. */
  lemma StatusTable(s: string)
    ensures var u := Text.Upper(s); var known := {"PAYMENT_DONE_MARKED_BY_USER", "PROCESSING",
        "PENDING_DELIVERY_FROM_TRANSAK", "ON_HOLD_PENDING_DELIVERY_FROM_TRANSAK"};
      && (NewStatus(s) == Processing <==> u in known)
      && (NewStatus(s) == Completed <==> u == "COMPLETED")
      && (NewStatus(s) == Cancelled <==> u == "CANCELLED")
      && (NewStatus(s) == Failed <==> u == "FAILED")
      && (NewStatus(s) == Refunded <==> u == "REFUNDED")
      && (NewStatus(s) == Expired <==> u == "EXPIRED")
      && NewStatus(s) != Created && NewStatus(Text.Lower(s)) == NewStatus(s)
  {
    Text.LowerFolds(s);
  }

  // ----- Lookups -----

  lemma {:induction false} FindBoundFinds(rows: seq<FiatTx>, order: string)
    ensures match FindBound(rows, order)
      case Some(i) => i < |rows| && rows[i].orderId == Some(order)
      case None => forall i :: 0 <= i < |rows| ==> rows[i].orderId != Some(order)
  {
    if rows != [] {
      FindBoundFinds(rows[..|rows| - 1], order);
    }
  }

  lemma {:induction false} FindNewestFinds(rows: seq<FiatTx>, wallet: string)
    ensures match FindNewest(rows, wallet)
      case Some(i) =>
        && i < |rows| && rows[i].status.Created? && rows[i].wallet == wallet
        && forall j :: i < j < |rows| ==> !(rows[j].status.Created? && rows[j].wallet == wallet)
      case None => forall i :: 0 <= i < |rows| ==> !(rows[i].status.Created? && rows[i].wallet == wallet)
  {
    if rows != [] {
      FindNewestFinds(rows[..|rows| - 1], wallet);
    }
  }

  lemma TargetInTable(rows: seq<FiatTx>, w: Webhook)
    ensures Target(rows, w).Some? ==> Target(rows, w).value < |rows|
  {
    FindBoundFinds(rows, w.orderId);
    FindNewestFinds(rows, Text.Lower(w.wallet));
  }

  /** What a webhook writes: the order, the status it means, and what it says of the
      amounts, the hash and the failure; a completed transaction its time. Nothing else. */
  lemma WebhookWrites(rows: seq<FiatTx>, w: Webhook, now: int)
    ensures var after := Step(rows, Notify(w, now));
      match Target(rows, w)
      case None => after == rows
      case Some(i) =>
        i < |rows| && after == rows[i := after[i]] && var tx, was := after[i], rows[i];
        && tx.orderId == Some(w.orderId) && tx.status == NewStatus(w.status)
        && tx.amountCrypto == (if w.cryptoAmount == None then was.amountCrypto else w.cryptoAmount)
        && Some(tx.amountFiat) == (if w.fiatAmount == None then Some(was.amountFiat) else w.fiatAmount)
        && tx.txHash == (if w.txHash == "" then was.txHash else Some(w.txHash))
        && tx.failureReason == (if w.reason == "" then was.failureReason else Some(w.reason))
        && tx.completedAt == (if tx.status == Completed then Some(now) else was.completedAt)
        && tx.user == was.user && tx.kind == was.kind && tx.wallet == was.wallet && tx.network == was.network
        && tx.fiatCurrency == was.fiatCurrency && tx.cryptoCurrency == was.cryptoCurrency
  {
    TargetInTable(rows, w);
  }

  // ----- Order binding -----

  /** A transaction is CREATED exactly when no order is bound to it, no order is bound
      to two, and a completed one has its completion time. */
  ghost predicate Bound(rows: seq<FiatTx>) {
    && (forall i :: 0 <= i < |rows| ==>
          && (rows[i].status.Created? <==> rows[i].orderId.None?)
          && (rows[i].status.Completed? ==> rows[i].completedAt.Some?))
    && (forall i, j :: 0 <= i < j < |rows| && rows[i].orderId.Some? ==> rows[i].orderId != rows[j].orderId)
  }

  /** What no later operation changes of a transaction: who it is for, and its order once bound. */
  ghost predicate Keeps(before: seq<FiatTx>, after: seq<FiatTx>) {
    && |before| <= |after|
    && forall i :: 0 <= i < |before| ==>
         && after[i].user == before[i].user && after[i].kind == before[i].kind && after[i].wallet == before[i].wallet
         && (before[i].orderId.Some? ==> after[i].orderId == before[i].orderId)
         && (before[i].completedAt.Some? ==> after[i].completedAt.Some?)
  }

  /** A webhook's target is the row bound to its order, or else an unbound one. */
  lemma TargetIsFree(rows: seq<FiatTx>, w: Webhook)
    requires Bound(rows) && Target(rows, w).Some?
    ensures var i := Target(rows, w).value;
      && i < |rows|
      && (rows[i].orderId.None? || rows[i].orderId == Some(w.orderId))
      && forall j :: 0 <= j < |rows| && j != i ==> rows[j].orderId != Some(w.orderId)
  {
    FindBoundFinds(rows, w.orderId);
    FindNewestFinds(rows, Text.Lower(w.wallet));
  }

  lemma StepKeeps(rows: seq<FiatTx>, op: Op)
    requires Bound(rows)
    ensures Keeps(rows, Step(rows, op))
  {
    if op.Notify? && Target(rows, op.w).Some? {
      TargetIsFree(rows, op.w);
    }
  }

  lemma StepBinds(rows: seq<FiatTx>, op: Op)
    requires Bound(rows)
    ensures Bound(Step(rows, op))
  {
    if op.Notify? && Target(rows, op.w).Some? {
      TargetIsFree(rows, op.w);
      var i := Target(rows, op.w).value;
      var after := Step(rows, op);
      assert after[i].orderId == Some(op.w.orderId) && !after[i].status.Created?;
      assert forall j :: 0 <= j < |rows| && j != i ==> after[j] == rows[j];
    }
  }

  lemma {:induction false} RunBinds(ops: seq<Op>)
    ensures Bound(Run(ops))
  {
    if ops != [] {
      RunBinds(ops[..|ops| - 1]);
      StepBinds(Run(ops[..|ops| - 1]), ops[|ops| - 1]);
    }
  }

  lemma {:induction false} RunKeeps(ops: seq<Op>, n: nat)
    requires n <= |ops|
    ensures Keeps(Run(ops[..n]), Run(ops))
    decreases |ops| - n
  {
    if n == |ops| {
      assert ops[..n] == ops;
    } else {
      RunKeeps(ops, n + 1);
      assert ops[..n + 1][..n] == ops[..n];
      RunBinds(ops[..n]);
      StepKeeps(Run(ops[..n]), ops[n]);
    }
  }

  /** Once an order is bound, every later webhook for it, in any run, goes to the same
      transaction, whatever wallet it names. */
  lemma OrderStaysBound(ops: seq<Op>, n: nat, i: nat, w: Webhook)
    requires n <= |ops| && i < |Run(ops[..n])| && Run(ops[..n])[i].orderId == Some(w.orderId)
    ensures Target(Run(ops), w) == Some(i)
  {
    RunKeeps(ops, n);
    RunBinds(ops);
    FindBoundFinds(Run(ops), w.orderId);
  }

  /** The first webhook of an order takes the newest unbound transaction of its wallet,
      and none is taken when the wallet has no such transaction. */
  ghost predicate TakesNewest(rows: seq<FiatTx>, w: Webhook) {
    var wallet := Text.Lower(w.wallet);
    match Target(rows, w)
    case Some(i) =>
      && i < |rows| && rows[i].orderId.None? && rows[i].wallet == wallet
      && forall j :: i < j < |rows| && rows[j].wallet == wallet ==> rows[j].orderId.Some?
    case None => forall i :: 0 <= i < |rows| && rows[i].wallet == wallet ==> rows[i].orderId.Some?
  }

  lemma UnboundOrderTakesNewest(rows: seq<FiatTx>, w: Webhook)
    requires Bound(rows) && forall i :: 0 <= i < |rows| ==> rows[i].orderId != Some(w.orderId)
    ensures TakesNewest(rows, w)
  {
    FindBoundFinds(rows, w.orderId);
    FindNewestFinds(rows, Text.Lower(w.wallet));
  }

  lemma FirstWebhookTakesNewest(ops: seq<Op>, w: Webhook)
    requires forall i :: 0 <= i < |Run(ops)| ==> Run(ops)[i].orderId != Some(w.orderId)
    ensures TakesNewest(Run(ops), w)
  {
    RunBinds(ops);
    UnboundOrderTakesNewest(Run(ops), w);
  }
}
