/** The oracle: it collects an agent's transactions from its connectors, validates
    them and signs an attestation over a canonical payload. */
module Oracle {
  import opened Wrappers
  import opened Decimals
  import opened Permutations
  import opened Sums
  import Text

  /** netAmount is what the connector reports after fees. */
  datatype Txn = Txn(id: string, netAmount: Dec)

  /** What a connector answers: transactions, a ConnectorError, or any other exception. */
  datatype Answer = Fetched(txns: seq<Txn>) | ConnectorError | Crashed

  /** A registered connector and its answer for the window, in registration order. */
  datatype Source = Source(key: string, agent: string, kind: string, answer: Answer)

  /** sources are the kinds of the connectors that answered, errors the keys of those that did not. */
  datatype Aggregated = Aggregated(
    agent: string,
    total: Dec,
    currency: string,
    count: nat,
    sources: seq<string>,
    txns: seq<Txn>,
    start: int,
    end: int,
    errors: seq<string>)

  // ----- Aggregation -----

  predicate Raises(sources: seq<Source>, agent: string) {
    exists i :: 0 <= i < |sources| && sources[i].agent == agent && sources[i].answer.Crashed?
  }

  predicate Answered(s: Source, agent: string) {
    s.agent == agent && s.answer.Fetched?
  }

  function TxnsOf(s: Source, agent: string): seq<Txn> {
    if Answered(s, agent) then s.answer.txns else []
  }

  /** The transactions of the agent's connectors that answered, in order. */
  function Collected(sources: seq<Source>, agent: string): seq<Txn> {
    if sources == [] then []
    else
      var s := sources[|sources| - 1];
      Collected(sources[..|sources| - 1], agent) + TxnsOf(s, agent)
  }

  /** The kinds of the agent's connectors that answered. */
  function Reporting(sources: seq<Source>, agent: string): seq<string> {
    if sources == [] then []
    else
      var s := sources[|sources| - 1];
      Reporting(sources[..|sources| - 1], agent) + (if Answered(s, agent) then [s.kind] else [])
  }

  /** The keys of the agent's connectors that failed. */
  function Failing(sources: seq<Source>, agent: string): seq<string> {
    if sources == [] then []
    else
      var s := sources[|sources| - 1];
      Failing(sources[..|sources| - 1], agent)
      + (if s.agent == agent && s.answer.ConnectorError? then [s.key] else [])
  }

  lemma {:induction false} NothingCollected(sources: seq<Source>, agent: string)
    requires forall i :: 0 <= i < |sources| ==> !Answered(sources[i], agent)
    ensures Collected(sources, agent) == []
  {
    if sources != [] {
      NothingCollected(sources[..|sources| - 1], agent);
    }
  }

  function Amounts(txns: seq<Txn>): seq<Dec> {
    seq(|txns|, i requires 0 <= i < |txns| => txns[i].netAmount)
  }

  function Ids(txns: seq<Txn>): seq<string> {
    seq(|txns|, i requires 0 <= i < |txns| => txns[i].id)
  }

  // ----- Canonical payload -----

  datatype Payload = Payload(
    agent: string, total: Dec, currency: string, count: nat, start: int, end: int, ids: seq<string>)

  /** SHA-256 taken as injective on payloads. */
  datatype DataHash = Sha256(payload: Payload)

  function ComputeDataHash(agg: Aggregated): DataHash {
    Sha256(Payload(agg.agent, agg.total, agg.currency, agg.count, agg.start, agg.end, Text.Sort(Ids(agg.txns))))
  }

  // ----- Validation -----

  ghost predicate DistinctIds(txns: seq<Txn>) {
    forall i, j :: 0 <= i < j < |txns| ==> txns[i].id != txns[j].id
  }

  function Seen(txns: seq<Txn>): set<string> {
    set id | id in Ids(txns)
  }

  lemma DistinctSnoc(txns: seq<Txn>, t: Txn)
    ensures Seen(txns + [t]) == Seen(txns) + {t.id}
    ensures DistinctIds(txns + [t]) <==> DistinctIds(txns) && t.id !in Seen(txns)
  {
    var all := txns + [t];
    assert Ids(all) == Ids(txns) + [t.id];
    assert all[|txns|] == t && forall i :: 0 <= i < |txns| ==> all[i] == txns[i];
    forall i | 0 <= i < |txns|
      ensures txns[i].id in Ids(txns)
    {
      assert Ids(txns)[i] == txns[i].id;
    }
    if t.id in Ids(txns) {
      var i :| 0 <= i < |txns| && Ids(txns)[i] == t.id;
      assert all[i].id == all[|txns|].id;
    }
  }

  lemma DistinctPrefix(txns: seq<Txn>, i: nat)
    requires i <= |txns|
    ensures DistinctIds(txns) ==> DistinctIds(txns[..i])
  {
  }

  ghost predicate Valid(agg: Aggregated, minimum: Dec) {
    && !Below(agg.total, ZERO) && agg.count > 0 && !Below(agg.total, minimum)
    && DistinctIds(agg.txns)
  }

  lemma ValidIsNumeric(agg: Aggregated, minimum: Dec, t: nat)
    requires agg.total.scale <= t && minimum.scale <= t
    ensures Valid(agg, minimum) <==>
      && At(agg.total, t) >= 0 && At(agg.total, t) >= At(minimum, t) && agg.count > 0 && DistinctIds(agg.txns)
  {
    BelowIsOrder(agg.total, ZERO, t);
    BelowIsOrder(agg.total, minimum, t);
  }

  // ----- The service -----

  /** What the signer makes of the configured key: none is set, it cannot sign, or it can. */
  datatype SigningKey = NoKey | BadKey | GoodKey

  /** minimum is min_report_amount_usd. */
  datatype OracleConfig = OracleConfig(
    minimum: Dec,
    key: SigningKey,
    pollInterval: nat,
    maxRetries: nat,
    backoffBase: nat)

  datatype Attestation = Attestation(revenue: Aggregated, dataHash: DataHash, nonce: nat)

  datatype Processed = Failed | NothingToReport | Attested(attestation: Attestation)

  /** What the agent's connectors collect for the window, when none of them crashes. */
  function Aggregate(sources: seq<Source>, agent: string, since: int, until: int): Aggregated {
    var txns := Collected(sources, agent);
    Aggregated(agent, Total(Amounts(txns)), "USD", |txns|, Reporting(sources, agent), txns, since, until,
               Failing(sources, agent))
  }

  /** One more connector: its transactions are appended, or its failure is noted. */
  lemma AggregateSnoc(sources: seq<Source>, s: Source, agent: string, since: int, until: int)
    ensures var agg := Aggregate(sources, agent, since, until);
      Aggregate(sources + [s], agent, since, until)
      == if s.agent != agent then agg
         else match s.answer
           case Fetched(txns) =>
             agg.(txns := agg.txns + txns, count := |agg.txns + txns|, total := Total(Amounts(agg.txns + txns)),
                  sources := agg.sources + [s.kind])
           case ConnectorError => agg.(errors := agg.errors + [s.key])
           case Crashed => agg
  {
    assert (sources + [s])[..|sources|] == sources;
    assert Collected(sources, agent) + [] == Collected(sources, agent);
    assert Reporting(sources, agent) + [] == Reporting(sources, agent);
    assert Failing(sources, agent) + [] == Failing(sources, agent);
  }

  class OracleService {
    const config: OracleConfig
    var nonceCounter: nat

    constructor (config: OracleConfig)
      ensures this.config == config && nonceCounter == 0
    {
      this.config, nonceCounter := config, 0;
    }

    /** Adds one connector's transactions to the running aggregate. */
    static method AddTransactions(agg: Aggregated, txns: seq<Txn>) returns (out: Aggregated)
      requires agg.total == Total(Amounts(agg.txns)) && agg.count == |agg.txns|
      ensures out == agg.(txns := agg.txns + txns, count := |agg.txns + txns|,
                          total := Total(Amounts(agg.txns + txns)))
    {
      out := agg.(txns := agg.txns + txns);
      assert agg.txns + txns[..0] == agg.txns;
      for i := 0 to |txns|
        invariant out == agg.(txns := agg.txns + txns, count := |agg.txns| + i,
                              total := Total(Amounts(agg.txns + txns[..i])))
      {
        assert Amounts(agg.txns + txns[..i + 1]) == Amounts(agg.txns + txns[..i]) + [txns[i].netAmount];
        out := out.(total := Add(out.total, txns[i].netAmount));
        out := out.(count := out.count + 1);
      }
      assert txns[..|txns|] == txns;
    }

    /** None is any exception other than ConnectorError, which ends the cycle. */
    method AggregateRevenue(sources: seq<Source>, agent: string, since: int, until: int)
      returns (r: Option<Aggregated>)
      ensures r.None? <==> Raises(sources, agent)
      ensures r.Some? ==> r.value == Aggregate(sources, agent, since, until)
    {
      var result := Aggregated(agent, ZERO, "USD", 0, [], [], since, until, []);
      for i := 0 to |sources|
        invariant result == Aggregate(sources[..i], agent, since, until)
        invariant !Raises(sources[..i], agent)
      {
        var s := sources[i];
        assert sources[..i + 1] == sources[..i] + [s];
        AggregateSnoc(sources[..i], s, agent, since, until);
        if s.agent == agent {
          match s.answer {
            case Fetched(txns) =>
              result := AddTransactions(result, txns);
              result := result.(sources := result.sources + [s.kind]);
            case ConnectorError =>
              result := result.(errors := result.errors + [s.key]);
            case Crashed =>
              return None;
          }
        }
      }
      assert sources[..|sources|] == sources;
      return Some(result);
    }

    method ValidateRevenue(agg: Aggregated) returns (ok: bool)
      ensures ok <==> Valid(agg, config.minimum)
      ensures forall t: nat :: agg.total.scale <= t && config.minimum.scale <= t ==>
        (ok <==> && At(agg.total, t) >= 0 && At(agg.total, t) >= At(config.minimum, t)
                 && agg.count > 0 && DistinctIds(agg.txns))
    {
      forall t: nat | agg.total.scale <= t && config.minimum.scale <= t {
        ValidIsNumeric(agg, config.minimum, t);
      }
      if Below(agg.total, ZERO) || agg.count == 0 || Below(agg.total, config.minimum) {
        return false;
      }
      var seen: set<string> := {};
      for i := 0 to |agg.txns|
        invariant seen == Seen(agg.txns[..i]) && DistinctIds(agg.txns[..i])
      {
        var txn := agg.txns[i];
        assert agg.txns[..i + 1] == agg.txns[..i] + [txn];
        DistinctSnoc(agg.txns[..i], txn);
        if txn.id in seen {
          DistinctPrefix(agg.txns, i + 1);
          return false;
        }
        seen := seen + {txn.id};
      }
      assert agg.txns[..|agg.txns|] == agg.txns;
      return true;
    }

    /** Every signature takes a fresh nonce, one that fails as well; None is an exception. */
    method SignAttestation(agg: Aggregated) returns (a: Option<Attestation>)
      modifies this
      ensures nonceCounter == old(nonceCounter) + (if config.key.NoKey? then 0 else 1)
      ensures a == if config.key.GoodKey? then Some(Attestation(agg, ComputeDataHash(agg), nonceCounter)) else None
    {
      if config.key.NoKey? {
        return None;
      }
      var dataHash := ComputeDataHash(agg);
      nonceCounter := nonceCounter + 1;
      if config.key.BadKey? {
        return None;
      }
      return Some(Attestation(agg, dataHash, nonceCounter));
    }

    /** Aggregate, validate, sign. Failed is an exception: a connector crashed, or
        there is revenue to report but no key to sign it with. */
    method ProcessAgent(sources: seq<Source>, agent: string, since: int, until: int) returns (p: Processed)
      modifies this
      ensures var agg := Aggregate(sources, agent, since, until);
        && (p.Failed? <==> Raises(sources, agent) || (Valid(agg, config.minimum) && !config.key.GoodKey?))
        && (p.NothingToReport? <==> !Raises(sources, agent) && !Valid(agg, config.minimum))
        && (p.Attested? ==> p.attestation == Attestation(agg, ComputeDataHash(agg), nonceCounter))
      ensures nonceCounter == old(nonceCounter) || (nonceCounter == old(nonceCounter) + 1 && !p.NothingToReport?)
      ensures p.Attested? ==> nonceCounter > old(nonceCounter)
    {
      var aggregated := AggregateRevenue(sources, agent, since, until);
      if aggregated.None? {
        return Failed;
      }
      var ok := ValidateRevenue(aggregated.value);
      if !ok {
        return NothingToReport;
      }
      var attestation := SignAttestation(aggregated.value);
      if attestation.None? {
        return Failed;
      }
      return Attested(attestation.value);
    }
  }

  // ----- What the payload depends on -----

  /** Two aggregates hash alike exactly when they agree on agent, window, total (as
      printed), count, currency and the transaction ids as a multiset. */
  lemma HashIffSameRevenue(a: Aggregated, b: Aggregated)
    ensures ComputeDataHash(a) == ComputeDataHash(b) <==>
      && a.agent == b.agent && a.total == b.total && a.currency == b.currency && a.count == b.count
      && a.start == b.start && a.end == b.end && multiset(Ids(a.txns)) == multiset(Ids(b.txns))
  {
    Text.SortPermutes(Ids(a.txns), Ids(b.txns));
  }

  lemma ColumnsWithout(t: seq<Txn>, i: nat)
    requires i < |t|
    ensures Ids(Without(t, i)) == Without(Ids(t), i)
    ensures Amounts(Without(t, i)) == Without(Amounts(t), i)
  {
  }

  lemma {:induction false} ColumnsPermute(s: seq<Txn>, t: seq<Txn>)
    requires multiset(s) == multiset(t)
    ensures multiset(Ids(s)) == multiset(Ids(t)) && multiset(Amounts(s)) == multiset(Amounts(t))
  {
    SameLength(s, t);
    if s != [] {
      var n := |s| - 1;
      var i := MatchLast(s, t);
      assert Without(s, n) == s[..n];
      ColumnsPermute(s[..n], Without(t, i));
      ColumnsWithout(s, n);
      ColumnsWithout(t, i);
      WithoutMultiset(Ids(s), n);
      WithoutMultiset(Ids(t), i);
      WithoutMultiset(Amounts(s), n);
      WithoutMultiset(Amounts(t), i);
    }
  }

  /** How often x is among the transactions collected. */
  ghost function Count(sources: seq<Source>, agent: string, x: Txn): nat {
    if sources == [] then 0
    else Count(sources[..|sources| - 1], agent, x) + multiset(TxnsOf(sources[|sources| - 1], agent))[x]
  }

  lemma {:induction false} CountCollected(sources: seq<Source>, agent: string, x: Txn)
    ensures multiset(Collected(sources, agent))[x] == Count(sources, agent, x)
  {
    if sources != [] {
      CountCollected(sources[..|sources| - 1], agent, x);
    }
  }

  lemma CountSnoc(sources: seq<Source>, s: Source, agent: string, x: Txn)
    ensures Count(sources + [s], agent, x) == Count(sources, agent, x) + multiset(TxnsOf(s, agent))[x]
  {
    assert (sources + [s])[..|sources|] == sources;
  }

  lemma {:induction false} CountWithout(sources: seq<Source>, i: nat, agent: string, x: Txn)
    requires i < |sources|
    ensures Count(sources, agent, x) == Count(Without(sources, i), agent, x) + multiset(TxnsOf(sources[i], agent))[x]
  {
    var front, last := sources[..|sources| - 1], sources[|sources| - 1];
    if i == |front| {
      assert Without(sources, i) == front;
    } else {
      WithoutBeforeLast(sources, i);
      CountSnoc(Without(front, i), last, agent, x);
      CountWithout(front, i, agent, x);
    }
  }

  lemma {:induction false} CountPermutes(s: seq<Source>, t: seq<Source>, agent: string, x: Txn)
    requires multiset(s) == multiset(t)
    ensures Count(s, agent, x) == Count(t, agent, x)
  {
    SameLength(s, t);
    if s != [] {
      var i := MatchLast(s, t);
      CountPermutes(s[..|s| - 1], Without(t, i), agent, x);
      CountWithout(t, i, agent, x);
    }
  }

  /** Connectors registered in another order collect the same transactions. */
  lemma CollectedPermutes(s: seq<Source>, t: seq<Source>, agent: string)
    requires multiset(s) == multiset(t)
    ensures multiset(Collected(s, agent)) == multiset(Collected(t, agent))
  {
    forall x
      ensures multiset(Collected(s, agent))[x] == multiset(Collected(t, agent))[x]
    {
      CountCollected(s, agent, x);
      CountCollected(t, agent, x);
      CountPermutes(s, t, agent, x);
    }
  }

  /** The attested payload depends only on the agent, the window and the multiset of
      transactions: the order of connectors, and of transactions within them, is
      invisible in the hash, printed total included. */
  lemma PayloadIsCanonical(s: seq<Source>, t: seq<Source>, agent: string, since: int, until: int)
    requires multiset(s) == multiset(t) || multiset(Collected(s, agent)) == multiset(Collected(t, agent))
    ensures ComputeDataHash(Aggregate(s, agent, since, until)) == ComputeDataHash(Aggregate(t, agent, since, until))
  {
    var a, b := Aggregate(s, agent, since, until), Aggregate(t, agent, since, until);
    if multiset(s) == multiset(t) {
      CollectedPermutes(s, t, agent);
    }
    ColumnsPermute(a.txns, b.txns);
    TotalPermutes(Amounts(a.txns), Amounts(b.txns));
    SameLength(a.txns, b.txns);
    HashIffSameRevenue(a, b);
  }

  /** With failing connectors the attested total is still the exact sum over the
      transactions that were collected. */
  lemma TotalOfCollected(sources: seq<Source>, agent: string, since: int, until: int, scale: nat)
    requires Covers(scale, Amounts(Collected(sources, agent)))
    ensures var agg := Aggregate(sources, agent, since, until);
      && agg.total.scale <= scale && At(agg.total, scale) == Sum(Terms(Amounts(Collected(sources, agent)), scale))
      && agg.count == |Collected(sources, agent)| && agg.currency == "USD"
  {
    TotalIsExact(Amounts(Collected(sources, agent)), scale);
  }

  /** A collection is accepted exactly when it is not empty, repeats no id, and sums to
      at least zero and at least the minimum. */
  lemma ValidIffEnough(sources: seq<Source>, agent: string, since: int, until: int, minimum: Dec, scale: nat)
    requires Covers(scale, Amounts(Collected(sources, agent))) && minimum.scale <= scale
    ensures var txns := Collected(sources, agent); var sum := Sum(Terms(Amounts(txns), scale));
      Valid(Aggregate(sources, agent, since, until), minimum) <==>
      txns != [] && DistinctIds(txns) && 0 <= sum && At(minimum, scale) <= sum
  {
    var agg := Aggregate(sources, agent, since, until);
    TotalOfCollected(sources, agent, since, until, scale);
    ValidIsNumeric(agg, minimum, scale);
  }

  /** What is collected is what the agent's own connectors answered, and nothing else. */
  lemma {:induction false} CollectedIff(sources: seq<Source>, agent: string, x: Txn)
    ensures x in Collected(sources, agent) <==>
      exists i :: 0 <= i < |sources| && Holds(sources[i], agent, x)
  {
    if sources != [] {
      var n := |sources| - 1;
      CollectedIff(sources[..n], agent, x);
      if i :| 0 <= i < n && Holds(sources[i], agent, x) {
        assert Holds(sources[..n][i], agent, x);
      }
    }
  }

  predicate Holds(s: Source, agent: string, x: Txn) {
    s.agent == agent && s.answer.Fetched? && x in s.answer.txns
  }

  /** The payload names the agent, the window, the exact printed total and the count, and
      lists every transaction id in code point order. */
  lemma PayloadLists(agg: Aggregated)
    ensures var p := ComputeDataHash(agg).payload;
      && p.agent == agg.agent && p.start == agg.start && p.end == agg.end
      && p.total == agg.total && p.count == agg.count && p.currency == agg.currency
      && Text.Sorted(p.ids) && multiset(p.ids) == multiset(Ids(agg.txns))
  {
    Text.SortSorts(Ids(agg.txns));
  }

  /** The agent's connectors. */
  function Own(sources: seq<Source>, agent: string): seq<Source> {
    if sources == [] then []
    else
      var s := sources[|sources| - 1];
      Own(sources[..|sources| - 1], agent) + (if s.agent == agent then [s] else [])
  }

  /** No connector of the agent is passed over in silence: each either reports, with all
      its transactions collected, or is listed as failing. */
  lemma {:induction false} EveryConnectorAccounted(sources: seq<Source>, agent: string, i: nat)
    requires !Raises(sources, agent) && i < |sources| && sources[i].agent == agent
    ensures var s := sources[i];
      && (s.answer.ConnectorError? ==> s.key in Failing(sources, agent))
      && (s.answer.Fetched? ==> s.kind in Reporting(sources, agent))
      && (s.answer.Fetched? ==> multiset(s.answer.txns) <= multiset(Collected(sources, agent)))
    ensures |Reporting(sources, agent)| + |Failing(sources, agent)| == |Own(sources, agent)|
  {
    var n := |sources| - 1;
    assert !Raises(sources[..n], agent);
    if i < n {
      EveryConnectorAccounted(sources[..n], agent, i);
    } else {
      SplitOwn(sources[..n], agent);
    }
  }

  lemma {:induction false} SplitOwn(sources: seq<Source>, agent: string)
    requires !Raises(sources, agent)
    ensures |Reporting(sources, agent)| + |Failing(sources, agent)| == |Own(sources, agent)|
  {
    if sources != [] {
      assert !Raises(sources[..|sources| - 1], agent);
      SplitOwn(sources[..|sources| - 1], agent);
    }
  }
}
