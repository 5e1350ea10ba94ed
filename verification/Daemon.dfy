/** The bridge daemon: it polls each agent over consecutive time windows, submits
    what the oracle attests and remembers what was acknowledged. */
module Daemon {
  import opened Wrappers
  import opened Oracle

  // ----- Submitting with retries -----

  /** What one submission attempt yields: no receipt (logged only, or gas price too
      high), a receipt with its status, or an exception. */
  datatype Receipt = NoReceipt | Mined(status: int) | Raised

  predicate Acknowledges(r: Receipt) {
    r.NoReceipt? || (r.Mined? && r.status == 1)
  }

  /** The environment's answer to each attempt, counted from 1. */
  type Replies = nat -> Receipt

  ghost predicate AcknowledgedWithin(replies: Replies, attempts: int) {
    exists i :: 1 <= i <= attempts && Acknowledges(replies(i))
  }

  function Pow2(n: nat): nat {
    if n == 0 then 1 else 2 * Pow2(n - 1)
  }

  // ----- Poll windows -----

  /** One agent's cycle: the clock reading, and what its connectors and the chain answer. */
  datatype Cycle = Cycle(agent: string, now: int, sources: seq<Source>, replies: Replies)

  /** A window the daemon has moved past, with what it was answered then and the hash
      acknowledged for it, if any. */
  datatype Window = Window(
    agent: string,
    start: int,
    end: int,
    sources: seq<Source>,
    replies: Replies,
    report: Option<DataHash>)

  /** lastPoll and submitted are the daemon's fields; windows is its history. */
  datatype State = State(lastPoll: map<string, int>, submitted: set<DataHash>, windows: seq<Window>)

  const START := State(map[], {}, [])

  function Since(s: State, agent: string, now: int, interval: nat): int {
    if agent in s.lastPoll then s.lastPoll[agent] else now - interval
  }

  /** What the cycle collects. */
  function Revenue(s: State, c: Cycle, config: OracleConfig): Aggregated {
    Aggregate(c.sources, c.agent, Since(s, c.agent, c.now, config.pollInterval), c.now)
  }

  /** The cycle fails: a connector crashes, or there is revenue to report and it cannot
      be signed or, unless it was reported before, no attempt is acknowledged. */
  ghost predicate Fails(s: State, c: Cycle, config: OracleConfig) {
    var agg := Revenue(s, c, config);
    || Raises(c.sources, c.agent)
    || (&& Valid(agg, config.minimum)
        && (!config.key.GoodKey?
            || (ComputeDataHash(agg) !in s.submitted && !AcknowledgedWithin(c.replies, config.maxRetries))))
  }

  /** The cycle has something to report that was not reported before. */
  ghost predicate Reports(s: State, c: Cycle, config: OracleConfig) {
    var agg := Revenue(s, c, config);
    Valid(agg, config.minimum) && ComputeDataHash(agg) !in s.submitted
  }

  /** A cycle that fails leaves its window open; any other moves past it, and remembers
      the report if there was one. */
  ghost function Step(s: State, c: Cycle, config: OracleConfig): State {
    if Fails(s, c, config) then s
    else
      var agg := Revenue(s, c, config);
      var report := if Reports(s, c, config) then Some(ComputeDataHash(agg)) else None;
      State(s.lastPoll[c.agent := c.now],
            s.submitted + (if report.Some? then {report.value} else {}),
            s.windows + [Window(c.agent, agg.start, c.now, c.sources, c.replies, report)])
  }

  ghost function Run(s: State, cycles: seq<Cycle>, config: OracleConfig): State {
    if cycles == [] then s
    else Step(Run(s, cycles[..|cycles| - 1], config), cycles[|cycles| - 1], config)
  }

  class BridgeDaemon {
    const oracle: OracleService
    var lastPoll: map<string, int>
    var submittedHashes: set<DataHash>
    ghost var windows: seq<Window>

    constructor (config: OracleConfig)
      ensures oracle.config == config && fresh(oracle) && Now() == START
    {
      oracle := new OracleService(config);
      lastPoll, submittedHashes, windows := map[], {}, [];
    }

    ghost function Now(): State
      reads this
    {
      State(lastPoll, submittedHashes, windows)
    }

    /** Stops at the first acknowledgement; between attempts it sleeps base, 2 base, 4 base... */
    method SubmitWithRetries(replies: Replies) returns (submitted: bool, attempts: nat, slept: nat)
      ensures submitted <==> AcknowledgedWithin(replies, oracle.config.maxRetries)
      ensures submitted <==>
        exists i :: 1 <= i <= oracle.config.maxRetries && (replies(i) == NoReceipt || replies(i) == Mined(1))
      ensures attempts <= oracle.config.maxRetries && !AcknowledgedWithin(replies, attempts - 1)
      ensures submitted ==> attempts >= 1 && Acknowledges(replies(attempts))
      ensures !submitted ==> attempts == oracle.config.maxRetries
      ensures attempts >= 1 ==> slept == oracle.config.backoffBase * (Pow2(attempts - 1) - 1)
    {
      attempts, slept := 0, 0;
      while attempts < oracle.config.maxRetries
        invariant attempts <= oracle.config.maxRetries && !AcknowledgedWithin(replies, attempts)
        invariant slept == if attempts < oracle.config.maxRetries then oracle.config.backoffBase * (Pow2(attempts) - 1)
                           else if attempts == 0 then 0 else oracle.config.backoffBase * (Pow2(attempts - 1) - 1)
      {
        attempts := attempts + 1;
        if Acknowledges(replies(attempts)) {
          return true, attempts, slept;
        }
        if attempts < oracle.config.maxRetries {
          slept := slept + oracle.config.backoffBase * Pow2(attempts - 1);
        }
      }
      return false, attempts, slept;
    }

    /** One agent's cycle at time now, given what its connectors and the chain answer. */
    method ProcessAgent(agent: string, now: int, sources: seq<Source>, replies: Replies)
      modifies this, oracle
      ensures Now() == Step(old(Now()), Cycle(agent, now, sources, replies), oracle.config)
    {
      var since := if agent in lastPoll then lastPoll[agent] else now - oracle.config.pollInterval;
      var processed := oracle.ProcessAgent(sources, agent, since, now);
      match processed {
        case Failed =>
        case NothingToReport =>
          lastPoll := lastPoll[agent := now];
          windows := windows + [Window(agent, since, now, sources, replies, None)];
        case Attested(attestation) =>
          if attestation.dataHash in submittedHashes {
            lastPoll := lastPoll[agent := now];
            windows := windows + [Window(agent, since, now, sources, replies, None)];
            return;
          }
          var submitted, attempts, slept := SubmitWithRetries(replies);
          if submitted {
            submittedHashes := submittedHashes + {attestation.dataHash};
            lastPoll := lastPoll[agent := now];
            windows := windows + [Window(agent, since, now, sources, replies, Some(attestation.dataHash))];
          }
      }
    }

    /** One poll: a cycle for each registered agent, in any order. */
    method PollCycle(cycles: seq<Cycle>)
      modifies this, oracle
      ensures Now() == Run(old(Now()), cycles, oracle.config)
    {
      for i := 0 to |cycles|
        invariant Now() == Run(old(Now()), cycles[..i], oracle.config)
      {
        assert cycles[..i + 1][..i] == cycles[..i];
        ProcessAgent(cycles[i].agent, cycles[i].now, cycles[i].sources, cycles[i].replies);
      }
      assert cycles[..|cycles|] == cycles;
    }
  }

  // ----- Windows tile time -----

  ghost predicate ClockMonotone(cycles: seq<Cycle>) {
    forall i, j :: 0 <= i < j < |cycles| ==> cycles[i].now <= cycles[j].now
  }

  /** One agent's windows, oldest first. */
  function WindowsOf(windows: seq<Window>, agent: string): seq<Window> {
    if windows == [] then []
    else
      var w := windows[|windows| - 1];
      WindowsOf(windows[..|windows| - 1], agent) + (if w.agent == agent then [w] else [])
  }

  lemma WindowsSnoc(windows: seq<Window>, w: Window, agent: string)
    ensures WindowsOf(windows + [w], agent) == WindowsOf(windows, agent) + (if w.agent == agent then [w] else [])
  {
    assert (windows + [w])[..|windows|] == windows;
  }

  /** Windows run forwards, each starts where the one before ended, and the last ends at last. */
  ghost predicate Tiled(ws: seq<Window>, last: int) {
    && (forall i :: 0 <= i < |ws| ==> ws[i].start <= ws[i].end)
    && (forall i :: 0 <= i < |ws| - 1 ==> ws[i].end == ws[i + 1].start)
    && (ws != [] ==> ws[|ws| - 1].end == last)
  }

  ghost predicate TilesTime(s: State, now: int) {
    forall a :: AgentTiled(s, a, now)
  }

  ghost predicate AgentTiled(s: State, a: string, now: int) {
    && (a in s.lastPoll <==> WindowsOf(s.windows, a) != [])
    && (a in s.lastPoll ==> s.lastPoll[a] <= now && Tiled(WindowsOf(s.windows, a), s.lastPoll[a]))
  }

  /** Adding a window that starts at its agent's last poll, or is its first. */
  lemma WindowAdded(s: State, a: string, before: int, w: Window)
    requires AgentTiled(s, a, before) && before <= w.end && w.start <= w.end
    requires w.agent in s.lastPoll ==> w.start == s.lastPoll[w.agent]
    ensures AgentTiled(State(s.lastPoll[w.agent := w.end], s.submitted, s.windows + [w]), a, w.end)
  {
    WindowsSnoc(s.windows, w, a);
  }

  lemma StepTiles(s: State, before: int, c: Cycle, config: OracleConfig)
    requires TilesTime(s, before) && before <= c.now
    ensures TilesTime(Step(s, c, config), c.now)
  {
    var after := Step(s, c, config);
    forall a
      ensures AgentTiled(after, a, c.now)
    {
      assert AgentTiled(s, a, before) && AgentTiled(s, c.agent, before);
      if !Fails(s, c, config) {
        WindowAdded(s, a, before, after.windows[|s.windows|]);
      }
    }
  }

  lemma {:induction false} RunTiles(cycles: seq<Cycle>, config: OracleConfig)
    requires ClockMonotone(cycles)
    ensures TilesTime(Run(START, cycles, config), if cycles == [] then 0 else cycles[|cycles| - 1].now)
  {
    if cycles != [] {
      var n := |cycles| - 1;
      RunTiles(cycles[..n], config);
      var before := if n == 0 then cycles[n].now else cycles[n - 1].now;
      StepTiles(Run(START, cycles[..n], config), before, cycles[n], config);
    }
  }

  predicate Inside(w: Window, t: int) {
    w.start < t < w.end
  }

  lemma {:induction false} TiledOrder(ws: seq<Window>, last: int, i: nat, j: nat)
    requires Tiled(ws, last) && i < j < |ws|
    ensures ws[i].end <= ws[j].start
  {
    if i + 1 < j {
      TiledOrder(ws, last, i, j - 1);
    }
  }

  lemma {:induction false} TiledCovers(ws: seq<Window>, last: int, t: int) returns (i: nat)
    requires Tiled(ws, last) && ws != [] && ws[0].start < t < last
    requires forall k :: 0 <= k < |ws| ==> t != ws[k].end
    ensures i < |ws| && Inside(ws[i], t)
  {
    var n := |ws| - 1;
    if ws[n].start < t {
      i := n;
    } else {
      assert n > 0 && ws[n - 1].end == ws[n].start;
      i := TiledCovers(ws[..n], ws[n - 1].end, t);
    }
  }

  /** Over any run with a clock that never goes back, an agent's windows tile time: a
      moment strictly between the first window's start and the last poll, and not on a
      boundary, lies in exactly one window, however many cycles failed; no moment
      lies in two. */
  lemma WindowsTileTime(cycles: seq<Cycle>, config: OracleConfig, agent: string, t: int)
    requires ClockMonotone(cycles)
    ensures var s := Run(START, cycles, config); var ws := WindowsOf(s.windows, agent);
      && (forall i, j :: 0 <= i < j < |ws| ==> !(Inside(ws[i], t) && Inside(ws[j], t)))
      && (agent in s.lastPoll <==> ws != [])
      && (ws != [] && ws[0].start < t < s.lastPoll[agent] && (forall k :: 0 <= k < |ws| ==> t != ws[k].end) ==>
            exists i :: 0 <= i < |ws| && Inside(ws[i], t))
  {
    RunTiles(cycles, config);
    var s := Run(START, cycles, config);
    var ws := WindowsOf(s.windows, agent);
    assert AgentTiled(s, agent, if cycles == [] then 0 else cycles[|cycles| - 1].now);
    forall i, j | 0 <= i < j < |ws|
      ensures !(Inside(ws[i], t) && Inside(ws[j], t))
    {
      TiledOrder(ws, s.lastPoll[agent], i, j);
    }
    if ws != [] && ws[0].start < t < s.lastPoll[agent] && forall k :: 0 <= k < |ws| ==> t != ws[k].end {
      var i := TiledCovers(ws, s.lastPoll[agent], t);
    }
  }

  /** An agent's first window reaches back one poll interval. */
  lemma {:induction false} FirstWindowReachesBack(cycles: seq<Cycle>, config: OracleConfig, agent: string)
    ensures var ws := WindowsOf(Run(START, cycles, config).windows, agent);
      && (agent in Run(START, cycles, config).lastPoll <==> ws != [])
      && (ws != [] ==> ws[0].start == ws[0].end - config.pollInterval)
  {
    if cycles != [] {
      var n := |cycles| - 1;
      FirstWindowReachesBack(cycles[..n], config, agent);
      var s := Run(START, cycles[..n], config);
      if !Fails(s, cycles[n], config) {
        WindowsSnoc(s.windows, Run(START, cycles, config).windows[|s.windows|], agent);
      }
    }
  }

  // ----- Failed cycles -----

  /** Every cycle of the agent fails. */
  ghost predicate AllFail(s: State, cycles: seq<Cycle>, agent: string, config: OracleConfig) {
    cycles == [] ||
    var n := |cycles| - 1;
    && AllFail(s, cycles[..n], agent, config)
    && (cycles[n].agent == agent ==> Fails(Run(s, cycles[..n], config), cycles[n], config))
  }

  ghost predicate AllLater(t: int, cycles: seq<Cycle>, agent: string) {
    forall i :: 0 <= i < |cycles| && cycles[i].agent == agent ==> t < cycles[i].now
  }

  lemma StepRetries(s: State, c: Cycle, config: OracleConfig, agent: string, polled: int)
    requires agent in s.lastPoll && polled <= s.lastPoll[agent] && (c.agent == agent ==> polled < c.now)
    ensures var after := Step(s, c, config);
      && agent in after.lastPoll && polled <= after.lastPoll[agent]
      && (after.lastPoll[agent] == polled <==>
            s.lastPoll[agent] == polled && (c.agent == agent ==> Fails(s, c, config)))
  {
  }

  /** Once an agent has been polled, its next window starts where it would have started
      then, however many cycles of whatever agents follow, if and only if all of its
      own failed: a failed cycle is retried from the same start, and nothing else is. */
  lemma {:induction false} RetriedFromSameStart(s: State, cycles: seq<Cycle>, agent: string, config: OracleConfig)
    requires agent in s.lastPoll && AllLater(s.lastPoll[agent], cycles, agent)
    ensures var after := Run(s, cycles, config);
      && agent in after.lastPoll && s.lastPoll[agent] <= after.lastPoll[agent]
      && (AllFail(s, cycles, agent, config) <==> after.lastPoll[agent] == s.lastPoll[agent])
  {
    if cycles != [] {
      var n := |cycles| - 1;
      RetriedFromSameStart(s, cycles[..n], agent, config);
      StepRetries(Run(s, cycles[..n], config), cycles[n], config, agent, s.lastPoll[agent]);
    }
  }

  // ----- Acknowledged once -----

  /** The remembered hashes are those acknowledged in some window, each in one window
      only, and each names the window it was acknowledged in. */
  ghost predicate AcknowledgedOnce(s: State) {
    && (forall h :: h in s.submitted <==> AcknowledgedIn(s.windows, h))
    && ReportsDistinct(s.windows)
    && (forall i :: 0 <= i < |s.windows| && s.windows[i].report.Some? ==> NamesWindow(s.windows[i]))
  }

  ghost predicate AcknowledgedIn(windows: seq<Window>, h: DataHash) {
    exists i :: 0 <= i < |windows| && windows[i].report == Some(h)
  }

  ghost predicate ReportsDistinct(windows: seq<Window>) {
    forall i, j :: 0 <= i < j < |windows| && windows[i].report.Some? ==> windows[i].report != windows[j].report
  }

  lemma AcknowledgedSnoc(windows: seq<Window>, w: Window, h: DataHash)
    ensures AcknowledgedIn(windows + [w], h) <==> AcknowledgedIn(windows, h) || w.report == Some(h)
  {
    var all := windows + [w];
    assert all[|windows|] == w && forall i :: 0 <= i < |windows| ==> all[i] == windows[i];
  }

  lemma DistinctSnoc(windows: seq<Window>, w: Window)
    requires ReportsDistinct(windows) && (w.report.Some? ==> !AcknowledgedIn(windows, w.report.value))
    ensures ReportsDistinct(windows + [w])
  {
    var all := windows + [w];
    assert all[|windows|] == w && forall i :: 0 <= i < |windows| ==> all[i] == windows[i];
  }

  ghost predicate NamesWindow(w: Window)
    requires w.report.Some?
  {
    var p := w.report.value.payload;
    p.agent == w.agent && p.start == w.start && p.end == w.end
  }

  lemma StepAcknowledgesOnce(s: State, c: Cycle, config: OracleConfig)
    requires AcknowledgedOnce(s)
    ensures AcknowledgedOnce(Step(s, c, config))
  {
    if !Fails(s, c, config) {
      var after := Step(s, c, config);
      var w := after.windows[|s.windows|];
      assert after.windows == s.windows + [w];
      DistinctSnoc(s.windows, w);
      forall h
        ensures h in after.submitted <==> AcknowledgedIn(after.windows, h)
      {
        AcknowledgedSnoc(s.windows, w, h);
      }
    }
  }

  /** Over any run no attestation is acknowledged twice. */
  lemma {:induction false} RunAcknowledgesOnce(cycles: seq<Cycle>, config: OracleConfig)
    ensures AcknowledgedOnce(Run(START, cycles, config))
  {
    if cycles != [] {
      var n := |cycles| - 1;
      RunAcknowledgesOnce(cycles[..n], config);
      StepAcknowledgesOnce(Run(START, cycles[..n], config), cycles[n], config);
    }
  }

  lemma {:induction false} WindowListed(windows: seq<Window>, k: nat) returns (i: nat)
    requires k < |windows|
    ensures var ws := WindowsOf(windows, windows[k].agent); i < |ws| && ws[i] == windows[k]
  {
    var n := |windows| - 1;
    if k == n {
      i := |WindowsOf(windows[..n], windows[k].agent)|;
    } else {
      i := WindowListed(windows[..n], k);
    }
  }

  /** The idempotency check can only fire on an empty window: an attestation whose hash
      was already acknowledged covers no time at all. */
  lemma RepeatedHashMeansEmptyWindow(cycles: seq<Cycle>, config: OracleConfig, c: Cycle)
    requires ClockMonotone(cycles + [c])
    requires var s := Run(START, cycles, config); ComputeDataHash(Revenue(s, c, config)) in s.submitted
    ensures Since(Run(START, cycles, config), c.agent, c.now, config.pollInterval) == c.now
  {
    var s := Run(START, cycles, config);
    assert forall i :: 0 <= i < |cycles| ==> (cycles + [c])[i] == cycles[i];
    assert (cycles + [c])[|cycles|] == c;
    RunTiles(cycles, config);
    RunAcknowledgesOnce(cycles, config);
    var k :| 0 <= k < |s.windows| && s.windows[k].report == Some(ComputeDataHash(Revenue(s, c, config)));
    assert NamesWindow(s.windows[k]);
    var i := WindowListed(s.windows, k);
    EndsByLast(WindowsOf(s.windows, c.agent), s, c.agent, i, if cycles == [] then 0 else cycles[|cycles| - 1].now);
  }

  lemma EndsByLast(ws: seq<Window>, s: State, agent: string, i: nat, now: int)
    requires TilesTime(s, now) && ws == WindowsOf(s.windows, agent) && i < |ws|
    ensures agent in s.lastPoll && ws[i].start <= ws[i].end <= s.lastPoll[agent] <= now
  {
    assert AgentTiled(s, agent, now);
    if i < |ws| - 1 {
      TiledOrder(ws, s.lastPoll[agent], i, |ws| - 1);
    }
  }

  // ----- What was collected is acknowledged -----

  /** What was collected in a window the daemon has moved past. */
  function Collection(w: Window): Aggregated {
    Aggregate(w.sources, w.agent, w.start, w.end)
  }

  /** Nothing crashed while the window was collected; a report is a signed, acknowledged,
      valid attestation of exactly what was collected; and unless the window is empty,
      there is no report only if there was nothing valid to report. */
  ghost predicate Accounted(w: Window, config: OracleConfig) {
    && !Raises(w.sources, w.agent)
    && (w.report.Some? ==>
          && w.report.value == ComputeDataHash(Collection(w)) && Valid(Collection(w), config.minimum)
          && config.key.GoodKey? && AcknowledgedWithin(w.replies, config.maxRetries))
    && (w.start < w.end && Valid(Collection(w), config.minimum) ==> w.report.Some?)
  }

  /** Over any run, every window moved past was reported and acknowledged exactly as
      collected, or held nothing valid, or covered no time at all. */
  lemma {:induction false} CollectedRevenueAcknowledged(cycles: seq<Cycle>, config: OracleConfig)
    requires ClockMonotone(cycles)
    ensures forall i :: 0 <= i < |Run(START, cycles, config).windows| ==>
      Accounted(Run(START, cycles, config).windows[i], config)
  {
    if cycles != [] {
      var n := |cycles| - 1;
      var s := Run(START, cycles[..n], config);
      CollectedRevenueAcknowledged(cycles[..n], config);
      if !Fails(s, cycles[n], config) && ComputeDataHash(Revenue(s, cycles[n], config)) in s.submitted {
        assert cycles == cycles[..n] + [cycles[n]];
        RepeatedHashMeansEmptyWindow(cycles[..n], config, cycles[n]);
      }
    }
  }

  /** What one cycle comes to: a crash, or revenue that cannot be signed or goes
      unacknowledged, changes nothing; nothing valid to report moves the window on; new
      signed and acknowledged revenue also becomes a submitted hash. */
  lemma CycleComesTo(s: State, c: Cycle, config: OracleConfig)
    ensures var agg := Aggregate(c.sources, c.agent, Since(s, c.agent, c.now, config.pollInterval), c.now);
      var after, h := Step(s, c, config), ComputeDataHash(agg);
      if Raises(c.sources, c.agent) then after == s
      else if !Valid(agg, config.minimum) then
        after.lastPoll == s.lastPoll[c.agent := c.now] && after.submitted == s.submitted
      else if config.key != GoodKey then after == s
      else if h in s.submitted then
        after.lastPoll == s.lastPoll[c.agent := c.now] && after.submitted == s.submitted
      else if AcknowledgedWithin(c.replies, config.maxRetries) then
        after.lastPoll == s.lastPoll[c.agent := c.now] && after.submitted == s.submitted + {h}
      else after == s
  {
  }

  /** What a connector that reports an error held is passed over, though: if all of the
      agent's do, the cycle does not fail, the window is moved past with nothing in it,
      and no later window covers that time again. */
  lemma ConnectorErrorsMovePast(s: State, c: Cycle, config: OracleConfig)
    requires forall i :: 0 <= i < |c.sources| && c.sources[i].agent == c.agent ==> c.sources[i].answer.ConnectorError?
    ensures var after := Step(s, c, config);
      && c.agent in after.lastPoll && after.lastPoll[c.agent] == c.now
      && after.windows == s.windows + [Window(c.agent, Since(s, c.agent, c.now, config.pollInterval), c.now,
                                              c.sources, c.replies, None)]
  {
    NothingCollected(c.sources, c.agent);
  }
}
