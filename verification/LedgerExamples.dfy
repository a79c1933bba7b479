/**
 Runs, step by step from an empty ledger, at which a bound that one might expect
 of the rate limiter fails, beside the exact conditions under which it holds.
 */
module LedgerExamples {
  import opened StoreKeys
  import opened FlowLedger
  import opened LedgerRuns
  import opened EpochClock
  import opened TokenInfo
  import opened ClockRuns
  import opened DrainBound
  import KVStore

  // -------------------------------------------------------- one limit in use

  const EXAMPLE_PATH := Path("uatom", "channel-0")
  const EXAMPLE_ENV := Env(map[], map["uatom" := 100])
  const EXAMPLE_MSG := LimitMsg(EXAMPLE_PATH, Quota(10, 10, 24), 1)
  const EMPTY_WORLD := World(Ledger(map[], {}, map[], map[], Start), map[], {})

  /** A packet of the example path. */
  function Packet(amount: int): PacketInfo {
    PacketInfo("channel-0", "uatom", amount, "alice", "bob")
  }

  function Example(e: Event): Step { Step(EXAMPLE_ENV, e) }

  const EXAMPLE_ID := PacketId("channel-0", 1)

  lemma ExampleChannel()
    ensures CanonicalChannel("channel-0")
  {
    assert "channel-0"[..8] == CHANNEL_PREFIX;
    assert "channel-0"[8..] == "0";
  }

  /** The example's limit with these flows. */
  function Limit(inflow: int, outflow: int): RateLimit {
    RateLimit(EXAMPLE_PATH, EXAMPLE_MSG.quota, Flow(inflow, outflow, 100), 1)
  }

  lemma ExampleThreshold(inflow: int, outflow: int, dir: Direction)
    ensures Threshold(Limit(inflow, outflow), dir) == 10
  {
  }

  /** A world that holds just the example's limit, with or without a packet of 5 out. */
  predicate Stands(w: World, inflow: int, outflow: int, out: bool) {
    && w.ledger.limits == map[EXAMPLE_PATH := Limit(inflow, outflow)]
    && w.ledger.whitelist == map[] && w.ledger.epochs == map[]
    && w.ledger.pending == (if out then {EXAMPLE_ID} else {})
    && w.inflight == (if out then map[EXAMPLE_ID := Packet(5)] else map[])
    && w.sent <= {EXAMPLE_ID} && (w.sent == {} || out)
  }

  lemma AfterAdd(w: World)
    requires w.ledger.limits == map[] && w.ledger.epochs == map[]
    ensures WellFormed(w.ledger) && Enabled(w, Add(EXAMPLE_MSG))
    ensures Apply(w, Example(Add(EXAMPLE_MSG))).ledger.limits == map[EXAMPLE_PATH := Limit(0, 0)]
    ensures var t := Apply(w, Example(Add(EXAMPLE_MSG)));
            t == w.(ledger := w.ledger.(limits := t.ledger.limits, log := t.ledger.log))
  {
    ExampleChannel();
  }

  lemma AfterSend(w: World)
    requires Stands(w, 0, 0, false)
    ensures WellFormed(w.ledger) && Enabled(w, Send(Packet(5), 1))
    ensures Stands(Apply(w, Example(Send(Packet(5), 1))), 0, 5, true)
  {
    ExampleChannel();
    ExampleThreshold(0, 0, SEND);
  }

  lemma AfterReceive(w: World)
    requires Stands(w, 0, 5, true)
    ensures WellFormed(w.ledger) && Enabled(w, Receive(Packet(15), true))
    ensures Stands(Apply(w, Example(Receive(Packet(15), true))), 15, 5, true)
  {
    ExampleChannel();
    ExampleThreshold(0, 5, RECV);
  }

  lemma AfterUpdate(w: World)
    requires Stands(w, 0, 5, true)
    ensures WellFormed(w.ledger) && Enabled(w, Update(EXAMPLE_MSG))
    ensures Stands(Apply(w, Example(Update(EXAMPLE_MSG))), 0, 0, true)
  {
    ExampleChannel();
  }

  lemma AfterRemoveAndAdd(w: World)
    requires Stands(w, 0, 5, true)
    ensures WellFormed(w.ledger) && Enabled(w, Remove(EXAMPLE_PATH))
    ensures var t := Apply(w, Example(Remove(EXAMPLE_PATH)));
            && WellFormed(t.ledger) && Enabled(t, Add(EXAMPLE_MSG))
            && Stands(Apply(t, Example(Add(EXAMPLE_MSG))), 0, 0, true)
  {
    ExampleChannel();
    assert w.ledger.limits - {EXAMPLE_PATH} == map[];
    AfterAdd(Apply(w, Example(Remove(EXAMPLE_PATH))));
  }

  lemma AfterTimeout(w: World, inflow: int, outflow: int)
    requires Stands(w, inflow, outflow, true)
    ensures WellFormed(w.ledger) && Enabled(w, Timeout(EXAMPLE_ID))
    ensures Apply(w, Example(Timeout(EXAMPLE_ID))).ledger.limits == map[EXAMPLE_PATH := Limit(inflow, outflow - 5)]
  {
    ExampleChannel();
  }

  // ----------------------------------------------------- runs given step by step

  lemma FirstStep(w: World, step: Step, run: seq<Step>)
    requires Inv(w) && Possible(w, [step] + run)
    ensures WellFormed(w.ledger) && Enabled(w, step.event) && Inv(Apply(w, step))
    ensures Possible(Apply(w, step), run) && Exec(w, [step] + run) == Exec(Apply(w, step), run)
  {
    StepKeepsInv(w, step);
    assert ([step] + run)[1..] == run;
  }

  lemma StepInFront(w: World, step: Step, run: seq<Step>)
    requires Inv(w) && Enabled(w, step.event) && Inv(Apply(w, step)) && Possible(Apply(w, step), run)
    ensures Possible(w, [step] + run) && Exec(w, [step] + run) == Exec(Apply(w, step), run)
  {
    assert ([step] + run)[1..] == run;
  }

  lemma RunOfOne(w: World, step: Step)
    requires Inv(w) && Enabled(w, step.event)
    ensures Possible(w, [step]) && Exec(w, [step]) == Apply(w, step)
  {
    hide Inv, Apply, Enabled;
    StepKeepsInv(w, step);
    StepInFront(w, step, []);
    assert [step] + [] == [step];
  }

  /** A possible run with a step at its end. */
  lemma {:induction false} RunOn(w: World, run: seq<Step>, step: Step)
    requires Inv(w) && Possible(w, run)
    requires Inv(Exec(w, run)) && Enabled(Exec(w, run), step.event)
    ensures Possible(w, run + [step]) && Exec(w, run + [step]) == Apply(Exec(w, run), step)
    decreases run
  {
    if run == [] {
      RunOfOne(w, step);
      assert [] + [step] == [step];
      return;
    }
    hide Inv, Apply, Enabled, Possible, Exec;
    assert run == [run[0]] + run[1..];
    FirstStep(w, run[0], run[1..]);
    RunOn(Apply(w, run[0]), run[1..], step);
    StepInFront(w, run[0], run[1..] + [step]);
    assert [run[0]] + (run[1..] + [step]) == run + [step];
  }

  lemma OneMoreStep(w: World, run: seq<Step>, step: Step)
    requires FromStart(w, run)
    requires WellFormed(Exec(w, run).ledger) && Enabled(Exec(w, run), step.event)
    ensures FromStart(w, run + [step]) && Exec(w, run + [step]) == Apply(Exec(w, run), step)
  {
    RunKeepsInv(w, run);
    RunOn(w, run, step);
    StartOf(w, run);
    hide *;
    IsFromStart(w, run + [step]);
  }

  lemma StartOf(w: World, run: seq<Step>)
    requires FromStart(w, run)
    ensures Initial(w) && Inv(w)
  {
  }

  lemma IsFromStart(w: World, run: seq<Step>)
    requires Initial(w) && Inv(w) && Possible(w, run)
    ensures FromStart(w, run)
  {
  }

  lemma EmptyStart()
    ensures FromStart(EMPTY_WORLD, []) && Exec(EMPTY_WORLD, []) == EMPTY_WORLD
  {
  }

  lemma FourSteps(a: Step, b: Step, c: Step, d: Step)
    requires Enabled(EMPTY_WORLD, a.event) && WellFormed(EMPTY_WORLD.ledger)
    requires var w1 := Apply(EMPTY_WORLD, a);
             && WellFormed(w1.ledger) && Enabled(w1, b.event)
             && var w2 := Apply(w1, b);
             && WellFormed(w2.ledger) && Enabled(w2, c.event)
             && var w3 := Apply(w2, c);
             && WellFormed(w3.ledger) && Enabled(w3, d.event)
    ensures FromStart(EMPTY_WORLD, [a, b, c, d])
    ensures Exec(EMPTY_WORLD, [a, b, c, d]) == Apply(Apply(Apply(Apply(EMPTY_WORLD, a), b), c), d)
  {
    hide *;
    EmptyStart();
    OneMoreStep(EMPTY_WORLD, [], a);
    assert [] + [a] == [a];
    OneMoreStep(EMPTY_WORLD, [a], b);
    assert [a] + [b] == [a, b];
    OneMoreStep(EMPTY_WORLD, [a, b], c);
    assert [a, b] + [c] == [a, b, c];
    OneMoreStep(EMPTY_WORLD, [a, b, c], d);
    assert [a, b, c] + [d] == [a, b, c, d];
  }

  // ------------------------------------------------------- the receiving side

  /** Taking a send back keeps the receiving cap exactly when there is room for its
      amount on the receiving side as well. */
  lemma UndoKeepsReceiveCapIff(s: Ledger, info: PacketInfo, id: PacketId)
    requires PathOf(info) in s.limits && id in s.pending
    ensures var p := PathOf(info);
            var t := UndoSendPacket(s, info, id);
            p in t.limits &&
            (Net(t.limits[p], RECV) <= Threshold(t.limits[p], RECV) <==>
             Net(s.limits[p], RECV) + info.amount <= Threshold(s.limits[p], RECV))
  {
  }

  /** Add a limit, send 5, receive 15, let the send time out: from an empty ledger
      this is a possible run, and the net inflow at its end is 15 where the receiving
      threshold is 10. */
  lemma ReceiveCapIsExceeded()
    ensures var run := [Example(Add(EXAMPLE_MSG)), Example(Send(Packet(5), 1)), Example(Receive(Packet(15), true)),
                        Example(Timeout(EXAMPLE_ID))];
            && FromStart(EMPTY_WORLD, run)
            && EXAMPLE_PATH in Exec(EMPTY_WORLD, run).ledger.limits
            && var limit := Exec(EMPTY_WORLD, run).ledger.limits[EXAMPLE_PATH];
               limit.flow.channelValue != 0 && Net(limit, RECV) == 15 > 10 == Threshold(limit, RECV)
  {
    var a, b := Example(Add(EXAMPLE_MSG)), Example(Send(Packet(5), 1));
    var c, d := Example(Receive(Packet(15), true)), Example(Timeout(EXAMPLE_ID));
    EmptyStart();
    hide Apply, Enabled, WellFormed, Initial, FromStart, Threshold;
    AfterAdd(EMPTY_WORLD);
    var w1 := Apply(EMPTY_WORLD, a);
    AfterSend(w1);
    var w2 := Apply(w1, b);
    AfterReceive(w2);
    var w3 := Apply(w2, c);
    AfterTimeout(w3, 15, 5);
    FourSteps(a, b, c, d);
    ExampleThreshold(15, 0, RECV);
  }

  // ---------------------------------------------------------- the outflow's cover

  /** Add a limit, send 5, update the limit, let the send time out: a possible run
      that ends with an outflow of -5. */
  lemma UpdateLeavesNegativeOutflow()
    ensures var run := [Example(Add(EXAMPLE_MSG)), Example(Send(Packet(5), 1)), Example(Update(EXAMPLE_MSG)),
                        Example(Timeout(EXAMPLE_ID))];
            && FromStart(EMPTY_WORLD, run)
            && EXAMPLE_PATH in Exec(EMPTY_WORLD, run).ledger.limits
            && Exec(EMPTY_WORLD, run).ledger.limits[EXAMPLE_PATH].flow.outflow == -5
  {
    var a, b := Example(Add(EXAMPLE_MSG)), Example(Send(Packet(5), 1));
    var c, d := Example(Update(EXAMPLE_MSG)), Example(Timeout(EXAMPLE_ID));
    EmptyStart();
    hide Apply, Enabled, WellFormed, Initial, FromStart;
    AfterAdd(EMPTY_WORLD);
    var w1 := Apply(EMPTY_WORLD, a);
    AfterSend(w1);
    var w2 := Apply(w1, b);
    AfterUpdate(w2);
    AfterTimeout(Apply(w2, c), 0, 0);
    FourSteps(a, b, c, d);
  }

  /** So does the run that removes the limit and adds it again instead. */
  lemma RemovalLeavesNegativeOutflow()
    ensures var run := [Example(Add(EXAMPLE_MSG)), Example(Send(Packet(5), 1)), Example(Remove(EXAMPLE_PATH)),
                        Example(Add(EXAMPLE_MSG)), Example(Timeout(EXAMPLE_ID))];
            && FromStart(EMPTY_WORLD, run)
            && EXAMPLE_PATH in Exec(EMPTY_WORLD, run).ledger.limits
            && Exec(EMPTY_WORLD, run).ledger.limits[EXAMPLE_PATH].flow.outflow == -5
  {
    var a, b := Example(Add(EXAMPLE_MSG)), Example(Send(Packet(5), 1));
    var c, d := Example(Remove(EXAMPLE_PATH)), Example(Timeout(EXAMPLE_ID));
    EmptyStart();
    hide Apply, Enabled, WellFormed, Initial, FromStart;
    AfterAdd(EMPTY_WORLD);
    var w1 := Apply(EMPTY_WORLD, a);
    AfterSend(w1);
    var w2 := Apply(w1, b);
    AfterRemoveAndAdd(w2);
    var w4 := Apply(Apply(w2, c), a);
    AfterTimeout(w4, 0, 0);
    FourSteps(a, b, c, a);
    OneMoreStep(EMPTY_WORLD, [a, b, c, a], d);
    assert [a, b, c, a] + [d] == [a, b, c, a, d];
  }

  // -------------------------------------------------- one limit under two names

  const VOUCHER_PATH := Path("ibc/A", "channel-0")
  const SUPPLY := map["uatom" := 100, "ibc/A" := 100]
  const BEFORE := Env(map[], SUPPLY)
  const REGISTERED := Env(map["uatom" := TokenInfo("ibc/A", "channel-0", "uatom", "1")], SUPPLY)
  const HOURLY := LimitMsg(EXAMPLE_PATH, Quota(10, 10, 1), 1)
  const DAILY := LimitMsg(EXAMPLE_PATH, Quota(10, 10, 24), 1)
  const FIRST_HOUR := EpochInfo("hour", 0, 5, 1, 0, true, 1)
  const HOUR_WORLD := World(Ledger(map[], {}, map[], map["hour" := FIRST_HOUR], Start), map[], {})

  /** Both limits stand: an hourly one from before the registration, and one of a day,
      asked for under the same name, on the voucher. */
  predicate BothStand(w: World) {
    && w.ledger.limits == map[EXAMPLE_PATH := Fresh(BEFORE, EXAMPLE_PATH, HOURLY.quota, 1),
                              VOUCHER_PATH := Fresh(REGISTERED, VOUCHER_PATH, DAILY.quota, 1)]
    && w.ledger.epochs == map["hour" := FIRST_HOUR]
    && Zeroings(w.ledger.log, VOUCHER_PATH) == 1
  }

  lemma AfterTwo()
    ensures var a, b := Step(BEFORE, Add(HOURLY)), Step(REGISTERED, Add(DAILY));
            && WellFormed(HOUR_WORLD.ledger) && Enabled(HOUR_WORLD, a.event)
            && var w := Apply(HOUR_WORLD, a);
               WellFormed(w.ledger) && Enabled(w, b.event) && BothStand(Apply(w, b))
  {
    ExampleChannel();
    var a := Step(BEFORE, Add(HOURLY));
    assert Apply(HOUR_WORLD, a).ledger.limits == map[EXAMPLE_PATH := Fresh(BEFORE, EXAMPLE_PATH, HOURLY.quota, 1)];
  }

  lemma HourStart()
    ensures FromStart(HOUR_WORLD, []) && Exec(HOUR_WORLD, []) == HOUR_WORLD
  {
  }

  lemma AddTwice()
    ensures var run := [Step(BEFORE, Add(HOURLY)), Step(REGISTERED, Add(DAILY))];
            FromStart(HOUR_WORLD, run) && BothStand(Exec(HOUR_WORLD, run))
  {
    hide *;
    var a, b := Step(BEFORE, Add(HOURLY)), Step(REGISTERED, Add(DAILY));
    AfterTwo();
    HourStart();
    OneMoreStep(HOUR_WORLD, [], a);
    assert [] + [a] == [a];
    OneMoreStep(HOUR_WORLD, [a], b);
    assert [a] + [b] == [a, b];
  }

  /** What the end of the first hour does to the day's limit. */
  lemma FirstHourEnds(w: World)
    requires Inv(w) && BothStand(w)
    ensures var c := Step(REGISTERED, Block(6, 2));
            && WellFormed(w.ledger) && Enabled(w, c.event) && Running(w.ledger, VOUCHER_PATH)
            && StepPasses(w.ledger, Apply(w, c).ledger, c, VOUCHER_PATH, 100)
            && HourEnds(w.ledger, 6, 2) && StepHits(w.ledger, c, VOUCHER_PATH) == 1
  {
    hide Inv, Apply, StepPasses, KVStore.LexLeq, HourHits;
    InvIsWellFormed(w);
    HitsAreDueNames(w.ledger, REGISTERED, VOUCHER_PATH);
    OneDueName(w.ledger.limits);
    var c := Step(REGISTERED, Block(6, 2));
    StepDrains(w, c, VOUCHER_PATH, 100);
  }

  lemma OneDueName(limits: map<Path, RateLimit>)
    requires limits.Keys == {EXAMPLE_PATH, VOUCHER_PATH}
    requires limits[EXAMPLE_PATH].quota.durationHours == 1 && limits[VOUCHER_PATH].quota.durationHours == 24
    ensures DueNames(limits, REGISTERED, 1, VOUCHER_PATH) == {EXAMPLE_PATH}
  {
  }

  /** Ask for an hourly limit before the token is registered, for a limit of a day under
      the same name afterwards, and let the first hour end: no window of the day's limit
      has ended, and yet it has been reset, because the hourly limit's name now stands
      for its path. */
  lemma AnotherNameResets()
    ensures var run := [Step(BEFORE, Add(HOURLY)), Step(REGISTERED, Add(DAILY)), Step(REGISTERED, Block(6, 2))];
            && FromStart(HOUR_WORLD, run)
            && var t := Exec(HOUR_WORLD, run).ledger;
               && Running(t, VOUCHER_PATH) && t.limits[VOUCHER_PATH].quota.durationHours == 24
               && t.epochs[DAY_EPOCH].currentEpoch == 2 && WindowsBefore(t, VOUCHER_PATH) == 0
               && Zeroings(t.log, VOUCHER_PATH) == 2
  {
    hide Apply, Exec, FromStart, Inv, HourEnds, StepHits, ThresholdAt, Potential, Slack, Zeroings;
    var two, c := [Step(BEFORE, Add(HOURLY)), Step(REGISTERED, Add(DAILY))], Step(REGISTERED, Block(6, 2));
    AddTwice();
    RunKeepsInv(HOUR_WORLD, two);
    FirstHourEnds(Exec(HOUR_WORLD, two));
    OneMoreStep(HOUR_WORLD, two, c);
    assert two + [c] == [two[0], two[1], c];
  }
}
