/**
 The mint keeper over blocks: every block recomputes and stores the minter, then
 moves the block's provision from the mint module's pool to the fee collector,
 entirely or not at all.
 */
module MintKeeper {
  import opened Basics
  import opened LegacyDec
  import opened Inflation

  type Balances = map<string, nat>

  datatype MintState = MintState(minter: Minter, params: Params, pool: Balances, fees: Balances)

  datatype Event =
    | Block(input: BlockInput)
    | Deposit(denom: string, amount: nat)
    | UpdateParams(params: Params)

  datatype Outcome = Done(state: MintState) | Halted

  function Held(b: Balances, denom: string): nat {
    if denom in b then b[denom] else 0
  }

  function Credit(b: Balances, denom: string, amount: nat): Balances {
    b[denom := Held(b, denom) + amount]
  }

  /** Module-to-module transfer of one coin: nothing moves when the pool is short. */
  function Pay(s: MintState, denom: string, amount: nat): MintState {
    if Held(s.pool, denom) < amount then s
    else s.(pool := s.pool[denom := Held(s.pool, denom) - amount],
            fees := Credit(s.fees, denom, amount))
  }

  function Apply(s: MintState, e: Event): Outcome
    requires ValidParams(s.params)
  {
    match e
    case Block(b) =>
      var stored := s.(minter := NextMinter(s.minter, s.params, b.bondedRatio, b.supply));
      (match BlockProvision(stored.minter, s.params)
       case Panic => Halted
       case Coin(denom, amount) => Done(Pay(stored, denom, amount)))
    case Deposit(denom, amount) =>
      Done(s.(pool := Credit(s.pool, denom, amount)))
    case UpdateParams(p) =>
      Done(if ValidParams(p) then s.(params := p) else s)
  }

  function Run(s: MintState, events: seq<Event>): Outcome
    requires ValidParams(s.params)
    decreases events
  {
    if events == [] then Done(s)
    else
      match Apply(s, events[0])
      case Halted => Halted
      case Done(t) => Run(t, events[1..])
  }

  class MintKeeper {
    var minter: Minter
    var params: Params
    var pool: Balances
    var fees: Balances

    ghost predicate Valid()
      reads this
    {
      ValidParams(params)
    }

    ghost function State(): MintState
      reads this
    {
      MintState(minter, params, pool, fees)
    }

    /** Genesis: the incentives are minted into the module's own pool. */
    constructor InitGenesis(minter: Minter, params: Params, denom: string, incentives: nat)
      requires ValidParams(params)
      ensures Valid() && State() == MintState(minter, params, Credit(map[], denom, incentives), map[])
    {
      this.minter, this.params := minter, params;
      this.pool, this.fees := map[denom := incentives], map[];
    }

    method SetParams(p: Params) returns (ok: bool)
      requires Valid()
      modifies this
      ensures Valid() && ok == ValidParams(p)
      ensures Done(State()) == Apply(old(State()), UpdateParams(p))
    {
      ok := ValidParams(p);
      if ok {
        params := p;
      }
    }

    /** Somebody credits the module account through the bank. */
    method ReceiveDeposit(denom: string, amount: nat)
      requires Valid()
      modifies this
      ensures Valid()
      ensures Done(State()) == Apply(old(State()), Deposit(denom, amount))
    {
      var before := if denom in pool then pool[denom] else 0;
      pool := pool[denom := before + amount];
    }

    method AddCollectedFees(denom: string, amount: nat) returns (ok: bool)
      requires Valid()
      modifies this
      ensures Valid() && State() == Pay(old(State()), denom, amount)
      ensures ok <==> old(Held(pool, denom)) >= amount
    {
      var available := if denom in pool then pool[denom] else 0;
      if available < amount {
        return false;
      }
      pool := pool[denom := available - amount];
      var collected := if denom in fees then fees[denom] else 0;
      fees := fees[denom := collected + amount];
      ok := true;
    }

    /** A panic halts the chain; until then the payout is all or nothing. */
    method BeginBlocker(b: BlockInput) returns (panicked: bool)
      requires Valid()
      modifies this
      ensures Valid()
      ensures panicked <==> Apply(old(State()), Block(b)).Halted?
      ensures !panicked ==> Done(State()) == Apply(old(State()), Block(b))
      ensures panicked ==> pool == old(pool) && fees == old(fees)
    {
      var next := minter.(inflation := NextInflationRate(minter, params, b.bondedRatio, b.supply));
      minter := next.(annualProvisions := NextAnnualProvisions(next, b.supply));
      match BlockProvision(minter, params) {
        case Panic =>
          return true;
        case Coin(denom, amount) =>
          var _ := AddCollectedFees(denom, amount);
      }
      panicked := false;
    }
  }

  // -------------------------------------------------------------- whole runs

  function Deposits(events: seq<Event>, denom: string): nat {
    if events == [] then 0
    else
      (match events[0]
       case Deposit(d, amount) => (if d == denom then amount else 0)
       case _ => 0)
      + Deposits(events[1..], denom)
  }

  /** Nothing is created or lost: in every run the pool and the collected fees
      together grow by the deposits and by nothing else. */
  lemma {:induction false} PayoutsConserve(s: MintState, events: seq<Event>, denom: string)
    requires ValidParams(s.params) && Run(s, events).Done?
    ensures var t := Run(s, events).state;
            Held(t.pool, denom) + Held(t.fees, denom)
            == Held(s.pool, denom) + Held(s.fees, denom) + Deposits(events, denom)
    decreases events
  {
    if events != [] {
      PayoutsConserve(Apply(s, events[0]).state, events[1..], denom);
    }
  }

  function Blocks(events: seq<Event>): nat {
    if events == [] then 0
    else (if events[0].Block? then 1 else 0) + Blocks(events[1..])
  }

  /** A run in which the parameters stay put and the supply is positive. */
  predicate Steady(events: seq<Event>, supply: int) {
    forall i :: 0 <= i < |events| ==>
      match events[i]
      case Block(b) => 0 < b.supply <= supply
      case Deposit(_, _) => true
      case UpdateParams(_) => false
  }

  /** Twice a payout, in 10^-18 tokens, times the blocks of a year. */
  function Scaled(p: Params, paid: int): int {
    2 * (UNIT * (p.blocksPerYear * paid))
  }

  /** What that may be after some number of blocks. */
  function Allowance(p: Params, blocks: nat, supply: int): int {
    blocks * YearHigh(p, supply)
  }

  function Paid(s: MintState, t: MintState): int {
    Held(t.fees, s.params.mintDenom) - Held(s.fees, s.params.mintDenom)
  }

  /** With sound parameters no block halts the chain, and what the fee collector
      gets over any steady run is bounded by the yearly maximum, pro rata. */
  lemma {:induction false} SteadyRun(s: MintState, events: seq<Event>, supply: int)
    requires ValidParams(s.params) && s.params.blocksPerYear < TWO_63
    requires s.params.minTokenPerYear >= 0 && Steady(events, supply)
    ensures Run(s, events).Done? && Run(s, events).state.params == s.params
    ensures Scaled(s.params, Paid(s, Run(s, events).state)) <= Allowance(s.params, Blocks(events), supply)
    decreases events
  {
    if events == [] {
      assert Scaled(s.params, 0) == 0 == Allowance(s.params, 0, supply);
    } else {
      SteadyStep(s, events[0], supply);
      var next := Apply(s, events[0]).state;
      SteadyRun(next, events[1..], supply);
      var last := Run(s, events).state;
      assert Paid(s, last) == Paid(s, next) + Paid(next, last);
      assert Blocks(events) == Blocks([events[0]]) + Blocks(events[1..]);
      hide Scaled, Allowance;
      AddUp(s.params, Paid(s, next), Paid(next, last), Blocks([events[0]]), Blocks(events[1..]), supply);
    }
  }

  lemma SteadyStep(s: MintState, e: Event, supply: int)
    requires ValidParams(s.params) && s.params.blocksPerYear < TWO_63
    requires s.params.minTokenPerYear >= 0 && Steady([e], supply)
    ensures Apply(s, e).Done? && Apply(s, e).state.params == s.params
    ensures Scaled(s.params, Paid(s, Apply(s, e).state)) <= Allowance(s.params, Blocks([e]), supply)
  {
    assert [e][0] == e;
    assert Scaled(s.params, 0) == 0;
    if e.Block? {
      BlockBounds(s.minter, s.params, e.input);
      NonNegativeProduct(s.params, supply);
      assert Allowance(s.params, 1, supply) == YearHigh(s.params, supply);
      var t := Apply(s, e).state;
      assert Paid(s, t) in {0, ProvisionAmount(t.minter, s.params)};
    }
  }

  lemma AddUp(p: Params, x: int, y: int, i: nat, j: nat, supply: int)
    requires Scaled(p, x) <= Allowance(p, i, supply)
    requires Scaled(p, y) <= Allowance(p, j, supply)
    ensures Scaled(p, x + y) <= Allowance(p, i + j, supply)
  {
    Distribute(p.blocksPerYear, x, y);
    Distribute(YearHigh(p, supply), i, j);
  }

  lemma NonNegativeProduct(p: Params, supply: int)
    requires ValidParams(p) && p.minTokenPerYear >= 0 && supply >= 0
    ensures YearHigh(p, supply) >= 0
  {
  }

  /** In a year of blocks the fee collector gets at most the yearly maximum, plus
      half a supply unit of rounding, whatever deposits happen in between. */
  lemma YearlyPayout(s: MintState, events: seq<Event>, supply: int)
    requires ValidParams(s.params) && s.params.blocksPerYear < TWO_63
    requires s.params.minTokenPerYear >= 0 && Steady(events, supply)
    requires Blocks(events) == s.params.blocksPerYear
    ensures Run(s, events).Done?
    ensures 2 * (UNIT * Paid(s, Run(s, events).state))
            <= 2 * (UNIT * s.params.maxTokenPerYear) + supply
  {
    SteadyRun(s, events, supply);
    var paid := Paid(s, Run(s, events).state);
    Regroup(s.params.blocksPerYear, paid);
    Cancel(s.params.blocksPerYear, 2 * (UNIT * paid), YearHigh(s.params, supply));
  }

  // -------------------------------------------------------------- what is paid

  /** What the minter wants to pay in the next block. */
  function Wanted(s: MintState, b: BlockInput): int
    requires ValidParams(s.params)
  {
    ProvisionAmount(NextMinter(s.minter, s.params, b.bondedRatio, b.supply), s.params)
  }

  /** A block that the pool covers moves its provision from the pool to the collected
      fees, in full; one that it does not cover moves nothing; and no block moves any
      other denomination. */
  lemma BlockPays(s: MintState, b: BlockInput, denom: string)
    requires ValidParams(s.params) && Apply(s, Block(b)).Done?
    ensures var t, x := Apply(s, Block(b)).state, Wanted(s, b);
            if denom == s.params.mintDenom && x <= Held(s.pool, denom)
            then Held(t.pool, denom) == Held(s.pool, denom) - x && Held(t.fees, denom) == Held(s.fees, denom) + x
            else Held(t.pool, denom) == Held(s.pool, denom) && Held(t.fees, denom) == Held(s.fees, denom)
  {
    hide ProvisionAmount, NextMinter;
  }

  function Inputs(events: seq<Event>): seq<BlockInput> {
    if events == [] then []
    else (if events[0].Block? then [events[0].input] else []) + Inputs(events[1..])
  }

  /** The pool covers every provision of a run when it is due. */
  predicate Covered(s: MintState, events: seq<Event>)
    requires ValidParams(s.params)
    decreases events
  {
    events != [] ==>
      && (events[0].Block? ==> Wanted(s, events[0].input) <= Held(s.pool, s.params.mintDenom))
      && (Apply(s, events[0]).Done? ==> Covered(Apply(s, events[0]).state, events[1..]))
  }

  /** One step of a steady run, and what the minter wants to pay in it. */
  lemma StepPays(s: MintState, e: Event, supply: int)
    requires ValidParams(s.params) && s.params.blocksPerYear < TWO_63
    requires s.params.minTokenPerYear >= 0 && Steady([e], supply)
    ensures Apply(s, e).Done? && Apply(s, e).state.params == s.params
    ensures var t := Apply(s, e).state;
            if e.Block?
            then && Wanted(s, e.input) >= 0
                 && t.minter == NextMinter(s.minter, s.params, e.input.bondedRatio, e.input.supply)
                 && Paid(s, t) == if Wanted(s, e.input) <= Held(s.pool, s.params.mintDenom)
                                  then Wanted(s, e.input) else 0
            else t.minter == s.minter && Paid(s, t) == 0
    ensures var t, d := Apply(s, e).state, s.params.mintDenom; Held(t.pool, d) >= Held(s.pool, d) - Paid(s, t)
  {
    SteadyStep(s, e, supply);
    assert [e][0] == e;
    if e.Block? {
      BlockBounds(s.minter, s.params, e.input);
      BlockPays(s, e.input, s.params.mintDenom);
    }
    hide ProvisionAmount, NextMinter;
  }

  /** Over any steady run the fee collector gets at most what the minter wants to pay,
      and all of it if and only if the pool covers every provision. */
  lemma {:induction false} PaidInFullIff(s: MintState, events: seq<Event>, supply: int)
    requires ValidParams(s.params) && s.params.blocksPerYear < TWO_63
    requires s.params.minTokenPerYear >= 0 && Steady(events, supply)
    ensures Run(s, events).Done? && Run(s, events).state.params == s.params
    ensures var paid, wanted := Paid(s, Run(s, events).state), Emission(s.minter, s.params, Inputs(events));
            paid <= wanted && (paid == wanted <==> Covered(s, events))
    decreases events
  {
    if events != [] {
      var e := events[0];
      StepPays(s, e, supply);
      PaidInFullIff(Apply(s, e).state, events[1..], supply);
      FirstInput(s, events);
      hide Wanted, NextMinter, Steady, Apply;
    }
  }

  lemma FirstInput(s: MintState, events: seq<Event>)
    requires ValidParams(s.params) && events != []
    ensures Emission(s.minter, s.params, Inputs(events))
            == if events[0].Block?
               then var b := events[0].input;
                    Wanted(s, b) + Emission(NextMinter(s.minter, s.params, b.bondedRatio, b.supply), s.params,
                                               Inputs(events[1..]))
               else Emission(s.minter, s.params, Inputs(events[1..]))
  {
    if events[0].Block? {
      assert Inputs(events)[1..] == Inputs(events[1..]);
    } else {
      assert Inputs(events) == Inputs(events[1..]);
    }
    hide ProvisionAmount, NextMinter;
  }

  lemma {:induction false} WantedIsNotNegative(s: MintState, events: seq<Event>, supply: int)
    requires ValidParams(s.params) && s.params.blocksPerYear < TWO_63
    requires s.params.minTokenPerYear >= 0 && Steady(events, supply)
    ensures Emission(s.minter, s.params, Inputs(events)) >= 0
    decreases events
  {
    hide Wanted, NextMinter, Apply, Emission, Inputs;
    if events == [] {
      NothingWanted(s);
    } else {
      StepPays(s, events[0], supply);
      FirstInput(s, events);
      WantedIsNotNegative(Apply(s, events[0]).state, events[1..], supply);
    }
  }

  lemma NothingWanted(s: MintState)
    requires ValidParams(s.params)
    ensures Emission(s.minter, s.params, Inputs([])) == 0
  {
  }

  /** A pool that holds all that is wanted from the start covers it. */
  lemma {:induction false} RichPoolCovers(s: MintState, events: seq<Event>, supply: int)
    requires ValidParams(s.params) && s.params.blocksPerYear < TWO_63
    requires s.params.minTokenPerYear >= 0 && Steady(events, supply)
    requires Held(s.pool, s.params.mintDenom) >= Emission(s.minter, s.params, Inputs(events))
    ensures Covered(s, events)
    decreases events
  {
    hide Wanted, NextMinter, Apply, Emission, Inputs, Held, Paid;
    if events != [] {
      StepPays(s, events[0], supply);
      FirstInput(s, events);
      WantedIsNotNegative(Apply(s, events[0]).state, events[1..], supply);
      RichPoolCovers(Apply(s, events[0]).state, events[1..], supply);
    }
  }

  lemma {:induction false} InputsOf(events: seq<Event>, supply: int)
    requires Steady(events, supply)
    ensures |Inputs(events)| == Blocks(events)
    ensures forall i :: 0 <= i < |Inputs(events)| ==> 0 < Inputs(events)[i].supply <= supply
  {
    if events != [] {
      InputsOf(events[1..], supply);
      assert events[0] == events[0];
    }
  }

  /** A year of blocks with a pool that holds the yearly maximum, and half a supply unit,
      pays the fee collector exactly what the minter wants, and so at least the yearly
      minimum up to rounding: one supply unit and one token per block. */
  lemma YearlyMinimumIsPaid(s: MintState, events: seq<Event>, supply: int)
    requires ValidParams(s.params) && s.params.blocksPerYear < TWO_63
    requires s.params.minTokenPerYear >= 0 && Steady(events, supply)
    requires Blocks(events) == s.params.blocksPerYear
    requires 2 * (UNIT * Held(s.pool, s.params.mintDenom)) >= 2 * (UNIT * s.params.maxTokenPerYear) + supply
    ensures Run(s, events).Done?
    ensures var paid := Paid(s, Run(s, events).state);
            && paid == Emission(s.minter, s.params, Inputs(events))
            && UNIT * paid >= UNIT * s.params.minTokenPerYear - supply - UNIT * s.params.blocksPerYear
  {
    hide Emission, Steady, Paid, Held, Run, Covered, Inputs;
    InputsOf(events, supply);
    YearlyEmission(s.minter, s.params, Inputs(events), supply);
    RichPoolCovers(s, events, supply);
    PaidInFullIff(s, events, supply);
  }

  /** The last parameters of a run that were valid, or those from before. */
  function LastParams(events: seq<Event>, before: Params): Params {
    if events == [] then before
    else LastParams(events[1..], if events[0].UpdateParams? && ValidParams(events[0].params) then events[0].params
                                 else before)
  }

  /** In every run that is not halted, the last valid parameters are in force. */
  lemma {:induction false} ParamsInForce(s: MintState, events: seq<Event>)
    requires ValidParams(s.params) && Run(s, events).Done?
    ensures Run(s, events).state.params == LastParams(events, s.params)
    decreases events
  {
    hide ValidParams, BlockProvision, NextMinter, Pay;
    if events != [] {
      ParamsStep(s, events[0]);
      ParamsInForce(Apply(s, events[0]).state, events[1..]);
    }
  }

  lemma ParamsStep(s: MintState, e: Event)
    requires ValidParams(s.params) && Apply(s, e).Done?
    ensures Apply(s, e).state.params == if e.UpdateParams? && ValidParams(e.params) then e.params else s.params
  {
  }
}
