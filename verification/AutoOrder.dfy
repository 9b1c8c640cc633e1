/**
 Sizing the fallback order of an analysis: the signal is cut to a quantity cap and a notional cap, checked
 against cash or position, and placed only if every gate is open. Prices and amounts are exact.
 */
module AutoOrder {
  import opened Options

  datatype Direction = Buy | Sell

  /** The executable part of a run: an amount that is missing or not a number is None. */
  datatype Signal = Signal(action: string, quantity: Option<real>, price: Option<real>)

  /** The configured numbers; commission and slippage are None when not usable. */
  datatype Config = Config(aShareOnly: bool, maxQty: real, maxNotional: real, commission: Option<real>, slippageBps: Option<real>) {
    function QtyCap(): real { Larger(1.0, maxQty) }
    function NotionalCap(): real { Larger(1000.0, maxNotional) }
    function CommissionRate(): (rate: real) ensures rate >= 0.0 { Larger(0.0, NonNegative(commission).GetOr(0.0003)) }
    function Slippage(): (bps: real) ensures bps >= 0.0 { Larger(0.0, NonNegative(slippageBps).GetOr(2.0)) }
  }

  datatype Position = Position(code: string, available: Option<real>)
  datatype Account = Account(cash: Option<real>, positions: seq<Position>)

  datatype Candidate = Candidate(direction: Direction, quantity: int, price: real)
  datatype Order = Order(direction: Direction, quantity: real, price: real)

  datatype SkipReason =
    | NonAShare | OutsideTradingSession | NoExecutableSignal | LimitRejected | InsufficientCash | InsufficientPosition

  datatype Decision = NotRequested | MissingOwner | Skipped(reason: SkipReason) | Placed(order: Order)

  function Larger(a: real, b: real): real { if a < b then b else a }
  function Smaller(a: real, b: real): real { if a < b then a else b }
  function Positive(x: Option<real>): Option<real> { if x.Some? && x.value > 0.0 then x else None }
  function NonNegative(x: Option<real>): Option<real> { if x.Some? && x.value >= 0.0 then x else None }
  predicate Whole(x: real) { x == x.Floor as real }

  // ---------------------------------------------------------------- meaning

  /** A number of shares the signal and both caps allow. */
  ghost predicate WithinCaps(n: real, signalQty: real, price: real, config: Config) {
    n <= signalQty && n <= config.QtyCap() && n * price <= config.NotionalCap()
  }

  ghost predicate SharesFit(m: int, signalQty: real, price: real, config: Config) {
    WithinCaps(m as real, signalQty, price, config)
  }

  ghost predicate IsLargestWithinCaps(n: real, signalQty: real, price: real, config: Config) {
    && Whole(n) && WithinCaps(n, signalQty, price, config)
    && forall m: int :: SharesFit(m, signalQty, price, config) ==> m as real <= n
  }

  function RequiredCash(config: Config, price: real, quantity: real): real {
    price * (1.0 + config.Slippage() / 10000.0) * quantity * (1.0 + config.CommissionRate())
  }

  function CashOf(account: Account): real { Larger(0.0, NonNegative(account.cash).GetOr(0.0)) }

  /** What the first position with this code leaves to sell, in whole shares. */
  function AvailableQty(positions: seq<Position>, code: string): int {
    if positions == [] then 0
    else if positions[0].code == code then NonNegative(positions[0].available).GetOr(0.0).Floor
    else AvailableQty(positions[1..], code)
  }

  /** Cash for a buy, with a tolerance of 1e-6; shares for a sale. */
  predicate Affordable(config: Config, account: Account, code: string, order: Order) {
    match order.direction
    case Buy => RequiredCash(config, order.price, order.quantity) <= CashOf(account) + 0.000001
    case Sell => order.quantity <= AvailableQty(account.positions, code) as real
  }

  predicate Executable(signal: Signal) {
    (signal.action == "buy" || signal.action == "sell") && Positive(signal.quantity).Some? && Positive(signal.price).Some?
  }

  /** The caps by the configured numbers: no cap is below one share, or below 1000 in value. */
  lemma CapsMean(n: real, signalQty: real, price: real, config: Config)
    ensures WithinCaps(n, signalQty, price, config) <==>
            && n <= signalQty && (n <= 1.0 || n <= config.maxQty) && (n * price <= 1000.0 || n * price <= config.maxNotional)
    ensures Whole(config.QtyCap()) <==> config.maxQty <= 1.0 || Whole(config.maxQty)
  {}

  /** Slippage in basis points, by default 2, and commission, by default 0.03 percent; neither is ever negative. */
  function SlippageOf(config: Config): real {
    if config.slippageBps != None && config.slippageBps.value >= 0.0 then config.slippageBps.value else 2.0
  }

  function FeeOf(config: Config): real {
    if config.commission != None && config.commission.value >= 0.0 then config.commission.value else 0.0003
  }

  function CostAt(price: real, quantity: real, bps: real, fee: real): real {
    price * (1.0 + bps / 10000.0) * quantity * (1.0 + fee)
  }

  lemma RequiredCashMeans(config: Config, price: real, quantity: real)
    ensures RequiredCash(config, price, quantity) == CostAt(price, quantity, SlippageOf(config), FeeOf(config))
  {
    assert config.Slippage() == SlippageOf(config) && config.CommissionRate() == FeeOf(config);
  }

  /** A buy needs its price with slippage times quantity and commission in cash, but for one millionth. */
  ghost predicate CashSuffices(config: Config, account: Account, price: real, quantity: real) {
    var cost := CostAt(price, quantity, SlippageOf(config), FeeOf(config));
    if account.cash != None && account.cash.value >= 0.0 then cost <= account.cash.value + 0.000001 else cost <= 0.000001
  }

  /** A sale needs so many whole shares in the first position of the stock. */
  ghost predicate SharesSuffice(positions: seq<Position>, code: string, quantity: real) {
    || (quantity <= 0.0 && forall i :: 0 <= i < |positions| ==> positions[i].code != code)
    || exists i :: 0 <= i < |positions| && positions[i].code == code && (forall j :: 0 <= j < i ==> positions[j].code != code)
                   && quantity <= if positions[i].available != None && positions[i].available.value >= 0.0
                                  then positions[i].available.value.Floor as real else 0.0
  }

  lemma {:induction false} FirstPositionDecides(positions: seq<Position>, code: string, quantity: real)
    ensures quantity <= AvailableQty(positions, code) as real <==> SharesSuffice(positions, code, quantity)
  {
    if positions != [] && positions[0].code != code {
      var rest := positions[1..];
      FirstPositionDecides(rest, code, quantity);
      assert forall i :: 1 <= i < |positions| ==> positions[i] == rest[i - 1];
      if i :| 0 <= i < |rest| && rest[i].code == code && (forall j :: 0 <= j < i ==> rest[j].code != code)
              && quantity <= if rest[i].available != None && rest[i].available.value >= 0.0
                             then rest[i].available.value.Floor as real else 0.0 {
        assert positions[i + 1] == rest[i];
      }
    }
  }

  /** An order is affordable exactly if the cash, or the first position, suffices for it. */
  lemma AffordableMeans(config: Config, account: Account, code: string, order: Order)
    ensures Affordable(config, account, code, order) <==>
            if order.direction == Buy then CashSuffices(config, account, order.price, order.quantity)
            else SharesSuffice(account.positions, code, order.quantity)
  {
    FirstPositionDecides(account.positions, code, order.quantity);
    RequiredCashMeans(config, order.price, order.quantity);
    hide RequiredCash, CostAt, SlippageOf, FeeOf, AvailableQty, SharesSuffice;
  }

  // ---------------------------------------------------------------- sizing

  function ResolveAutoOrderCandidate(signal: Signal): (candidate: Option<Candidate>)
    ensures candidate.Some? <==> Executable(signal)
    ensures candidate.Some? <==> (signal.action == "buy" || signal.action == "sell")
                                 && signal.quantity != None && signal.quantity.value > 0.0 && signal.price != None && signal.price.value > 0.0
    ensures candidate.Some? ==> candidate.value.quantity == signal.quantity.value.Floor && candidate.value.price == signal.price.value > 0.0
    ensures candidate.Some? ==> candidate.value.direction == if signal.action == "buy" then Buy else Sell
  {
    if signal.action != "buy" && signal.action != "sell" then None
    else
      var qty, price := Positive(signal.quantity), Positive(signal.price);
      if qty.None? || price.None? then None
      else Some(Candidate(if signal.action == "buy" then Buy else Sell, qty.value.Floor, price.value))
  }

  /** The quantity to order; zero means the limits reject it. */
  function ApplyAutoOrderLimits(quantity: int, price: real, config: Config): real
    requires price > 0.0
  {
    var byNotional := (config.NotionalCap() / price).Floor;
    var safeQty := Smaller(Smaller(quantity as real, config.QtyCap()), if byNotional > 0 then byNotional as real else 0.0);
    if safeQty <= 0.0 then 0.0 else safeQty
  }

  lemma FloorBounds(x: real)
    ensures x.Floor as real <= x < x.Floor as real + 1.0
  {}

  /** So many shares cost at most the cap exactly if they are at most the quotient. */
  lemma NotionalBound(n: real, price: real, cap: real)
    requires price > 0.0
    ensures n * price <= cap <==> n <= cap / price
  {}

  /** Whatever is ordered keeps within the signal and both caps. */
  lemma LimitsHold(signalQty: real, price: real, config: Config)
    requires signalQty > 0.0 && price > 0.0
    ensures var n := ApplyAutoOrderLimits(signalQty.Floor, price, config);
            n >= 0.0 && WithinCaps(n, signalQty, price, config)
  {}

  /** Whatever the caps are, an order that is not rejected is for one share at least. */
  lemma OrdersAreAtLeastOne(quantity: int, price: real, config: Config)
    requires price > 0.0
    ensures var n := ApplyAutoOrderLimits(quantity, price, config); n == 0.0 || n >= 1.0
  {}

  /** No whole number of shares within the caps is larger than what is ordered. */
  lemma NothingLargerFits(signalQty: real, price: real, config: Config, m: int)
    requires signalQty > 0.0 && price > 0.0 && SharesFit(m, signalQty, price, config)
    ensures m as real <= ApplyAutoOrderLimits(signalQty.Floor, price, config)
  {
    var quotient := config.NotionalCap() / price;
    NotionalBound(m as real, price, config.NotionalCap());
    WholeBelowFloor(m, quotient);
    WholeBelowFloor(m, signalQty);
  }

  lemma WholeBelowFloor(m: int, x: real)
    requires m as real <= x
    ensures m <= x.Floor
  {}

  /** With a whole quantity cap the order is the largest whole number within signal and caps. */
  lemma WholeCapGivesTheLargest(signalQty: real, price: real, config: Config)
    requires signalQty > 0.0 && price > 0.0 && Whole(config.QtyCap())
    ensures IsLargestWithinCaps(ApplyAutoOrderLimits(signalQty.Floor, price, config), signalQty, price, config)
  {
    LimitsHold(signalQty, price, config);
    forall m: int | SharesFit(m, signalQty, price, config)
      ensures m as real <= ApplyAutoOrderLimits(signalQty.Floor, price, config)
    {
      NothingLargerFits(signalQty, price, config, m);
    }
  }

  /** And only then: a fractional cap orders a fraction of a share as soon as it is the one that binds. */
  lemma OrdersAreWholeIffTheCapIs(config: Config)
    ensures Whole(config.QtyCap()) <==>
            forall signalQty: real, price: real :: signalQty > 0.0 && price > 0.0
              ==> IsLargestWithinCaps(ApplyAutoOrderLimits(signalQty.Floor, price, config), signalQty, price, config)
  {
    if Whole(config.QtyCap()) {
      forall signalQty: real, price: real | signalQty > 0.0 && price > 0.0
        ensures IsLargestWithinCaps(ApplyAutoOrderLimits(signalQty.Floor, price, config), signalQty, price, config)
      {
        WholeCapGivesTheLargest(signalQty, price, config);
      }
    } else {
      var cap := config.QtyCap();
      var signalQty := (cap.Floor + 1) as real;
      var price := 1000.0 / signalQty;
      FloorBounds(cap);
      CapBinds(config, signalQty, price);
      assert !IsLargestWithinCaps(ApplyAutoOrderLimits(signalQty.Floor, price, config), signalQty, price, config);
    }
  }

  lemma CapBinds(config: Config, signalQty: real, price: real)
    requires signalQty == (config.QtyCap().Floor + 1) as real && price == 1000.0 / signalQty
    ensures price > 0.0 && ApplyAutoOrderLimits(signalQty.Floor, price, config) == config.QtyCap()
  {}

  /** A buy costs at most the notional cap plus slippage and commission on it. */
  lemma BuyCostIsBounded(signalQty: real, price: real, config: Config)
    requires signalQty > 0.0 && price > 0.0
    ensures RequiredCash(config, price, ApplyAutoOrderLimits(signalQty.Floor, price, config))
         <= config.NotionalCap() * Surcharge(config)
  {
    hide ApplyAutoOrderLimits, RequiredCash;
    var n := ApplyAutoOrderLimits(signalQty.Floor, price, config);
    LimitsHold(signalQty, price, config);
    CostOfNotional(config, price, n);
    TimesKeepsOrder(n * price, config.NotionalCap(), Surcharge(config));
  }

  function Surcharge(config: Config): (factor: real)
    ensures factor >= 1.0
  {
    var slip, fee := 1.0 + config.Slippage() / 10000.0, 1.0 + config.CommissionRate();
    OneOrMore(slip, fee);
    slip * fee
  }

  lemma OneOrMore(a: real, b: real)
    requires a >= 1.0 && b >= 1.0
    ensures a * b >= 1.0
  {}

  lemma CostOfNotional(config: Config, price: real, n: real)
    ensures RequiredCash(config, price, n) == (n * price) * Surcharge(config)
  {}

  lemma TimesKeepsOrder(a: real, b: real, factor: real)
    requires a <= b && factor >= 0.0
    ensures a * factor <= b * factor
  {}

  // ---------------------------------------------------------------- placing

  class AutoOrderService {
    const config: Config
    var orders: seq<Order>

    constructor (config: Config)
      ensures this.config == config && orders == []
    {
      this.config := config;
      orders := [];
    }

    method ResolvePrecheckAvailableQty(positions: seq<Position>, code: string) returns (available: int)
      ensures available == AvailableQty(positions, code)
    {
      for i := 0 to |positions|
        invariant AvailableQty(positions, code) == AvailableQty(positions[i..], code)
      {
        if positions[i].code == code {
          return NonNegative(positions[i].available).GetOr(0.0).Floor;
        }
      }
      return 0;
    }

    method RunAutoOrderPrecheck(account: Account, code: string, order: Order) returns (refusal: Option<SkipReason>)
      ensures refusal.None? <==> Affordable(config, account, code, order)
      ensures order.direction == Buy ==> (refusal == None <==> CashSuffices(config, account, order.price, order.quantity))
      ensures order.direction == Sell ==> (refusal == None <==> SharesSuffice(account.positions, code, order.quantity))
      ensures refusal.Some? ==> refusal.value == if order.direction == Buy then InsufficientCash else InsufficientPosition
    {
      AffordableMeans(config, account, code, order);
      if order.direction == Buy {
        var cash := CashOf(account);
        var requiredCash := RequiredCash(config, order.price, order.quantity);
        return if cash + 0.000001 < requiredCash then Some(InsufficientCash) else None;
      }
      var availableQty := ResolvePrecheckAvailableQty(account.positions, code);
      return if availableQty as real < order.quantity then Some(InsufficientPosition) else None;
    }

    /** The gates before any sizing, in the order they are checked. */
    predicate GatesOpen(requested: bool, hasOwner: bool, isAShare: bool, inSession: bool, signal: Signal) {
      requested && hasOwner && (config.aShareOnly ==> isAShare) && inSession && Executable(signal)
    }

    /** The order is what the signal asks for, cut to the configured numbers and covered by the account. */
    ghost predicate IsJustified(order: Order, signal: Signal, account: Account, code: string) {
      && signal.quantity != None && order.quantity <= signal.quantity.value && signal.price == Some(order.price)
      && (order.quantity <= 1.0 || order.quantity <= config.maxQty)
      && (order.quantity * order.price <= 1000.0 || order.quantity * order.price <= config.maxNotional)
      && (if signal.action == "buy" then order.direction == Buy else signal.action == "sell" && order.direction == Sell)
      && if order.direction == Buy then CashSuffices(config, account, order.price, order.quantity)
         else SharesSuffice(account.positions, code, order.quantity)
    }

    /** The order the signal is worth: its largest whole quantity within the caps. */
    ghost predicate IsOrderFor(order: Order, signal: Signal) {
      && Executable(signal)
      && order.direction == (if signal.action == "buy" then Buy else Sell)
      && order.price == signal.price.value
      && IsLargestWithinCaps(order.quantity, signal.quantity.value, order.price, config)
    }

    /**
     Places exactly one order or none, always of one share at least and within signal, caps and account. With a whole quantity cap it
     is placed exactly when the gates are open and the order the signal is worth has at least one share and
     is affordable; otherwise the first failing check is named.
     */
    method MaybeAutoPlaceOrder(requested: bool, hasOwner: bool, isAShare: bool, inSession: bool, signal: Signal,
                               account: Account, code: string) returns (decision: Decision)
      modifies this
      ensures orders == if decision.Placed? then old(orders) + [decision.order] else old(orders)
      ensures decision.Placed? ==> GatesOpen(requested, hasOwner, isAShare, inSession, signal)
      ensures decision.Placed? ==> Affordable(config, account, code, decision.order) && decision.order.quantity >= 1.0
      ensures decision.Placed? ==> WithinCaps(decision.order.quantity, signal.quantity.value, decision.order.price, config)
      ensures decision.Placed? ==> IsJustified(decision.order, signal, account, code)
      ensures decision.Placed? && Whole(config.QtyCap()) ==> IsOrderFor(decision.order, signal)
      ensures GatesOpen(requested, hasOwner, isAShare, inSession, signal) && !decision.Placed? && Whole(config.QtyCap()) ==>
                forall order :: IsOrderFor(order, signal) ==>
                  if order.quantity < 1.0 then decision == Skipped(LimitRejected)
                  else !Affordable(config, account, code, order)
                       && decision == Skipped(if order.direction == Buy then InsufficientCash else InsufficientPosition)
      ensures decision == NotRequested <==> !requested
      ensures decision == MissingOwner <==> requested && !hasOwner
      ensures decision == Skipped(NonAShare) <==> requested && hasOwner && config.aShareOnly && !isAShare
      ensures decision == Skipped(NoExecutableSignal) <==>
                requested && hasOwner && (config.aShareOnly ==> isAShare) && inSession && !Executable(signal)
      ensures decision == Skipped(OutsideTradingSession) <==> requested && hasOwner && (config.aShareOnly ==> isAShare) && !inSession
    {
      hide SharesSuffice, CashSuffices, RequiredCash, AvailableQty, ApplyAutoOrderLimits, Affordable;
      if !requested {
        return NotRequested;
      }
      if !hasOwner {
        return MissingOwner;
      }
      if config.aShareOnly && !isAShare {
        return Skipped(NonAShare);
      }
      if !inSession {
        return Skipped(OutsideTradingSession);
      }
      var candidate := ResolveAutoOrderCandidate(signal);
      if candidate.None? {
        return Skipped(NoExecutableSignal);
      }
      var quantity := ApplyAutoOrderLimits(candidate.value.quantity, candidate.value.price, config);
      var order := Order(candidate.value.direction, quantity, candidate.value.price);
      LimitsHold(signal.quantity.value, order.price, config);
      CapsMean(quantity, signal.quantity.value, order.price, config);
      OrdersAreAtLeastOne(candidate.value.quantity, order.price, config);
      if Whole(config.QtyCap()) {
        WholeCapGivesTheLargest(signal.quantity.value, order.price, config);
        OneOrderPerSignal(order, signal);
      }
      if quantity <= 0.0 {
        return Skipped(LimitRejected);
      }
      var refusal := RunAutoOrderPrecheck(account, code, order);
      if refusal.Some? {
        return Skipped(refusal.value);
      }
      assert IsJustified(order, signal, account, code);
      orders := orders + [order];
      return Placed(order);
    }

    lemma OneOrderPerSignal(order: Order, signal: Signal)
      requires IsOrderFor(order, signal)
      ensures forall other :: IsOrderFor(other, signal) ==> other == order
    {
      forall other | IsOrderFor(other, signal) ensures other == order {
        LargestIsUnique(order.quantity, other.quantity, signal.quantity.value, order.price, config);
      }
    }
  }

  lemma LargestIsUnique(a: real, b: real, signalQty: real, price: real, config: Config)
    requires IsLargestWithinCaps(a, signalQty, price, config) && IsLargestWithinCaps(b, signalQty, price, config)
    ensures a == b
  {
    assert SharesFit(a.Floor, signalQty, price, config) && SharesFit(b.Floor, signalQty, price, config);
  }
}
