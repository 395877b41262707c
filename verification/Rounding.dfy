/** Three floors from XRP drops to token units, and the last check before execution. */
module Rounding {
  import opened Base
  import opened Authorization

  const DROPS_PER_XRP := 1_000_000
  const TOKEN_UNIT := 1_000_000

  /** GuardManager: the USD value of a payment. */
  function EventValue(drops: nat, price: nat): nat {
    drops * price / DROPS_PER_XRP
  }

  /** exactProtectedTokenUnits: a bigint division, which truncates; both operands are non-negative. */
  function TokenUnits(protectedUsd18: nat, price: int): Option<nat> {
    if price <= 0 then None else Some(protectedUsd18 * TOKEN_UNIT / price)
  }

  function Chain(drops: nat, price: nat, bps: nat): nat
    requires price > 0
  {
    TokenUnits(ProtectedShare(EventValue(drops, price), bps), price).value
  }

  /** The share of the payment itself, with a single floor. */
  function Ideal(drops: nat, bps: nat): nat {
    drops * bps / BPS_UNIT
  }

  lemma FloorBounds(a: nat, b: nat)
    requires b > 0
    ensures (a / b) * b <= a < (a / b) * b + b
  {}

  /** Each of the three divisions is the floor of its quotient, and only a positive price has token units. */
  lemma ThreeFloors(drops: nat, price: nat, value: nat, bps: nat, amount: nat, stored: int)
    ensures EventValue(drops, price) * 1_000_000 <= drops * price < (EventValue(drops, price) + 1) * 1_000_000
    ensures ProtectedShare(value, bps) * 10_000 <= value * bps < (ProtectedShare(value, bps) + 1) * 10_000
    ensures TokenUnits(amount, stored).Some? <==> stored > 0
    ensures stored > 0 ==>
              var t := TokenUnits(amount, stored).value; t * stored <= amount * 1_000_000 < t * stored + stored
  {
    if stored > 0 { FloorBounds(amount * TOKEN_UNIT, stored); }
  }

  lemma ScaleLe(a: int, b: int, k: nat)
    requires a <= b
    ensures a * k <= b * k
  {}

  lemma CancelLt(a: int, b: int, k: nat)
    requires a * k < b * k
    ensures a < b
  {
    if b <= a { ScaleLe(b, a, k); }
  }

  /** The chain of exact inequalities between the three floors, cleared of divisions. */
  lemma ChainBounds(drops: nat, price: nat, bps: nat)
    requires price > 0 && bps <= BPS_UNIT
    ensures var t := Chain(drops, price, bps);
            && t * price * BPS_UNIT <= drops * bps * price
            && drops * bps * price < t * price * BPS_UNIT + price * BPS_UNIT
                                    + TOKEN_UNIT * BPS_UNIT + bps * DROPS_PER_XRP
  {
    var v := EventValue(drops, price);
    var a := ProtectedShare(v, bps);
    var t := Chain(drops, price, bps);
    FloorBounds(drops * price, DROPS_PER_XRP);
    FloorBounds(v * bps, BPS_UNIT);
    FloorBounds(a * TOKEN_UNIT, price);
    ScaleLe(v * DROPS_PER_XRP, drops * price, bps);
    ScaleLe(drops * price + 1, (v + 1) * DROPS_PER_XRP, bps);
    ShareSteps(drops, price, bps, v, a, t);
  }

  lemma ShareSteps(drops: nat, price: nat, bps: nat, v: nat, a: nat, t: nat)
    requires t * price <= a * TOKEN_UNIT < t * price + price
    requires a * BPS_UNIT <= v * bps < a * BPS_UNIT + BPS_UNIT
    requires (v * DROPS_PER_XRP) * bps <= (drops * price) * bps
    requires (drops * price + 1) * bps <= ((v + 1) * DROPS_PER_XRP) * bps
    ensures t * price * BPS_UNIT <= drops * bps * price
    ensures drops * bps * price < t * price * BPS_UNIT + price * BPS_UNIT + TOKEN_UNIT * BPS_UNIT + bps * DROPS_PER_XRP
  {
    assert (v * DROPS_PER_XRP) * bps == (v * bps) * DROPS_PER_XRP;
    assert ((v + 1) * DROPS_PER_XRP) * bps == (v * bps) * DROPS_PER_XRP + bps * DROPS_PER_XRP;
    assert (drops * price) * bps == drops * bps * price;
    assert (drops * price + 1) * bps == (drops * price) * bps + bps;
  }

  /**
   * Three floors never pay out more than one floor would, and lose less than 1 + 2*10^6/price units:
   * at most one unit whenever the price is at least 2*10^6.
   */
  lemma RoundingChain(drops: nat, price: nat, bps: nat)
    requires price > 0 && bps <= BPS_UNIT
    ensures Chain(drops, price, bps) <= Ideal(drops, bps)
    ensures (Ideal(drops, bps) - Chain(drops, price, bps)) * price < price + 2_000_000
    ensures price >= 2_000_000 ==> Chain(drops, price, bps) >= Ideal(drops, bps) - 1
  {
    var t, x := Chain(drops, price, bps), Ideal(drops, bps);
    ChainBounds(drops, price, bps);
    FloorBounds(drops * bps, BPS_UNIT);
    UpperFloor(t, x, price, drops * bps);
    LowerFloor(t, x, price, drops * bps, bps);
    if price >= 2_000_000 { CancelLt(x - t, 2, price); }
  }

  lemma UpperFloor(t: nat, x: nat, price: nat, share: nat)
    requires price > 0 && t * price * BPS_UNIT <= share * price && share < x * BPS_UNIT + BPS_UNIT
    ensures t <= x
  {
    assert t * price * BPS_UNIT == (t * BPS_UNIT) * price;
    CancelLt(t * BPS_UNIT, share + 1, price) by { assert (share + 1) * price == share * price + price; }
  }

  lemma LowerFloor(t: nat, x: nat, price: nat, share: nat, bps: nat)
    requires x * BPS_UNIT <= share && bps <= BPS_UNIT
    requires share * price < t * price * BPS_UNIT + price * BPS_UNIT + TOKEN_UNIT * BPS_UNIT + bps * DROPS_PER_XRP
    ensures (x - t) * price < price + 2_000_000
  {
    ScaleLe(x * BPS_UNIT, share, price);
    assert (x * BPS_UNIT) * price == (x * price) * BPS_UNIT;
    assert (x - t) * price == x * price - t * price;
  }

  // ---- executionPreflight ----

  datatype PreflightError = AlreadyConsumed | Expired | InvalidPrice | InsufficientBalance

  datatype Preflight = Preflight(amount: nat, approvalRequired: bool, approvalAmount: nat)

  /** Replay state on chain: the event, this result, its nonce. */
  datatype Consumed = Consumed(event: bool, result: bool, nonce: bool) {
    predicate Any() { event || result || nonce }
  }

  function ExecutionPreflight(triggered: bool, protectedUsd18: nat, price: int, balance: nat, allowance: nat,
                              expiry: nat, now: nat, consumed: Consumed): Result<Preflight, PreflightError>
  {
    if consumed.event || consumed.result || consumed.nonce then Err(AlreadyConsumed)
    else if expiry <= now then Err(Expired)
    else if triggered && TokenUnits(protectedUsd18, price).None? then Err(InvalidPrice)
    else
      var amount := if triggered then TokenUnits(protectedUsd18, price).value else 0;
      if balance < amount then Err(InsufficientBalance)
      else Ok(Preflight(amount, allowance < amount, if allowance < amount then amount else 0))
  }

  /** The first check that fails decides; a stored price of zero or less stops triggered decisions only. */
  lemma PreflightRefusals(triggered: bool, share: nat, price: int, balance: nat, allowance: nat,
                           expiry: nat, now: nat, consumed: Consumed)
    ensures var r := ExecutionPreflight(triggered, share, price, balance, allowance, expiry, now, consumed);
            && (consumed.Any() <==> r == Err(AlreadyConsumed))
            && (!consumed.Any() && expiry <= now <==> r == Err(Expired))
            && (!consumed.Any() && now < expiry && triggered && price <= 0 <==> r == Err(InvalidPrice))
            && (!consumed.Any() && now < expiry && !triggered ==>
                  && r == Ok(Preflight(0, false, 0))
                  && r == ExecutionPreflight(triggered, share, 1, balance, allowance, expiry, now, consumed))
  {}

  /**
   * For a decision computed from the stored price, preflight passes exactly when the decision is live and
   * unconsumed and, if triggered, has a positive price and enough balance. It approves what the transfer
   * needs and no more, and the transfer never exceeds the payment's own share.
   */
  lemma PreflightExact(drops: nat, price: int, bps: nat, triggered: bool, share: nat, balance: nat, allowance: nat,
                       expiry: nat, now: nat, consumed: Consumed)
    requires bps <= BPS_UNIT
    requires price > 0 && triggered ==> share == ProtectedShare(EventValue(drops, price), bps)
    ensures var r := ExecutionPreflight(triggered, share, price, balance, allowance, expiry, now, consumed);
            && (r.Ok? <==>
                  !consumed.Any() && now < expiry && (triggered ==> price > 0 && Chain(drops, price, bps) <= balance))
            && (r.Ok? ==>
                  && r.value.amount == (if triggered then Chain(drops, price, bps) else 0)
                  && r.value.amount <= Ideal(drops, bps)
                  && (r.value.approvalRequired <==> allowance < r.value.amount)
                  && r.value.approvalAmount == (if r.value.approvalRequired then r.value.amount else 0))
  {
    if price > 0 { RoundingChain(drops, price, bps); }
    assert 0 <= Ideal(drops, bps);
  }
}
