/** The payload provider's share of a payment, and the burn. */
module Payment {
  import opened Bytes
  import opened Accounts
  import opened Operations

  const U256: nat := 0x1_00000000_00000000_00000000_00000000_00000000_00000000_00000000_00000000
  const BPS_DENOMINATOR: nat := 10000

  /** What a validated receipt says; the signature check is not modelled. */
  datatype Auth = Auth(nonce: B256, contentType: Key, payment: nat, provider: Address)

  datatype Params = Params(enabled: bool, shareBps: nat, minimum: nat)

  type Balances = map<Address, nat>

  function Balance(b: Balances, a: Address): nat { if a in b then b[a] else 0 }

  /** The journal's transfer: to oneself it only checks the balance. */
  function Transfer(b: Balances, from: Address, to: Address, amount: nat): (r: Result<Balances>)
    ensures r.Ok? || r == Revert(PaymentTransferFailed(to, amount))
  {
    if Balance(b, from) < amount then Revert(PaymentTransferFailed(to, amount))
    else if from == to then Ok(b)
    else if Balance(b, to) + amount >= U256 then Revert(PaymentTransferFailed(to, amount))
    else
      var moved: Balances := b[from := Balance(b, from) - amount][to := Balance(b, to) + amount];
      Ok(moved)
  }

  function Wei(auth: Auth, baseFee: nat): nat { auth.payment * baseFee }
  function ProviderAmount(payment: nat, bps: nat): nat { payment * bps / BPS_DENOMINATOR }
  function BurnAmount(payment: nat, bps: nat): nat {
    if ProviderAmount(payment, bps) <= payment then payment - ProviderAmount(payment, bps) else 0
  }

  /** `apply_payload_provider_payment`, step by step. */
  function Pay(b: Balances, caller: Address, auth: Auth, baseFee: nat, params: Params): Result<Balances> {
    if !params.enabled then Ok(b)
    else if params.shareBps > BPS_DENOMINATOR then Fatal
    else if auth.payment < params.minimum then Revert(PaymentBelowMinimum(auth.payment, params.minimum))
    else
      var payment := Wei(auth, baseFee);
      if Balance(b, caller) < payment then Revert(PaymentInsufficientBalance(caller, payment, Balance(b, caller)))
      else
        var share, burn := ProviderAmount(payment, params.shareBps), BurnAmount(payment, params.shareBps);
        var b1 :- if share > 0 then Transfer(b, caller, auth.provider, share) else Ok(b);
        if burn == 0 then Ok(b1)
        else
          var left := Balance(b1, caller);
          if left < burn then Revert(PaymentInsufficientBalance(caller, payment, left))
          else
            var burned: Balances := b1[caller := left - burn];
            Ok(burned)
  }

  // ── Conservation ─────────────────────────────────────────────────────

  /** Share and burn are the payment, and no product leaves 256 bits. */
  lemma SplitExact(payment: nat, baseFee: nat, gas: nat, bps: nat)
    requires bps <= BPS_DENOMINATOR && gas < U64 && baseFee < U64 && payment == gas * baseFee
    ensures ProviderAmount(payment, bps) + BurnAmount(payment, bps) == payment
    ensures payment * bps < U256
  {
    ShareBound(payment, bps);
    Product(gas, baseFee);
    assert payment * bps <= payment * BPS_DENOMINATOR by { Scale(bps, BPS_DENOMINATOR, payment); }
  }

  lemma Scale(a: nat, b: nat, c: nat)
    requires a <= b
    ensures c * a <= c * b
  {
    assert c * b == c * a + c * (b - a);
  }

  lemma Product(a: nat, b: nat)
    requires a < U64 && b < U64
    ensures a * b < U64 * U64
  {
    Scale(b, U64, a);
    Scale(a, U64, U64);
    assert a * b <= a * U64 == U64 * a;
    if a > 0 { assert U64 * a < U64 * U64; }
  }

  lemma ShareBound(payment: nat, bps: nat)
    requires bps <= BPS_DENOMINATOR
    ensures ProviderAmount(payment, bps) <= payment
  {
    Scale(bps, BPS_DENOMINATOR, payment);
    assert payment * bps <= payment * 10000;
  }

  /** `s` is the share of `bps` basis points in `paid` wei, rounded down. */
  predicate ShareIs(s: nat, paid: nat, bps: nat) { s * 10000 <= paid * bps < (s + 1) * 10000 }

  /** There is exactly one such number, and it is what the code computes; what is
      left is burnt. */
  lemma ShareExact(paid: nat, bps: nat, s: nat)
    requires bps <= 10000
    ensures ShareIs(s, paid, bps) <==> s == ProviderAmount(paid, bps)
    ensures ShareIs(s, paid, bps) ==> s <= paid && BurnAmount(paid, bps) == paid - s
  {
    ShareBound(paid, bps);
    Quotient(paid * bps, s);
  }

  lemma Quotient(n: nat, s: nat)
    ensures s * 10000 <= n < (s + 1) * 10000 <==> s == n / 10000
  {}

  /** When the payment goes through, exactly what it changes, and what the answer
      is otherwise, in numbers: the price is gas times base fee, of which the
      provider gets `s`. The shortage check after the transfer never fires. */
  lemma PayExact(b: Balances, caller: Address, auth: Auth, baseFee: nat, params: Params, s: nat)
    requires params.enabled && params.shareBps <= 10000 ==> ShareIs(s, auth.payment * baseFee, params.shareBps)
    ensures var paid, r := auth.payment * baseFee, Pay(b, caller, auth, baseFee, params);
      && (!params.enabled ==> r == Ok(b))
      && (params.enabled ==> (r.Ok? <==>
          && params.shareBps <= 10000 && auth.payment >= params.minimum && Balance(b, caller) >= paid
          && (s == 0 || caller == auth.provider || Balance(b, auth.provider) + s < Pow256(32))))
      && (params.enabled && r.Ok? ==> Paid(b, r.value, caller, auth.provider, paid, s))
    ensures var paid, r := auth.payment * baseFee, Pay(b, caller, auth, baseFee, params);
      params.enabled && !r.Ok? ==>
        (if params.shareBps > 10000 then r.Fatal?
         else if auth.payment < params.minimum then r == Revert(PaymentBelowMinimum(auth.payment, params.minimum))
         else if Balance(b, caller) < paid then r == Revert(PaymentInsufficientBalance(caller, paid, Balance(b, caller)))
         else r == Revert(PaymentTransferFailed(auth.provider, s)))
  {
    var paid := Wei(auth, baseFee);
    assert paid == auth.payment * baseFee;
    if params.enabled && params.shareBps <= 10000 { ShareExact(paid, params.shareBps, s); }
    hide Wei, ProviderAmount, BurnAmount, ShareIs, Pow256;
    WordSize();
    PayParts(b, caller, auth, baseFee, params, paid, s);
  }

  lemma PayParts(b: Balances, caller: Address, auth: Auth, baseFee: nat, params: Params, paid: nat, s: nat)
    requires paid == Wei(auth, baseFee)
    requires params.enabled && params.shareBps <= 10000 ==>
      ProviderAmount(paid, params.shareBps) == s <= paid && BurnAmount(paid, params.shareBps) == paid - s
    ensures var r := Pay(b, caller, auth, baseFee, params);
      && (!params.enabled ==> r == Ok(b))
      && (params.enabled ==> (r.Ok? <==>
          && params.shareBps <= 10000 && auth.payment >= params.minimum && Balance(b, caller) >= paid
          && (s == 0 || caller == auth.provider || Balance(b, auth.provider) + s < U256)))
      && (params.enabled && r.Ok? ==> Paid(b, r.value, caller, auth.provider, paid, s))
    ensures var r := Pay(b, caller, auth, baseFee, params);
      params.enabled && !r.Ok? ==>
        (if params.shareBps > 10000 then r.Fatal?
         else if auth.payment < params.minimum then r == Revert(PaymentBelowMinimum(auth.payment, params.minimum))
         else if Balance(b, caller) < paid then r == Revert(PaymentInsufficientBalance(caller, paid, Balance(b, caller)))
         else r == Revert(PaymentTransferFailed(auth.provider, s)))
  {
    hide Wei, ProviderAmount, BurnAmount;
  }

  /** The provider has `s` more, the caller `paid` less, nobody else is touched;
      who pays himself has only the rest less. */
  ghost predicate Paid(b: Balances, b': Balances, caller: Address, provider: Address, paid: nat, s: nat) {
    && (caller != provider ==>
          Balance(b', caller) + paid == Balance(b, caller) && Balance(b', provider) == Balance(b, provider) + s)
    && (caller == provider ==> Balance(b', caller) + paid == Balance(b, caller) + s)
    && (forall a: Address :: a != caller && a != provider ==> Balance(b', a) == Balance(b, a))
  }

  lemma WordSize()
    ensures U256 == Pow256(32)
  {
    Pow256Eight();
    Pow256Sum(8, 8);
    Pow256Sum(16, 16);
  }

  lemma {:induction false} Pow256Sum(m: nat, n: nat)
    ensures Pow256(m + n) == Pow256(m) * Pow256(n)
  {
    if m != 0 {
      Pow256Sum(m - 1, n);
      assert Pow256(m + n) == 256 * Pow256(m - 1 + n);
    }
  }

  /** The sum of all balances. */
  ghost function Total(b: Balances): nat {
    if b == map[] then 0
    else
      var a :| a in b;
      b[a] + Total(b - {a})
  }

  lemma {:induction false} TotalStep(b: Balances, a: Address)
    ensures Total(b) == Balance(b, a) + Total(b - {a})
    decreases |b|
  {
    if a !in b {
      assert b - {a} == b;
    } else {
      var c :| c in b && Total(b) == b[c] + Total(b - {c});
      if c != a {
        TotalStep(b - {c}, a);
        TotalStep(b - {a}, c);
        assert b - {c} - {a} == b - {a} - {c};
      }
    }
  }

  lemma TotalWrite(b: Balances, a: Address, n: nat)
    ensures Total(b[a := n]) + Balance(b, a) == Total(b) + n
  {
    TotalStep(b, a);
    TotalStep(b[a := n], a);
    assert b[a := n] - {a} == b - {a};
  }

  /** Moving `share` to the provider and taking `burn` off the caller. */
  lemma MovedTotal(b: Balances, caller: Address, provider: Address, share: nat, burn: nat)
    requires share + burn <= Balance(b, caller)
    ensures var b1: Balances := if share > 0 && caller != provider
        then b[caller := Balance(b, caller) - share][provider := Balance(b, provider) + share] else b;
      && Balance(b1, caller) >= burn
      && Total(b1[caller := Balance(b1, caller) - burn]) + burn == Total(b) && Total(b1) == Total(b)
  {
    var b0: Balances := b[caller := Balance(b, caller) - share];
    var b1: Balances := if share > 0 && caller != provider then b0[provider := Balance(b, provider) + share] else b;
    if share > 0 && caller != provider {
      TotalWrite(b, caller, Balance(b, caller) - share);
      TotalWrite(b0, provider, Balance(b, provider) + share);
    }
    TotalWrite(b1, caller, Balance(b1, caller) - burn);
  }

  /** The total falls by exactly what is paid and not given to the provider. */
  lemma PayConserves(b: Balances, caller: Address, auth: Auth, baseFee: nat, params: Params, s: nat)
    requires params.enabled && params.shareBps <= 10000 ==> ShareIs(s, auth.payment * baseFee, params.shareBps)
    ensures var r := Pay(b, caller, auth, baseFee, params);
      r.Ok? && !params.enabled ==> Total(r.value) == Total(b)
    ensures var r := Pay(b, caller, auth, baseFee, params);
      r.Ok? && params.enabled ==> Total(r.value) + auth.payment * baseFee == Total(b) + s
  {
    var payment := Wei(auth, baseFee);
    if params.enabled && params.shareBps <= BPS_DENOMINATOR {
      ShareExact(payment, params.shareBps, s);
      if Balance(b, caller) >= payment {
        var share, burn := ProviderAmount(payment, params.shareBps), BurnAmount(payment, params.shareBps);
        MovedTotal(b, caller, auth.provider, share, burn);
        hide ProviderAmount, BurnAmount, Wei, Total;
      }
    }
  }

  /** If all balances together fit in 256 bits, the transfer cannot overflow:
      an enabled, well-configured, sufficient and covered payment goes through. */
  lemma PayGoesThrough(b: Balances, caller: Address, auth: Auth, baseFee: nat, params: Params)
    requires Total(b) < Pow256(32) && params.enabled && params.shareBps <= 10000
    requires auth.payment >= params.minimum && Balance(b, caller) >= auth.payment * baseFee
    ensures Pay(b, caller, auth, baseFee, params).Ok?
  {
    var s := ProviderAmount(auth.payment * baseFee, params.shareBps);
    ShareExact(auth.payment * baseFee, params.shareBps, s);
    PayExact(b, caller, auth, baseFee, params, s);
    TwoBalances(b, caller, auth.provider);
  }

  lemma TwoBalances(b: Balances, a: Address, c: Address)
    ensures a != c ==> Balance(b, a) + Balance(b, c) <= Total(b)
  {
    TotalStep(b, a);
    TotalStep(b - {a}, c);
  }
}
