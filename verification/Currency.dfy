/** Wei, native units, and the payment that goes with a registration. Amounts are unsigned, as the contracts return them. */
module Currency {
  import opened Prelude

  const DEFAULT_NATIVE_TOKEN_DECIMALS: nat := 10
  const EVM_TOKEN_DECIMALS: nat := 18

  /** The UI's fixed ratio. */
  const NATIVE_TO_ETH_RATIO: nat := 100_000_000

  function Pow10(n: nat): (p: nat)
    ensures p > 0
  {
    if n == 0 then 1 else 10 * Pow10(n - 1)
  }

  /** `normalizeNativeDecimals`. */
  function NativeDecimals(decimals: JsNumber): nat
  {
    if !decimals.Finite? || decimals.value != decimals.value.Floor as real || decimals.value < 0.0
    then DEFAULT_NATIVE_TOKEN_DECIMALS
    else decimals.value.Floor
  }

  /** `getNativeToWeiRatio`; None is the error. */
  function NativeToWeiRatio(decimals: JsNumber): (ratio: Option<nat>)
    ensures ratio.None? <==> NativeDecimals(decimals) > EVM_TOKEN_DECIMALS
    ensures ratio.Some? ==> ratio.value > 0
  {
    if NativeDecimals(decimals) > EVM_TOKEN_DECIMALS then None
    else Some(Pow10(EVM_TOKEN_DECIMALS - NativeDecimals(decimals)))
  }

  lemma {:induction false} Pow10Adds(m: nat, n: nat)
    ensures Pow10(m + n) == Pow10(m) * Pow10(n)
  {
    if m > 0 {
      Pow10Adds(m - 1, n);
      calc {
        Pow10(m + n);
        10 * (Pow10(m - 1) * Pow10(n));
        Pow10(m) * Pow10(n);
      }
    }
  }

  /** One whole token is worth one ether whatever the token's decimals; with the default decimals the CLI's ratio is the UI's. */
  lemma RatioScalesWholeTokens(decimals: JsNumber)
    ensures NativeToWeiRatio(decimals).Some? ==>
              Pow10(NativeDecimals(decimals)) * NativeToWeiRatio(decimals).value == Pow10(EVM_TOKEN_DECIMALS)
    ensures NativeToWeiRatio(Undefined) == Some(NATIVE_TO_ETH_RATIO)
  {
    var d := NativeDecimals(decimals);
    if d <= EVM_TOKEN_DECIMALS {
      Pow10Adds(d, EVM_TOKEN_DECIMALS - d);
    }
    assert Pow10(8) == NATIVE_TO_ETH_RATIO;
  }

  function WeiToNative(wei: nat, ratio: nat): (native: nat)
    requires ratio > 0
  {
    wei / ratio
  }

  function WeiToNativeCeil(wei: nat, ratio: nat): (native: nat)
    requires ratio > 0
  {
    (wei + ratio - 1) / ratio
  }

  function NativeToWei(native: nat, ratio: nat): nat
  {
    native * ratio
  }

  /** A whole number of native units is worth at most an amount exactly if it is at most the floor. */
  lemma FloorIsGreatest(wei: nat, ratio: nat, native: nat)
    requires ratio > 0
    ensures NativeToWei(native, ratio) <= wei <==> native <= WeiToNative(wei, ratio)
  {
    var q := WeiToNative(wei, ratio);
    assert wei == q * ratio + wei % ratio;
    if native <= q {
      MulLe(native, q, ratio);
    } else {
      MulLe(q + 1, native, ratio);
    }
  }

  /** A whole number of native units covers a fee exactly if it is at least the ceiling: the ceiling is the least amount that
      covers it, and overpays by less than one unit. */
  lemma CeilIsLeastCover(wei: nat, ratio: nat, native: nat)
    requires ratio > 0
    ensures NativeToWei(native, ratio) >= wei <==> native >= WeiToNativeCeil(wei, ratio)
    ensures NativeToWei(WeiToNativeCeil(wei, ratio), ratio) < wei + ratio
  {
    var q := WeiToNativeCeil(wei, ratio);
    assert q == CeilDiv(wei, ratio);
    if native >= q {
      MulLe(q, native, ratio);
    } else {
      MulLe(native, q - 1, ratio);
    }
  }

  /** Both conversions undo the conversion to wei. */
  lemma NativeRoundTrip(native: nat, ratio: nat)
    requires ratio > 0
    ensures WeiToNative(NativeToWei(native, ratio), ratio) == native
    ensures WeiToNativeCeil(NativeToWei(native, ratio), ratio) == native
  {
    var wei := NativeToWei(native, ratio);
    FloorIsGreatest(wei, ratio, native);
    FloorIsGreatest(wei, ratio, WeiToNative(wei, ratio));
    CeilIsLeastCover(wei, ratio, native);
    CeilIsLeastCover(wei, ratio, WeiToNativeCeil(wei, ratio));
    if WeiToNative(wei, ratio) > native {
      MulLe(native + 1, WeiToNative(wei, ratio), ratio);
    }
    if WeiToNativeCeil(wei, ratio) < native {
      MulLe(WeiToNativeCeil(wei, ratio), native - 1, ratio);
    }
  }

  /** `chargedAmountWei`: another owner pays the price or the transfer floor, whichever is greater. */
  function ChargedWei(price: nat, friction: nat): nat
  {
    if price > friction then price else friction
  }

  /** What the UI sends, in native units. */
  function UiPayment(charged: nat): nat
  {
    WeiToNative(charged * 110 / 100, NATIVE_TO_ETH_RATIO)
  }

  const PAYMENT_BUFFER_PERCENT: nat := 100

  /** What the CLI sends, in native units. */
  function CliPayment(charged: nat, ratio: nat): nat
    requires ratio > 0
  {
    WeiToNative(charged * PAYMENT_BUFFER_PERCENT / 100, ratio)
  }

  /** The UI's payment covers the charge exactly if the charge is whole, or its fraction and a tenth of it make a whole unit.
      So it covers every charge of ten units or more; and it never exceeds 110 percent. */
  lemma UiPaymentCovers(charged: nat)
    ensures var paid := NativeToWei(UiPayment(charged), NATIVE_TO_ETH_RATIO);
            var fraction := charged % NATIVE_TO_ETH_RATIO;
            && (paid >= charged <==> fraction == 0 || fraction + charged / 10 >= NATIVE_TO_ETH_RATIO)
            && (charged >= 10 * NATIVE_TO_ETH_RATIO ==> paid >= charged)
            && 100 * paid <= 110 * charged
  {
  }

  /** A charge that rose after it was quoted is covered exactly if its ceiling still fits into 110 percent of the quote;
      any rise by up to a tenth less one unit does. */
  lemma UiPaymentCoversRise(quoted: nat, charged: nat)
    ensures NativeToWei(UiPayment(quoted), NATIVE_TO_ETH_RATIO) >= charged <==>
            NativeToWei(WeiToNativeCeil(charged, NATIVE_TO_ETH_RATIO), NATIVE_TO_ETH_RATIO) <= quoted * 110 / 100
    ensures charged + NATIVE_TO_ETH_RATIO <= quoted + quoted / 10 ==> NativeToWei(UiPayment(quoted), NATIVE_TO_ETH_RATIO) >= charged
  {
    CeilIsLeastCover(charged, NATIVE_TO_ETH_RATIO, UiPayment(quoted));
    FloorIsGreatest(quoted * 110 / 100, NATIVE_TO_ETH_RATIO, WeiToNativeCeil(charged, NATIVE_TO_ETH_RATIO));
  }

  /** The CLI's payment never exceeds the charge, so it covers the charge exactly if the ratio divides it, and never a charge
      that rose. The cross-payer amount covers both the price and the transfer floor under the same condition. */
  lemma CliPaymentCovers(price: nat, friction: nat, ratio: nat, later: nat)
    requires ratio > 0
    ensures var charged := ChargedWei(price, friction);
            var paid := NativeToWei(CliPayment(charged, ratio), ratio);
            && paid <= charged < paid + ratio
            && (paid >= charged <==> charged % ratio == 0)
            && (paid >= price && paid >= friction <==> charged % ratio == 0)
            && (later > charged ==> paid < later)
  {
    var charged := ChargedWei(price, friction);
    assert charged * PAYMENT_BUFFER_PERCENT / 100 == charged;
    assert charged == charged / ratio * ratio + charged % ratio;
  }

  /** Neither payment covers every charge: one wei over a unit is underpaid by both. */
  lemma SmallChargeUnderpaid()
    ensures NativeToWei(UiPayment(100_000_001), NATIVE_TO_ETH_RATIO) < 100_000_001
    ensures NativeToWei(CliPayment(100_000_001, NATIVE_TO_ETH_RATIO), NATIVE_TO_ETH_RATIO) < 100_000_001
  {
  }
}
