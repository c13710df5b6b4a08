/**
 * The pure part of StripeService: the success URL handed to Stripe, the
 * defaults of a checkout request and the metadata attached to the checkout
 * session. The metadata is read back when the payment is confirmed, so the
 * reader of that side (the confirmation's parse of `tokens` and `tokenPrice`)
 * is modelled here as the partner of the writer.
 */
module Stripe {
  import opened Wrappers
  import opened Text

  /** Placeholder that Stripe replaces by the checkout session id. */
  const Placeholder: string := "{CHECKOUT_SESSION_ID}"

  /** Price of one token, in the smallest unit of the currency. */
  const UnitAmount: int := 2000

  /**
   * buildFinalSuccessUrl: a URL that already carries the placeholder is kept;
   * otherwise `session_id=<placeholder>` is appended as a new query parameter,
   * after `&` when the URL already has a query string and after `?` when not.
   */
  function BuildFinalSuccessUrl(url: string): (r: string)
    ensures url <= r
    ensures Contains(r, Placeholder)
    ensures r == url <==> Contains(url, Placeholder)
    ensures r != url ==>
      r[|url|] == (if Contains(url, "?") then '&' else '?') &&
      r[|url| + 1..] == "session_id=" + Placeholder
    ensures r != url ==> Contains(r, "?")
  {
    var separator := if Contains(url, "?") then "&" else "?";
    if Contains(url, Placeholder) then url
    else
      AppendedParameter(url, separator);
      url + separator + "session_id=" + Placeholder
  }

  /** Appending a separator and the session parameter keeps a query string and adds the placeholder. */
  lemma AppendedParameter(url: string, separator: string)
    requires separator == (if Contains(url, "?") then "&" else "?")
    ensures var r := url + separator + "session_id=" + Placeholder;
      && url <= r && r != url
      && r[|url|] == separator[0] && r[|url| + 1..] == "session_id=" + Placeholder
      && Contains(r, Placeholder) && Contains(r, "?")
  {
    var r := url + separator + "session_id=" + Placeholder;
    assert r == url + (separator + "session_id=") + Placeholder;
    assert r == url + (separator + "session_id=" + Placeholder);
    ContainsSuffix(url + (separator + "session_id="), Placeholder);
    if separator == "?" {
      assert r[|url|..|url| + 1] == separator;
      assert OccursAt(r, "?", |url|);
    } else {
      ContainsExtended(url, separator + "session_id=" + Placeholder, "?");
    }
  }

  /** Building the success URL a second time changes nothing. */
  lemma SuccessUrlIdempotent(url: string)
    ensures BuildFinalSuccessUrl(BuildFinalSuccessUrl(url)) == BuildFinalSuccessUrl(url)
  {
  }

  /** The fields of a checkout request; an absent field is Java's null. */
  datatype ProductRequest = ProductRequest(quantity: Option<int>, currency: Option<string>, name: Option<string>)

  datatype Mode = PAYMENT

  datatype LineItem = LineItem(quantity: int, currency: string, unitAmount: int, name: string)

  /** The checkout-session parameters handed to Stripe. */
  datatype SessionParams = SessionParams(
    mode: Mode,
    successUrl: string,
    cancelUrl: string,
    metadata: map<string, string>,
    lineItem: LineItem)

  /** What the payment confirmation reads back from a session's metadata. */
  datatype PaymentOrder = PaymentOrder(userId: string, tokens: int, amount: int)

  /**
   * The confirmation side: all three metadata keys must be present, the
   * token count must parse as a 32-bit `int` and the price as a number; the
   * amount paid is tokens times the token price.
   */
  function ReadMetadata(metadata: map<string, string>): (r: Option<PaymentOrder>)
    ensures r.Some? <==>
      "userId" in metadata && "tokens" in metadata && "tokenPrice" in metadata &&
      ParseInt(metadata["tokens"]).Some? && ParseDecimal(metadata["tokenPrice"]).Some?
    ensures r.Some? ==>
      r.value.userId == metadata["userId"] &&
      Some(r.value.tokens) == ParseInt(metadata["tokens"]) &&
      InIntRange(r.value.tokens) &&
      r.value.amount == r.value.tokens * ParseDecimal(metadata["tokenPrice"]).value
  {
    if "userId" in metadata && "tokens" in metadata && "tokenPrice" in metadata then
      match (ParseInt(metadata["tokens"]), ParseDecimal(metadata["tokenPrice"]))
      case (Some(tokens), Some(price)) => Some(PaymentOrder(metadata["userId"], tokens, tokens * price))
      case _ => None
    else None
  }

  lemma ParsePrice()
    ensures ParseDecimal("2000") == Some(UnitAmount)
  {
    var s := "2000";
    assert !(s[0] == '-' || s[0] == '+') && AllDigits(s);
    assert s[..3] == "200" && s[..3][..2] == "20" && s[..3][..2][..1] == "2";
    assert DigitsValue("2") == 2;
    assert DigitsValue("20") == 20;
    assert DigitsValue("200") == 200;
    assert DigitsValue(s) == 2000;
  }

  /**
   * The metadata map, filled one entry at a time: the user, the quantity as
   * a decimal string and the token price. Reading it back at confirmation
   * yields the same user and quantity and the amount the line item charges
   * when the quantity fits in an `int`; a larger `long` quantity is written
   * but cannot be read back.
   */
  method BuildMetadata(userId: string, quantity: int) returns (metadata: map<string, string>)
    ensures metadata.Keys == {"userId", "tokens", "tokenPrice"}
    ensures metadata["userId"] == userId
    ensures ParseDecimal(metadata["tokens"]) == Some(quantity)
    ensures ParseDecimal(metadata["tokenPrice"]) == Some(UnitAmount)
    ensures InIntRange(quantity) ==>
      ReadMetadata(metadata) == Some(PaymentOrder(userId, quantity, quantity * UnitAmount))
    ensures !InIntRange(quantity) ==> ReadMetadata(metadata).None?
  {
    metadata := map[];
    metadata := metadata["userId" := userId];
    metadata := metadata["tokens" := IntToString(quantity)];
    metadata := metadata["tokenPrice" := "2000"];
    ParseIntOfIntToString(quantity);
    ParsePrice();
  }

  /**
   * createCheckoutSession up to the call into Stripe: quantity defaults to 1,
   * currency to "cop" (a given currency is lower-cased), name to "Token"; one
   * line item at the fixed unit amount. What the confirmation will read from
   * the metadata agrees with what the line item charges, provided the
   * quantity fits in an `int`; otherwise the confirmation rejects it.
   */
  method CreateCheckoutSession(request: ProductRequest, userId: string, successUrl: string, cancelUrl: string)
    returns (params: SessionParams)
    ensures params.mode == PAYMENT
    ensures params.successUrl == BuildFinalSuccessUrl(successUrl)
    ensures params.cancelUrl == cancelUrl
    ensures params.lineItem.quantity == request.quantity.GetOr(1)
    ensures request.currency.None? ==> params.lineItem.currency == "cop"
    ensures request.currency.Some? ==> params.lineItem.currency == ToLower(request.currency.value)
    ensures NoUpperCase(params.lineItem.currency)
    ensures params.lineItem.name == request.name.GetOr("Token")
    ensures params.lineItem.unitAmount == UnitAmount
    ensures InIntRange(params.lineItem.quantity) ==>
      ReadMetadata(params.metadata) ==
        Some(PaymentOrder(userId, params.lineItem.quantity, params.lineItem.quantity * params.lineItem.unitAmount))
    ensures !InIntRange(params.lineItem.quantity) ==> ReadMetadata(params.metadata).None?
  {
    var finalSuccessUrl := BuildFinalSuccessUrl(successUrl);
    var quantity := if request.quantity.None? then 1 else request.quantity.value;
    var currency := if request.currency.None? then "cop" else ToLower(request.currency.value);
    var name := if request.name.None? then "Token" else request.name.value;
    var unitAmount := UnitAmount;
    var metadata := BuildMetadata(userId, quantity);
    assert NoUpperCase("cop");
    params := SessionParams(PAYMENT, finalSuccessUrl, cancelUrl, metadata,
                            LineItem(quantity, currency, unitAmount, name));
  }
}
