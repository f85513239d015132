/** `checkoutOrder`: turns a ticket purchase into a payment order at the
    payment gateway (Razorpay) and answers with the redirect to the payment
    page. The gateway call is a parameter of the model. */
module Checkout {
  import opened Results
  import opened Text

  /** The fractional part of a price: 0 to 99 paise. */
  type Paise = n: nat | n < 100

  /** A ticket price in rupees, exact to the paisa ("499.00" is Price(499, 0)). */
  datatype Price = Price(rupees: nat, paise: Paise)

  /** What the event page sends to checkout. */
  datatype CheckoutParams = CheckoutParams(
    eventTitle: string,
    eventId: string,
    price: Price,
    isFree: bool,
    buyerId: string)

  /** The metadata attached to a gateway order. */
  datatype Notes = Notes(eventId: string, buyerId: string)

  /** The order-creation request sent to the gateway. */
  datatype PaymentRequest = PaymentRequest(amount: nat, currency: string, receipt: string, notes: Notes)

  /** The gateway's order creation: the new order's id, or the gateway's error. */
  type Gateway = PaymentRequest -> Result<string, string>

  const Currency: string := "INR"
  const ReceiptPrefix: string := "receipt_"
  /** How many characters of each id the receipt keeps. */
  const IdPrefixLength: nat := 10
  /** The gateway's ceiling on receipt length. */
  const MaxReceiptLength: nat := 40
  const RedirectPrefix: string := "/payment?order_id="

  /** The price as an exact rational number of rupees. */
  function PriceInRupees(price: Price): real {
    price.rupees as real + price.paise as real / 100.0
  }

  /** The amount charged, in paise: nothing for a free event, otherwise the
      price carried in minor units, so dividing by 100 gives the rupees back
      and the remainder the paise. */
  function ChargeAmount(price: Price, isFree: bool): (amount: nat)
    ensures isFree ==> amount == 0
    ensures !isFree ==> amount / 100 == price.rupees && amount % 100 == price.paise
  {
    if isFree then 0 else price.rupees * 100 + price.paise
  }

  /** A paid ticket is charged exactly 100 times its price. */
  lemma ChargeIsHundredTimesPrice(price: Price)
    ensures ChargeAmount(price, false) as real == 100.0 * PriceInRupees(price)
  {
  }

  /** A free ticket is charged nothing, whatever price the event carries. */
  lemma FreeTicketChargesNothing(price: Price)
    ensures ChargeAmount(price, true) == 0
  {
  }

  /** An event priced 499.00 is charged 49900 paise. */
  lemma ChargeExample()
    ensures ChargeAmount(Price(499, 0), false) == 49900
  {
  }

  /** The receipt id: a literal prefix and the first ten characters of the
      event id and of the buyer id, joined by an underscore. */
  function ReceiptId(eventId: string, buyerId: string): (r: string)
    ensures |r| <= |ReceiptPrefix| + IdPrefixLength + 1 + IdPrefixLength < MaxReceiptLength
    ensures |ReceiptPrefix| + 1 <= |r|
    ensures r[..|ReceiptPrefix|] == ReceiptPrefix
  {
    ReceiptPrefix + Take(eventId, IdPrefixLength) + "_" + Take(buyerId, IdPrefixLength)
  }

  /** Reads the two id prefixes back out of a receipt id. */
  function ParseReceipt(r: string): Option<(string, string)> {
    if |ReceiptPrefix| <= |r| && r[..|ReceiptPrefix|] == ReceiptPrefix
    then SplitAtFirst(r[|ReceiptPrefix|..], '_')
    else None
  }

  /** A receipt id gives back exactly the ten-character prefixes it was built
      from, provided the event id's prefix holds no underscore (MongoDB
      object ids are hex digits). */
  lemma ReceiptRoundTrip(eventId: string, buyerId: string)
    requires '_' !in Take(eventId, IdPrefixLength)
    ensures ParseReceipt(ReceiptId(eventId, buyerId))
            == Some((Take(eventId, IdPrefixLength), Take(buyerId, IdPrefixLength)))
  {
    var e, b := Take(eventId, IdPrefixLength), Take(buyerId, IdPrefixLength);
    assert ReceiptId(eventId, buyerId)[|ReceiptPrefix|..] == e + ['_'] + b;
    SplitJoin(e, '_', b);
  }

  /** The receipt id depends on nothing but the first ten characters of each id. */
  lemma ReceiptDependsOnlyOnPrefixes(e1: string, b1: string, e2: string, b2: string)
    requires Take(e1, IdPrefixLength) == Take(e2, IdPrefixLength)
    requires Take(b1, IdPrefixLength) == Take(b2, IdPrefixLength)
    ensures ReceiptId(e1, b1) == ReceiptId(e2, b2)
  {
  }

  /** Conversely, equal receipt ids mean equal id prefixes, for underscore-free event ids. */
  lemma ReceiptDeterminesPrefixes(e1: string, b1: string, e2: string, b2: string)
    requires '_' !in Take(e1, IdPrefixLength) && '_' !in Take(e2, IdPrefixLength)
    requires ReceiptId(e1, b1) == ReceiptId(e2, b2)
    ensures Take(e1, IdPrefixLength) == Take(e2, IdPrefixLength)
    ensures Take(b1, IdPrefixLength) == Take(b2, IdPrefixLength)
  {
    ReceiptRoundTrip(e1, b1);
    ReceiptRoundTrip(e2, b2);
  }

  /** Two different MongoDB object ids that agree in their first ten hex
      digits (the creation second and one more byte) share a receipt id. */
  lemma DistinctIdsCanShareReceipt()
    ensures var e1, e2, b := "66f1a2b3c4000000000000aa", "66f1a2b3c4ffffffffffffbb", "66f1a2b3c4d5e6f708192a3b";
            e1 != e2 && ReceiptId(e1, b) == ReceiptId(e2, b)
  {
    var e1, e2 := "66f1a2b3c4000000000000aa", "66f1a2b3c4ffffffffffffbb";
    assert e1[10] != e2[10];
  }

  /** The request `checkoutOrder` sends to the gateway. */
  function PaymentRequestFor(order: CheckoutParams): (req: PaymentRequest)
    ensures req.currency == Currency
    ensures order.isFree ==> req.amount == 0
    ensures !order.isFree ==> req.amount as real == 100.0 * PriceInRupees(order.price)
    ensures req.amount == ChargeAmount(order.price, order.isFree)
    ensures req.receipt == ReceiptId(order.eventId, order.buyerId) && |req.receipt| <= MaxReceiptLength
    ensures req.notes.eventId == order.eventId && req.notes.buyerId == order.buyerId
  {
    PaymentRequest(
      ChargeAmount(order.price, order.isFree),
      Currency,
      ReceiptId(order.eventId, order.buyerId),
      Notes(order.eventId, order.buyerId))
  }

  /** The gateway order id carried by a payment-page redirect. */
  function OrderIdOfRedirect(target: string): Option<string> {
    if |RedirectPrefix| <= |target| && target[..|RedirectPrefix|] == RedirectPrefix
    then Some(target[|RedirectPrefix|..])
    else None
  }

  /** `checkoutOrder`: creates the gateway order and redirects to the payment
      page for it; when the gateway fails, its error goes to the caller as it
      was and there is no redirect. */
  function CheckoutOrder(order: CheckoutParams, gateway: Gateway): (r: Result<string, string>)
    ensures r.Ok? <==> gateway(PaymentRequestFor(order)).Ok?
    ensures r.Ok? ==> |RedirectPrefix| <= |r.value| && r.value[..|RedirectPrefix|] == RedirectPrefix
    ensures r.Ok? ==> OrderIdOfRedirect(r.value) == Some(gateway(PaymentRequestFor(order)).value)
    ensures r.Err? ==> r.error == gateway(PaymentRequestFor(order)).error
  {
    match gateway(PaymentRequestFor(order))
    case Ok(gatewayOrderId) => Ok(RedirectPrefix + gatewayOrderId)
    case Err(e) => Err(e)
  }

  /** Checkout asks the gateway one thing only: two gateways that answer the
      request for this order alike give the same outcome. */
  lemma CheckoutAsksOnlyForThisOrder(order: CheckoutParams, g1: Gateway, g2: Gateway)
    requires g1(PaymentRequestFor(order)) == g2(PaymentRequestFor(order))
    ensures CheckoutOrder(order, g1) == CheckoutOrder(order, g2)
  {
  }
}
