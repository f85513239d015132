/** `verifyRazorpaySignature`: the authenticity check on the gateway's payment
    callback. HMAC-SHA256 with a hex digest is left uninterpreted: it is the
    parameter `mac`, taking the secret key and the message. */
module Signature {
  import opened Results
  import opened Text

  /** HMAC-SHA256 of a message under a key, hex-encoded. */
  type Mac = (string, string) -> string

  /** The fields of the callback the check reads. */
  datatype RazorpayPayment = RazorpayPayment(paymentId: string, signature: string)

  const Separator: char := '|'

  /** The signed message: the gateway order id and the payment id, joined by `|`. */
  function SignedMessage(orderId: string, paymentId: string): (msg: string)
    ensures |msg| == |orderId| + 1 + |paymentId|
    ensures msg[..|orderId|] == orderId && msg[|orderId|] == Separator && msg[|orderId| + 1..] == paymentId
  {
    orderId + [Separator] + paymentId
  }

  /** Splitting a signed message at its first `|` gives back both ids when the
      order id holds no `|` (gateway order ids are `order_` and letters and digits). */
  lemma SignedMessageRoundTrip(orderId: string, paymentId: string)
    requires Separator !in orderId
    ensures SplitAtFirst(SignedMessage(orderId, paymentId), Separator) == Some((orderId, paymentId))
  {
    SplitJoin(orderId, Separator, paymentId);
  }

  /** So distinct id pairs sign distinct messages, for `|`-free order ids. */
  lemma SignedMessageInjective(o1: string, p1: string, o2: string, p2: string)
    requires Separator !in o1 && Separator !in o2
    requires SignedMessage(o1, p1) == SignedMessage(o2, p2)
    ensures o1 == o2 && p1 == p2
  {
    SignedMessageRoundTrip(o1, p1);
    SignedMessageRoundTrip(o2, p2);
  }

  /** Without that condition two id pairs can sign the same message. */
  lemma SeparatorInOrderIdIsAmbiguous()
    ensures SignedMessage("a|b", "c") == SignedMessage("a", "b|c")
  {
  }

  /** The callback is genuine exactly when the claimed signature equals the
      MAC recomputed under the secret, character for character. */
  function VerifySignature(mac: Mac, secret: string, payment: RazorpayPayment, orderId: string): (valid: bool)
    ensures valid <==> payment.signature == mac(secret, SignedMessage(orderId, payment.paymentId))
  {
    mac(secret, orderId + "|" + payment.paymentId) == payment.signature
  }

  /** At most one signature is accepted for a given order and payment. */
  lemma AtMostOneValidSignature(mac: Mac, secret: string, orderId: string, paymentId: string, s1: string, s2: string)
    requires VerifySignature(mac, secret, RazorpayPayment(paymentId, s1), orderId)
    requires VerifySignature(mac, secret, RazorpayPayment(paymentId, s2), orderId)
    ensures s1 == s2
  {
  }

  /** Changing any one character of an accepted signature gets it rejected;
      this covers changing the case of a hex letter. */
  lemma MutatedSignatureRejected(mac: Mac, secret: string, orderId: string, paymentId: string, s: string, i: nat, c: char)
    requires VerifySignature(mac, secret, RazorpayPayment(paymentId, s), orderId)
    requires i < |s| && c != s[i]
    ensures !VerifySignature(mac, secret, RazorpayPayment(paymentId, s[i := c]), orderId)
  {
    assert s[i := c][i] != s[i];
  }

}
