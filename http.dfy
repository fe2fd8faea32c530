/**
 * What the two edge functions send back, and the configuration check they share.
 * Headers (CORS, content type) and JSON serialisation are not modelled: a response
 * is its status code and the fields of its JSON body.
 */
module Http {
  import opened Wrappers

  /** The JSON body of a reply. */
  datatype Body =
    | PaymentCreated(razorpayOrderId: string, orderId: nat, amount: int, currency: string, keyId: string)
    | PaymentVerified(message: string)
    | Failure(error: string)
  {
    /** The `success` field of the body. */
    predicate Success() { !Failure? }
  }

  /** `Preflight` is the answer to an OPTIONS request: CORS headers and a null body. */
  datatype Response = Preflight | Reply(status: int, body: Body)

  const SecretMissingMessage: string := "Razorpay secret key not configured"

  /**
   * `Deno.env.get("RAZORPAY_SECRET_KEY")` tested with `!`: an unset variable and an
   * empty one are both "not configured".
   */
  predicate SecretConfigured(secret: Option<string>) {
    secret.Some? && secret.value != ""
  }

  /**
   * What `supabase.functions.invoke` hands the browser as success: a 2xx reply
   * whose body says `success: true`. Any other status surfaces as an invoke error.
   */
  predicate Succeeded(r: Response) {
    r.Reply? && 200 <= r.status < 300 && r.body.Success()
  }
}
