# Prasad storefront payment flow, in Dafny

This project models the payment-order flow of a temple-prasad storefront. It also models the hero slideshow counter on the home page.

- **Intent issuer** (`create-razorpay-payment`): it takes a draft order and the amount the browser computed. It asks the payment gateway (Razorpay) for an order in that amount, in INR. It then inserts one `orders` row with payment status `pending`, linked to the gateway order id, and returns the checkout parameters.
- **Callback verifier** (`verify-razorpay-payment`): it computes HMAC-SHA256 over `razorpayOrderId|razorpayPaymentId` (RFC 2104 section 2, SHA-256 as in FIPS 180-4 section 6.2). It renders the digest as lowercase hexadecimal (base 16, section 8 of RFC 4648) and compares the result with the relayed signature. It then overwrites the row's `payment_status` with `completed` or `failed`.
- **Checkout driver** (the booking modal of the prasad page): it prices a weight and quantity. It calls the issuer, opens the gateway's checkout, relays the gateway's callback to the verifier, and shows the confirmation page only after the verifier reports success.
- **Hero slideshow**: an index into three slides. A timer and two arrows move it, and indicator dots set it.

Modules:

- `Orders` (orders.dfy): the `orders` row, the two column patches the verifier writes, and the `Ledger` class. `Ledger` is the table, a `map` from row id to row.
- `Signature` (signature.dfy): the signed text, `toString(16)` and `padStart`, the hex rendering and its inverse, and the signature check.
- `CreatePayment` and `VerifyPayment`: the two edge functions, as methods that change the `Ledger`.
- `Checkout`: pricing, plus a `Storefront` class whose `Submit` method drives both handlers against one table.
- `HeroSlideshow`: the slide counter.
- `Http` and `Wrappers`: the reply shape and `Option`.

The gateway, the database's error reports, the clock and the shopper's action in the gateway popup are parameters of the methods. HMAC-SHA256 and UTF-8 encoding are function-valued fields of a `Crypto` value. A database-generated row id is a natural number taken from a counter in the `Ledger`.

The code is modelled as written, and it departs from the design it was written against in the ways below. The model follows the code each time:

- The issuer charges and records the amount the browser sends. It does not recompute the price from the catalogue.
- The verifier overwrites the status without comparing it first, so `completed` and `failed` are not terminal.
- The verifier does not check that the order id exists. An unknown id with a genuine signature gets a 200 success, and no row changes.
- The signature comparison is ordinary string equality.
- The gateway secret is looked up on every request. A missing secret is a 500 reply to that request, not a fatal error at start-up.
- The `completed` update overwrites `payment_id`, which held the gateway order id, with the gateway payment id. The link to the gateway order is therefore not kept once set.
- The verifier never compares the row's stored gateway order id with the callback's `razorpayOrderId`. A genuinely signed callback can therefore settle any row (`VerifyPayment.GenuineCallbackCompletesOtherOrder`).

`VerifyPayment.HandleGuarded` is a separate compare-and-set variant. It shows what the design asks for and does not replace the faithful `Handle`.

## Model

| member | source | states |
|---|---|---|
| `Http.SecretConfigured` | supabase/functions/create-razorpay-payment/index.ts:20-24 | `!razorpaySecret` refuses both an unset and an empty secret; the verifier has the same test at verify-razorpay-payment/index.ts:18-21. |
| `Http.Succeeded` | src/components/prasadam/PrasadamProducts.tsx:89 | The browser treats a reply as success only when it is not an invocation error and its body says `success`; the verify call has the same test at line 123. |
| `Orders.Patched` | supabase/functions/verify-razorpay-payment/index.ts:53-60 | A verifier update changes only `payment_status`, `payment_id` and `updated_at`. The `completed` update sets the payment id. The `failed` update keeps the stored payment id. |
| `Orders.UpdateWhereId` | supabase/functions/verify-razorpay-payment/index.ts:81-87 | `.update(...).eq("id", orderId)` patches the row with that id and leaves every other row alone. With no such row, the table is unchanged and no error is raised. |
| `Orders.Ledger.Insert` | supabase/functions/create-razorpay-payment/index.ts:61-81 | An insert stores the row under a fresh id with creation and update stamps. A database error stores nothing. |
| `Orders.Ledger.Update` | supabase/functions/verify-razorpay-payment/index.ts:53-65 | An update applies the patch to the row with the given id and reports the database's error flag. An error writes nothing. |
| `Signature.SignedMessage` | supabase/functions/verify-razorpay-payment/index.ts:24 | The signed text is the gateway order id, one `|`, then the gateway payment id, in that order. |
| `Signature.SignedMessageInjective` | supabase/functions/verify-razorpay-payment/index.ts:24 | If order ids contain no `|`, two callbacks sign the same text only when both ids are equal. |
| `Signature.ToBase16` | supabase/functions/verify-razorpay-payment/index.ts:35 | `toString(16)` yields at least one lowercase hex digit. |
| `Signature.PadStart` | supabase/functions/verify-razorpay-payment/index.ts:35 | `padStart(2, '0')` gives a string of length at least 2. The original string is its suffix and every character before it is the filler. |
| `Signature.ByteToHex` | supabase/functions/verify-razorpay-payment/index.ts:35 | Each byte becomes exactly two lowercase digits, high nibble first. Bytes below 16 get a leading `0`. |
| `Signature.DigitValue` | supabase/functions/verify-razorpay-payment/index.ts:35 | The value of a lowercase digit is below 16, and `HexDigit` renders it back as the same digit. |
| `Signature.PairValue` | supabase/functions/verify-razorpay-payment/index.ts:35 | Two lowercase digits name the byte whose rendering is exactly those two digits. |
| `Signature.ByteRoundTrip` | supabase/functions/verify-razorpay-payment/index.ts:35 | Reading back a byte's two rendered digits gives that byte. |
| `Signature.HexEncode` | supabase/functions/verify-razorpay-payment/index.ts:34-36 | The expected signature has twice the digest's length and consists of lowercase hex characters only. |
| `Signature.HexEncodeAt` | supabase/functions/verify-razorpay-payment/index.ts:34-36 | Characters 2k and 2k+1 of the rendering are the two digits of byte k. |
| `Signature.HexDecode` | supabase/functions/verify-razorpay-payment/index.ts:34-36 | This is the inverse used to state the rendering's correctness. It reads lowercase digit pairs, and any other character (upper case included) or an odd length has no decoding. A string that decodes has twice as many characters as bytes. |
| `Signature.HexRoundTrip` | supabase/functions/verify-razorpay-payment/index.ts:34-36 | Decoding the rendered digest gives back the digest. |
| `Signature.HexDecodeRoundTrip` | supabase/functions/verify-razorpay-payment/index.ts:34-36 | Every string that decodes is exactly the rendering of what it decodes to. |
| `Signature.RenderingMatchesIffDecodes` | supabase/functions/verify-razorpay-payment/index.ts:41 | A string equals a digest's rendering if and only if it decodes to that digest. |
| `Signature.SignatureMatches` | supabase/functions/verify-razorpay-payment/index.ts:41 | This is the `===` of the expected and received signatures. `AcceptedIffDecodesToDigest` and `AcceptedSignatureShape` state what it accepts. |
| `Signature.ExpectedSignature` | supabase/functions/verify-razorpay-payment/index.ts:24-36 | The expected signature is lowercase hex. It has 64 characters when HMAC-SHA256 yields 32-byte digests. |
| `Signature.AcceptedIffDecodesToDigest` | supabase/functions/verify-razorpay-payment/index.ts:41 | A callback is accepted if and only if its signature decodes to the HMAC of the signed text. Upper-case, truncated or padded signatures are refused. |
| `Signature.AcceptedSignatureShape` | supabase/functions/verify-razorpay-payment/index.ts:41 | An accepted signature is 64 lowercase hex characters. |
| `CreatePayment.RejectionMessage` | supabase/functions/create-razorpay-payment/index.ts:55-58 | A non-ok gateway reply yields its non-empty `error.description`. Otherwise it yields "Failed to create Razorpay order". |
| `CreatePayment.NotesOrEmpty` | supabase/functions/create-razorpay-payment/index.ts:78 | The stored notes are the draft's notes, or the empty string when they are absent. |
| `CreatePayment.PendingRow` | supabase/functions/create-razorpay-payment/index.ts:61-81 | The inserted row has `total_amount` equal to the client's amount and currency INR. It carries the gateway order id as `payment_id`, is `pending` and `received`, and its notes default to "". |
| `CreatePayment.Handle` | supabase/functions/create-razorpay-payment/index.ts:9-117 | A preflight touches nothing. A malformed body, a missing or empty secret, a gateway failure or an insert failure each give a 500 with the thrown message. Only the last two come after a gateway order was requested, and none inserts a row. The gateway is asked for the client's amount verbatim. On success the table is the old one plus exactly one pending row under a fresh id, and the 200 reply carries the gateway id, the new row id, the gateway's amount and currency, and the key id. |
| `CreatePayment.ClaimedAmountIsStored` | supabase/functions/create-razorpay-payment/index.ts:41-43 | Whatever amount the browser claims is both charged and recorded. |
| `CreatePayment.DanglingGatewayOrder` | supabase/functions/create-razorpay-payment/index.ts:83-86 | After an insert failure the gateway order was requested, no row exists, and the reply is the 500 "Failed to create order in database". |
| `VerifyPayment.Handle` | supabase/functions/verify-razorpay-payment/index.ts:9-113 | A preflight or malformed body changes nothing, and a missing secret gives a 500 before any update. A genuine signature marks row `orderId` completed with the payment id and replies 200, whatever the prior status; if that update errors, the reply is a 500. A wrong signature marks the row failed and replies 400 whether or not the update worked. The reply is a success exactly for a genuine signature whose update worked. |
| `VerifyPayment.Genuine` | supabase/functions/verify-razorpay-payment/index.ts:24-41 | A callback is genuine when its signature equals the one the shared secret produces over its gateway order and payment ids. |
| `VerifyPayment.CompletedCanBecomeFailed` | supabase/functions/verify-razorpay-payment/index.ts:79-87 | A later wrong-signature call turns a completed row into a failed one that still carries the payment id. |
| `VerifyPayment.FailedCanBecomeCompleted` | supabase/functions/verify-razorpay-payment/index.ts:51-60 | A failed row is completed by a later genuine callback. |
| `VerifyPayment.GenuineReplayRewrites` | supabase/functions/verify-razorpay-payment/index.ts:53-60 | Replaying a genuine callback rewrites the row again, and only `updated_at` changes. |
| `VerifyPayment.ForgedCallbackAfterPayment` | supabase/functions/verify-razorpay-payment/index.ts:41-98 | Through the handler, a forged callback after a genuine one gets a 400 but leaves the order `failed`. |
| `VerifyPayment.UnknownOrderReportedVerified` | supabase/functions/verify-razorpay-payment/index.ts:51-78 | A genuine callback for an order id with no row gets a 200 success, and nothing is written. |
| `VerifyPayment.GenuineCallbackCompletesOtherOrder` | supabase/functions/verify-razorpay-payment/index.ts:51-60 | The order id in the body is trusted: a callback genuinely signed for one gateway order completes a different row, whose own gateway order was never paid, with a 200. |
| `VerifyPayment.HandleGuarded` | supabase/functions/verify-razorpay-payment/index.ts:51-98 | This is a compare-and-set alternative, not the source's behaviour. It reports an unknown id and does not touch a finished row. It moves a pending row to completed or failed by the signature, and a finished row never changes. |
| `VerifyPayment.GuardedSecondCallbackIsInert` | supabase/functions/verify-razorpay-payment/index.ts:51-98 | Under the guarded variant, the first callback decides a pending row, and a second callback finds it finished and changes nothing. |
| `Checkout.MathRound` | src/components/prasadam/PrasadamProducts.tsx:58 | `Math.round` gives the integer within half a unit of its argument, and a half rounds up. |
| `Checkout.GetPrice` | src/components/prasadam/PrasadamProducts.tsx:56-59 | `Math.round(base × w × 2)` for a weight of w kilograms is exactly the base price times the number of half-kilograms. The copy at lines 510-513 is the same function. |
| `Checkout.DefaultWeightPrices` | src/components/prasadam/PrasadamProducts.tsx:510-513 | The weights "0.5", "1" and "2" kg cost base, 2×base and 4×base. |
| `Checkout.TotalAmount` | src/components/prasadam/PrasadamProducts.tsx:61 | The total is the base price times the half-kilograms times the quantity, in exact integer paise. |
| `Checkout.SettledRows` | supabase/functions/verify-razorpay-payment/index.ts:51-98 | The table once the verifier has answered a checkout keeps its key set and every other row. Without a callback, or when the update fails, row `id` is unchanged. Otherwise it is `completed` for a genuine signature, with that payment id, and `failed` for a wrong one. |
| `Checkout.Storefront.constructor` | src/components/prasadam/PrasadamProducts.tsx:372-380 | The page starts with the modal closed, no product, weight '0.5' and the empty form with quantity 1. |
| `Checkout.Storefront.Rendered` | src/components/prasadam/PrasadamProducts.tsx:54 | The modal renders only when it is open and has a product. |
| `Checkout.Storefront.Amount` | src/components/prasadam/PrasadamProducts.tsx:61 | The modal's total is the product's base price times the selected half-kilograms times the quantity. |
| `Checkout.Storefront.OpenBookingModal` | src/components/prasadam/PrasadamProducts.tsx:494-500 | Opening sets the product and weight, so the modal renders. |
| `Checkout.Storefront.CloseBookingModal` | src/components/prasadam/PrasadamProducts.tsx:502-508 | Closing hides the modal, drops the product and resets the weight to '0.5'. The typed form is kept. |
| `Checkout.Storefront.ChooseQuantity` | src/components/prasadam/PrasadamProducts.tsx:313-321 | The quantity is picked from 1 to 5, and nothing else changes. |
| `Checkout.Storefront.EditDetails` | src/components/prasadam/PrasadamProducts.tsx:226-333 | Typing changes the text fields only. |
| `Checkout.Storefront.OrderData` | src/components/prasadam/PrasadamProducts.tsx:67-79 | The draft carries the product id, the quantity and the selected weight. It carries no amount. |
| `Checkout.Storefront.OnPayment` | src/components/prasadam/PrasadamProducts.tsx:108-164 | The gateway's handler sends the popup's three fields and the issuer's order id to the verifier. The table becomes what the verifier leaves (`SettledRows`). The confirmation appears exactly for a genuine signature whose update worked, built from the values captured at submission. It then closes the modal and resets the form; otherwise the UI state is unchanged. |
| `Checkout.Storefront.Submit` | src/components/prasadam/PrasadamProducts.tsx:63-192 | The amount sent to the issuer is the total shown. The gateway opens only after a successful create, and exactly then a new row id exists. The table gains exactly that row and no other row changes: the issuer's pending row as settled by the verifier. It stays `pending` when the popup is dismissed or the update fails, and becomes `completed` or `failed` by the signature otherwise. Verify runs only from the gateway's handler, with that row's id. The confirmation page appears exactly when the verifier accepts, and carries that id and the total; that row is then `completed` with the same amount and payment id. On success the modal closes and the form resets; otherwise the UI state is unchanged. |
| `Checkout.DismissedCheckoutLeavesPendingRow` | src/components/prasadam/PrasadamProducts.tsx:82-187 | Closing the gateway's popup after a successful create leaves exactly one row, and it is still `pending`. |
| `HeroSlideshow.Next` | src/components/home/HeroSlideshow.tsx:50 | The next index is below the slide count. |
| `HeroSlideshow.Prev` | src/components/home/HeroSlideshow.tsx:54 | The previous index is below the slide count and never negative. |
| `HeroSlideshow.NextUndoesPrev` | src/components/home/HeroSlideshow.tsx:50-54 | `next(prev(i)) = i`. |
| `HeroSlideshow.PrevUndoesNext` | src/components/home/HeroSlideshow.tsx:50-54 | `prev(next(i)) = i`. |
| `HeroSlideshow.Advance` | src/components/home/HeroSlideshow.tsx:42-47 | Any number of timer ticks keeps the index in range. |
| `HeroSlideshow.AdvanceWithinRound` | src/components/home/HeroSlideshow.tsx:44 | Within one round, k ticks move the index k places forward. |
| `HeroSlideshow.AdvanceSplits` | src/components/home/HeroSlideshow.tsx:44 | a ticks followed by b ticks equal a+b ticks. |
| `HeroSlideshow.FullRoundReturns` | src/components/home/HeroSlideshow.tsx:44 | n ticks return to the starting slide. |
| `HeroSlideshow.ExactlyOneOpaque` | src/components/home/HeroSlideshow.tsx:60-91 | Exactly one slide is fully opaque, the current one, and the same test selects the one slide that renders its text. |
| `HeroSlideshow.Slideshow.constructor` | src/components/home/HeroSlideshow.tsx:40 | The index starts at 0. |
| `HeroSlideshow.Slideshow.Tick` | src/components/home/HeroSlideshow.tsx:42-47 | The timer applies `next` and keeps the index below 3. |
| `HeroSlideshow.Slideshow.NextSlide` | src/components/home/HeroSlideshow.tsx:49-51 | The right arrow applies `next`. |
| `HeroSlideshow.Slideshow.PrevSlide` | src/components/home/HeroSlideshow.tsx:53-55 | The left arrow applies `prev`. |
| `HeroSlideshow.Slideshow.SelectSlide` | src/components/home/HeroSlideshow.tsx:170-173 | Indicator k sets the index to k, where k ranges over the slides. |

## Left out

- Request bodies are assumed well-formed: every field is present and has the expected type. In the source, a body without `orderData` fails only after the secret check, with a `TypeError` when the gateway notes are built, and the reply is a 500 with that error's message.
- HTTP serving, CORS headers and JSON (de)serialisation are not modelled. A request is a datatype with an OPTIONS case and a case for an unparseable body, and a reply is a status plus body fields.
- The gateway's HTTP API, the `fetch` call and the Basic authorisation header are not modelled. The gateway's reply is a parameter: unreachable, rejected with an optional description, or created.
- The database client is not modelled. Insert and update errors are boolean parameters, and a failed write changes nothing. The database's UUIDs are natural numbers from a counter.
- The service-role key is not modelled; it is assumed present. Without it `createClient` throws, so the issuer would reply 500 before calling the gateway and the verifier would reply 500 before any update. The model has no such path.
- HMAC-SHA256, `crypto.subtle.importKey` and `TextEncoder` UTF-8 encoding are uninterpreted function values of a `Crypto` parameter. The 32-byte digest length is a stated assumption (`ProducesSha256Digests`).
- Constant-time comparison and racing requests are not modelled. Sequences of calls stand in for concurrent ones.
- Clock readings (`Date.now` for `receipt`, `toISOString` for `updated_at`) are opaque natural-number stamps. `created_at` and `updated_at` of a new row are assumed to be the insert's stamp (database defaults).
- Browser side effects are not modelled: loading the gateway script, `window.Razorpay`, `alert` and `console`. The gateway popup is a parameter: dismissed, or paid with the callback's three fields.
- `Checkout.GetPrice`: weights are counts of half-kilograms, so `parseFloat` on other strings is not modelled. Floating-point rounding of products beyond 2^53 is not modelled either.
- `Checkout.Storefront.Submit`: the confirmation record keeps the order id, name, product, quantity, weight, total and payment id. It drops the email, phone, address, order date and notes. HTML `required` validation of the form fields is not modelled.
- `orders` columns that the flow never writes (delivery fee, tax, rider, tracking and the like) are not modelled. `payment_status` is a three-valued type rather than a free, nullable string.
- The storefront's catalogue loading, realtime subscriptions and rendering, the admin screens, and the About section's forward-only copy of the slide timer are not modelled.
