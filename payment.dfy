/** The dummy payment gateway (`src/services/paymentService.js`). Neither function throws:
    a declined charge is a normal result whose `success` is false. */
module PaymentService {

  const PROVIDER: string := "DummyPay"

  /** The object both functions return: `{ success, provider, amount }`. */
  datatype PaymentResult = PaymentResult(success: bool, provider: string, amount: int)

  /** `processPayment(amount)`. The source draws `Math.random() < 0.7`; that draw is the
      parameter `draw`, so every outcome the random gateway can give is covered. */
  function ProcessPayment(amount: int, draw: bool): (r: PaymentResult)
    ensures r.provider == PROVIDER
    ensures r.amount == amount
    ensures r.success == draw
  {
    PaymentResult(draw, PROVIDER, amount)
  }

  /** `processPaymentWithOutcome(amount, outcome)`: the deterministic gateway used by the tests. */
  function ProcessPaymentWithOutcome(amount: int, outcome: bool): (r: PaymentResult)
    ensures r.provider == PROVIDER
    ensures r.amount == amount
    ensures r.success == outcome
  {
    PaymentResult(outcome, PROVIDER, amount)
  }
}
