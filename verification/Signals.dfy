/** What the indicator strategies emit. */
module Signals {
  import opened Types

  datatype SignalType = BuySignal | SellSignal

  datatype Signal = Signal(kind: SignalType, confidence: real, price: real)

  function Clamp01(x: real): real {
    if x < 0.0 then 0.0 else if x > 1.0 then 1.0 else x
  }

  /** Conversion to an integer drops the fraction, towards zero. */
  function Truncate(x: real): int {
    if x >= 0.0 then x.Floor else -((-x).Floor)
  }

  /** The strategy base class drops a signal below the minimum confidence. */
  function Filtered(signal: Signal, minConfidence: real): Option<Signal> {
    if signal.confidence < minConfidence then None else Some(signal)
  }

  /** A signal reaches the callback, unchanged, exactly when its confidence is at least the
      minimum. */
  lemma ReachesCallbackExactlyWhen(signal: Signal, minConfidence: real)
    ensures Filtered(signal, minConfidence) == Some(signal) <==> signal.confidence >= minConfidence
    ensures Filtered(signal, minConfidence) == None <==> signal.confidence < minConfidence
  {
  }

  /** The point of [0, 1] nearest to x. */
  lemma ClampIsNearest(x: real, y: real)
    requires 0.0 <= y <= 1.0
    ensures 0.0 <= Clamp01(x) <= 1.0 && AbsR(Clamp01(x) - x) <= AbsR(y - x)
  {
  }

  /** What is cut off is less than one and of the sign of x. */
  lemma TruncateCutsOff(x: real)
    ensures if x >= 0.0 then 0.0 <= x - Truncate(x) as real < 1.0 else -1.0 < x - Truncate(x) as real <= 0.0
  {
  }
}
