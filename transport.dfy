/** `_decimal_to_float`: the structural map that turns every Decimal the
    store returns into a float before the response is serialised. The
    Decimal-to-float step itself is the parameter `toFloat`. */
module Transport {
  import opened Json

  function DecimalToFloat(v: Json, toFloat: Decimal -> Float): Json
    decreases v
  {
    match v
    case JList(xs) => JList(seq(|xs|, i requires 0 <= i < |xs| => DecimalToFloat(xs[i], toFloat)))
    case JObj(m) => JObj(map k | k in m :: DecimalToFloat(m[k], toFloat))
    case JDecimal(d) => JFloat(toFloat(d))
    case _ => v
  }

  /** `b` has the shape of `a`: lists of the same length, element by element;
      objects with the same keys, entry by entry; a float where `a` has a
      Decimal; every other leaf identical. */
  predicate SameShape(a: Json, b: Json)
    decreases a
  {
    match a
    case JList(xs) =>
      b.JList? && |b.items| == |xs| && forall i :: 0 <= i < |xs| ==> SameShape(xs[i], b.items[i])
    case JObj(m) =>
      b.JObj? && b.fields.Keys == m.Keys && forall k :: k in m ==> SameShape(m[k], b.fields[k])
    case JDecimal(_) => b.JFloat?
    case _ => b == a
  }

  predicate DecimalFree(v: Json)
    decreases v
  {
    match v
    case JList(xs) => forall i :: 0 <= i < |xs| ==> DecimalFree(xs[i])
    case JObj(m) => forall k :: k in m ==> DecimalFree(m[k])
    case JDecimal(_) => false
    case _ => true
  }

  /** The conversion preserves shape: list length and order, dict keys, and
      every non-Decimal leaf. */
  lemma {:induction false} DecimalToFloatShape(v: Json, toFloat: Decimal -> Float)
    ensures SameShape(v, DecimalToFloat(v, toFloat))
    decreases v
  {
    match v
    case JList(xs) =>
      forall i | 0 <= i < |xs| ensures SameShape(xs[i], DecimalToFloat(v, toFloat).items[i]) {
        DecimalToFloatShape(xs[i], toFloat);
      }
    case JObj(m) =>
      forall k | k in m ensures SameShape(m[k], DecimalToFloat(v, toFloat).fields[k]) {
        DecimalToFloatShape(m[k], toFloat);
      }
    case _ =>
  }

  /** No Decimal survives the conversion, at any depth. */
  lemma {:induction false} DecimalToFloatRemovesDecimals(v: Json, toFloat: Decimal -> Float)
    ensures DecimalFree(DecimalToFloat(v, toFloat))
    decreases v
  {
    match v
    case JList(xs) =>
      forall i | 0 <= i < |xs| ensures DecimalFree(DecimalToFloat(v, toFloat).items[i]) {
        DecimalToFloatRemovesDecimals(xs[i], toFloat);
      }
    case JObj(m) =>
      forall k | k in m ensures DecimalFree(DecimalToFloat(v, toFloat).fields[k]) {
        DecimalToFloatRemovesDecimals(m[k], toFloat);
      }
    case _ =>
  }

  /** A value without Decimals is returned unchanged. */
  lemma {:induction false} DecimalToFloatKeepsDecimalFree(v: Json, toFloat: Decimal -> Float)
    requires DecimalFree(v)
    ensures DecimalToFloat(v, toFloat) == v
    decreases v
  {
    match v
    case JList(xs) =>
      forall i | 0 <= i < |xs| ensures DecimalToFloat(xs[i], toFloat) == xs[i] {
        DecimalToFloatKeepsDecimalFree(xs[i], toFloat);
      }
      assert DecimalToFloat(v, toFloat).items == xs;
    case JObj(m) =>
      forall k | k in m ensures DecimalToFloat(m[k], toFloat) == m[k] {
        DecimalToFloatKeepsDecimalFree(m[k], toFloat);
      }
      assert DecimalToFloat(v, toFloat).fields == m;
    case _ =>
  }
}
