/** The `/play` entry rule of `src/pages/gates/PlayGate.jsx`: the `amount`
    query parameter, read as a number, must be finite and at least 1. */
module PlayGate {
  import opened Common
  import opened JsNumber

  /** `Number(params.get('amount') ?? 0)`: a missing parameter is the number 0. */
  function GateAmount(param: Option<string>): JsNum {
    match param
    case None => FromInt(0)
    case Some(s) => StringToNumber(s)
  }

  /** `Number.isFinite(amount) && amount >= 1`. */
  predicate Admits(x: JsNum) {
    IsFinite(x) && GreaterEq(x, FromInt(1))
  }

  /** `canAccess`. */
  predicate CanAccess(param: Option<string>) {
    Admits(GateAmount(param))
  }

  /** Access is granted exactly for a finite amount of at least 1; NaN and
      both infinities are refused. */
  lemma AdmitsExactly(x: JsNum)
    ensures Admits(x) <==> x.Finite? && Value(x) >= 1.0
    ensures x.NaN? || x.PosInf? || x.NegInf? ==> !Admits(x)
  {
    ValueOfInt(1);
    CompareFinite(x, FromInt(1));
  }

  /** A missing amount, an empty one and one that is not a number are all
      refused, as is "Infinity". */
  lemma RefusedAmounts()
    ensures !CanAccess(None)
    ensures !CanAccess(Some(""))
    ensures !CanAccess(Some("abc"))
    ensures !CanAccess(Some("Infinity"))
  {
    AdmitsExactly(FromInt(0));
    AdmitsExactly(NaN);
    AdmitsExactly(PosInf);
    assert GateAmount(Some("")) == FromInt(0) by { BlankIsZero(""); }
    assert GateAmount(Some("abc")) == NaN by { NotNumbers(); }
    assert GateAmount(Some("Infinity")) == PosInf by { Infinities(); }
  }

  /** If an amount is admitted, so is every finite amount at least as large. */
  lemma AdmitsMonotone(a: JsNum, b: JsNum)
    requires Admits(a) && b.Finite? && GreaterEq(b, a)
    ensures Admits(b)
  {
    GreaterEqTransitive(b, a, FromInt(1));
  }

  /** A whole-number amount is admitted exactly when it is at least 1; a
      numeral too large for a double reads as Infinity, which is refused. */
  lemma WholeAmounts(n: nat)
    ensures CanAccess(Some(NatToString(n))) <==> 1 <= n < OverflowThreshold
  {
    StringToNumberOfNat(n);
    ValueOfInt(n);
    ValueOfInt(1);
    CompareFinite(FromInt(n), FromInt(1));
  }

  lemma OneAndAHalfAdmitted()
    ensures Admits(Finite(15, 1))
  {
    AdmitsExactly(Finite(15, 1));
    assert Value(Finite(15, 1)) == 1.5 by { assert Pow10(1) == 10; }
  }

  /** Integrality is not checked: "1.5" is admitted. */
  lemma FractionAdmitted()
    ensures CanAccess(Some("1.5"))
  {
    OneAndAHalf();
    OneAndAHalfAdmitted();
  }
}
