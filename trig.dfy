/** The C math library's `sin`, `cos` and `M_PI`. The trigonometric
    functions are foreign code: the model takes them as a parameter and
    states only the identities the proofs rely on. */
module Trig {

  /** M_PI as the decimal literal of <cmath>, read as an exact real. */
  const Pi: real := 3.14159265358979323846

  /** A pair of functions standing for the library's `sin` and `cos`. */
  datatype Trig = Trig(sin: real -> real, cos: real -> real)

  /** The identities assumed of the library's trigonometry. */
  ghost predicate Axioms(t: Trig) {
    && (forall a :: t.sin(a) * t.sin(a) + t.cos(a) * t.cos(a) == 1.0)
    && (forall a :: t.sin(-a) == -t.sin(a))
    && (forall a :: t.cos(-a) == t.cos(a))
    && (forall a :: t.sin(a + 2.0 * Pi) == t.sin(a))
    && (forall a :: t.cos(a + 2.0 * Pi) == t.cos(a))
    && t.sin(0.0) == 0.0 && t.cos(0.0) == 1.0
    && t.sin(Pi / 2.0) == 1.0 && t.cos(Pi / 2.0) == 0.0
  }

  predicate IsInt(x: real) {
    x.Floor as real == x
  }

  /** How many full turns `a` lies past a quarter turn, and past minus a
      quarter turn. */
  function TurnsFromQuarter(a: real): real {
    (a - Pi / 2.0) / (2.0 * Pi)
  }

  function TurnsFromMinusQuarter(a: real): real {
    (a + Pi / 2.0) / (2.0 * Pi)
  }

  /** A sine that is 1 at every quarter turn plus whole turns, -1 at every
      minus quarter turn plus whole turns, and 0 elsewhere. */
  function StepSin(a: real): real {
    if IsInt(TurnsFromQuarter(a)) then 1.0
    else if IsInt(TurnsFromMinusQuarter(a)) then -1.0
    else 0.0
  }

  function StepCos(a: real): real {
    if IsInt(TurnsFromQuarter(a)) || IsInt(TurnsFromMinusQuarter(a)) then 0.0 else 1.0
  }

  lemma IsIntShift(x: real)
    ensures IsInt(x + 1.0) <==> IsInt(x)
    ensures IsInt(-x) <==> IsInt(x)
    ensures !(IsInt(x) && IsInt(x + 0.5))
  {
    assert (x + 1.0).Floor == x.Floor + 1;
    if IsInt(x) {
      assert (-x).Floor == -x.Floor;
    }
    if IsInt(-x) {
      assert x.Floor == -((-x).Floor);
    }
    if IsInt(x) {
      assert (x + 0.5).Floor == x.Floor;
    }
  }

  lemma StepSinCosAt(a: real)
    ensures StepSin(a) * StepSin(a) + StepCos(a) * StepCos(a) == 1.0
    ensures StepSin(-a) == -StepSin(a) && StepCos(-a) == StepCos(a)
    ensures StepSin(a + 2.0 * Pi) == StepSin(a) && StepCos(a + 2.0 * Pi) == StepCos(a)
  {
    var p, n := TurnsFromQuarter(a), TurnsFromMinusQuarter(a);
    assert n == p + 0.5;
    assert TurnsFromQuarter(-a) == -n;
    assert TurnsFromMinusQuarter(-a) == -p;
    assert TurnsFromQuarter(a + 2.0 * Pi) == p + 1.0;
    assert TurnsFromMinusQuarter(a + 2.0 * Pi) == n + 1.0;
    IsIntShift(p);
    IsIntShift(n);
  }

  lemma StepSinCosAtZeroAndQuarter()
    ensures StepSin(0.0) == 0.0 && StepCos(0.0) == 1.0
    ensures StepSin(Pi / 2.0) == 1.0 && StepCos(Pi / 2.0) == 0.0
  {
    assert TurnsFromQuarter(0.0) == -0.25 && (-0.25).Floor == -1;
    assert TurnsFromMinusQuarter(0.0) == 0.25 && (0.25).Floor == 0;
    assert TurnsFromQuarter(Pi / 2.0) == 0.0;
  }

  /** The identities are consistent: the step functions above meet them
      all. */
  lemma AxiomsSatisfiable()
    ensures exists t :: Axioms(t)
  {
    StepSinCosEverywhere();
    StepSinCosAtZeroAndQuarter();
    assert Axioms(Trig(StepSin, StepCos));
  }

  lemma StepSinCosEverywhere()
    ensures forall a :: StepSin(a) * StepSin(a) + StepCos(a) * StepCos(a) == 1.0
    ensures forall a :: StepSin(-a) == -StepSin(a)
    ensures forall a :: StepCos(-a) == StepCos(a)
    ensures forall a :: StepSin(a + 2.0 * Pi) == StepSin(a)
    ensures forall a :: StepCos(a + 2.0 * Pi) == StepCos(a)
  {
    forall a
      ensures StepSin(a) * StepSin(a) + StepCos(a) * StepCos(a) == 1.0
      ensures StepSin(-a) == -StepSin(a) && StepCos(-a) == StepCos(a)
      ensures StepSin(a + 2.0 * Pi) == StepSin(a) && StepCos(a + 2.0 * Pi) == StepCos(a)
    {
      StepSinCosAt(a);
    }
  }
}
