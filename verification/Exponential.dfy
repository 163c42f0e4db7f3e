/** What the kernels need to know about exp. The functions that use it take
    `E: real -> real` as a parameter and are proved for every E with this law,
    so for exp itself. */
module Exponential {

  ghost predicate LawAt(E: real -> real, x: real, y: real) {
    E(x) > 0.0 && E(x + y) == E(x) * E(y)
  }

  ghost predicate ExpLaw(E: real -> real) {
    forall x: real, y: real :: LawAt(E, x, y)
  }

  /** The law can be met: results that assume it are not empty. */
  lemma LawSatisfiable()
    ensures exists E: real -> real :: ExpLaw(E)
  {
    var one := (x: real) => 1.0;
    assert forall x: real, y: real :: LawAt(one, x, y);
    assert ExpLaw(one);
  }

  lemma ExpSum(E: real -> real, x: real, y: real)
    requires ExpLaw(E)
    ensures E(x + y) == E(x) * E(y)
  {
    assert LawAt(E, x, y);
  }

  lemma ExpPositive(E: real -> real, x: real)
    requires ExpLaw(E)
    ensures E(x) > 0.0
  {
    assert LawAt(E, x, x);
  }

  lemma ExpZero(E: real -> real)
    requires ExpLaw(E)
    ensures E(0.0) == 1.0
  {
    ExpUnit(E, 0.0);
  }

  lemma ExpUnit(E: real -> real, z: real)
    requires ExpLaw(E) && z == 0.0
    ensures E(z) == 1.0
  {
    assert LawAt(E, z, z);
    assert E(z + z) == E(z) * E(z);
    assert z + z == z;
    assert E(z) == E(z) * E(z);
    assert E(z) / E(z) == 1.0;
  }
}
