/**
 Which entry a spin lands on. The wheel has `n` equal wedges, wedge 0
 starting at 0 degrees (the right-hand side) and the wedges following
 clockwise; the pointer sits at the top, at 270 degrees. After a total
 rotation of `r` degrees the pointer is over `(270 + r % 360) % 360`, and the
 geometric winner is that angle divided by the wedge width `360 / n`,
 rounded down. In exact mode the winner is forced to 0, and a non-empty
 selection overrides both with one of its own indices, picked by a random
 draw. Angles are exact reals; `%` is JavaScript's remainder, whose sign
 follows the dividend.
 */
module Winner {

  /** `Math.trunc(x)` */
  function Trunc(x: real): int {
    if x >= 0.0 then x.Floor else -((-x).Floor)
  }

  /** `a % 360`: the remainder of the division truncated toward zero. */
  function Rem360(a: real): (r: real)
    ensures a >= 0.0 ==> 0.0 <= r < 360.0 && r == a - 360.0 * (a / 360.0).Floor as real
    ensures a < 0.0 ==> -360.0 < r <= 0.0 && r == a + 360.0 * ((-a) / 360.0).Floor as real
  {
    a - 360.0 * Trunc(a / 360.0) as real
  }

  /** `(270 + r % 360) % 360`: the angle, in degrees, of the wheel under the
      pointer. */
  function PointerAngle(totalRotation: real): real {
    Rem360(270.0 + Rem360(totalRotation))
  }

  /** `Math.floor(pointerAngle / (360 / n))`. With no names the wedge width
      is `Infinity` in JavaScript and a finite angle divided by it is 0. */
  function GeometricIndex(totalRotation: real, n: nat): int {
    if n == 0 then 0
    else (PointerAngle(totalRotation) / (360.0 / n as real)).Floor
  }

  /** The index `finishSpin` removes: a member of the selection picked by
      `draw` (the value of `Math.floor(Math.random() * selected.length)`)
      when one is selected, otherwise 0 in exact mode and the geometric
      winner in random mode. */
  function ResolveWinner(n: nat, totalRotation: real, exactSpins: bool,
                         selected: seq<int>, draw: nat): (w: int)
    requires selected == [] || draw < |selected|
    ensures selected != [] ==> w == selected[draw] && w in selected
    ensures selected == [] && exactSpins ==> w == 0
    ensures selected == [] && !exactSpins ==> w == GeometricIndex(totalRotation, n)
    ensures ((forall i :: 0 <= i < |selected| ==> 0 <= selected[i] < n)
             && n >= 1 && totalRotation >= 0.0) ==> 0 <= w < n
  {
    GeometricIndexInRange(totalRotation, n);
    var geometric := if exactSpins then 0 else GeometricIndex(totalRotation, n);
    if |selected| > 0 then selected[draw] else geometric
  }

  /** With `p` in `[0, 360)` and at least one wedge, the wedge number
      `floor(p / (360 / n))` is `floor(p * n / 360)`, a wedge that exists. */
  lemma WedgeInRange(p: real, n: nat)
    requires 0.0 <= p < 360.0 && n >= 1
    ensures (p / (360.0 / n as real)).Floor == (p * n as real / 360.0).Floor
    ensures 0 <= (p / (360.0 / n as real)).Floor < n
  {
    var m := n as real;
    assert p / (360.0 / m) == p * m / 360.0;
    assert p * m < 360.0 * m by {
      assert (360.0 - p) * m > 0.0;
    }
    assert p * m / 360.0 < m;
  }

  /** A spin that has turned the wheel forward lands on an existing wedge. */
  lemma GeometricIndexInRange(totalRotation: real, n: nat)
    ensures totalRotation >= 0.0 && n >= 1 ==> 0 <= GeometricIndex(totalRotation, n) < n
  {
    if totalRotation >= 0.0 && n >= 1 {
      WedgeInRange(PointerAngle(totalRotation), n);
    }
  }

  /** Whole turns do not matter: the winner depends on the rotation only
      through its remainder modulo 360. */
  lemma GeometricIndexPeriodic(totalRotation: real, turns: nat, n: nat)
    requires totalRotation >= 0.0
    ensures GeometricIndex(totalRotation + 360.0 * turns as real, n)
         == GeometricIndex(totalRotation, n)
    ensures GeometricIndex(Rem360(totalRotation), n) == GeometricIndex(totalRotation, n)
  {
    var r := totalRotation;
    var k := turns as real;
    assert (r + 360.0 * k) / 360.0 == r / 360.0 + k;
    assert ((r + 360.0 * k) / 360.0).Floor == (r / 360.0).Floor + turns;
    assert Rem360(r + 360.0 * k) == Rem360(r);
    assert Rem360(Rem360(r)) == Rem360(r) by {
      assert (Rem360(r) / 360.0).Floor == 0;
    }
  }

  /** The pointer is at 270 degrees: on a four-wedge wheel an unturned wheel
      (a multiple of 360 degrees) gives the last wedge and a further quarter
      turn gives the first. */
  lemma FourWedges(turns: nat)
    ensures GeometricIndex(360.0 * turns as real, 4) == 3
    ensures GeometricIndex(360.0 * turns as real + 90.0, 4) == 0
  {
    GeometricIndexPeriodic(0.0, turns, 4);
    GeometricIndexPeriodic(90.0, turns, 4);
    assert PointerAngle(0.0) == 270.0;
    assert PointerAngle(90.0) == 0.0;
    assert 270.0 / (360.0 / 4.0) == 3.0;
  }

  /** A quarter turn past whole turns brings the start of wedge 0 under the
      pointer, whatever the number of wedges. */
  lemma QuarterTurnGivesFirstWedge(turns: nat, n: nat)
    ensures GeometricIndex(360.0 * turns as real + 90.0, n) == 0
  {
    GeometricIndexPeriodic(90.0, turns, n);
    assert PointerAngle(90.0) == 0.0;
  }

  /** Exact mode spins exactly five turns, after which the pointer is over
      wedge `floor(3n / 4)`, never wedge 0 once there are two names; the
      winner exact mode forces is therefore not the wedge under the
      pointer. */
  lemma ExactModeIgnoresPointer(n: nat)
    requires n >= 2
    ensures GeometricIndex(1800.0, n) == (3 * n) / 4
    ensures GeometricIndex(1800.0, n) != ResolveWinner(n, 1800.0, true, [], 0)
  {
    GeometricIndexPeriodic(0.0, 5, n);
    assert PointerAngle(0.0) == 270.0;
    WedgeInRange(270.0, n);
    var m := n as real;
    assert 270.0 * m / 360.0 == (3 * n) as real / 4.0;
    assert ((3 * n) as real / 4.0).Floor == (3 * n) / 4;
  }

  /** A backward (negative) rotation can leave the pointer at a negative
      angle and so give a negative index; forward rotations never do. */
  lemma NegativeRotationGivesNegativeIndex()
    ensures GeometricIndex(-300.0, 4) == -1
  {
    assert Rem360(-300.0) == -300.0;
    assert PointerAngle(-300.0) == -30.0;
    assert -30.0 / (360.0 / 4.0) == -1.0 / 3.0;
  }
}
