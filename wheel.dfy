/**
 The name pool of the wheel: the parallel lists of names and codes, the
 selection list, the `spinning` flag and the exact-mode switch, and the
 operations that change them. Each method says what every field it may
 change becomes, in terms of the specification functions of the other
 modules.
 */
module Wheel {
  import opened JsText
  import opened JsArray
  import opened NameParsing
  import opened Selection
  import opened Winner

  class WheelOfNames {
    var names: seq<string>
    var codes: seq<string>
    var selectedNames: seq<int>
    var spinning: bool
    var exactSpins: bool

    /** The lists of names and codes stay parallel and no index is selected
        twice. Selected indices are not required to be in range: nothing
        keeps them so. */
    ghost predicate Valid()
      reads this
    {
      |names| == |codes| && NoDuplicates(selectedNames)
    }

    constructor ()
      ensures Valid()
      ensures names == [] && codes == [] && selectedNames == []
      ensures !spinning && !exactSpins
    {
      names, codes, selectedNames := [], [], [];
      spinning, exactSpins := false, false;
    }

    /** The exact-spins checkbox changed. */
    method SetExactSpins(checked: bool)
      requires Valid()
      modifies this`exactSpins
      ensures Valid() && exactSpins == checked
    {
      exactSpins := checked;
    }

    /** Adds the entries typed into the input box: nothing when the input is
        blank, otherwise one name and one code per line of the trimmed
        input, appended in order after the existing ones. */
    method AddName(input: string)
      requires Valid()
      modifies this`names, this`codes
      ensures Valid()
      ensures Trim(input) == [] ==> names == old(names) && codes == old(codes)
      ensures Trim(input) != [] ==>
        names == old(names) + NamesOf(Trim(input)) && codes == old(codes) + CodesOf(Trim(input))
      ensures selectedNames == old(selectedNames) && spinning == old(spinning) && exactSpins == old(exactSpins)
    {
      var text := Trim(input);
      if text == [] {
        return;
      }
      var newNames := NamesOf(text);
      var newCodes := CodesOf(text);
      if |newNames| > 0 {
        names := names + newNames;
        codes := codes + newCodes;
      }
    }

    /** A name's checkbox was ticked (`isChecked`) or unticked. */
    method ToggleNameSelection(idx: int, isChecked: bool)
      requires Valid()
      modifies this`selectedNames
      ensures Valid()
      ensures selectedNames == if isChecked then Select(old(selectedNames), idx)
                               else Deselect(old(selectedNames), idx)
    {
      if isChecked {
        if idx !in selectedNames {
          selectedNames := selectedNames + [idx];
        }
      } else {
        var index := IndexOf(selectedNames, idx);
        if index > -1 {
          selectedNames := SpliceOne(selectedNames, index);
        }
      }
    }

    /** Empties the names, the codes and the selection. */
    method ClearAllNames()
      modifies this`names, this`codes, this`selectedNames
      ensures Valid()
      ensures names == [] && codes == [] && selectedNames == []
    {
      names := [];
      codes := [];
      selectedNames := [];
    }

    /** Starts a spin unless one is running or there are fewer than two
        names. `random` is the value of `Math.random()` that sets the number
        of turns in random mode. The result is the total rotation the spin
        will report when it finishes, or `None` when no spin starts. */
    method SpinWheel(random: real) returns (spinAngle: Option<real>)
      requires Valid() && 0.0 <= random < 1.0
      modifies this`spinning
      ensures Valid()
      ensures spinAngle.Some? <==> !old(spinning) && |names| >= 2
      ensures spinning == (old(spinning) || spinAngle.Some?)
      ensures spinAngle.Some? ==>
        spinAngle.value == (if exactSpins then 5.0 else 5.0 + random * 3.0) * 360.0
      ensures spinAngle.Some? ==> 1800.0 <= spinAngle.value < 2880.0
    {
      if spinning || |names| < 2 {
        return None;
      }
      spinning := true;
      var spins: real;
      if exactSpins {
        spins := 5.0;
      } else {
        var minSpins, maxSpins := 5.0, 8.0;
        spins := minSpins + random * (maxSpins - minSpins);
      }
      spinAngle := Some(spins * 360.0);
    }

    /** Ends a spin that turned the wheel by `totalRotation` degrees. `draw`
        is the random position in the selection used when some names are
        selected. The winner's index is resolved, its name and code as they
        were before removal are returned (`None` for an index outside the
        lists), that position is spliced out of both lists and the index is
        filtered out of the selection; the other selected indices are kept
        as they are, without shifting them down. */
    method FinishSpin(totalRotation: real, draw: nat) returns (winner: Option<string>, code: Option<string>)
      requires Valid()
      requires selectedNames == [] || draw < |selectedNames|
      modifies this`spinning, this`names, this`codes, this`selectedNames
      ensures Valid() && !spinning
      ensures var w := ResolveWinner(|old(names)|, totalRotation, exactSpins, old(selectedNames), draw);
        winner == At(old(names), w) && code == At(old(codes), w)
        && names == SpliceOne(old(names), w) && codes == SpliceOne(old(codes), w)
        && selectedNames == FilterOut(old(selectedNames), w)
    {
      spinning := false;
      var winnerIndex := if exactSpins then 0 else GeometricIndex(totalRotation, |names|);
      winner := At(names, winnerIndex);
      code := At(codes, winnerIndex);
      if |selectedNames| > 0 {
        var randomIndex := draw;
        winnerIndex := selectedNames[randomIndex];
        winner := At(names, winnerIndex);
        code := At(codes, winnerIndex);
      }
      names := SpliceOne(names, winnerIndex);
      codes := SpliceOne(codes, winnerIndex);
      FilterOutNoDuplicates(selectedNames, winnerIndex);
      selectedNames := FilterOut(selectedNames, winnerIndex);
    }
  }

  /** A fresh wheel after `input`, which is not blank, was typed into the
      input box and added. */
  method WheelWithInput(input: string) returns (wheel: WheelOfNames)
    requires Trim(input) != []
    ensures fresh(wheel) && wheel.Valid()
    ensures wheel.names == NamesOf(Trim(input)) && wheel.codes == CodesOf(Trim(input))
    ensures wheel.selectedNames == [] && !wheel.spinning && !wheel.exactSpins
  {
    wheel := new WheelOfNames();
    wheel.AddName(input);
  }

  /** A fresh wheel after plain names, one per line, were typed into the
      input box and added. */
  method WheelWithNames(lines: seq<string>) returns (wheel: WheelOfNames)
    requires |lines| >= 1 && forall k :: 0 <= k < |lines| ==> Plain(lines[k])
    ensures fresh(wheel) && wheel.Valid()
    ensures wheel.names == lines && wheel.selectedNames == []
    ensures !wheel.spinning && !wheel.exactSpins
  {
    PlainInput(lines);
    wheel := WheelWithInput(Join(lines, '\n'));
  }

  /** Four names, no selection, random mode: a spin of exactly five turns
      stops with the pointer on the last wedge, and on the three names left
      a spin of five and a quarter turns stops on the first. */
  method FourNamesScenario(a: string, b: string, c: string, d: string)
    returns (first: Option<string>, second: Option<string>)
    requires Plain(a) && Plain(b) && Plain(c) && Plain(d)
    ensures first == Some(d) && second == Some(a)
  {
    var wheel := WheelWithFourNames(a, b, c, d);
    var angle := wheel.SpinWheel(0.0);
    FourNamesSteps(a, b, c, d);
    assert angle == Some(1800.0);
    var code: Option<string>;
    first, code := wheel.FinishSpin(angle.value, 0);
    assert wheel.names == [a, b, c] && wheel.selectedNames == [] && !wheel.spinning;
    angle := wheel.SpinWheel(1.0 / 12.0);
    assert angle == Some(1890.0);
    second, code := wheel.FinishSpin(angle.value, 0);
  }

  /** A fresh wheel holding the four plain names `a`, `b`, `c`, `d`. */
  method WheelWithFourNames(a: string, b: string, c: string, d: string) returns (wheel: WheelOfNames)
    requires Plain(a) && Plain(b) && Plain(c) && Plain(d)
    ensures fresh(wheel) && wheel.Valid()
    ensures wheel.names == [a, b, c, d] && wheel.selectedNames == []
    ensures !wheel.spinning && !wheel.exactSpins
  {
    var lines := [a, b, c, d];
    assert forall k :: 0 <= k < |lines| ==> Plain(lines[k]) by {
      assert lines[0] == a && lines[1] == b && lines[2] == c && lines[3] == d;
    }
    wheel := WheelWithNames(lines);
  }

  /** Ticks the first and then the third name of a wheel with nothing
      ticked. */
  method TickFirstAndThird(wheel: WheelOfNames)
    requires wheel.Valid() && wheel.selectedNames == []
    modifies wheel`selectedNames
    ensures wheel.Valid() && wheel.selectedNames == [0, 2]
  {
    wheel.ToggleNameSelection(0, true);
    assert Select([], 0) == [0];
    wheel.ToggleNameSelection(2, true);
    assert Select([0], 2) == [0, 2] by {
      assert 2 !in [0];
    }
  }

  /** The values the two spins of `FourNamesScenario` compute. */
  lemma FourNamesSteps(a: string, b: string, c: string, d: string)
    ensures (5.0 + 1.0 / 12.0 * 3.0) * 360.0 == 1890.0
    ensures ResolveWinner(4, 1800.0, false, [], 0) == 3
    ensures At([a, b, c, d], 3) == Some(d) && SpliceOne([a, b, c, d], 3) == [a, b, c]
    ensures ResolveWinner(3, 1890.0, false, [], 0) == 0
    ensures At([a, b, c], 0) == Some(a)
  {
    FourWedges(5);
    QuarterTurnGivesFirstWedge(5, 3);
  }

  /** Selected indices are not shifted when a name is removed. With three
      names and the first and the third selected, a spin that picks the
      first removes it; the selection is left holding index 2, which no
      longer exists, and the next spin that picks it reports no winner and
      removes nothing. */
  method StaleSelectionScenario(a: string, b: string, c: string)
    returns (first: Option<string>, second: Option<string>, remaining: seq<string>)
    requires Plain(a) && Plain(b) && Plain(c)
    ensures first == Some(a) && second == None && remaining == [b, c]
  {
    var wheel := WheelWithNames([a, b, c]);
    TickFirstAndThird(wheel);

    var angle := wheel.SpinWheel(0.0);
    StaleSelectionSteps(a, b, c);
    var code: Option<string>;
    first, code := wheel.FinishSpin(angle.value, 0);
    angle := wheel.SpinWheel(0.0);
    second, code := wheel.FinishSpin(angle.value, 0);
    remaining := wheel.names;
  }

  /** The values the two spins of `StaleSelectionScenario` compute. */
  lemma StaleSelectionSteps(a: string, b: string, c: string)
    ensures ResolveWinner(3, 1800.0, false, [0, 2], 0) == 0
    ensures At([a, b, c], 0) == Some(a) && SpliceOne([a, b, c], 0) == [b, c]
    ensures FilterOut([0, 2], 0) == [2]
    ensures ResolveWinner(2, 1800.0, false, [2], 0) == 2
    ensures At([b, c], 2) == None && SpliceOne([b, c], 2) == [b, c]
  {
    FilterOutUnique([0, 2], 0);
  }
}
