/**
  * Dice utilities: `rollD20` and `rollDice` of src/lib/dice.ts.
  *
  * `Math.random()` is modelled as its 53-bit result: a `RandomValue` k stands
  * for the number k / 2^53 in [0, 1), and `Math.floor(Math.random() * sides) + 1`
  * of `rollDice` in src/lib/dice.ts becomes `k * sides / 2^53 + 1`.
  */
module Dice {
  import opened Wrappers
  import opened Strings

  /** The number of distinct values `Math.random()` can return. */
  const RANDOM_SCALE: nat := 0x20_0000_0000_0000

  /** One draw of `Math.random()`: k stands for k / RANDOM_SCALE. */
  type RandomValue = k: nat | k < RANDOM_SCALE

  /** `Math.floor(r * sides) + 1`. */
  function RollFace(r: RandomValue, sides: nat): nat {
    r * sides / RANDOM_SCALE + 1
  }

  lemma RollFaceRange(r: RandomValue, sides: nat)
    ensures sides >= 1 ==> 1 <= RollFace(r, sides) <= sides
    ensures sides == 0 ==> RollFace(r, sides) == 1
  {
    if sides >= 1 {
      var x := r * sides;
      var q := x / RANDOM_SCALE;
      assert x + sides <= RANDOM_SCALE * sides by {
        assert x + sides == (r + 1) * sides;
        MulMonotone(r + 1, RANDOM_SCALE, sides);
      }
      DivBelow(x, RANDOM_SCALE, sides);
    }
  }

  lemma MulMonotone(a: nat, b: nat, c: nat)
    requires a <= b
    ensures a * c <= b * c
  {
  }

  lemma DivBelow(x: nat, d: nat, k: nat)
    requires d > 0 && x < d * k
    ensures x / d < k
  {
    var q: nat := x / d;
    assert d * q <= x;
    if q >= k {
      MulMonotone(k, q, d);
      assert false;
    }
  }

  /** `rollD20()`: an integer in 1..20 whatever `Math.random()` returned. */
  function RollD20(r: RandomValue): (face: int)
    ensures 1 <= face <= 20
  {
    RollFaceRange(r, 20);
    RollFace(r, 20)
  }

  /** The parts of a dice notation `"<count>d<sides>[+<bonus>]"`. */
  datatype Notation = Notation(count: nat, sides: nat, bonus: Option<nat>)

  /** The text of a notation from its three digit strings; `Render` is what the pattern accepts. */
  function Render(count: string, sides: string, bonus: Option<string>): string {
    count + "d" + sides + (if bonus.Some? then "+" + bonus.value else "")
  }

  /** The strings accepted by `/^(\d+)d(\d+)(?:\+(\d+))?$/`: each group non-empty and all digits. */
  predicate WellFormedParts(count: string, sides: string, bonus: Option<string>) {
    count != [] && AllDigits(count) && sides != [] && AllDigits(sides)
    && (bonus.Some? ==> bonus.value != [] && AllDigits(bonus.value))
  }

  /**
    * The match of `/^(\d+)d(\d+)(?:\+(\d+))?$/` with `Number` applied to its
    * groups, or `None` when the string does not match. Since `d` and `+` are not
    * digits, each `\d+` group is the maximal run of digits at its position.
    */
  function ParseNotation(s: string): Option<Notation> {
    var a := DigitRun(s, 0);
    if a == 0 || a == |s| || s[a] != 'd' then None
    else
      var b := DigitRun(s, a + 1);
      if b == a + 1 then None
      else if b == |s| then Some(Notation(Value(s[..a]), Value(s[a + 1..b]), None))
      else if s[b] != '+' then None
      else
        var c := DigitRun(s, b + 1);
        if c == b + 1 || c != |s| then None
        else Some(Notation(Value(s[..a]), Value(s[a + 1..b]), Some(Value(s[b + 1..c]))))
  }

  function BonusValue(bonus: Option<string>): Option<nat>
    requires bonus.Some? ==> AllDigits(bonus.value)
  {
    if bonus.Some? then Some(Value(bonus.value)) else None
  }

  /** Every string the pattern accepts is parsed, into the values of its groups. */
  lemma ParseRender(count: string, sides: string, bonus: Option<string>)
    requires WellFormedParts(count, sides, bonus)
    ensures ParseNotation(Render(count, sides, bonus))
            == Some(Notation(Value(count), Value(sides), BonusValue(bonus)))
  {
    if bonus.Some? {
      ParseRenderBonus(count, sides, bonus.value);
    } else {
      var s := count + "d" + sides + [];
      assert Render(count, sides, bonus) == s;
      HeadParts(count, sides, []);
    }
  }

  lemma ParseRenderBonus(count: string, sides: string, bonus: string)
    requires WellFormedParts(count, sides, Some(bonus))
    ensures ParseNotation(count + "d" + sides + ("+" + bonus))
            == Some(Notation(Value(count), Value(sides), Some(Value(bonus))))
  {
    var tail := "+" + bonus;
    var s := count + "d" + sides + tail;
    var a := |count|;
    var b := a + 1 + |sides|;
    HeadParts(count, sides, tail);
    assert s[b] == '+';
    assert s[b + 1..] == bonus;
    DigitRunOfAllDigits(s, b + 1);
    ParseWithBonus(s, a, b);
  }

  /** The parse of a string whose three digit runs end at `a`, `b` and the end, separated by `d` and `+`. */
  lemma ParseWithBonus(s: string, a: nat, b: nat)
    requires 0 < a < b < |s| && a + 1 < b && b + 1 < |s|
    requires DigitRun(s, 0) == a && s[a] == 'd' && DigitRun(s, a + 1) == b
    requires s[b] == '+' && DigitRun(s, b + 1) == |s|
    ensures ParseNotation(s) == Some(Notation(Value(s[..a]), Value(s[a + 1..b]), Some(Value(s[b + 1..]))))
  {
    assert s[b + 1..|s|] == s[b + 1..];
  }

  /** The count, the `d` and the sides at the front of a notation, and where their digit runs end. */
  lemma HeadParts(count: string, sides: string, tail: string)
    requires count != [] && AllDigits(count) && AllDigits(sides)
    requires tail == [] || !IsDigit(tail[0])
    ensures var s := count + "d" + sides + tail;
            var a := |count|;
            var b := a + 1 + |sides|;
            && |s| == b + |tail| && s[..a] == count && s[a] == 'd' && s[a + 1..b] == sides && s[b..] == tail
            && DigitRun(s, 0) == a && DigitRun(s, a + 1) == b
  {
    var s := count + "d" + sides + tail;
    var a := |count|;
    var b := a + 1 + |sides|;
    assert s[..a] == count && s[a] == 'd' && s[a + 1..b] == sides && s[b..] == tail;
    DigitRunStops(s, 0, a);
    if tail == [] {
      assert s[a + 1..] == sides;
      DigitRunOfAllDigits(s, a + 1);
    } else {
      assert s[b] == tail[0];
      DigitRunStops(s, a + 1, b);
    }
  }

  /** A run of digits followed by a non-digit ends exactly there. */
  lemma DigitRunStops(s: string, i: nat, j: nat)
    requires i <= j < |s| && AllDigits(s[i..j]) && !IsDigit(s[j])
    ensures DigitRun(s, i) == j
    decreases j - i
  {
    if i < j {
      assert s[i] == s[i..j][0];
      assert s[i + 1..j] == s[i..j][1..];
      DigitRunStops(s, i + 1, j);
    }
  }

  /** Every string that is parsed is accepted by the pattern, and parsing gives the values of its groups. */
  lemma ParseSound(s: string)
    requires ParseNotation(s).Some?
    ensures exists count, sides, bonus ::
              WellFormedParts(count, sides, bonus) && s == Render(count, sides, bonus)
              && ParseNotation(s) == Some(Notation(Value(count), Value(sides), BonusValue(bonus)))
  {
    var a := DigitRun(s, 0);
    assert 0 < a < |s| && s[a] == 'd';
    var b := DigitRun(s, a + 1);
    var count, sides := s[..a], s[a + 1..b];
    assert s[..b] == count + "d" + sides by {
      assert s[..b] == s[..a] + [s[a]] + s[a + 1..b];
    }
    if b == |s| {
      assert s == s[..b];
      assert s == Render(count, sides, None);
      assert WellFormedParts(count, sides, None);
    } else {
      assert s[b] == '+';
      var c := DigitRun(s, b + 1);
      var bonus := Some(s[b + 1..c]);
      assert s == s[..b] + [s[b]] + s[b + 1..c];
      assert s == Render(count, sides, bonus);
      assert WellFormedParts(count, sides, bonus);
    }
  }

  /** Strings the pattern rejects: no count, a minus bonus, leading white space. */
  lemma RejectedNotations()
    ensures ParseNotation("d6") == None
    ensures ParseNotation("1d6-2") == None
    ensures ParseNotation(" 2d6") == None
  {
    assert DigitRun("1d6-2", 0) == 1;
    assert DigitRun("1d6-2", 2) == 3;
  }

  /** The sum of the faces rolled with `draws`, one die of `sides` per draw. */
  function SumFaces(draws: seq<RandomValue>, sides: nat): nat {
    if draws == [] then 0 else SumFaces(draws[..|draws| - 1], sides) + RollFace(draws[|draws| - 1], sides)
  }

  /** The draws suffice for the count the notation asks for. */
  predicate EnoughDraws(notation: string, draws: seq<RandomValue>) {
    ParseNotation(notation).Some? ==> ParseNotation(notation).value.count <= |draws|
  }

  /** What `rollDice(notation)` returns when `Math.random()` yields `draws`, in order. */
  function RollValue(notation: string, draws: seq<RandomValue>): int
    requires EnoughDraws(notation, draws)
  {
    match ParseNotation(notation)
    case None => 0
    case Some(n) => SumFaces(draws[..n.count], n.sides) + n.bonus.GetOr(0)
  }

  /** `rollDice(notation)`: the `for` loop of `rollDice` over the injected draws. */
  method RollDice(notation: string, draws: seq<RandomValue>) returns (total: int)
    requires EnoughDraws(notation, draws)
    ensures total == RollValue(notation, draws)
  {
    var parsed := ParseNotation(notation);
    if parsed.None? {
      return 0;
    }
    var n := parsed.value;
    total := 0;
    for i := 0 to n.count
      invariant total == SumFaces(draws[..i], n.sides)
    {
      assert draws[..i + 1][..i] == draws[..i];
      total := total + RollFace(draws[i], n.sides);
    }
    total := total + (if n.bonus.Some? then n.bonus.value else 0);
  }

  lemma {:induction false} SumFacesBounds(draws: seq<RandomValue>, sides: nat)
    requires sides >= 1
    ensures |draws| <= SumFaces(draws, sides) <= |draws| * sides
  {
    if draws != [] {
      SumFacesBounds(draws[..|draws| - 1], sides);
      RollFaceRange(draws[|draws| - 1], sides);
    }
  }

  /** `"NdS"` and `"NdS+B"` with S >= 1 roll a total in [N + B, N * S + B] (B = 0 when absent). */
  lemma RollValueBounds(notation: string, draws: seq<RandomValue>)
    requires EnoughDraws(notation, draws)
    requires ParseNotation(notation).Some? && ParseNotation(notation).value.sides >= 1
    ensures var n := ParseNotation(notation).value;
            var bonus := n.bonus.GetOr(0);
            n.count + bonus <= RollValue(notation, draws) <= n.count * n.sides + bonus
  {
    var n := ParseNotation(notation).value;
    SumFacesBounds(draws[..n.count], n.sides);
  }

  /** `"0dS+B"` rolls exactly B: the loop body never runs. */
  lemma ZeroDiceRollBonus(notation: string, draws: seq<RandomValue>)
    requires EnoughDraws(notation, draws)
    requires ParseNotation(notation).Some? && ParseNotation(notation).value.count == 0
    ensures RollValue(notation, draws) == ParseNotation(notation).value.bonus.GetOr(0)
  {
  }

  /** A string the pattern rejects rolls 0 and consumes no randomness that matters. */
  lemma UnparsedRollsZero(notation: string, draws: seq<RandomValue>)
    requires ParseNotation(notation).None?
    ensures RollValue(notation, draws) == 0
  {
  }

  /** `"2d6+10"` rolls a total in 12..22 and `"1d6"` a total in 1..6, whatever the draws. */
  lemma ExampleBounds(draws: seq<RandomValue>)
    requires |draws| >= 2
    ensures 12 <= RollValue("2d6+10", draws) <= 22
    ensures 1 <= RollValue("1d6", draws) <= 6
  {
    ParseRender("2", "6", Some("10"));
    assert Render("2", "6", Some("10")) == "2d6+10";
    ParseRender("1", "6", None);
    assert Render("1", "6", None) == "1d6";
    RollValueBounds("2d6+10", draws);
    RollValueBounds("1d6", draws);
  }
}
