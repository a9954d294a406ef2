/**
  * The d20 widget of src/components/dice/D20Roller.tsx: an auto-roll that
  * shows a fresh face on each of 15 timer ticks and then settles and reports,
  * and a manual entry accepted only in 1..20.
  *
  * The `setInterval` timer becomes the `Tick` method (one call per firing) and
  * the `onRoll` callback becomes the `reported` log of the values passed to it.
  */
module D20Roller {
  import opened Wrappers
  import opened Strings
  import opened Dice

  /** `maxCount`: the number of ticks of an auto-roll. */
  const MAX_TICKS: nat := 15

  /** The manual entry that `handleManualSubmit` accepts: a parsed value in 1..20. */
  function AcceptedManual(text: string): (v: Option<int>)
    ensures v.Some? <==> ParseInt(text).Some? && 1 <= ParseInt(text).value <= 20
    ensures v.Some? ==> v == ParseInt(text) && 1 <= v.value <= 20
  {
    match ParseInt(text)
    case Some(n) => if n >= 1 && n <= 20 then Some(n) else None
    case None => None
  }

  class Roller {
    var displayValue: Option<int>
    var isRolling: bool
    var manualValue: string
    var settled: bool
    /** The interval of `intervalRef` is running. */
    var timerActive: bool
    /** The `count` the interval callback closes over. */
    var tickCount: nat
    /** Every value passed to `onRoll`, oldest first. */
    var reported: seq<int>

    ghost predicate Valid()
      reads this
    {
      (timerActive ==> isRolling && tickCount < MAX_TICKS)
      && (displayValue.Some? ==> 1 <= displayValue.value <= 20)
    }

    constructor ()
      ensures Valid()
      ensures displayValue == None && !isRolling && manualValue == "" && !settled
      ensures !timerActive && tickCount == 0 && reported == []
    {
      displayValue, isRolling, manualValue, settled := None, false, "", false;
      timerActive, tickCount, reported := false, 0, [];
    }

    /** `isNat20`: a settled 20. */
    function IsNat20(): (b: bool)
      reads this
      ensures b <==> settled && displayValue == Some(20)
    {
      settled && displayValue == Some(20)
    }

    /** `isNat1`: a settled 1. */
    function IsNat1(): (b: bool)
      reads this
      ensures b <==> settled && displayValue == Some(1)
    {
      settled && displayValue == Some(1)
    }

    /** `handleAutoRoll`: ignored while `disabled` or already rolling; otherwise starts the timer. */
    method HandleAutoRoll(disabled: bool)
      requires Valid()
      modifies this
      ensures Valid()
      ensures if disabled || old(isRolling) then
                isRolling == old(isRolling) && settled == old(settled) && timerActive == old(timerActive)
                && tickCount == old(tickCount)
              else
                isRolling && !settled && timerActive && tickCount == 0
      ensures displayValue == old(displayValue) && manualValue == old(manualValue) && reported == old(reported)
    {
      if disabled || isRolling {
        return;
      }
      isRolling := true;
      settled := false;
      tickCount := 0;
      timerActive := true;
    }

    /**
      * One firing of the interval: shows `RollD20(r)`; at the 15th firing the
      * timer stops, `RollD20(last)` is shown, the widget settles and that value
      * is reported once. A firing with no timer running cannot happen; it changes nothing.
      */
    method Tick(r: RandomValue, last: RandomValue)
      requires Valid()
      modifies this
      ensures Valid()
      ensures manualValue == old(manualValue)
      ensures !old(timerActive) ==>
                displayValue == old(displayValue) && isRolling == old(isRolling) && settled == old(settled)
                && timerActive == old(timerActive) && tickCount == old(tickCount) && reported == old(reported)
      ensures old(timerActive) && old(tickCount) + 1 < MAX_TICKS ==>
                displayValue == Some(RollD20(r)) && isRolling && settled == old(settled)
                && timerActive && tickCount == old(tickCount) + 1 && reported == old(reported)
      ensures old(timerActive) && old(tickCount) + 1 == MAX_TICKS ==>
                displayValue == Some(RollD20(last)) && !isRolling && settled
                && !timerActive && tickCount == MAX_TICKS && reported == old(reported) + [RollD20(last)]
    {
      if !timerActive {
        return;
      }
      displayValue := Some(RollD20(r));
      tickCount := tickCount + 1;
      if tickCount >= MAX_TICKS {
        timerActive := false;
        var finalValue := RollD20(last);
        displayValue := Some(finalValue);
        isRolling := false;
        settled := true;
        reported := reported + [finalValue];
      }
    }

    /** The `onChange` of the manual input. */
    method EditManual(text: string)
      requires Valid()
      modifies this`manualValue
      ensures Valid() && manualValue == text
    {
      manualValue := text;
    }

    /** `handleManualSubmit`: a parsed value in 1..20 is shown, settled, reported once and the input cleared; anything else changes nothing. */
    method HandleManualSubmit()
      requires Valid()
      modifies this
      ensures Valid()
      ensures isRolling == old(isRolling) && timerActive == old(timerActive) && tickCount == old(tickCount)
      ensures match AcceptedManual(old(manualValue))
              case Some(v) =>
                displayValue == Some(v) && settled && reported == old(reported) + [v] && manualValue == ""
              case None =>
                displayValue == old(displayValue) && settled == old(settled) && reported == old(reported)
                && manualValue == old(manualValue)
    {
      var val := ParseInt(manualValue);
      if val.Some? && val.value >= 1 && val.value <= 20 {
        displayValue := Some(val.value);
        settled := true;
        reported := reported + [val.value];
        manualValue := "";
      }
    }

    /** The unmount cleanup of the effect: the timer is cleared. */
    method Unmount()
      requires Valid()
      modifies this`timerActive
      ensures Valid() && !timerActive
    {
      timerActive := false;
    }
  }

  /**
    * A full auto-roll: the request and then the 15 firings with `draws` (and
    * `last` for the settling face). Before the last firing nothing is reported;
    * after it exactly one value in 1..20 is, and it is the one displayed.
    */
  method AutoRoll(roller: Roller, draws: seq<RandomValue>, last: RandomValue) returns (value: int)
    requires roller.Valid() && !roller.isRolling && |draws| == MAX_TICKS
    modifies roller
    ensures roller.Valid()
    ensures 1 <= value <= 20 && value == RollD20(last)
    ensures roller.reported == old(roller.reported) + [value]
    ensures roller.displayValue == Some(value) && roller.settled && !roller.isRolling && !roller.timerActive
    ensures roller.IsNat20() <==> value == 20
    ensures roller.IsNat1() <==> value == 1
  {
    roller.HandleAutoRoll(false);
    var i := 0;
    while i < MAX_TICKS - 1
      invariant 0 <= i <= MAX_TICKS - 1
      invariant roller.Valid() && roller.timerActive && roller.isRolling && !roller.settled
      invariant roller.tickCount == i
      invariant roller.reported == old(roller.reported)
    {
      roller.Tick(draws[i], last);
      i := i + 1;
    }
    roller.Tick(draws[i], last);
    value := RollD20(last);
  }
}
