/** guessing_game/src/enums.rs: the coin values, `plus_one` and the dice
    roll `match` of `using_enums`. */
module Enums {
  import opened Common

  datatype UsState = Alabama | Alaske

  datatype Coin = Penny | Nickel | Dime | Quarter(state: UsState)

  /** `value_in_cents`: each kind of coin has its own value, and a
      quarter's value does not depend on its state. */
  function ValueInCents(coin: Coin): (cents: byte)
    ensures cents in {1, 5, 10, 25}
    ensures cents == 1 <==> coin == Penny
    ensures cents == 5 <==> coin == Nickel
    ensures cents == 10 <==> coin == Dime
    ensures cents == 25 <==> coin.Quarter?
  {
    match coin
    case Penny => 1
    case Nickel => 5
    case Dime => 10
    case Quarter(_) => 25
  }

  /** A quarter is worth the same whatever its state. */
  lemma QuarterStateIrrelevant(s: UsState, t: UsState)
    ensures ValueInCents(Quarter(s)) == ValueInCents(Quarter(t))
  {
  }

  /** `plus_one`; the addition is on `i32`, so it needs the value below `i32::MAX`. */
  function PlusOne(x: Option<i32>): (r: Option<i32>)
    requires x.Some? ==> x.value < I32_MAX
    ensures r.None? <==> x.None?
    ensures r.Some? ==> r.value - 1 == x.value
  {
    match x
    case Some(i) => Some(i + 1)
    case None => None
  }

  /** Different inputs give different outputs: `plus_one` loses nothing. */
  lemma PlusOneInjective(x: Option<i32>, y: Option<i32>)
    requires x.Some? ==> x.value < I32_MAX
    requires y.Some? ==> y.value < I32_MAX
    requires PlusOne(x) == PlusOne(y)
    ensures x == y
  {
  }

  /** The `match dice_roll` of `using_enums`: three winning numbers, the rest lose. */
  function DiceRoll(roll: i32): (outcome: string)
    ensures outcome in {"Shit", "Shit again", "You win", "Still shit"}
    ensures outcome == "Shit" <==> roll == 3
    ensures outcome == "Shit again" <==> roll == 5
    ensures outcome == "You win" <==> roll == 9
    ensures outcome == "Still shit" <==> roll !in {3, 5, 9}
  {
    match roll
    case 3 => "Shit"
    case 5 => "Shit again"
    case 9 => "You win"
    case _ => "Still shit"
  }
}
