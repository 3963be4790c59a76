/** guessing_game/src/generics.rs: `largest` over a slice and the two
    generic constructors. `largest` is modelled on integers, whose `>` is a
    total order; the floating-point `distance_from_origin` is not modelled. */
module Generics {

  /** `largest`: the position of the element it returns a reference to.
      The scan starts from the first element and moves only on a strictly
      greater one, so the result is the first occurrence of the maximum. */
  method Largest(list: seq<int>) returns (k: nat)
    requires |list| > 0
    ensures k < |list|
    ensures forall j :: 0 <= j < |list| ==> list[j] <= list[k]
    ensures forall j :: 0 <= j < k ==> list[j] < list[k]
    ensures list[k] == Max(list)
  {
    k := 0;
    var i := 0;
    while i < |list|
      invariant 0 <= i <= |list| && k < |list| && k <= i
      invariant forall j :: 0 <= j < i ==> list[j] <= list[k]
      invariant forall j :: 0 <= j < k ==> list[j] < list[k]
    {
      if list[i] > list[k] {
        k := i;
      }
      i := i + 1;
    }
    MaxIsMaximum(list);
  }

  /** The maximum of a non-empty list, as a reference definition. */
  function Max(list: seq<int>): (m: int)
    requires |list| > 0
    decreases |list|
  {
    if |list| == 1 then list[0]
    else var rest := Max(list[1..]); if list[0] >= rest then list[0] else rest
  }

  /** `Max` is an element of the list and no element exceeds it. */
  lemma {:induction false} MaxIsMaximum(list: seq<int>)
    requires |list| > 0
    ensures Max(list) in list
    ensures forall j :: 0 <= j < |list| ==> list[j] <= Max(list)
    decreases |list|
  {
    if |list| > 1 {
      MaxIsMaximum(list[1..]);
      forall j | 1 <= j < |list| ensures list[j] <= Max(list) {
        assert list[j] == list[1..][j - 1];
      }
    }
  }

  datatype Point<T> = Point(x: T, y: T)

  /** `Point::new`. */
  function NewPoint<T>(x: T, y: T): (p: Point<T>)
    ensures p.x == x && p.y == y
  {
    Point(x, y)
  }

  /** A point is determined by its two coordinates. */
  lemma NewPointFromFields<T>(p: Point<T>)
    ensures NewPoint(p.x, p.y) == p
  {
  }

  datatype Rectangle<T, U> = Rectangle(width: T, length: U)

  /** `Rectangle::new`: the first argument is the width, the second the length. */
  function NewRectangle<T, U>(w: T, l: U): (r: Rectangle<T, U>)
    ensures r.width == w && r.length == l
  {
    Rectangle(w, l)
  }
}
