/** rbe/chp03/src/main.rs: the corner-given rectangle, the C-like enum
    discriminants and the cons list with `len` and `stringify`. */
module CustomTypes {
  import opened Common
  import Format

  datatype Point = Point(x: i32, y: i32)

  datatype Rectangle = Rectangle(topLeft: Point, bottomRight: Point)

  function Abs(v: int): nat
  {
    if v < 0 then -v else v
  }

  /** Every `i32` operation of `area` stays in range: the two differences,
      their `abs` (which overflows on `i32::MIN`) and the product. */
  predicate AreaFits(r: Rectangle)
  {
    var dx, dy := r.topLeft.x - r.bottomRight.x, r.topLeft.y - r.bottomRight.y;
    IsI32(dx) && IsI32(dy) && IsI32(Abs(dx)) && IsI32(Abs(dy)) && IsI32(Abs(dx) * Abs(dy))
  }

  /** `Rectangle::area`: the product of the side lengths, whichever corner
      is where; it is zero exactly when the rectangle is flat. */
  function Area(r: Rectangle): (a: i32)
    requires AreaFits(r)
    ensures a >= 0
    ensures a == 0 <==> r.topLeft.x == r.bottomRight.x || r.topLeft.y == r.bottomRight.y
  {
    var width := Abs(r.topLeft.x - r.bottomRight.x);
    var length := Abs(r.topLeft.y - r.bottomRight.y);
    ZeroProduct(width, length);
    width * length
  }

  lemma ZeroProduct(a: nat, b: nat)
    ensures a * b == 0 <==> a == 0 || b == 0
  {
    if a > 0 && b > 0 {
      assert a * b == (a - 1) * b + b;
    }
  }

  /** Naming the corners the other way round gives the same area. */
  lemma AreaSwapCorners(r: Rectangle)
    requires AreaFits(r)
    ensures AreaFits(Rectangle(r.bottomRight, r.topLeft))
    ensures Area(Rectangle(r.bottomRight, r.topLeft)) == Area(r)
  {
  }

  /** The rectangle of `main`: corners (3, 1) and (1, 3). */
  lemma AreaExample()
    ensures AreaFits(Rectangle(Point(3, 1), Point(1, 3)))
    ensures Area(Rectangle(Point(3, 1), Point(1, 3))) == 4
  {
  }

  /** `square`: from `point` to the corner (i, i). */
  function Square(point: Point, i: i32): (r: Rectangle)
    ensures r.topLeft == point && r.bottomRight == Point(i, i)
  {
    Rectangle(Point(point.x, point.y), Point(i, i))
  }

  // ---------------------------------------------------------------------
  // C-like enums

  datatype Number = Zero | One | Two

  /** `Number as i32`: the variants count from 0. */
  function NumberDiscriminant(n: Number): (d: i32)
    ensures d == 0 <==> n == Zero
    ensures 0 <= d <= 2
  {
    match n
    case Zero => 0
    case One => 1
    case Two => 2
  }

  datatype Color = Red | Green | Blue

  /** `Color as i32`: the explicit discriminants. */
  function ColorDiscriminant(c: Color): (d: i32)
    ensures d == 0xff0000 <==> c == Red
    ensures d == 0x00ff00 <==> c == Green
    ensures d == 0x0000ff <==> c == Blue
  {
    match c
    case Red => 0xff0000
    case Green => 0x00ff00
    case Blue => 0x0000ff
  }

  /** The discriminants of each enum are distinct. */
  lemma DiscriminantsDistinct(m: Number, n: Number, c: Color, d: Color)
    ensures NumberDiscriminant(m) == NumberDiscriminant(n) ==> m == n
    ensures ColorDiscriminant(c) == ColorDiscriminant(d) ==> c == d
  {
  }

  // ---------------------------------------------------------------------
  // The cons list

  datatype List = Cons(head: u32, tail: List) | Nil

  /** `List::new`. */
  function New(): (l: List)
    ensures Len(l) == 0
  {
    Nil
  }

  /** `prepend`: the value goes in front, one element longer. */
  function Prepend(l: List, value: u32): (r: List)
    ensures Elements(r) == [value] + Elements(l)
    ensures Len(r) == Len(l) + 1
  {
    Cons(value, l)
  }

  /** `len`, as an unbounded count. */
  function Len(l: List): (n: nat)
    ensures n == |Elements(l)|
  {
    match l
    case Nil => 0
    case Cons(_, tail) => 1 + Len(tail)
  }

  /** The values of the list, head first. */
  function Elements(l: List): seq<u32>
  {
    match l
    case Nil => []
    case Cons(head, tail) => [head] + Elements(tail)
  }

  /** `stringify_inner`. */
  function StringifyInner(l: List): string
  {
    match l
    case Nil => "Nil"
    case Cons(head, tail) => Format.NatToString(head) + ", " + StringifyInner(tail)
  }

  /** `stringify`. */
  function Stringify(l: List): string
  {
    "[ " + StringifyInner(l) + " ]"
  }

  /** Each value written in decimal and followed by ", ". */
  function Entries(values: seq<u32>): string
    decreases |values|
  {
    if values == [] then [] else Format.NatToString(values[0]) + ", " + Entries(values[1..])
  }

  /** `stringify` writes "[ ", each value in turn followed by ", ", and
      then "Nil ]". */
  lemma {:induction false} StringifyEntries(l: List)
    ensures Stringify(l) == "[ " + Entries(Elements(l)) + "Nil ]"
  {
    InnerEntries(l);
  }

  lemma {:induction false} InnerEntries(l: List)
    ensures StringifyInner(l) == Entries(Elements(l)) + "Nil"
  {
    match l
    case Nil =>
    case Cons(head, tail) =>
      InnerEntries(tail);
      assert Elements(l)[1..] == Elements(tail);
  }

  /** The list of `main`: 1, 2 and 3 prepended to an empty list. */
  lemma ListExample()
    ensures Len(Prepend(Prepend(Prepend(New(), 1), 2), 3)) == 3
    ensures Stringify(Prepend(Prepend(Prepend(New(), 1), 2), 3)) == "[ 3, 2, 1, Nil ]"
  {
    var l := Prepend(Prepend(Prepend(New(), 1), 2), 3);
    assert l == Cons(3, Cons(2, Cons(1, Nil)));
    CountDown(l);
  }

  lemma CountDown(l: List)
    requires l == Cons(3, Cons(2, Cons(1, Nil)))
    ensures Stringify(l) == "[ 3, 2, 1, Nil ]"
  {
    SingleDigit(1);
    SingleDigit(2);
    SingleDigit(3);
    assert StringifyInner(Cons(1, Nil)) == "1, Nil";
    assert StringifyInner(Cons(2, Cons(1, Nil))) == "2, 1, Nil";
    assert StringifyInner(l) == "3, 2, 1, Nil";
  }

  lemma SingleDigit(d: nat)
    requires d < 10
    ensures Format.NatToString(d) == [Format.DigitChar(d)]
  {
  }
}
