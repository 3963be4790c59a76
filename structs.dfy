/** guessing_game/src/structs.rs: the `User` builder and the `u32`
    rectangle with its area and containment test. */
module Structs {
  import opened Common

  /** A `u64`. */
  type u64 = x: int | 0 <= x <= U64_MAX

  datatype User = User(active: bool, username: string, email: string, signInCount: u64)

  /** `bulid_user`: a new account is active and has signed in once. */
  function BuildUser(username: string, email: string): (u: User)
    ensures u.active && u.signInCount == 1
    ensures u.username == username && u.email == email
  {
    User(true, username, email, 1)
  }

  datatype Rectangle = Rectangle(width: u32, height: u32)

  /** `Rectangle::new`. */
  function NewRectangle(width: u32, height: u32): (r: Rectangle)
    ensures r.width == width && r.height == height
  {
    Rectangle(width, height)
  }

  /** `Rectangle::square`: both sides are `size`. */
  function Square(size: u32): (r: Rectangle)
    ensures r.width == r.height == size
  {
    Rectangle(size, size)
  }

  /** The product of the sides fits in a `u32`, so `width * height` does
      not overflow. */
  predicate AreaFits(r: Rectangle)
  {
    IsU32(r.width * r.height)
  }

  /** `Rectangle::area`. */
  function Area(r: Rectangle): (a: u32)
    requires AreaFits(r)
    ensures a == 0 <==> r.width == 0 || r.height == 0
    ensures r.height > 0 ==> a >= r.width
    ensures r.width > 0 ==> a >= r.height
  {
    ProductBounds(r.width, r.height);
    r.width * r.height
  }

  lemma ProductBounds(w: nat, h: nat)
    ensures w * h == 0 <==> w == 0 || h == 0
    ensures h > 0 ==> w * h >= w
    ensures w > 0 ==> w * h >= h
  {
    if h > 0 {
      assert w * h == w * (h - 1) + w;
    }
    if w > 0 {
      assert w * h == (w - 1) * h + h;
    }
  }

  /** The free function `area`. */
  function FreeArea(rectangle: Rectangle): u32
    requires AreaFits(rectangle)
  {
    rectangle.width * rectangle.height
  }

  /** The free function and the method compute the same area. */
  lemma FreeAreaAgrees(r: Rectangle)
    requires AreaFits(r)
    ensures FreeArea(r) == Area(r)
  {
  }

  /** The area of a square is its side squared. */
  lemma SquareArea(size: u32)
    requires IsU32(size * size)
    ensures AreaFits(Square(size)) && Area(Square(size)) == size * size
  {
  }

  /** `can_hold`: strictly wider and strictly taller. */
  function CanHold(outer: Rectangle, inner: Rectangle): bool
  {
    outer.width > inner.width && outer.height > inner.height
  }

  /** `can_hold` is a strict order: no rectangle holds itself, and it is
      transitive. */
  lemma CanHoldIsStrictOrder(a: Rectangle, b: Rectangle, c: Rectangle)
    ensures !CanHold(a, a)
    ensures CanHold(a, b) && CanHold(b, c) ==> CanHold(a, c)
    ensures CanHold(a, b) ==> !CanHold(b, a)
  {
  }

  lemma {:induction false} StrictProduct(w1: nat, h1: nat, w2: nat, h2: nat)
    requires w1 > w2 && h1 > h2
    ensures w1 * h1 > w2 * h2
  {
    assert w1 * h1 == w1 * (h1 - h2) + w1 * h2;
    assert w1 * (h1 - h2) >= w1 by {
      ProductBounds(w1, h1 - h2);
    }
    assert w1 * h2 == (w1 - w2) * h2 + w2 * h2;
  }

  /** A rectangle that holds another has a strictly larger area; in
      particular the area of the smaller one fits whenever the larger's does. */
  lemma CanHoldLargerArea(a: Rectangle, b: Rectangle)
    requires CanHold(a, b) && AreaFits(a)
    ensures AreaFits(b) && Area(a) > Area(b)
  {
    StrictProduct(a.width, a.height, b.width, b.height);
  }
}
