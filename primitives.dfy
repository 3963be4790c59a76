/** rbe/chp02/src/main.rs: swapping a pair, transposing a 2x2 matrix and
    the bounds-checked `get` loop of `array_plg`. The matrix entries are
    `f64`s that `transpose` only moves, so they are left abstract. */
module Primitives {
  import opened Common
  import Format

  /** `reverse`: the two components change places. */
  function Reverse(pair: (i32, bool)): (r: (bool, i32))
    ensures r.0 == pair.1 && r.1 == pair.0
  {
    var (intParam, boolParam) := pair;
    (boolParam, intParam)
  }

  /** Swapping back undoes `reverse`. */
  lemma ReverseUndone(pair: (i32, bool))
    ensures (Reverse(pair).1, Reverse(pair).0) == pair
  {
  }

  /** `Matrix(a, b, c, d)`, the entries in row order. */
  datatype Matrix<T> = Matrix(0: T, 1: T, 2: T, 3: T)

  /** `Matrix::transpose`: the diagonal stays, the two off-diagonal entries swap. */
  function Transpose<T>(m: Matrix<T>): (t: Matrix<T>)
    ensures t.0 == m.0 && t.3 == m.3
    ensures t.1 == m.2 && t.2 == m.1
  {
    var Matrix(a, b, c, d) := m;
    Matrix(a, c, b, d)
  }

  /** Transposing twice gives the matrix back. */
  lemma TransposeInvolution<T>(m: Matrix<T>)
    ensures Transpose(Transpose(m)) == m
  {
  }

  /** `xs.get(i)`: the element when i is in bounds, `None` otherwise. */
  function Get<T>(xs: seq<T>, i: nat): (r: Option<T>)
    ensures r.Some? <==> i < |xs|
    ensures r.Some? ==> r.value == xs[i]
  {
    if i < |xs| then Some(xs[i]) else None
  }

  /** The line `array_plg` prints for position i. */
  function ProbeLine(xs: seq<int>, i: nat): string
  {
    match Get(xs, i)
    case Some(val) => Format.NatToString(i) + ": " + Format.IntToString(val)
    case None => "Slow down! " + Format.NatToString(i) + " is too far!"
  }

  /** The `for i in 0..xs.len() + 1` loop of `array_plg`, its output
      collected as lines: one line per element, then one for the first
      position past the end. */
  method ProbeAll(xs: seq<int>) returns (lines: seq<string>)
    ensures |lines| == |xs| + 1
    ensures forall i :: 0 <= i < |xs| ==> lines[i] == Format.NatToString(i) + ": " + Format.IntToString(xs[i])
    ensures lines[|xs|] == "Slow down! " + Format.NatToString(|xs|) + " is too far!"
  {
    lines := [];
    var i := 0;
    while i < |xs| + 1
      invariant 0 <= i <= |xs| + 1
      invariant lines == ProbeLines(xs, i)
    {
      lines := lines + [ProbeLine(xs, i)];
      i := i + 1;
    }
    ProbeLinesAll(xs, |xs| + 1);
    ProbeLinesRead(xs, lines);
  }

  /** The first n lines `array_plg` prints. */
  function ProbeLines(xs: seq<int>, n: nat): (lines: seq<string>)
    ensures |lines| == n
  {
    if n == 0 then [] else ProbeLines(xs, n - 1) + [ProbeLine(xs, n - 1)]
  }

  /** Line k of the first n is the probe of position k. */
  lemma {:induction false} ProbeLinesAt(xs: seq<int>, n: nat, k: nat)
    requires k < n
    ensures ProbeLines(xs, n)[k] == ProbeLine(xs, k)
  {
    if k < n - 1 {
      ProbeLinesAt(xs, n - 1, k);
    }
  }

  /** Every line of the first n is the probe of its position. */
  lemma ProbeLinesAll(xs: seq<int>, n: nat)
    ensures forall k :: 0 <= k < n ==> ProbeLines(xs, n)[k] == ProbeLine(xs, k)
  {
    forall k | 0 <= k < n
      ensures ProbeLines(xs, n)[k] == ProbeLine(xs, k)
    {
      ProbeLinesAt(xs, n, k);
    }
  }

  /** Lines built from `ProbeLine`, read back as the element lines and the
      closing out-of-bounds line. */
  lemma ProbeLinesRead(xs: seq<int>, lines: seq<string>)
    requires |lines| == |xs| + 1
    requires forall k :: 0 <= k <= |xs| ==> lines[k] == ProbeLine(xs, k)
    ensures forall i :: 0 <= i < |xs| ==> lines[i] == Format.NatToString(i) + ": " + Format.IntToString(xs[i])
    ensures lines[|xs|] == "Slow down! " + Format.NatToString(|xs|) + " is too far!"
  {
    forall i | 0 <= i < |xs|
      ensures lines[i] == Format.NatToString(i) + ": " + Format.IntToString(xs[i])
    {
      InBoundsLine(xs, i);
    }
    assert lines[|xs|] == ProbeLine(xs, |xs|);
    assert Get(xs, |xs|) == None;
  }

  /** The line for a position in bounds. */
  lemma InBoundsLine(xs: seq<int>, i: nat)
    requires i < |xs|
    ensures ProbeLine(xs, i) == Format.NatToString(i) + ": " + Format.IntToString(xs[i])
  {
    assert Get(xs, i) == Some(xs[i]);
  }

  /** The array of `array_plg`: positions 0 to 4 hold 1 to 5, position 5 is out of bounds. */
  lemma GetExample()
    ensures forall i :: 0 <= i < 5 ==> Get([1, 2, 3, 4, 5], i) == Some(i + 1)
    ensures Get([1, 2, 3, 4, 5], 5) == None
  {
  }
}
