/** `error_chain_fmt` (zero2prod/src/helpers.rs), the `Debug` output of the
    handlers' errors: the error's message on the first line, then each
    cause of its `source()` chain, in order, under a `Caused by:` line.
    The chain is given as the error's message and the messages of its
    causes; the formatter is an object that accumulates the text and whose
    writes may fail. */
module ErrorChain {
  import opened Common

  /** `std::fmt::Error`. */
  datatype FmtError = FmtError

  /** The `Formatter` written to. Which write fails, if any, is fixed when
      it is made: `failingWrite` counts writes from 0. */
  class Formatter {
    var written: string
    var writes: nat
    const failingWrite: Option<nat>

    constructor (failingWrite: Option<nat>)
      ensures written == [] && writes == 0 && this.failingWrite == failingWrite
    {
      written := [];
      writes := 0;
      this.failingWrite := failingWrite;
    }

    /** `writeln!`: the line and a newline, unless this write fails. A
        failing write is taken to write nothing: all-or-nothing is a
        modelling choice, since `writeln!` writes the line and the newline
        separately and could fail after the first. */
    method WriteLine(line: string) returns (r: Result<(), FmtError>)
      modifies this
      ensures writes == old(writes) + 1
      ensures r.Success? <==> failingWrite != Some(old(writes))
      ensures written == if r.Success? then old(written) + line + "\n" else old(written)
    {
      if failingWrite == Some(writes) {
        r := Failure(FmtError);
      } else {
        written := written + line + "\n";
        r := Success(());
      }
      writes := writes + 1;
    }
  }

  const CAUSED_BY := "Caused by: \n\t"

  function CauseBlock(cause: string): string
  {
    CAUSED_BY + cause + "\n"
  }

  /** The blocks for a list of causes, in order. */
  function Blocks(causes: seq<string>): string
    decreases |causes|
  {
    if causes == [] then [] else Blocks(causes[..|causes| - 1]) + CauseBlock(causes[|causes| - 1])
  }

  /** What the whole chain prints when no write fails. */
  function ChainText(message: string, causes: seq<string>): string
  {
    message + "\n" + Blocks(causes)
  }

  /** The message and the blocks of the first k causes. */
  function Written(message: string, causes: seq<string>, k: nat): string
    requires k <= |causes|
    decreases k
  {
    if k == 0 then message + "\n" else Written(message, causes, k - 1) + CauseBlock(causes[k - 1])
  }

  /** The first k causes written are the message line and their blocks. */
  lemma {:induction false} WrittenIsPrefix(message: string, causes: seq<string>, k: nat)
    requires k <= |causes|
    ensures Written(message, causes, k) == message + "\n" + Blocks(causes[..k])
    decreases k
  {
    if k == 0 {
      assert causes[..0] == [];
    } else {
      WrittenIsPrefix(message, causes, k - 1);
      assert causes[..k] == causes[..k - 1] + [causes[k - 1]];
      BlocksSnoc(causes[..k - 1], causes[k - 1]);
      var x, y, z := message + "\n", Blocks(causes[..k - 1]), CauseBlock(causes[k - 1]);
      assert (x + y) + z == x + (y + z);
    }
  }

  /** The text and the result when the write numbered `failAt` (counting
      this call's writes from 0) is the first to fail. */
  function ChainOutput(message: string, causes: seq<string>, failAt: Option<nat>): (string, Result<(), FmtError>)
  {
    if failAt.None? || failAt.value > |causes| then (ChainText(message, causes), Success(()))
    else if failAt.value == 0 then ([], Failure(FmtError))
    else (Written(message, causes, failAt.value - 1), Failure(FmtError))
  }

  /** The write of this call that fails, if any. */
  function FailAt(failingWrite: Option<nat>, start: nat): Option<nat>
  {
    if failingWrite.Some? && failingWrite.value >= start then Some(failingWrite.value - start) else None
  }

  /** `error_chain_fmt`. */
  method ErrorChainFmt(message: string, causes: seq<string>, f: Formatter) returns (r: Result<(), FmtError>)
    modifies f
    ensures var out := ChainOutput(message, causes, FailAt(f.failingWrite, old(f.writes)));
            f.written == old(f.written) + out.0 && r == out.1
  {
    ghost var before := f.written;
    ghost var failAt := FailAt(f.failingWrite, f.writes);
    r := f.WriteLine(message);
    if r.Failure? {
      assert failAt == Some(0);
      assert before + [] == before;
      return Failure(FmtError);
    }
    var i := 0;
    while i < |causes|
      invariant 0 <= i <= |causes|
      invariant f.writes == old(f.writes) + 1 + i
      invariant failAt.None? || failAt.value > i
      invariant f.written == before + Written(message, causes, i)
    {
      r := f.WriteLine(CAUSED_BY + causes[i]);
      if r.Failure? {
        return Failure(FmtError);
      }
      WrittenStep(before, message, causes, i);
      i := i + 1;
    }
    assert Written(message, causes, i) == ChainText(message, causes) by {
      WrittenIsPrefix(message, causes, i);
      assert causes[..i] == causes;
    }
    r := Success(());
  }

  /** Writing the next cause's line extends the text by that cause's block. */
  lemma WrittenStep(before: string, message: string, causes: seq<string>, k: nat)
    requires k < |causes|
    ensures before + Written(message, causes, k + 1)
            == before + Written(message, causes, k) + (CAUSED_BY + causes[k]) + "\n"
  {
    var w, line := Written(message, causes, k), CAUSED_BY + causes[k];
    assert before + (w + (line + "\n")) == before + w + line + "\n";
  }

  // ---------------------------------------------------------------------
  // Properties

  /** An error without a source prints as its message and a newline. */
  lemma NoCauses(message: string)
    ensures ChainText(message, []) == message + "\n"
  {
  }

  lemma BlocksSnoc(causes: seq<string>, c: string)
    ensures Blocks(causes + [c]) == Blocks(causes) + CauseBlock(c)
  {
    assert (causes + [c])[..|causes|] == causes;
  }

  /** One block per cause, in chain order. */
  lemma {:induction false} BlocksAppend(a: seq<string>, b: seq<string>)
    ensures Blocks(a + b) == Blocks(a) + Blocks(b)
    decreases |b|
  {
    if b == [] {
      assert a + b == a;
    } else {
      var init, last := b[..|b| - 1], b[|b| - 1];
      assert b == init + [last];
      assert a + b == (a + init) + [last];
      BlocksAppend(a, init);
      BlocksSnoc(a + init, last);
      BlocksSnoc(init, last);
      var x, y, z := Blocks(a), Blocks(init), CauseBlock(last);
      assert (x + y) + z == x + (y + z);
    }
  }

  lemma OneBlock(cause: string)
    ensures Blocks([cause]) == "Caused by: \n\t" + cause + "\n"
  {
    assert [cause][..0] == [];
  }

  /** Each cause adds exactly one `Caused by` block: the fixed text of a
      block once per cause, plus the causes' own messages. */
  lemma {:induction false} BlocksLength(causes: seq<string>)
    ensures |Blocks(causes)| == |causes| * |CAUSED_BY + "\n"| + TotalLength(causes)
    decreases |causes|
  {
    if causes != [] {
      var init, last := causes[..|causes| - 1], causes[|causes| - 1];
      assert causes == init + [last];
      BlocksLength(init);
      TotalLengthSnoc(init, last);
      BlocksSnoc(init, last);
      var k, w := |CAUSED_BY + "\n"|, |CauseBlock(last)|;
      assert w == k + |last|;
      assert |causes| * k == |init| * k + k;
    }
  }

  function TotalLength(causes: seq<string>): nat
    decreases |causes|
  {
    if causes == [] then 0 else |causes[0]| + TotalLength(causes[1..])
  }

  lemma {:induction false} TotalLengthSnoc(causes: seq<string>, c: string)
    ensures TotalLength(causes + [c]) == TotalLength(causes) + |c|
    decreases |causes|
  {
    if causes != [] {
      assert (causes + [c])[1..] == causes[1..] + [c];
      TotalLengthSnoc(causes[1..], c);
    }
  }

  /** Whichever write fails, what has been written is a prefix of the full
      text, and the call reports an error exactly when one of its writes
      failed. */
  lemma OutputIsPrefix(message: string, causes: seq<string>, failAt: Option<nat>)
    ensures var out := ChainOutput(message, causes, failAt);
            && |out.0| <= |ChainText(message, causes)|
            && out.0 == ChainText(message, causes)[..|out.0|]
            && (out.1.Success? <==> failAt.None? || failAt.value > |causes|)
  {
    var out := ChainOutput(message, causes, failAt);
    var full := ChainText(message, causes);
    if failAt.Some? && 0 < failAt.value <= |causes| {
      var k := failAt.value - 1;
      WrittenIsPrefix(message, causes, k);
      BlocksAppend(causes[..k], causes[k..]);
      assert causes[..k] + causes[k..] == causes;
      assert full == out.0 + Blocks(causes[k..]);
    }
  }
}
