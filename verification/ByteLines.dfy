/** `BufRead::lines` over the bytes of a file. */
module ByteLines {
  import opened Text

  function StripCr(line: seq<byte>): seq<byte> {
    if line != [] && line[|line| - 1] == 13 then line[..|line| - 1] else line
  }

  /**
   The lines of `acc + b`, where `acc` is the part of the current line already read. The newline and a
   carriage return before it are dropped; the last line may lack its newline.
   */
  function LinesFrom(acc: seq<byte>, b: seq<byte>): seq<seq<byte>>
    decreases |b|
  {
    if b == [] then if acc == [] then [] else [acc]
    else if b[0] == 10 then [StripCr(acc)] + LinesFrom([], b[1..])
    else LinesFrom(acc + [b[0]], b[1..])
  }

  function Lines(b: seq<byte>): seq<seq<byte>> { LinesFrom([], b) }

  predicate Terminated(b: seq<byte>) { b == [] || b[|b| - 1] == 10 }

  lemma {:induction false} LinesFromConcat(acc: seq<byte>, a: seq<byte>, b: seq<byte>)
    requires a != [] && a[|a| - 1] == 10
    ensures LinesFrom(acc, a + b) == LinesFrom(acc, a) + LinesFrom([], b)
    decreases |a|
  {
    assert (a + b)[1..] == a[1..] + b;
    if |a| == 1 {
      assert a[1..] + b == b;
    } else if a[0] == 10 {
      LinesFromConcat([], a[1..], b);
    } else {
      LinesFromConcat(acc + [a[0]], a[1..], b);
    }
  }

  /** After a terminated part, what follows starts a line of its own. */
  lemma LinesConcat(a: seq<byte>, b: seq<byte>)
    requires Terminated(a)
    ensures Lines(a + b) == Lines(a) + Lines(b)
  {
    if a == [] {
      assert a + b == b;
    } else {
      LinesFromConcat([], a, b);
    }
  }

  lemma {:induction false} SingleLineFrom(acc: seq<byte>, line: seq<byte>)
    requires 10 !in line
    ensures LinesFrom(acc, line) == if acc + line == [] then [] else [acc + line]
    ensures LinesFrom(acc, line + [10]) == [StripCr(acc + line)]
    decreases |line|
  {
    if line == [] {
      assert acc + line == acc && line + [10] == [10];
    } else {
      assert line[0] in line && (line + [10])[1..] == line[1..] + [10];
      assert acc + [line[0]] + line[1..] == acc + line;
      SingleLineFrom(acc + [line[0]], line[1..]);
    }
  }

  lemma SingleLine(line: seq<byte>)
    requires 10 !in line
    ensures Lines(line) == if line == [] then [] else [line]
    ensures Lines(line + [10]) == [StripCr(line)]
  {
    SingleLineFrom([], line);
    assert [] + line == line;
  }

  /** Length of the terminated part: everything up to and including the last newline. */
  function Whole(b: seq<byte>): (n: nat)
    ensures n <= |b| && Terminated(b[..n]) && 10 !in b[n..]
  {
    if b == [] || b[|b| - 1] == 10 then |b|
    else
      var n := Whole(b[..|b| - 1]);
      assert b[n..] == b[..|b| - 1][n..] + [b[|b| - 1]];
      assert b[..n] == b[..|b| - 1][..n];
      n
  }
}
