/** The sandbox process's line framing. */
module Lines {
  import opened Prelude
  import opened Splitting

  /** The lines already ended by a newline, and what follows the last newline. */
  function Complete(s: string): seq<string> {
    Split('\n', s)[..|Split('\n', s)| - 1]
  }

  function Tail(s: string): string {
    Split('\n', s)[|Split('\n', s)| - 1]
  }

  lemma CompleteConcat(a: string, b: string)
    ensures Complete(a + b) == Complete(a) + Complete(Tail(a) + b)
    ensures Tail(a + b) == Tail(Tail(a) + b)
  {
    SplitConcat('\n', a, b);
    SplitPieces('\n', a);
    SplitPiece('\n', Tail(a));
    SplitConcat('\n', Tail(a), b);
    ContinueLast(Split('\n', a), Split('\n', b));
    DropLast(Complete(a), Split('\n', Tail(a) + b));
  }

  lemma DropLast(front: seq<string>, rest: seq<string>)
    requires rest != []
    ensures (front + rest)[..|front + rest| - 1] == front + rest[..|rest| - 1]
    ensures (front + rest)[|front + rest| - 1] == rest[|rest| - 1]
  {
  }

  // ---------- line framing ----------

  /** White space as JavaScript's `trim` sees it. */
  predicate IsSpace(c: char) {
    c in {'\t', '\n', '\U{000B}', '\U{000C}', '\r', ' ', '\U{00A0}', '\U{1680}', '\U{2028}', '\U{2029}',
          '\U{202F}', '\U{205F}', '\U{3000}', '\U{FEFF}'}
    || '\U{2000}' <= c <= '\U{200A}'
  }

  predicate Blank(line: string) {
    forall i :: 0 <= i < |line| ==> IsSpace(line[i])
  }

  function NonBlank(lines: seq<string>): seq<string> {
    if lines == [] then []
    else NonBlank(lines[..|lines| - 1]) + if Blank(lines[|lines| - 1]) then [] else [lines[|lines| - 1]]
  }

  lemma {:induction false} NonBlankConcat(a: seq<string>, b: seq<string>)
    ensures NonBlank(a + b) == NonBlank(a) + NonBlank(b)
  {
    if b == [] {
      assert a + b == a;
    } else {
      NonBlankConcat(a, b[..|b| - 1]);
      assert (a + b)[..|a + b| - 1] == a + b[..|b| - 1];
    }
  }

  /** What is handled of some lines: each that has anything but white space in it, in order. */
  lemma {:induction false} NonBlankExactly(lines: seq<string>) returns (at: seq<nat>)
    ensures Picks(lines, NonBlank(lines), at)
    ensures forall i: nat :: i < |lines| ==> (i in at <==> exists j :: 0 <= j < |lines[i]| && !IsSpace(lines[i][j]))
  {
    at := [];
    if lines != [] {
      var n := |lines| - 1;
      var front, last := lines[..n], lines[n];
      var before := NonBlankExactly(front);
      PicksLonger(front, last, NonBlank(front), before);
      assert lines == front + [last];
      assert NonBlank(lines) == if Blank(last) then NonBlank(front) else NonBlank(front) + [last];
      at := if Blank(last) then before else before + [n];
      forall i: nat | i < |lines|
        ensures i in at <==> exists j :: 0 <= j < |lines[i]| && !IsSpace(lines[i][j])
      {
        assert i < n ==> front[i] == lines[i];
      }
    }
  }

  /** Receives the lines in the order they are handled. */
  class LineHandler {
    var handled: seq<string>

    constructor ()
      ensures handled == []
    {
      handled := [];
    }
  }

  method ProcessChunk(buffer: string, chunk: string, handler: LineHandler) returns (remaining: string)
    modifies handler
    ensures handler.handled == old(handler.handled) + NonBlank(Complete(buffer + chunk))
    ensures remaining == Tail(buffer + chunk)
  {
    var lines := Split('\n', buffer + chunk);
    remaining := lines[|lines| - 1];
    lines := lines[..|lines| - 1];
    for i := 0 to |lines|
      invariant handler.handled == old(handler.handled) + NonBlank(lines[..i])
    {
      assert lines[..i + 1][..i] == lines[..i];
      if !Blank(lines[i]) {
        handler.handled := handler.handled + [lines[i]];
      }
    }
    assert lines[..|lines|] == lines;
  }

  function Concat(chunks: seq<string>): string {
    if chunks == [] then "" else Concat(chunks[..|chunks| - 1]) + chunks[|chunks| - 1]
  }

  /** The process's data handler over a whole run of chunks. */
  method Feed(chunks: seq<string>, handler: LineHandler) returns (buffer: string)
    modifies handler
    ensures handler.handled == old(handler.handled) + NonBlank(Complete(Concat(chunks)))
    ensures buffer == Tail(Concat(chunks))
  {
    buffer := "";
    for i := 0 to |chunks|
      invariant handler.handled == old(handler.handled) + Framed(chunks[..i]).0
      invariant buffer == Framed(chunks[..i]).1
    {
      assert chunks[..i + 1][..i] == chunks[..i];
      buffer := ProcessChunk(buffer, chunks[i], handler);
    }
    assert chunks[..|chunks|] == chunks;
    FramingIgnoresChunks(chunks);
  }

  /** Lines handled and buffer left by a run of chunks, as a function of the chunks. */
  function Framed(chunks: seq<string>): (seq<string>, string) {
    if chunks == [] then ([], "")
    else
      var (handled, buffer) := Framed(chunks[..|chunks| - 1]);
      var input := buffer + chunks[|chunks| - 1];
      (handled + NonBlank(Complete(input)), Tail(input))
  }

  /** However the stream is cut into chunks, its complete non-blank lines are handled, once and in order. */
  lemma {:induction false} FramingIgnoresChunks(chunks: seq<string>)
    ensures Framed(chunks) == (NonBlank(Complete(Concat(chunks))), Tail(Concat(chunks)))
  {
    if chunks != [] {
      var front := chunks[..|chunks| - 1];
      FramingIgnoresChunks(front);
      CompleteConcat(Concat(front), chunks[|chunks| - 1]);
      NonBlankConcat(Complete(Concat(front)), Complete(Tail(Concat(front)) + chunks[|chunks| - 1]));
    }
  }

  /** The same stream cut in two ways is handled the same way. */
  lemma ChunkingInvariant(a: seq<string>, b: seq<string>)
    requires Concat(a) == Concat(b)
    ensures Framed(a) == Framed(b)
  {
    FramingIgnoresChunks(a);
    FramingIgnoresChunks(b);
  }

  /** A message sent as one line is handled once the stream holds its newline, and not before. */
  lemma LineHandledOnce(before: string, line: string)
    requires Free('\n', line) && !Blank(line) && Tail(before) == ""
    ensures NonBlank(Complete(before + line)) == NonBlank(Complete(before))
    ensures NonBlank(Complete(before + (line + "\n"))) == NonBlank(Complete(before)) + [line]
  {
    CompleteConcat(before, line);
    assert "" + line == line && "" + (line + "\n") == line + "\n";
    SplitPiece('\n', line);
    assert NonBlank([]) == [];
    assert Complete(before) + [] == Complete(before);
    CompleteConcat(before, line + "\n");
    SplitConcat('\n', line, "\n");
    assert "\n"[1..] == "";
    assert Split('\n', "\n") == ["", ""];
    assert line + "" == line;
    assert Complete(line + "\n") == [line];
    NonBlankConcat(Complete(before), [line]);
    assert [line][..0] == [];
  }
}
