/** The serial bridge's line buffering: text arrives in arbitrary chunks and is handed on line by line. */
module SerialBridge {
  import opened Prelude

  function NewlineAt(s: string): (k: nat)
    ensures k <= |s| && '\n' !in s[..k]
    ensures k < |s| ==> s[k] == '\n'
    ensures k < |s| <==> '\n' in s
  {
    if s == "" || s[0] == '\n' then 0
    else
      var k := NewlineAt(s[1..]);
      assert s[..k + 1] == [s[0]] + s[1..][..k];
      assert s == [s[0]] + s[1..];
      k + 1
  }

  /** The complete lines of a text, without their newlines, and what follows the last newline. */
  function Lines(s: string): seq<string>
    decreases |s|
  {
    var k := NewlineAt(s);
    if k == |s| then [] else [s[..k]] + Lines(s[k + 1..])
  }

  function Rest(s: string): string
    decreases |s|
  {
    var k := NewlineAt(s);
    if k == |s| then s else Rest(s[k + 1..])
  }

  predicate NewlineFree(lines: seq<string>) {
    forall i :: 0 <= i < |lines| ==> '\n' !in lines[i]
  }

  /** No line holds a newline, and neither does what stays in the buffer. */
  lemma {:induction false} PiecesNewlineFree(s: string)
    ensures NewlineFree(Lines(s)) && '\n' !in Rest(s)
    decreases |s|
  {
    var k := NewlineAt(s);
    if k < |s| {
      PiecesNewlineFree(s[k + 1..]);
    }
  }

  function Newlines(s: string): nat {
    if s == "" then 0 else (if s[0] == '\n' then 1 else 0) + Newlines(s[1..])
  }

  lemma {:induction false} NewlinesAfterSplit(s: string)
    requires '\n' in s
    ensures Newlines(s[NewlineAt(s) + 1..]) + 1 == Newlines(s)
  {
    if s[0] != '\n' {
      NewlinesAfterSplit(s[1..]);
      assert s[1..][NewlineAt(s[1..]) + 1..] == s[NewlineAt(s) + 1..];
    }
  }

  lemma LinesSplit(s: string)
    ensures '\n' in s ==> Lines(s) == [s[..NewlineAt(s)]] + Lines(s[NewlineAt(s) + 1..])
    ensures '\n' in s ==> Rest(s) == Rest(s[NewlineAt(s) + 1..])
    ensures '\n' !in s ==> Lines(s) == [] && Rest(s) == s
  {
  }

  /** The line handler answers some lines and ignores others. */
  function Answers<R>(handler: string -> Option<R>, lines: seq<string>): seq<R> {
    if lines == [] then []
    else
      Answers(handler, lines[..|lines| - 1])
      + match handler(lines[|lines| - 1]) case Some(r) => [r] case None => []
  }

  lemma AnswersNone<R>(handler: string -> Option<R>)
    ensures Answers(handler, []) == []
  {
  }

  lemma AnswersAppend<R>(handler: string -> Option<R>, lines: seq<string>, line: string)
    ensures Answers(handler, lines + [line])
         == Answers(handler, lines) + match handler(line) case Some(r) => [r] case None => []
  {
    assert (lines + [line])[..|lines|] == lines;
  }

  class Bridge<R> {
    const handler: string -> Option<R>
    var buffer: string
    ghost var handed: seq<string>

    constructor (handler: string -> Option<R>)
      ensures this.handler == handler && buffer == "" && handed == []
    {
      this.handler, buffer, handed := handler, "", [];
    }

    method ProcessChunk(chunk: string) returns (results: seq<R>)
      modifies this
      ensures buffer == Rest(old(buffer) + chunk) && '\n' !in buffer
      ensures handed == old(handed) + Lines(old(buffer) + chunk)
      ensures results == Answers(handler, Lines(old(buffer) + chunk))
    {
      hide Lines, Rest, Newlines, Answers;
      buffer := buffer + chunk;
      results := [];
      AnswersNone(handler);
      ghost var whole, lines := buffer, [];
      assert [] + Lines(buffer) == Lines(buffer);
      while '\n' in buffer
        invariant lines + Lines(buffer) == Lines(whole)
        invariant Rest(buffer) == Rest(whole)
        invariant handed == old(handed) + lines
        invariant results == Answers(handler, lines)
        decreases Newlines(buffer)
      {
        NewlinesAfterSplit(buffer);
        LinesSplit(buffer);
        var k := NewlineAt(buffer);
        var line := buffer[..k];
        AnswersAppend(handler, lines, line);
        assert lines + ([line] + Lines(buffer[k + 1..])) == (lines + [line]) + Lines(buffer[k + 1..]);
        buffer := buffer[k + 1..];
        var res := handler(line);
        if res.Some? {
          results := results + [res.value];
        }
        lines, handed := lines + [line], handed + [line];
      }
      LinesSplit(buffer);
      assert lines + [] == lines;
    }
  }

  // ---------- Chunking is invisible ----------

  function Unlines(lines: seq<string>): string {
    if lines == [] then "" else lines[0] + "\n" + Unlines(lines[1..])
  }

  lemma UnlinesSteps(line: string, lines: seq<string>)
    ensures Unlines([]) == ""
    ensures Unlines([line] + lines) == line + "\n" + Unlines(lines)
  {
  }

  lemma CutAtNewline(s: string)
    requires '\n' in s
    ensures s == s[..NewlineAt(s)] + "\n" + s[NewlineAt(s) + 1..]
  {
  }

  /** Lines and buffer rebuild the text, ... */
  lemma {:induction false} LinesRebuild(s: string)
    ensures Unlines(Lines(s)) + Rest(s) == s
    decreases |s|
  {
    LinesSplit(s);
    hide Lines, Rest, Unlines;
    if '\n' in s {
      var line, tail := s[..NewlineAt(s)], s[NewlineAt(s) + 1..];
      CutAtNewline(s);
      LinesRebuild(tail);
      UnlinesSteps(line, Lines(tail));
      Reassociate(line + "\n", Unlines(Lines(tail)), Rest(tail));
    } else {
      UnlinesSteps("", []);
      assert "" + s == s;
    }
  }

  lemma Reassociate(a: string, b: string, c: string)
    ensures (a + b) + c == a + (b + c)
  {
  }

  lemma {:induction false} NewlineAfterLine(line: string, more: string)
    requires '\n' !in line
    ensures NewlineAt(line + "\n" + more) == |line|
  {
    if line != "" {
      NewlineAfterLine(line[1..], more);
      assert (line + "\n" + more)[1..] == line[1..] + "\n" + more;
    }
  }

  /** ... and no other newline-free lines and newline-free rest do. */
  lemma {:induction false} LinesUnique(lines: seq<string>, rest: string)
    requires NewlineFree(lines) && '\n' !in rest
    ensures Lines(Unlines(lines) + rest) == lines && Rest(Unlines(lines) + rest) == rest
  {
    LinesSplit(Unlines(lines) + rest);
    hide Lines, Rest, Unlines;
    if lines == [] {
      UnlinesSteps("", []);
      assert "" + rest == rest;
    } else {
      var line, tail := lines[0], lines[1..];
      var more := Unlines(tail) + rest;
      LinesUnique(tail, rest);
      assert lines == [line] + tail;
      UnlinesSteps(line, tail);
      Reassociate(line + "\n", Unlines(tail), rest);
      NewlineAfterLine(line, more);
      AfterLine(line, more);
    }
  }

  lemma AfterLine(line: string, more: string)
    ensures var s := line + "\n" + more;
            '\n' in s && s[..|line|] == line && s[|line| + 1..] == more
  {
    var s := line + "\n" + more;
    assert s[|line|] == '\n';
  }

  lemma {:induction false} UnlinesConcat(a: seq<string>, b: seq<string>)
    ensures Unlines(a + b) == Unlines(a) + Unlines(b)
  {
    if a == [] {
      assert a + b == b;
    } else {
      assert (a + b)[1..] == a[1..] + b;
      UnlinesConcat(a[1..], b);
    }
  }

  /** A text that continues later: its lines so far stand, and only its rest is open. */
  lemma LinesContinue(s: string, more: string)
    ensures Lines(s + more) == Lines(s) + Lines(Rest(s) + more)
    ensures Rest(s + more) == Rest(Rest(s) + more)
  {
    PiecesNewlineFree(s);
    PiecesNewlineFree(Rest(s) + more);
    hide Lines, Rest, Unlines;
    var open := Rest(s) + more;
    var lines := Lines(s) + Lines(open);
    LinesRebuild(s);
    LinesRebuild(open);
    UnlinesConcat(Lines(s), Lines(open));
    Reassociate(Unlines(Lines(s)), Rest(s), more);
    Reassociate(Unlines(Lines(s)), Unlines(Lines(open)), Rest(open));
    assert s + more == Unlines(lines) + Rest(open);
    LinesUnique(lines, Rest(open));
  }

  /** What a run of ProcessChunk calls leaves: the lines handed over, the answers, the buffer. */
  datatype Progress<R> = Progress(handed: seq<string>, results: seq<R>, buffer: string)

  function Feed<R>(handler: string -> Option<R>, p: Progress<R>, chunk: string): Progress<R> {
    var lines := Lines(p.buffer + chunk);
    Progress(p.handed + lines, p.results + Answers(handler, lines), Rest(p.buffer + chunk))
  }

  function FeedAll<R>(handler: string -> Option<R>, chunks: seq<string>): Progress<R> {
    if chunks == [] then Progress([], [], "")
    else Feed(handler, FeedAll(handler, chunks[..|chunks| - 1]), chunks[|chunks| - 1])
  }

  function Stream(chunks: seq<string>): string {
    if chunks == [] then "" else Stream(chunks[..|chunks| - 1]) + chunks[|chunks| - 1]
  }

  lemma {:induction false} AnswersConcat<R>(handler: string -> Option<R>, a: seq<string>, b: seq<string>)
    ensures Answers(handler, a + b) == Answers(handler, a) + Answers(handler, b)
  {
    if b == [] {
      assert a + b == a;
    } else {
      var front, last := b[..|b| - 1], b[|b| - 1];
      assert a + b == (a + front) + [last] && b == front + [last];
      AnswersConcat(handler, a, front);
      AnswersAppend(handler, a + front, last);
      AnswersAppend(handler, front, last);
    }
  }

  /**
   * However a stream is cut, the same lines are handed over in the same order, with the same
   * answers and the same text left in the buffer: those of the whole stream.
   */
  lemma {:induction false} ChunkingInvisible<R>(handler: string -> Option<R>, chunks: seq<string>)
    ensures var s := Stream(chunks);
            FeedAll(handler, chunks) == Progress(Lines(s), Answers(handler, Lines(s)), Rest(s))
  {
    if chunks != [] {
      var front, last := chunks[..|chunks| - 1], chunks[|chunks| - 1];
      ChunkingInvisible(handler, front);
      LinesContinue(Stream(front), last);
      AnswersConcat(handler, Lines(Stream(front)), Lines(Rest(Stream(front)) + last));
    }
  }

  /** The read loop of a fresh bridge: chunk by chunk, in whatever pieces the stream arrives. */
  method ProcessStream<R>(b: Bridge<R>, chunks: seq<string>) returns (results: seq<R>)
    requires b.buffer == "" && b.handed == []
    modifies b
    ensures b.handed == Lines(Stream(chunks)) && b.buffer == Rest(Stream(chunks))
    ensures results == Answers(b.handler, Lines(Stream(chunks)))
  {
    hide Lines, Rest, Answers, Stream;
    results := [];
    assert chunks[..0] == [];
    for i := 0 to |chunks|
      invariant Progress(b.handed, results, b.buffer) == FeedAll(b.handler, chunks[..i])
    {
      assert chunks[..i + 1][..i] == chunks[..i];
      var answers := b.ProcessChunk(chunks[i]);
      results := results + answers;
    }
    assert chunks[..|chunks|] == chunks;
    ChunkingInvisible(b.handler, chunks);
  }
}
