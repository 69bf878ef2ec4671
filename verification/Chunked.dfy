/** The in-place decoder of chunked bodies (section 7.1 of RFC 9112). */
module Chunked {
  import opened CppStrings
  import opened Numbers

  /** The loop variables of the decoder: the unread body, the decoded bytes and the
      size read from the last chunk-size line. */
  datatype Progress = Progress(body: string, out: string, size: int)

  /** Spins: the loop never ends, because the body is used up while the last size
      read is still positive. */
  datatype Outcome = Decoded(body: string) | Spins

  /** The size on the first line of `body`; an empty line leaves `previous`. */
  function LineSize(body: string, previous: int): int {
    ExtractInt(Before(body, '\r'), 16).After(previous)
  }

  /** One pass of the loop body. */
  function Pass(p: Progress): Progress
    requires p.size > 0
  {
    var afterLine := Past(p.body, '\n');
    var out := p.out + Front(afterLine, p.size);
    var afterData := Erased(afterLine, p.size + 1);
    var rest := Past(afterData, '\n');
    Progress(rest, out, LineSize(rest, p.size))
  }

  function Loop(p: Progress): Outcome
    decreases |p.body|
  {
    if p.size <= 0 then Decoded(p.out)
    else if p.body == "" then Spins
    else
      PassShrinks(p);
      Loop(Pass(p))
  }

  /** The decoder; `uninitialised` is what the size variable holds before its first
      assignment. */
  function Decode(body: string, uninitialised: int): Outcome {
    if body == "" then Decoded("") else Loop(Progress(body, "", LineSize(body, uninitialised)))
  }

  /** Every pass over a non-empty body consumes some of it. */
  lemma PassShrinks(p: Progress)
    requires p.size > 0 && p.body != ""
    ensures |Pass(p).body| < |p.body|
  {
    var afterLine := Past(p.body, '\n');
    var afterData := Erased(afterLine, p.size + 1);
    assert |afterLine| <= |p.body|;
    assert afterLine != "" ==> |afterData| < |afterLine|;
    assert |Pass(p).body| <= |afterData|;
  }

  /** A pass of the loop, which ends when the size is no longer positive. */
  function PassUnlessDone(p: Progress): Progress {
    if p.size <= 0 then p else Pass(p)
  }

  /** `f` applied `n` times. */
  function Iterated<T(!new)>(f: T -> T, x: T, n: nat): T {
    if n == 0 then x else Iterated(f, f(x), n - 1)
  }

  lemma {:induction false} IteratedKeeps<T(!new)>(f: T -> T, good: T -> bool, x: T, n: nat)
    requires good(x) && forall y :: good(y) ==> good(f(y))
    ensures good(Iterated(f, x, n))
    decreases n
  {
    if n > 0 {
      IteratedKeeps(f, good, f(x), n - 1);
    }
  }

  lemma {:induction false} IteratedEnds<T(!new)>(f: T -> T, good: T -> bool, done: T -> bool, measure: T -> nat, x: T)
      returns (n: nat)
    requires good(x) && forall y :: good(y) && !done(y) ==> good(f(y)) && measure(f(y)) < measure(y)
    ensures good(Iterated(f, x, n)) && done(Iterated(f, x, n))
    decreases measure(x)
  {
    n := 0;
    if !done(x) {
      var m := IteratedEnds(f, good, done, measure, f(x));
      n := m + 1;
    }
  }

  /** A spinning state is a fixed point of the loop body, so the loop repeats it for ever. */
  lemma SpinningIsAFixedPoint(p: Progress)
    requires p.size > 0 && p.body == ""
    ensures Pass(p) == p
  {
  }

  lemma SpinningStep(p: Progress)
    requires Loop(p).Spins?
    ensures p.size > 0 && Loop(PassUnlessDone(p)).Spins?
  {
    if p.body == "" {
      SpinningIsAFixedPoint(p);
    }
  }

  lemma SpinsOn(p: Progress, n: nat)
    requires Loop(p).Spins?
    ensures Iterated(PassUnlessDone, p, n).size > 0
  {
    forall q | Loop(q).Spins?
      ensures q.size > 0 && Loop(PassUnlessDone(q)).Spins?
    {
      SpinningStep(q);
    }
    IteratedKeeps(PassUnlessDone, (q: Progress) => Loop(q).Spins?, p, n);
  }

  lemma DecodingStep(p: Progress)
    requires Loop(p).Decoded? && p.size > 0
    ensures Loop(PassUnlessDone(p)) == Loop(p) && |PassUnlessDone(p).body| < |p.body|
  {
    PassShrinks(p);
  }

  lemma Returns(p: Progress) returns (n: nat)
    requires Loop(p).Decoded?
    ensures Iterated(PassUnlessDone, p, n).size <= 0 && Loop(p) == Decoded(Iterated(PassUnlessDone, p, n).out)
  {
    var outcome := Loop(p);
    forall q | Loop(q) == outcome && q.size > 0
      ensures Loop(PassUnlessDone(q)) == outcome && |PassUnlessDone(q).body| < |q.body|
    {
      DecodingStep(q);
    }
    n := IteratedEnds(PassUnlessDone, (q: Progress) => Loop(q) == outcome, (q: Progress) => q.size <= 0,
        (q: Progress) => |q.body| as nat, p);
  }

  /** Spinning means what it says: the loop condition holds after any number of passes. And
      otherwise some pass ends the loop, with the decoded body as it is then. */
  lemma SpinsExactly(p: Progress)
    ensures Loop(p).Spins? <==> forall n: nat :: Iterated(PassUnlessDone, p, n).size > 0
    ensures Loop(p).Decoded? ==> exists n: nat ::
        Iterated(PassUnlessDone, p, n).size <= 0 && Loop(p) == Decoded(Iterated(PassUnlessDone, p, n).out)
  {
    if Loop(p).Spins? {
      forall n: nat
        ensures Iterated(PassUnlessDone, p, n).size > 0
      {
        SpinsOn(p, n);
      }
    } else {
      var n := Returns(p);
    }
  }

  // The encoding side.

  /** One chunk as a sender may write it: the size in hexadecimal of any case, with any
      leading zeros, then an optional chunk extension, then the data. */
  datatype Chunk = Chunk(digits: string, extension: string, data: string)

  /** The largest size for which the decoder's `size + 1` stays in range of int. */
  const MAX_CHUNK: int := INT_MAX - 1

  ghost predicate WellFormedExtension(extension: string) {
    && '\r' !in extension && '\n' !in extension
    && (extension != "" ==> !IsDigit(extension[0], 16) && extension[0] != 'x' && extension[0] != 'X')
  }

  ghost predicate WellFormedChunk(c: Chunk) {
    && c.digits != "" && AllDigits(c.digits, 16)
    && 0 < |c.data| <= MAX_CHUNK
    && Value(c.digits, 16) == |c.data|
    && WellFormedExtension(c.extension)
  }

  function EncodeChunk(c: Chunk): string {
    c.digits + c.extension + "\r\n" + c.data + "\r\n"
  }

  function EncodeChunks(chunks: seq<Chunk>): string {
    if chunks == [] then "" else EncodeChunk(chunks[0]) + EncodeChunks(chunks[1..])
  }

  function Payload(chunks: seq<Chunk>): string {
    if chunks == [] then "" else chunks[0].data + Payload(chunks[1..])
  }

  ghost predicate WellFormed(chunks: seq<Chunk>) {
    forall i :: 0 <= i < |chunks| ==> WellFormedChunk(chunks[i])
  }

  /** A chunk-size line is read as the number its digits spell, whatever was read before. */
  lemma SizeLineRead(digits: string, extension: string, rest: string, previous: int)
    requires digits != "" && AllDigits(digits, 16) && Value(digits, 16) <= INT_MAX
    requires WellFormedExtension(extension)
    ensures LineSize(digits + extension + "\r\n" + rest, previous) == Value(digits, 16)
  {
    var line := digits + extension;
    assert '\r' !in line;
    assert digits + extension + "\r\n" + rest == line + ['\r'] + ("\n" + rest);
    CutAt(line, '\r', "\n" + rest);
    ExtractDigits(digits, extension, 16);
  }

  /** A pass over a chunk appends exactly its data and leaves exactly what follows it. */
  lemma PassOverChunk(c: Chunk, tail: string, out: string)
    requires WellFormedChunk(c)
    ensures Pass(Progress(EncodeChunk(c) + tail, out, |c.data|))
        == Progress(tail, out + c.data, LineSize(tail, |c.data|))
  {
    var line := c.digits + c.extension + "\r";
    var afterLine := c.data + "\r\n" + tail;
    assert EncodeChunk(c) + tail == line + ['\n'] + afterLine;
    CutAt(line, '\n', afterLine);
    DataTaken(c.data, tail);
  }

  lemma DataTaken(data: string, tail: string)
    ensures Front(data + "\r\n" + tail, |data|) == data
    ensures Past(Erased(data + "\r\n" + tail, |data| + 1), '\n') == tail
  {
    var afterData := "" + ['\n'] + tail;
    assert Front(data + "\r\n" + tail, |data|) == data;
    assert Erased(data + "\r\n" + tail, |data| + 1) == afterData;
    CutAt("", '\n', tail);
  }

  /** The rest of the decoding from the start of a chunk-size line. */
  function DecodeFrom(body: string, out: string, previous: int): Outcome {
    Loop(Progress(body, out, LineSize(body, previous)))
  }

  lemma DecodeOneChunk(c: Chunk, tail: string, out: string, previous: int)
    requires WellFormedChunk(c)
    ensures DecodeFrom(EncodeChunk(c) + tail, out, previous) == DecodeFrom(tail, out + c.data, |c.data|)
  {
    var afterLine := c.data + "\r\n" + tail;
    assert EncodeChunk(c) + tail == c.digits + c.extension + "\r\n" + afterLine;
    SizeLineRead(c.digits, c.extension, afterLine, previous);
    PassOverChunk(c, tail, out);
  }

  /** The size variable after the chunks have been read. */
  function SizeAfter(chunks: seq<Chunk>, previous: int): int {
    if chunks == [] then previous else |chunks[|chunks| - 1].data|
  }

  /** The loop consumes a list of chunks and goes on with what follows it. */
  lemma {:induction false} DecodeManyChunks(chunks: seq<Chunk>, tail: string, out: string, previous: int)
    requires WellFormed(chunks)
    ensures DecodeFrom(EncodeChunks(chunks) + tail, out, previous)
         == DecodeFrom(tail, out + Payload(chunks), SizeAfter(chunks, previous))
  {
    if chunks == [] {
      assert EncodeChunks(chunks) + tail == tail;
      assert out + Payload(chunks) == out;
    } else {
      var c, more := chunks[0], chunks[1..];
      EncodedStep(chunks, tail);
      DecodeOneChunk(c, EncodeChunks(more) + tail, out, previous);
      DecodeManyChunks(more, tail, out + c.data, |c.data|);
      PayloadStep(chunks, out, previous);
    }
  }

  lemma EncodedStep(chunks: seq<Chunk>, tail: string)
    requires chunks != []
    ensures EncodeChunks(chunks) + tail == EncodeChunk(chunks[0]) + (EncodeChunks(chunks[1..]) + tail)
  {
    Associate(EncodeChunk(chunks[0]), EncodeChunks(chunks[1..]), tail);
  }

  lemma PayloadStep(chunks: seq<Chunk>, out: string, previous: int)
    requires chunks != []
    ensures out + chunks[0].data + Payload(chunks[1..]) == out + Payload(chunks)
    ensures SizeAfter(chunks[1..], |chunks[0].data|) == SizeAfter(chunks, previous)
  {
    Associate(out, chunks[0].data, Payload(chunks[1..]));
    assert chunks[1..] != [] ==> chunks[1..][|chunks[1..]| - 1] == chunks[|chunks| - 1];
  }

  /** A zero chunk ends the decoding, whatever follows it. */
  lemma LastChunkEnds(zeros: string, extension: string, trailer: string, out: string, previous: int)
    requires zeros != "" && AllDigits(zeros, 16) && Value(zeros, 16) == 0 && WellFormedExtension(extension)
    ensures DecodeFrom(zeros + extension + "\r\n" + trailer, out, previous) == Decoded(out)
  {
    SizeLineRead(zeros, extension, trailer, previous);
  }

  lemma LineIsNotEmpty(digits: string, rest: string)
    requires digits != ""
    ensures digits + rest != ""
  {
    assert |digits + rest| > 0;
  }

  lemma DecodeBeforeTail(chunks: seq<Chunk>, tail: string, uninitialised: int)
    requires WellFormed(chunks) && tail != ""
    ensures Decode(EncodeChunks(chunks) + tail, uninitialised)
        == DecodeFrom(tail, Payload(chunks), SizeAfter(chunks, uninitialised))
  {
    DecodeManyChunks(chunks, tail, "", uninitialised);
    assert "" + Payload(chunks) == Payload(chunks);
  }

  /** Any chunk list, closed by a zero chunk and any trailer, decodes to its payload. */
  lemma ChunkedRoundTrip(chunks: seq<Chunk>, zeros: string, extension: string, trailer: string, uninitialised: int)
    requires WellFormed(chunks)
    requires zeros != "" && AllDigits(zeros, 16) && Value(zeros, 16) == 0 && WellFormedExtension(extension)
    ensures Decode(EncodeChunks(chunks) + (zeros + extension + "\r\n" + trailer), uninitialised)
        == Decoded(Payload(chunks))
  {
    var tail := zeros + extension + "\r\n" + trailer;
    LineIsNotEmpty(zeros, extension + "\r\n" + trailer);
    assert tail == zeros + (extension + "\r\n" + trailer);
    DecodeBeforeTail(chunks, tail, uninitialised);
    LastChunkEnds(zeros, extension, trailer, Payload(chunks), SizeAfter(chunks, uninitialised));
  }

  // Bodies that are cut off.

  /** An empty line leaves the size, and with it the loop, as it was. */
  lemma EmptySpins(out: string, size: int)
    requires size > 0
    ensures DecodeFrom("", out, size) == Spins
  {
  }

  /** A pass that uses the body up is the last one that changes anything. */
  lemma UsedUpSpins(body: string, out: string, previous: int)
    requires body != "" && LineSize(body, previous) > 0
    requires Pass(Progress(body, out, LineSize(body, previous))).body == ""
    ensures DecodeFrom(body, out, previous) == Spins
  {
    EmptySpins(Pass(Progress(body, out, LineSize(body, previous))).out, LineSize(body, previous));
  }

  /** A chunk cut off inside its data, or before the LF behind it, makes the loop spin. */
  lemma CutDataSpins(c: Chunk, part: string, out: string, previous: int)
    requires WellFormedChunk(c) && |part| <= |c.data| + 1
    ensures DecodeFrom(c.digits + c.extension + "\r\n" + part, out, previous) == Spins
  {
    var line := c.digits + c.extension + "\r";
    var body := c.digits + c.extension + "\r\n" + part;
    assert body == line + ['\n'] + part;
    SizeLineRead(c.digits, c.extension, part, previous);
    CutAt(line, '\n', part);
    UsedUpSpins(body, out, previous);
  }

  lemma CutDataSpinsBehind(chunks: seq<Chunk>, c: Chunk, part: string, uninitialised: int)
    requires WellFormed(chunks) && WellFormedChunk(c) && |part| <= |c.data| + 1
    ensures Decode(EncodeChunks(chunks) + (c.digits + c.extension + "\r\n" + part), uninitialised) == Spins
  {
    var tail := c.digits + c.extension + "\r\n" + part;
    LineIsNotEmpty(c.digits, c.extension + "\r\n" + part);
    assert tail == c.digits + (c.extension + "\r\n" + part);
    DecodeBeforeTail(chunks, tail, uninitialised);
    CutDataSpins(c, part, Payload(chunks), SizeAfter(chunks, uninitialised));
  }

  /** A chunk without extension or leading zeros. */
  ghost predicate Plain(c: Chunk) {
    WellFormedChunk(c) && c.extension == "" && c.digits[0] != '0'
  }

  lemma {:induction false} PrefixValue(digits: string, n: nat)
    requires AllDigits(digits, 16) && n <= |digits|
    ensures Value(digits[..n], 16) <= Value(digits, 16)
    decreases |digits|
  {
    if n == |digits| {
      assert digits[..n] == digits;
    } else {
      var front := digits[..|digits| - 1];
      assert front[..n] == digits[..n];
      PrefixValue(front, n);
    }
  }

  /** Without leading zeros a number is at least as large as it is long. */
  lemma {:induction false} ValueOfLength(digits: string)
    requires digits != "" && AllDigits(digits, 16) && digits[0] != '0'
    ensures Value(digits, 16) >= |digits|
    decreases |digits|
  {
    if |digits| > 1 {
      ValueOfLength(digits[..|digits| - 1]);
    } else {
      assert digits[..0] == "";
    }
  }

  /** A size line cut off inside its number, or between CR and LF. */
  lemma CutLineSpins(c: Chunk, n: nat, end: string, out: string, previous: int)
    requires Plain(c) && 0 < n <= |c.digits| && (end == "" || end == "\r")
    ensures DecodeFrom(c.digits[..n] + end, out, previous) == Spins
  {
    var digits := c.digits[..n];
    var body := digits + end;
    PrefixValue(c.digits, n);
    ValueOfLength(digits);
    assert Before(body, '\r') == digits by {
      if end == "" {
        assert body == digits;
        FindMeaning(body, '\r');
      } else {
        assert body == digits + ['\r'] + "";
        CutAt(digits, '\r', "");
      }
    }
    ExtractDigits(digits, "", 16);
    assert digits + "" == digits;
    FindMeaning(body, '\n');
    UsedUpSpins(body, out, previous);
  }

  /** Where a prefix of a chunk ends. */
  lemma CutChunkSpins(c: Chunk, n: nat, out: string, previous: int)
    requires Plain(c) && 0 < n < |EncodeChunk(c)|
    ensures DecodeFrom(EncodeChunk(c)[..n], out, previous) == Spins
  {
    var e := EncodeChunk(c);
    var d := |c.digits|;
    assert e == c.digits + "\r\n" + c.data + "\r\n" by { assert c.digits + "" == c.digits; }
    if n <= d {
      assert e[..n] == c.digits[..n] + "";
      CutLineSpins(c, n, "", out, previous);
    } else if n == d + 1 {
      assert e[..n] == c.digits[..d] + "\r";
      CutLineSpins(c, d, "\r", out, previous);
    } else {
      var part := (c.data + "\r\n")[..n - d - 2];
      assert e[..n] == c.digits + c.extension + "\r\n" + part;
      CutDataSpins(c, part, out, previous);
    }
  }

  lemma PrefixOfJoin(a: string, b: string, n: nat)
    requires |a| <= n <= |a| + |b|
    ensures (a + b)[..n] == a + b[..n - |a|]
  {
  }

  lemma PrefixInside(a: string, b: string, n: nat)
    requires n <= |a|
    ensures (a + b)[..n] == a[..n]
  {
  }

  lemma {:induction false} CutChunksSpin(chunks: seq<Chunk>, n: nat, out: string, previous: int)
    requires (forall i :: 0 <= i < |chunks| ==> Plain(chunks[i])) && 0 < n <= |EncodeChunks(chunks)|
    ensures DecodeFrom(EncodeChunks(chunks)[..n], out, previous) == Spins
    decreases |chunks|
  {
    var c, more := chunks[0], chunks[1..];
    var e := EncodeChunk(c);
    assert EncodeChunks(chunks) == e + EncodeChunks(more);
    if n < |e| {
      PrefixInside(e, EncodeChunks(more), n);
      CutChunkSpins(c, n, out, previous);
    } else {
      PrefixOfJoin(e, EncodeChunks(more), n);
      DecodeOneChunk(c, EncodeChunks(more)[..n - |e|], out, previous);
      if n == |e| {
        EmptySpins(out + c.data, |c.data|);
      } else {
        CutChunksSpin(more, n - |e|, out + c.data, |c.data|);
      }
    }
  }

  /** The first line of a text that is cut off. */
  lemma CutFirstLine(line: string, rest: string, m: nat)
    requires '\r' !in line && m <= |line + "\r\n" + rest|
    ensures Before((line + "\r\n" + rest)[..m], '\r') == line[..if m <= |line| then m else |line|]
  {
    var text := line + "\r\n" + rest;
    if m <= |line| {
      assert text[..m] == line[..m];
      FindMeaning(line[..m], '\r');
    } else {
      assert line[..|line|] == line;
      assert text[..m] == line + ['\r'] + text[|line| + 1..m];
      CutAt(line, '\r', text[|line| + 1..m]);
    }
  }

  lemma ZeroPrefix(zeros: string, extension: string, n: nat)
    requires zeros != "" && AllDigits(zeros, 16) && Value(zeros, 16) == 0 && WellFormedExtension(extension)
    requires 0 < n <= |zeros + extension|
    ensures ExtractInt((zeros + extension)[..n], 16) == Extracted(0)
  {
    var z := if n <= |zeros| then n else |zeros|;
    assert (zeros + extension)[..n] == zeros[..z] + extension[..n - z];
    PrefixValue(zeros, z);
    ExtractDigits(zeros[..z], extension[..n - z], 16);
  }

  /** Once a digit of the zero chunk is there, the decoder returns. */
  lemma CutTailEnds(zeros: string, extension: string, trailer: string, m: nat, out: string, previous: int)
    requires zeros != "" && AllDigits(zeros, 16) && Value(zeros, 16) == 0 && WellFormedExtension(extension)
    requires 0 < m <= |zeros + extension + "\r\n" + trailer|
    ensures DecodeFrom((zeros + extension + "\r\n" + trailer)[..m], out, previous) == Decoded(out)
  {
    var line := zeros + extension;
    CutFirstLine(line, trailer, m);
    ZeroPrefix(zeros, extension, if m <= |line| then m else |line|);
  }

  /** A chunked body that is cut off somewhere makes the decoder spin exactly when something
      has been received of it but nothing of its zero chunk; with nothing of it or with the
      zero chunk begun, all of it is decoded. */
  lemma TruncationSpinsExactly(chunks: seq<Chunk>, zeros: string, extension: string, trailer: string, n: nat,
      uninitialised: int)
    requires forall i :: 0 <= i < |chunks| ==> Plain(chunks[i])
    requires zeros != "" && AllDigits(zeros, 16) && Value(zeros, 16) == 0 && WellFormedExtension(extension)
    requires n <= |EncodeChunks(chunks) + (zeros + extension + "\r\n" + trailer)|
    ensures var body := (EncodeChunks(chunks) + (zeros + extension + "\r\n" + trailer))[..n];
            && (Decode(body, uninitialised) == Spins <==> 0 < n <= |EncodeChunks(chunks)|)
            && (n > |EncodeChunks(chunks)| ==> Decode(body, uninitialised) == Decoded(Payload(chunks)))
  {
    var front, tail := EncodeChunks(chunks), zeros + extension + "\r\n" + trailer;
    if n <= |front| {
      PrefixInside(front, tail, n);
      if n > 0 {
        CutChunksSpin(chunks, n, "", uninitialised);
      }
    } else {
      PrefixOfJoin(front, tail, n);
      DecodeBeforeTail(chunks, tail[..n - |front|], uninitialised);
      CutTailEnds(zeros, extension, trailer, n - |front|, Payload(chunks), SizeAfter(chunks, uninitialised));
    }
  }

  // The same for chunks of any form.

  /** A text without a line end is read as a size, then as many bytes and one more are taken
      from it, then the next size is read. Stalling is to use the text up before a size is
      zero. */
  predicate Stalls(text: string, previous: int)
    decreases |text|
  {
    var size := LineSize(text, previous);
    size > 0 && (|text| <= size + 1 || Stalls(text[size + 1..], size))
  }

  lemma {:induction false} StallingSpins(text: string, out: string, previous: int)
    requires '\n' !in text
    ensures DecodeFrom(text, out, previous).Spins? <==> Stalls(text, previous)
    decreases |text|
  {
    var size := LineSize(text, previous);
    if size > 0 && text != "" {
      PassWithoutLineEnd(text, out, size);
      if |text| <= size + 1 {
        EmptySpins(out + Front(text, size), size);
      } else {
        StallingSpins(text[size + 1..], out + Front(text, size), size);
      }
    }
  }

  lemma PassWithoutLineEnd(text: string, out: string, size: int)
    requires '\n' !in text && size > 0
    ensures var rest := Erased(text, size + 1);
            Pass(Progress(text, out, size)) == Progress(rest, out + Front(text, size), LineSize(rest, size))
  {
    NothingPast(text);
    NothingPast(Erased(text, size + 1));
  }

  lemma NothingPast(text: string)
    requires '\n' !in text
    ensures Past(text, '\n') == text
  {
    FindMeaning(text, '\n');
  }

  /** A chunk of which only a part is there: behind its size line it always spins, within
      the size line exactly when that part stalls. */
  lemma CutChunkExactly(c: Chunk, m: nat, out: string, previous: int)
    requires WellFormedChunk(c) && m < |EncodeChunk(c)|
    ensures DecodeFrom(EncodeChunk(c)[..m], out, previous).Spins?
            <==> m >= |c.digits + c.extension| + 2 || Stalls(EncodeChunk(c)[..m], previous)
  {
    var e, line := EncodeChunk(c), c.digits + c.extension;
    if m >= |line| + 2 {
      var part := (c.data + "\r\n")[..m - |line| - 2];
      assert e[..m] == c.digits + c.extension + "\r\n" + part;
      CutDataSpins(c, part, out, previous);
    } else {
      assert e[..m] == (line + "\r")[..m];
      assert '\n' !in line + "\r";
      StallingSpins(e[..m], out, previous);
    }
  }

  /** Whatever its chunks look like, a body that is cut off inside a chunk makes the loop spin
      exactly when the chunk's size line is there or the part of it that is there stalls. */
  lemma CutBodySpinsExactly(chunks: seq<Chunk>, c: Chunk, m: nat, uninitialised: int)
    requires WellFormed(chunks) && WellFormedChunk(c) && 0 < m < |EncodeChunk(c)|
    ensures Decode(EncodeChunks(chunks) + EncodeChunk(c)[..m], uninitialised).Spins?
            <==> m >= |c.digits + c.extension| + 2
                 || Stalls(EncodeChunk(c)[..m], SizeAfter(chunks, uninitialised))
  {
    DecodeBeforeTail(chunks, EncodeChunk(c)[..m], uninitialised);
    CutChunkExactly(c, m, Payload(chunks), SizeAfter(chunks, uninitialised));
  }

  /** A number that is as large as the text is long, less one, stalls. */
  lemma LargeNumberStalls(digits: string, behind: string, previous: int)
    requires digits != "" && AllDigits(digits, 16) && '\r' !in behind
    requires behind != "" ==> !IsDigit(behind[0], 16) && behind[0] != 'x' && behind[0] != 'X'
    requires |digits + behind| - 1 <= Value(digits, 16) <= INT_MAX && Value(digits, 16) > 0
    ensures Stalls(digits + behind, previous)
  {
    FindMeaning(digits + behind, '\r');
    ExtractDigits(digits, behind, 16);
  }

  lemma CutExtension()
    ensures WellFormedChunk(Chunk("1", ";ok", "A"))
    ensures EncodeChunk(Chunk("1", ";ok", "A"))[..4] == "1;ok"
  {
    OneDigit();
    assert "1" + ";ok" == "1;ok";
    PrefixInside("1;ok", "\r\nA\r\n", 4);
  }

  /** A chunk cut off in its extension may also end the loop, with digits for data: the first
      four bytes of the chunk `1;ok` decode to "1". */
  lemma CutExtensionDecodes(uninitialised: int)
    ensures WellFormedChunk(Chunk("1", ";ok", "A"))
    ensures Decode(EncodeChunk(Chunk("1", ";ok", "A"))[..4], uninitialised) == Decoded("1")
  {
    CutExtension();
    CutExtensionSizes(uninitialised);
    CutExtensionPass();
    var p := Progress("ok", "1", 0);
    assert Loop(p) == Decoded("1");
  }

  lemma CutExtensionPass()
    ensures Pass(Progress("1;ok", "", 1)) == Progress("ok", "1", 0)
  {
    CutExtensionParts();
    CutExtensionSizes(1);
    PassWithoutLineEnd("1;ok", "", 1);
  }

  lemma CutExtensionParts()
    ensures "" + Front("1;ok", 1) == "1" && Erased("1;ok", 1 + 1) == "ok"
  {
  }

  lemma CutExtensionSizes(previous: int)
    ensures LineSize("1;ok", previous) == 1 && LineSize("ok", 1) == 0
  {
    OneDigit();
    CutExtensionSize(previous);
    FindMeaning("ok", '\r');
  }

  lemma CutExtensionSize(previous: int)
    requires AllDigits("1", 16) && Value("1", 16) == 1
    ensures LineSize("1;ok", previous) == 1
  {
    assert "1" + ";ok" == "1;ok";
    FindMeaning("1;ok", '\r');
    ExtractDigits("1", ";ok", 16);
  }

  lemma OneDigit()
    ensures AllDigits("1", 16) && Value("1", 16) == 1
  {
    assert "1"[..0] == "";
  }

  /** Whatever its chunks look like, a body that ends behind one of them makes the loop spin. */
  lemma MissingLastChunkSpins(chunks: seq<Chunk>, uninitialised: int)
    requires WellFormed(chunks) && chunks != []
    ensures Decode(EncodeChunks(chunks), uninitialised) == Spins
  {
    DecodeManyChunks(chunks, "", "", uninitialised);
    assert EncodeChunks(chunks) + "" == EncodeChunks(chunks);
    assert |EncodeChunks(chunks)| >= |EncodeChunk(chunks[0])| > 0;
  }
  // The encoding of section 7.1 of RFC 9112, from the data alone.

  /** Data to be sent as one chunk, with its size in lower or in upper case. */
  datatype Part = Part(data: string, upper: bool)

  function Digits(upper: bool): string {
    if upper then UPPER else LOWER
  }

  /** Each part behind the hexadecimal number of its bytes, and a zero chunk at the end. */
  function Encoded(parts: seq<Part>): string {
    if parts == [] then "0\r\n\r\n"
    else
      Hex(|parts[0].data|, Digits(parts[0].upper)) + "\r\n" + parts[0].data + "\r\n" + Encoded(parts[1..])
  }

  function AllData(parts: seq<Part>): string {
    if parts == [] then "" else parts[0].data + AllData(parts[1..])
  }

  ghost predicate Sendable(parts: seq<Part>) {
    forall i :: 0 <= i < |parts| ==> 0 < |parts[i].data| <= MAX_CHUNK
  }

  function ChunkOf(part: Part): Chunk {
    Chunk(Hex(|part.data|, Digits(part.upper)), "", part.data)
  }

  function ChunksOf(parts: seq<Part>): seq<Chunk> {
    if parts == [] then [] else [ChunkOf(parts[0])] + ChunksOf(parts[1..])
  }

  lemma ChunkOfIsPlain(part: Part)
    requires 0 < |part.data| <= MAX_CHUNK
    ensures Plain(ChunkOf(part))
  {
    ValueOfHex(|part.data|, Digits(part.upper));
  }

  lemma {:induction false} ChunksOfParts(parts: seq<Part>)
    requires Sendable(parts)
    ensures forall i :: 0 <= i < |ChunksOf(parts)| ==> Plain(ChunksOf(parts)[i])
    ensures Encoded(parts) == EncodeChunks(ChunksOf(parts)) + "0\r\n\r\n"
    ensures AllData(parts) == Payload(ChunksOf(parts))
  {
    if parts != [] {
      var part, more := parts[0], parts[1..];
      ChunkOfIsPlain(part);
      ChunksOfParts(more);
      assert ChunksOf(parts)[1..] == ChunksOf(more);
      var size := Hex(|part.data|, Digits(part.upper));
      assert size + "" == size;
      Associate(EncodeChunk(ChunkOf(part)), EncodeChunks(ChunksOf(more)), "0\r\n\r\n");
    }
  }

  lemma ZeroChunk()
    ensures AllDigits("0", 16) && Value("0", 16) == 0
    ensures "0" + "" + "\r\n" + "\r\n" == "0\r\n\r\n"
  {
    assert "0"[..0] == "";
  }

  /** Whatever data is sent in chunks, with sizes in either case, decoding gives it back. */
  lemma EncodedDataRoundTrip(parts: seq<Part>, uninitialised: int)
    requires Sendable(parts)
    ensures Decode(Encoded(parts), uninitialised) == Decoded(AllData(parts))
  {
    ChunksOfParts(parts);
    ZeroChunk();
    ChunkedRoundTrip(ChunksOf(parts), "0", "", "\r\n", uninitialised);
  }
}
