/**
 * The boundary-safe line reader over the decompressed archive stream
 * (`read_and_decode` and `read_lines_zst`, which are identical in the raw-data
 * extractor and in the submissions extraction script).
 *
 * The Zstandard decompressor is taken as the byte stream it delivers; UTF-8
 * decoding is taken as an abstract partial function `decode`.
 */
module StreamReader {
  import opened Base
  import opened Text

  type Byte = b: int | 0 <= b < 256
  type Bytes = seq<Byte>

  /** UTF-8 decoding of a byte string: the text, or `None` when Python raises
      `UnicodeDecodeError` (for instance on a character cut in two). */
  type Decoder = Bytes -> Option<string>

  /** The `UnicodeError` raised once the window is exhausted; it reports
      `bytes_read`. */
  datatype DecodeError = DecodeError(bytesRead: nat)

  datatype Result<T> = Ok(value: T) | Err(error: DecodeError)

  /** Bytes asked for per read, and the largest window retried on a decoding
      error, as `read_lines_zst` passes them. */
  const ChunkSize: nat := 0x800_0000      // 2**27
  const MaxWindow: nat := 0x4000_0000     // (2**29) * 2

  function Min(a: nat, b: nat): nat { if a < b then a else b }

  /** The decompressed stream: `read(size)` hands out the next `size` bytes, or
      what is left of the stream when fewer remain. */
  class Reader {
    const stream: Bytes
    var pos: nat

    ghost predicate Valid()
      reads this
    {
      pos <= |stream|
    }

    constructor (stream: Bytes)
      ensures Valid() && this.stream == stream && pos == 0
    {
      this.stream := stream;
      pos := 0;
    }

    method Read(size: nat) returns (chunk: Bytes)
      requires Valid()
      modifies this
      ensures Valid()
      ensures pos == Min(old(pos) + size, |stream|)
      ensures chunk == stream[old(pos)..pos]
    {
      var end := Min(pos + size, |stream|);
      chunk := stream[pos..end];
      pos := end;
    }
  }

  /** What one call of `read_and_decode` leaves behind: its result, the reader's
      new position and the final value of its `bytes_read` counter. */
  datatype Window = Window(result: Result<string>, pos: nat, bytesRead: nat)

  /** `read_and_decode` exactly as the source writes it: read a chunk, count
      `chunk_size` bytes whatever arrived, decode `previous + chunk`; on a
      decoding error raise once the count exceeds the window, else recurse with
      the grown chunk. */
  function DecodeFrom(stream: Bytes, pos: nat, chunkSize: nat, maxWindow: nat, decode: Decoder,
                      previous: Bytes, bytesRead: nat): Window
    requires pos <= |stream| && chunkSize > 0 && bytesRead <= maxWindow
    decreases maxWindow - bytesRead
  {
    var end := Min(pos + chunkSize, |stream|);
    var chunk := previous + stream[pos..end];
    var counted := bytesRead + chunkSize;
    match decode(chunk)
    case Some(text) => Window(Ok(text), end, counted)
    case None =>
      if counted > maxWindow then Window(Err(DecodeError(counted)), end, counted)
      else DecodeFrom(stream, end, chunkSize, maxWindow, decode, chunk, counted)
  }

  /** What a call returns is the decoding of everything it read, in read order,
      after the bytes carried in; a failure reports a count above the window and
      is raised only when that same concatenation does not decode. The count
      grows by `chunk_size` per read, so the number of reads is at most
      `maxWindow / chunkSize + 1`. */
  lemma {:induction false} DecodeFromSpec(stream: Bytes, pos: nat, chunkSize: nat, maxWindow: nat,
                                          decode: Decoder, previous: Bytes, bytesRead: nat)
    requires pos <= |stream| && chunkSize > 0 && bytesRead <= maxWindow
    ensures var w := DecodeFrom(stream, pos, chunkSize, maxWindow, decode, previous, bytesRead);
      && Min(pos + chunkSize, |stream|) <= w.pos <= |stream|
      && (exists readCount: nat :: readCount >= 1 && w.bytesRead == bytesRead + readCount * chunkSize)
      && w.bytesRead <= maxWindow + chunkSize
      && (w.result.Ok? ==> decode(previous + stream[pos..w.pos]) == Some(w.result.value))
      && (w.result.Err? ==> w.result.error.bytesRead == w.bytesRead > maxWindow
                            && decode(previous + stream[pos..w.pos]) == None)
    decreases maxWindow - bytesRead
  {
    var w := DecodeFrom(stream, pos, chunkSize, maxWindow, decode, previous, bytesRead);
    var end := Min(pos + chunkSize, |stream|);
    var chunk := previous + stream[pos..end];
    var counted := bytesRead + chunkSize;
    if decode(chunk).Some? {
      assert w.bytesRead == bytesRead + 1 * chunkSize;
    } else if counted > maxWindow {
      assert w.bytesRead == bytesRead + 1 * chunkSize;
    } else {
      DecodeFromSpec(stream, end, chunkSize, maxWindow, decode, chunk, counted);
      var readCount: nat :| readCount >= 1 && w.bytesRead == counted + readCount * chunkSize;
      assert w.bytesRead == bytesRead + (readCount + 1) * chunkSize;
      assert chunk + stream[end..w.pos] == previous + stream[pos..w.pos];
    }
  }

  /** At the end of the stream a read returns nothing but is still counted, so a
      carried chunk that does not decode ends in the error without moving the
      reader: the count reported is the first one past the window. */
  lemma {:induction false} ExhaustedStreamFails(stream: Bytes, chunkSize: nat, maxWindow: nat,
                                                decode: Decoder, previous: Bytes, bytesRead: nat)
    requires chunkSize > 0 && bytesRead <= maxWindow
    requires decode(previous) == None
    ensures var w := DecodeFrom(stream, |stream|, chunkSize, maxWindow, decode, previous, bytesRead);
      && w.result == Err(DecodeError(w.bytesRead))
      && w.pos == |stream|
      && maxWindow < w.bytesRead <= maxWindow + chunkSize
    decreases maxWindow - bytesRead
  {
    var counted := bytesRead + chunkSize;
    assert previous + stream[|stream|..|stream|] == previous;
    if counted <= maxWindow {
      ExhaustedStreamFails(stream, chunkSize, maxWindow, decode, previous, counted);
    }
  }

  /** `read_and_decode` written as the bounded loop its recursion amounts to; it
      behaves as the recursive definition and reads `bytesRead / chunkSize`
      chunks. */
  method ReadAndDecode(r: Reader, chunkSize: nat, maxWindow: nat, decode: Decoder)
    returns (res: Result<string>, ghost readCount: nat)
    requires r.Valid() && chunkSize > 0
    modifies r
    ensures r.Valid()
    ensures DecodeFrom(r.stream, old(r.pos), chunkSize, maxWindow, decode, [], 0)
         == Window(res, r.pos, readCount * chunkSize)
  {
    var previous: Bytes := [];
    var bytesRead: nat := 0;
    readCount := 0;
    while true
      invariant r.Valid() && bytesRead == readCount * chunkSize && bytesRead <= maxWindow
      invariant DecodeFrom(r.stream, old(r.pos), chunkSize, maxWindow, decode, [], 0)
             == DecodeFrom(r.stream, r.pos, chunkSize, maxWindow, decode, previous, bytesRead)
      decreases maxWindow - bytesRead
    {
      var chunk := r.Read(chunkSize);
      bytesRead := bytesRead + chunkSize;
      readCount := readCount + 1;
      chunk := previous + chunk;
      match decode(chunk) {
        case Some(text) =>
          res := Ok(text);
          return;
        case None =>
          if bytesRead > maxWindow {
            res := Err(DecodeError(bytesRead));
            return;
          }
          previous := chunk;
      }
    }
  }

  /** UTF-8 decodes the empty byte string, and only it, to the empty text. */
  ghost predicate EmptyOnlyFromEmpty(decode: Decoder) {
    forall b: Bytes :: decode(b) == Some([]) <==> b == []
  }

  /** The complete lines of a text and the unterminated remainder, as
      `text.split("\n")` gives them: all pieces but the last, and the last. */
  function CompleteLines(text: string): (r: (seq<string>, string))
    ensures AllNoNewline(r.0) && NoNewline(r.1)
    ensures Terminated(r.0) + r.1 == text
  {
    var parts := SplitOn(text, '\n');
    SplitLinesReassemble(text);
    (parts[..|parts| - 1], parts[|parts| - 1])
  }

  /** Any split of a text into newline-free lines, each followed by a newline,
      and a newline-free remainder is the one `CompleteLines` gives: the lines
      read do not depend on where the chunk boundaries fell. */
  lemma {:induction false} CompleteLinesUnique(lines: seq<string>, rest: string, text: string)
    requires AllNoNewline(lines) && NoNewline(rest)
    requires Terminated(lines) + rest == text
    ensures CompleteLines(text) == (lines, rest)
  {
    var (l, b) := CompleteLines(text);
    TerminatedUnique(lines, rest, l, b);
  }

  /** Each window decodes to its text, and no text is empty. */
  ghost predicate Decodes(decode: Decoder, windows: seq<Bytes>, texts: seq<string>) {
    && |windows| == |texts|
    && forall i :: 0 <= i < |texts| ==> texts[i] != [] && decode(windows[i]) == Some(texts[i])
  }

  /** The lines yielded so far, each with its newline, then the buffer: the
      text decoded so far. */
  ghost predicate LinesInvariant(lines: seq<string>, buffer: string, texts: seq<string>) {
    && AllNoNewline(lines) && NoNewline(buffer)
    && Terminated(lines) + buffer == Concat(texts)
  }

  lemma {:induction false} AllNoNewlineAppend(a: seq<string>, b: seq<string>)
    requires AllNoNewline(a) && AllNoNewline(b)
    ensures AllNoNewline(a + b)
  {
    forall i | 0 <= i < |a + b| ensures NoNewline((a + b)[i]) {
      if i >= |a| {
        assert (a + b)[i] == b[i - |a|];
      }
    }
  }

  /** One round of `read_lines_zst`: the pieces of `buffer + chunk` but the last
      are yielded and the last becomes the buffer; the invariant survives. */
  lemma {:induction false} AppendChunk(lines: seq<string>, buffer: string, texts: seq<string>, chunk: string)
    requires LinesInvariant(lines, buffer, texts)
    ensures var parts := SplitOn(buffer + chunk, '\n');
      LinesInvariant(lines + parts[..|parts| - 1], parts[|parts| - 1], texts + [chunk])
  {
    var parts := SplitOn(buffer + chunk, '\n');
    var done := parts[..|parts| - 1];
    var last := parts[|parts| - 1];
    assert AllNoNewline(done) by {
      forall i | 0 <= i < |done| ensures NoNewline(done[i]) {
        assert done[i] == parts[i];
      }
    }
    AllNoNewlineAppend(lines, done);
    calc {
      Terminated(lines + done) + last;
      { TerminatedAppend(lines, done); }
      (Terminated(lines) + Terminated(done)) + last;
      Terminated(lines) + (Terminated(done) + last);
      { SplitLinesReassemble(buffer + chunk); }
      Terminated(lines) + (buffer + chunk);
      (Terminated(lines) + buffer) + chunk;
      Concat(texts) + chunk;
      { ConcatSnoc(texts, chunk); }
      Concat(texts + [chunk]);
    }
  }

  /** A further window that decodes to a non-empty text keeps `Decodes`. */
  lemma {:induction false} DecodesSnoc(decode: Decoder, windows: seq<Bytes>, texts: seq<string>, window: Bytes, text: string)
    requires Decodes(decode, windows, texts)
    requires text != [] && decode(window) == Some(text)
    ensures Decodes(decode, windows + [window], texts + [text])
  {
    var ws, ts := windows + [window], texts + [text];
    forall i | 0 <= i < |ts| ensures ts[i] != [] && decode(ws[i]) == Some(ts[i]) {
      if i < |texts| {
        assert ts[i] == texts[i] && ws[i] == windows[i];
      }
    }
  }

  lemma {:induction false} SliceJoin(s: Bytes, a: nat, b: nat, c: nat)
    requires a <= b <= c <= |s|
    ensures s[a..b] + s[b..c] == s[a..c]
  {
  }

  /** `read_lines_zst`: returns the lines it yields, in order, the buffer it
      still holds when it stops, and the error it raises, if any. The ghost
      results are the windows each `read_and_decode` consumed and their
      decodings. */
  method ReadLines(r: Reader, decode: Decoder)
    returns (lines: seq<string>, buffer: string, err: Option<DecodeError>,
             ghost windows: seq<Bytes>, ghost texts: seq<string>, ghost failed: Bytes)
    requires r.Valid() && EmptyOnlyFromEmpty(decode)
    modifies r
    ensures r.Valid() && old(r.pos) <= r.pos
    ensures Concat(windows) + failed == r.stream[old(r.pos)..r.pos]
    ensures err.Some? ==> decode(failed) == None && err.value.bytesRead > MaxWindow
    ensures err.None? ==> failed == []
    ensures Decodes(decode, windows, texts)
    ensures (lines, buffer) == CompleteLines(Concat(texts))
    ensures err.None? ==> r.pos == |r.stream|
  {
    lines, buffer, err, windows, texts, failed := [], [], None, [], [], [];
    while true
      invariant r.Valid() && old(r.pos) <= r.pos
      invariant Concat(windows) == r.stream[old(r.pos)..r.pos]
      invariant Decodes(decode, windows, texts)
      invariant LinesInvariant(lines, buffer, texts)
      decreases |r.stream| - r.pos
    {
      ghost var before := r.pos;
      var res, _ := ReadAndDecode(r, ChunkSize, MaxWindow, decode);
      assert Min(before + ChunkSize, |r.stream|) <= r.pos
          && (res.Ok? ==> decode([] + r.stream[before..r.pos]) == Some(res.value))
          && (res.Err? ==> decode([] + r.stream[before..r.pos]) == None && res.error.bytesRead > MaxWindow) by {
        DecodeFromSpec(r.stream, before, ChunkSize, MaxWindow, decode, [], 0);
      }
      ghost var window := r.stream[before..r.pos];
      assert [] + window == window;
      assert Concat(windows) + window == r.stream[old(r.pos)..r.pos] by {
        SliceJoin(r.stream, old(r.pos), before, r.pos);
      }
      match res {
        case Err(e) =>
          err := Some(e);
          failed := window;
          CompleteLinesUnique(lines, buffer, Concat(texts));
          return;
        case Ok(chunk) =>
          if chunk == [] {
            assert window == [];
            CompleteLinesUnique(lines, buffer, Concat(texts));
            return;
          }
          var parts := SplitOn(buffer + chunk, '\n');
          assert && LinesInvariant(lines + parts[..|parts| - 1], parts[|parts| - 1], texts + [chunk])
                 && Decodes(decode, windows + [window], texts + [chunk])
                 && Concat(windows + [window]) == r.stream[old(r.pos)..r.pos] by {
            AppendChunk(lines, buffer, texts, chunk);
            DecodesSnoc(decode, windows, texts, window, chunk);
            ConcatSnoc(windows, window);
          }
          lines := lines + parts[..|parts| - 1];
          buffer := parts[|parts| - 1];
          windows := windows + [window];
          texts := texts + [chunk];
      }
    }
  }
}
