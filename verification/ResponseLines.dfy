/**
 The shim's streaming line reader: bounded lines out of arbitrary network chunks.

 Chunks are sequences of characters (UTF-8 decoding is not modelled); a generator is modelled by the
 sequence it yields and whether it then raised the size error.
 */
module ResponseLines {

  const SLICE_LENGTH: nat := 64 * 1024

  /** What a bounded generator did: the items it yielded, and whether it then refused an oversized one. */
  datatype Outcome<+T> = Outcome(yielded: seq<T>, oversized: bool)

  function Prepend<T>(first: seq<T>, rest: Outcome<T>): Outcome<T> {
    Outcome(first + rest.yielded, rest.oversized)
  }

  /** The length of a character in UTF-8. */
  function CharBytes(c: char): nat {
    if c as int < 0x80 then 1 else if c as int < 0x800 then 2 else if c as int < 0x1_0000 then 3 else 4
  }

  function ByteLength(text: string): nat {
    if text == [] then 0 else CharBytes(text[0]) + ByteLength(text[1..])
  }

  lemma {:induction false} ByteLengthConcat(a: string, b: string)
    ensures ByteLength(a + b) == ByteLength(a) + ByteLength(b)
  {
    if a == [] {
      assert a + b == b;
    } else {
      assert (a + b)[1..] == a[1..] + b;
      ByteLengthConcat(a[1..], b);
    }
  }

  function Flatten(chunks: seq<string>): string {
    if chunks == [] then [] else chunks[0] + Flatten(chunks[1..])
  }

  // ---- Universal newlines ----

  /** What follows the first character, or the first CR LF. */
  function AfterFirst(text: string): (rest: string)
    requires text != []
    ensures |rest| < |text|
  {
    if |text| > 1 && text[0] == '\r' && text[1] == '\n' then text[2..] else text[1..]
  }

  /** CR LF and lone CR both become LF: the translation of a whole text. */
  function Translate(text: string): string {
    if text == [] then [] else [if text[0] == '\r' then '\n' else text[0]] + Translate(AfterFirst(text))
  }

  function ReplaceCrLf(text: string): string {
    if |text| < 2 then text
    else if text[0] == '\r' && text[1] == '\n' then ['\n'] + ReplaceCrLf(text[2..])
    else [text[0]] + ReplaceCrLf(text[1..])
  }

  function ReplaceCr(text: string): string {
    seq(|text|, i requires 0 <= i < |text| => if text[i] == '\r' then '\n' else text[i])
  }

  lemma {:induction false} ReplacementsTranslate(text: string)
    ensures ReplaceCr(ReplaceCrLf(text)) == Translate(text)
  {
    if |text| >= 2 {
      var rest := if text[0] == '\r' && text[1] == '\n' then text[2..] else text[1..];
      ReplacementsTranslate(rest);
      assert ReplaceCr([ReplaceCrLf(text)[0]] + ReplaceCrLf(rest))
          == ReplaceCr([ReplaceCrLf(text)[0]]) + ReplaceCr(ReplaceCrLf(rest));
    } else if |text| == 1 {
      assert Translate(text[1..]) == [];
    }
  }

  predicate EndsWithCr(text: string) {
    text != [] && text[|text| - 1] == '\r'
  }

  /** True where a piece ends between a CR and its LF. */
  predicate SplitsCrLf(a: string, b: string) {
    EndsWithCr(a) && b != [] && b[0] == '\n'
  }

  lemma {:induction false} AfterFirstConcat(a: string, b: string)
    requires a != [] && !SplitsCrLf(a, b)
    ensures AfterFirst(a + b) == AfterFirst(a) + b
    ensures !SplitsCrLf(AfterFirst(a), b)
  {
  }

  /** Translation may be done piecewise, except inside a CR LF. */
  lemma {:induction false} TranslateConcat(a: string, b: string)
    requires !SplitsCrLf(a, b)
    ensures Translate(a + b) == Translate(a) + Translate(b)
  {
    if a == [] {
      assert a + b == b;
    } else {
      AfterFirstConcat(a, b);
      TranslateConcat(AfterFirst(a), b);
    }
  }

  lemma {:induction false} TranslateWithoutCr(text: string)
    requires '\r' !in text
    ensures Translate(text) == text
  {
    if text != [] {
      TranslateWithoutCr(text[1..]);
    }
  }

  function HeldCr(pendingCr: bool): string {
    if pendingCr then "\r" else ""
  }

  /** What the decoder releases of a piece: all but a final CR. */
  function Released(raw: string): string {
    if EndsWithCr(raw) then raw[..|raw| - 1] else raw
  }

  /** The incremental decoder: a CR at the end of a piece is held back until the next piece shows what follows. */
  class NewlineDecoder {
    var pendingCr: bool

    constructor ()
      ensures !pendingCr
    {
      pendingCr := false;
    }

    method Decode(input: string, final: bool) returns (output: string)
      modifies this
      ensures final ==> !pendingCr && output == Translate(HeldCr(old(pendingCr)) + input)
      ensures !final ==>
                var raw := HeldCr(old(pendingCr)) + input;
                pendingCr == EndsWithCr(raw) && output == Translate(Released(raw))
    {
      output := input;
      assert "" + input == input && "\r" + "" == "\r";
      if pendingCr && (output != "" || final) {
        output := "\r" + output;
        pendingCr := false;
      }
      if EndsWithCr(output) && !final {
        output := output[..|output| - 1];
        pendingCr := true;
      }
      ReplacementsTranslate(output);
      output := ReplaceCr(ReplaceCrLf(output));
    }
  }

  /** What a piece contributes, and what stays held back, together translate like the piece itself. */
  lemma {:induction false} PieceTranslates(raw: string, rest: string)
    ensures Translate(raw + rest) == Translate(Released(raw)) + Translate(HeldCr(EndsWithCr(raw)) + rest)
  {
    if EndsWithCr(raw) {
      var before := raw[..|raw| - 1];
      assert raw + rest == before + ("\r" + rest);
      TranslateConcat(before, "\r" + rest);
    } else {
      TranslateConcat(raw, rest);
      assert HeldCr(false) + rest == rest;
    }
  }

  // ---- Splitting ----

  /** `text.split("\n")`: always at least one segment. */
  function Split(text: string): (segments: seq<string>)
    ensures |segments| >= 1
    ensures forall i :: 0 <= i < |segments| ==> '\n' !in segments[i]
  {
    if text == [] then [[]]
    else
      var rest := Split(text[1..]);
      if text[0] == '\n' then [[]] + rest else [[text[0]] + rest[0]] + rest[1..]
  }

  function Join(segments: seq<string>): string
    requires segments != []
  {
    if |segments| == 1 then segments[0] else segments[0] + "\n" + Join(segments[1..])
  }

  lemma {:induction false} JoinSplit(text: string)
    ensures Join(Split(text)) == text
  {
    if text != [] {
      JoinSplit(text[1..]);
      var rest := Split(text[1..]);
      if text[0] == '\n' {
        assert ([[]] + rest)[1..] == rest;
        assert Join(Split(text)) == [] + "\n" + text[1..];
      } else if |rest| == 1 {
        assert Join(Split(text)) == [text[0]] + rest[0];
      } else {
        assert Split(text)[1..] == rest[1..];
        assert Join(Split(text)) == [text[0]] + rest[0] + "\n" + Join(rest[1..]);
        assert Join(Split(text)) == [text[0]] + (rest[0] + "\n" + Join(rest[1..]));
      }
      assert text == [text[0]] + text[1..];
    }
  }

  lemma {:induction false} SplitAfterPrefix(prefix: string, text: string)
    requires '\n' !in prefix
    ensures Split(prefix + text) == [prefix + Split(text)[0]] + Split(text)[1..]
  {
    if prefix == [] {
      assert prefix + text == text;
      assert prefix + Split(text)[0] == Split(text)[0];
      assert [Split(text)[0]] + Split(text)[1..] == Split(text);
    } else {
      assert (prefix + text)[1..] == prefix[1..] + text;
      SplitAfterPrefix(prefix[1..], text);
      assert [prefix[0]] + (prefix[1..] + Split(text)[0]) == prefix + Split(text)[0];
    }
  }

  lemma {:induction false} SplitAtNewline(line: string, text: string)
    requires '\n' !in line
    ensures Split(line + "\n" + text) == [line] + Split(text)
  {
    assert ("\n" + text)[1..] == text;
    assert line + "\n" + text == line + ("\n" + text);
    SplitAfterPrefix(line, "\n" + text);
    assert line + [] == line;
    assert ([[]] + Split(text))[1..] == Split(text);
  }

  /** The segments that are followed by a newline, up to the first one over the limit (the tail counts). */
  function Bounded(segments: seq<string>, limit: nat): Outcome<string>
    requires segments != []
  {
    if ByteLength(segments[0]) > limit then Outcome([], true)
    else if |segments| == 1 then Outcome([], false)
    else Prepend([segments[0]], Bounded(segments[1..], limit))
  }

  /** The specification: what a whole text yields, however it arrived. */
  function LineOutcome(text: string, limit: nat): Outcome<string> {
    Bounded(Split(Translate(text)), limit)
  }

  lemma {:induction false} OversizedPrefix(prefix: string, text: string, limit: nat)
    requires '\n' !in prefix && ByteLength(prefix) > limit
    ensures Bounded(Split(prefix + text), limit) == Outcome([], true)
  {
    SplitAfterPrefix(prefix, text);
    ByteLengthConcat(prefix, Split(text)[0]);
  }

  lemma {:induction false} BoundedLine(line: string, text: string, limit: nat)
    requires '\n' !in line && ByteLength(line) <= limit
    ensures Bounded(Split(line + "\n" + text), limit) == Prepend([line], Bounded(Split(text), limit))
  {
    SplitAtNewline(line, text);
    assert ([line] + Split(text))[1..] == Split(text);
  }

  // ---- The reader ----

  /** The lines read so far, the incomplete line, and whether the limit was exceeded. */
  datatype Reading = Reading(yielded: seq<string>, pending: string, oversized: bool)
  {
    /** Given the translated text still to come, the outcome of the whole reading. */
    ghost function Outlook(limit: nat, toCome: string): Outcome<string> {
      if oversized then Outcome(yielded, true)
      else Prepend(yielded, Bounded(Split(pending + toCome), limit))
    }

    ghost predicate Valid(limit: nat) {
      '\n' !in pending && ByteLength(pending) <= limit
    }
  }

  lemma {:induction false} JoinStep(pending: string, lines: seq<string>, index: nat, toCome: string)
    requires index < |lines|
    ensures pending + Join(lines[index..]) + toCome
         == (pending + lines[index])
              + (if index == |lines| - 1 then toCome else "\n" + ("" + Join(lines[index + 1..]) + toCome))
    ensures index < |lines| - 1 ==>
              (pending + lines[index]) + ("\n" + ("" + Join(lines[index + 1..]) + toCome))
                == (pending + lines[index]) + "\n" + ("" + Join(lines[index + 1..]) + toCome)
  {
  }

  /** One decoded slice: complete lines are yielded, the incomplete one is kept, and each is measured as it grows. */
  method ReadSlice(text: string, before: Reading, limit: nat, ghost toCome: string) returns (after: Reading)
    requires before.Valid(limit) && !before.oversized
    ensures after.Outlook(limit, toCome) == before.Outlook(limit, text + toCome)
    ensures after.oversized || after.Valid(limit)
  {
    var lines := Split(text);
    JoinSplit(text);
    var yielded, pending, pendingBytes := before.yielded, before.pending, ByteLength(before.pending);
    assert lines[0..] == lines;
    assert before.pending + (text + toCome) == before.pending + Join(lines[0..]) + toCome;
    for index := 0 to |lines|
      invariant '\n' !in pending && pendingBytes == ByteLength(pending) <= limit
      invariant index < |lines| ==>
                  before.Outlook(limit, text + toCome)
                    == Prepend(yielded, Bounded(Split(pending + Join(lines[index..]) + toCome), limit))
      invariant index == |lines| ==>
                  before.Outlook(limit, text + toCome) == Prepend(yielded, Bounded(Split(pending + toCome), limit))
    {
      var line := lines[index];
      ghost var last := index == |lines| - 1;
      ghost var rest := if last then toCome else "\n" + ("" + Join(lines[index + 1..]) + toCome);
      JoinStep(pending, lines, index, toCome);
      ByteLengthConcat(pending, line);
      pendingBytes := pendingBytes + ByteLength(line);
      if pendingBytes > limit {
        OversizedPrefix(pending + line, rest, limit);
        return Reading(yielded, pending, true);
      }
      pending := pending + line;
      if index < |lines| - 1 {
        BoundedLine(pending, "" + Join(lines[index + 1..]) + toCome, limit);
        yielded := yielded + [pending];
        pending, pendingBytes := "", 0;
      }
    }
    after := Reading(yielded, pending, false);
  }

  /** The translated text still to come, once `offset` characters of a chunk have been decoded. */
  ghost function Remaining(pendingCr: bool, chunk: string, offset: nat, toCome: string): string
    requires offset <= |chunk|
  {
    Translate(HeldCr(pendingCr) + (chunk[offset..] + toCome))
  }

  lemma {:induction false} SliceTranslates(pendingCr: bool, chunk: string, offset: nat, end: nat, toCome: string)
    requires offset <= end <= |chunk|
    ensures Remaining(pendingCr, chunk, offset, toCome)
         == Translate(Released(HeldCr(pendingCr) + chunk[offset..end]))
              + Remaining(EndsWithCr(HeldCr(pendingCr) + chunk[offset..end]), chunk, end, toCome)
  {
    var raw := HeldCr(pendingCr) + chunk[offset..end];
    assert chunk[offset..] == chunk[offset..end] + chunk[end..];
    assert HeldCr(pendingCr) + (chunk[offset..] + toCome) == raw + (chunk[end..] + toCome);
    PieceTranslates(raw, chunk[end..] + toCome);
  }

  /** Decodes and reads one slice. */
  method DecodeSlice(decoder: NewlineDecoder, chunk: string, offset: nat, end: nat, before: Reading, limit: nat,
                     ghost toCome: string)
    returns (after: Reading)
    requires offset <= end <= |chunk|
    requires before.Valid(limit) && !before.oversized
    modifies decoder
    ensures after.Outlook(limit, Remaining(decoder.pendingCr, chunk, end, toCome))
         == before.Outlook(limit, Remaining(old(decoder.pendingCr), chunk, offset, toCome))
    ensures after.oversized || after.Valid(limit)
  {
    SliceTranslates(decoder.pendingCr, chunk, offset, end, toCome);
    var text := decoder.Decode(chunk[offset..end], false);
    after := ReadSlice(text, before, limit, Remaining(decoder.pendingCr, chunk, end, toCome));
  }

  /** Reads one transport chunk, slice by slice. */
  method ReadChunk(decoder: NewlineDecoder, chunk: string, before: Reading, limit: nat, ghost toCome: string)
    returns (after: Reading)
    requires before.Valid(limit) && !before.oversized
    modifies decoder
    ensures after.Outlook(limit, Translate(HeldCr(decoder.pendingCr) + toCome))
         == before.Outlook(limit, Translate(HeldCr(old(decoder.pendingCr)) + (chunk + toCome)))
    ensures after.oversized || after.Valid(limit)
  {
    after := before;
    var offset := 0;
    assert chunk[0..] == chunk && chunk[|chunk|..] + toCome == toCome;
    while offset < |chunk| && !after.oversized
      invariant 0 <= offset <= |chunk|
      invariant after.oversized || after.Valid(limit)
      invariant before.Outlook(limit, Remaining(old(decoder.pendingCr), chunk, 0, toCome))
             == after.Outlook(limit, Remaining(decoder.pendingCr, chunk, offset, toCome))
    {
      var end := if offset + SLICE_LENGTH < |chunk| then offset + SLICE_LENGTH else |chunk|;
      after := DecodeSlice(decoder, chunk, offset, end, after, limit, toCome);
      offset := end;
    }
  }

  /** Chunk independence: the outcome depends on the concatenated text alone. */
  method ReadLines(chunks: seq<string>, limit: nat) returns (outcome: Outcome<string>)
    ensures outcome == LineOutcome(Flatten(chunks), limit)
  {
    var decoder := new NewlineDecoder();
    var reading := Reading([], "", false);
    ghost var whole := Flatten(chunks);
    assert "" + Translate("" + whole) == Translate(whole) by { assert "" + whole == whole; }
    for next := 0 to |chunks|
      invariant reading.Valid(limit) && !reading.oversized
      invariant LineOutcome(whole, limit)
             == reading.Outlook(limit, Translate(HeldCr(decoder.pendingCr) + Flatten(chunks[next..])))
    {
      ghost var toCome := Flatten(chunks[next + 1..]);
      assert chunks[next..][1..] == chunks[next + 1..];
      reading := ReadChunk(decoder, chunks[next], reading, limit, toCome);
      if reading.oversized {
        return Outcome(reading.yielded, true);
      }
    }
    assert HeldCr(decoder.pendingCr) + Flatten(chunks[|chunks|..]) == HeldCr(decoder.pendingCr) + "";
    var tail := decoder.Decode("", true);
    var rest := Finish(reading.pending, tail, limit);
    outcome := Prepend(reading.yielded, rest);
  }

  /** The end of the stream: a held-back CR still ends its line, anything after the last newline is dropped. */
  method Finish(pending: string, tail: string, limit: nat) returns (outcome: Outcome<string>)
    requires '\n' !in pending && ByteLength(pending) <= limit
    requires tail == "" || tail == "\n"
    ensures outcome == Bounded(Split(pending + tail), limit)
  {
    var lines := Split(pending + tail);
    var complete := lines[..|lines| - 1];
    SplitAfterPrefix(pending, tail);
    assert pending + "" == pending;
    outcome := Outcome([], false);
    for index := 0 to |complete|
      invariant outcome == Outcome(complete[..index], false)
    {
      if ByteLength(complete[index]) > limit {
        outcome := Outcome(outcome.yielded, true);
        return;
      }
      outcome := Outcome(outcome.yielded + [complete[index]], false);
    }
    if tail == "\n" {
      assert lines == [pending] + [""];
      assert Bounded(lines[1..], limit) == Outcome([], false);
    }
  }
}
