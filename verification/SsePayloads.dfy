/**
 Server-sent events over the bounded line reader, and the printer they undo
 (sections 9.2.5 and 9.2.6 of the WHATWG HTML Living Standard).
 */
module SsePayloads {
  import opened ResponseLines

  // ---- The parser ----

  predicate IsDataLine(line: string) {
    line == "data" || "data:" <= line
  }

  /** The value of a data line: one space after the colon belongs to the syntax. */
  function DataValue(line: string): string
    requires IsDataLine(line)
  {
    var value := if |line| <= 5 then "" else line[5..];
    if value != "" && value[0] == ' ' then value[1..] else value
  }

  /** The events of a sequence of lines, given the fields already collected. */
  function EventsFrom(lines: seq<string>, fields: seq<string>, eventBytes: nat, limit: nat): Outcome<string>
    decreases |lines|
  {
    if lines == [] then
      Outcome([], false)
    else if lines[0] == "" then
      Prepend(if fields == [] then [] else [Join(fields)], EventsFrom(lines[1..], [], 0, limit))
    else if IsDataLine(lines[0]) then
      var value := DataValue(lines[0]);
      var bytes := eventBytes + ByteLength(value) + 1;
      if bytes > limit then Outcome([], true) else EventsFrom(lines[1..], fields + [value], bytes, limit)
    else
      EventsFrom(lines[1..], fields, eventBytes, limit)
  }

  /** The parser reads lines as they come; an error of its source ends it too. */
  function Events(source: Outcome<string>, fields: seq<string>, eventBytes: nat, limit: nat): Outcome<string> {
    var own := EventsFrom(source.yielded, fields, eventBytes, limit);
    Outcome(own.yielded, own.oversized || source.oversized)
  }

  lemma {:induction false} AfterBlankLine(
      lines: seq<string>, payloads: seq<string>, fields: seq<string>, eventBytes: nat, limit: nat)
    requires lines != [] && lines[0] == ""
    ensures Prepend(payloads, EventsFrom(lines, fields, eventBytes, limit))
         == Prepend(if fields == [] then payloads else payloads + [Join(fields)], EventsFrom(lines[1..], [], 0, limit))
  {
  }

  method ReadPayloads(chunks: seq<string>, limit: nat) returns (outcome: Outcome<string>)
    ensures outcome == Events(LineOutcome(Flatten(chunks), limit), [], 0, limit)
  {
    var source := ReadLines(chunks, limit);
    var lines := source.yielded;
    var payloads, fields := [], [];
    var eventBytes: nat := 0;
    assert lines[0..] == lines;
    for index := 0 to |lines|
      invariant EventsFrom(lines, [], 0, limit)
             == Prepend(payloads, EventsFrom(lines[index..], fields, eventBytes, limit))
    {
      var line := lines[index];
      assert lines[index..][1..] == lines[index + 1..];
      if line == "" {
        AfterBlankLine(lines[index..], payloads, fields, eventBytes, limit);
        if fields != [] {
          payloads := payloads + [Join(fields)];
        }
        fields, eventBytes := [], 0;
      } else if IsDataLine(line) {
        var value := DataValue(line);
        eventBytes := eventBytes + ByteLength(value) + 1;
        if eventBytes > limit {
          return Outcome(payloads, true);
        }
        fields := fields + [value];
      }
    }
    outcome := Outcome(payloads, source.oversized);
  }

  // ---- The printer ----

  function DataLine(value: string): string {
    "data: " + value
  }

  /** The data lines of one event. */
  function PrintFields(fields: seq<string>): string {
    if fields == [] then "" else DataLine(fields[0]) + "\n" + PrintFields(fields[1..])
  }

  function PrintEvent(payload: string): string {
    PrintFields(Split(payload)) + "\n"
  }

  function Print(payloads: seq<string>): string {
    if payloads == [] then "" else PrintEvent(payloads[0]) + Print(payloads[1..])
  }

  /** The size limit of an event: each of its lines with the field name, and its values together. */
  predicate Fits(payload: string, limit: nat) {
    && (forall line :: line in Split(payload) ==> ByteLength(line) + 6 <= limit)
    && ByteLength(payload) + 1 <= limit
  }

  function FittingPrefix(payloads: seq<string>, limit: nat): (n: nat)
    ensures n <= |payloads|
    ensures forall i :: 0 <= i < n ==> Fits(payloads[i], limit)
    ensures n < |payloads| ==> !Fits(payloads[n], limit)
  {
    if payloads == [] || !Fits(payloads[0], limit) then 0 else 1 + FittingPrefix(payloads[1..], limit)
  }

  predicate FreeOfCr(payloads: seq<string>) {
    forall i :: 0 <= i < |payloads| ==> '\r' !in payloads[i]
  }

  // ---- The round trip ----

  /** Reading a text that is already free of CR, in the middle of an event. */
  function Parse(text: string, fields: seq<string>, eventBytes: nat, limit: nat): Outcome<string> {
    Events(Bounded(Split(text), limit), fields, eventBytes, limit)
  }

  lemma {:induction false} DataLineValue(value: string)
    ensures var line := DataLine(value);
            line != "" && IsDataLine(line) && DataValue(line) == value && ByteLength(line) == ByteLength(value) + 6
    ensures '\n' !in value ==> '\n' !in DataLine(value)
  {
    var line := DataLine(value);
    ByteLengthConcat("data: ", value);
    DataPrefixBytes();
    assert line[5..] == " " + value && (" " + value)[1..] == value;
  }

  lemma {:induction false} EventsDataLine(
      line: string, tail: Outcome<string>, fields: seq<string>, eventBytes: nat, limit: nat)
    requires line != "" && IsDataLine(line)
    ensures var bytes := eventBytes + ByteLength(DataValue(line)) + 1;
            Events(Prepend([line], tail), fields, eventBytes, limit)
              == (if bytes > limit then Outcome([], true) else Events(tail, fields + [DataValue(line)], bytes, limit))
  {
  }

  lemma {:induction false} ParseLine(line: string, rest: string, fields: seq<string>, eventBytes: nat, limit: nat)
    requires '\n' !in line && line != "" && IsDataLine(line)
    ensures var bytes := eventBytes + ByteLength(DataValue(line)) + 1;
            Parse(line + "\n" + rest, fields, eventBytes, limit)
              == (if ByteLength(line) > limit || bytes > limit then Outcome([], true)
                  else Parse(rest, fields + [DataValue(line)], bytes, limit))
  {
    if ByteLength(line) > limit {
      assert line + "\n" + rest == line + ("\n" + rest);
      OversizedPrefix(line, "\n" + rest, limit);
    } else {
      BoundedLine(line, rest, limit);
      EventsDataLine(line, Bounded(Split(rest), limit), fields, eventBytes, limit);
    }
  }

  lemma {:induction false} ParseDataLine(value: string, rest: string, fields: seq<string>, eventBytes: nat, limit: nat)
    requires '\n' !in value
    ensures Parse(DataLine(value) + "\n" + rest, fields, eventBytes, limit)
         == (if ByteLength(value) + 6 > limit || eventBytes + ByteLength(value) + 1 > limit then Outcome([], true)
             else Parse(rest, fields + [value], eventBytes + ByteLength(value) + 1, limit))
  {
    DataLineValue(value);
    ParseLine(DataLine(value), rest, fields, eventBytes, limit);
  }

  lemma {:induction false} DataPrefixBytes()
    ensures ByteLength("data: ") == 6
  {
  }

  lemma {:induction false} ParseBlankLine(rest: string, fields: seq<string>, eventBytes: nat, limit: nat)
    requires fields != []
    ensures Parse("\n" + rest, fields, eventBytes, limit) == Prepend([Join(fields)], Parse(rest, [], 0, limit))
  {
  }

  /** The bytes that collected values count for. */
  function FieldBytes(fields: seq<string>): nat {
    if fields == [] then 0 else ByteLength(fields[0]) + 1 + FieldBytes(fields[1..])
  }

  predicate LinesFit(fields: seq<string>, eventBytes: nat, limit: nat) {
    && (forall line :: line in fields ==> ByteLength(line) + 6 <= limit)
    && eventBytes + FieldBytes(fields) <= limit
  }

  lemma {:induction false} LinesFitStep(values: seq<string>, eventBytes: nat, limit: nat)
    requires values != []
    ensures FieldBytes(values) == ByteLength(values[0]) + 1 + FieldBytes(values[1..])
    ensures LinesFit(values, eventBytes, limit)
       <==> ByteLength(values[0]) + 6 <= limit && LinesFit(values[1..], eventBytes + ByteLength(values[0]) + 1, limit)
    ensures LinesFit(values, eventBytes, limit) ==> eventBytes + ByteLength(values[0]) + 1 <= limit
  {
  }

  lemma {:induction false} ParseFields(
      values: seq<string>, rest: string, fields: seq<string>, eventBytes: nat, limit: nat)
    requires forall i :: 0 <= i < |values| ==> '\n' !in values[i]
    requires eventBytes <= limit
    ensures Parse(PrintFields(values) + rest, fields, eventBytes, limit)
         == (if LinesFit(values, eventBytes, limit)
             then Parse(rest, fields + values, eventBytes + FieldBytes(values), limit)
             else Outcome([], true))
  {
    if values == [] {
      assert PrintFields(values) + rest == rest;
      assert fields + values == fields;
    } else {
      ParseFirstField(values, rest, fields, eventBytes, limit);
      LinesFitStep(values, eventBytes, limit);
      if ByteLength(values[0]) + 6 <= limit && eventBytes + ByteLength(values[0]) + 1 <= limit {
        ParseFields(values[1..], rest, fields + [values[0]], eventBytes + ByteLength(values[0]) + 1, limit);
        FirstThenRest(fields, values);
      }
    }
  }

  lemma FirstThenRest(fields: seq<string>, values: seq<string>)
    requires values != []
    ensures fields + [values[0]] + values[1..] == fields + values
  {
  }

  lemma {:induction false} ParseFirstField(
      values: seq<string>, rest: string, fields: seq<string>, eventBytes: nat, limit: nat)
    requires values != [] && '\n' !in values[0]
    ensures Parse(PrintFields(values) + rest, fields, eventBytes, limit)
         == (if ByteLength(values[0]) + 6 > limit || eventBytes + ByteLength(values[0]) + 1 > limit
             then Outcome([], true)
             else Parse(
               PrintFields(values[1..]) + rest, fields + [values[0]], eventBytes + ByteLength(values[0]) + 1, limit))
  {
    var more := PrintFields(values[1..]) + rest;
    assert PrintFields(values) + rest == DataLine(values[0]) + "\n" + more;
    ParseDataLine(values[0], more, fields, eventBytes, limit);
  }

  lemma {:induction false} FieldBytesOfJoin(fields: seq<string>)
    requires fields != []
    ensures FieldBytes(fields) == ByteLength(Join(fields)) + 1
  {
    if |fields| > 1 {
      FieldBytesOfJoin(fields[1..]);
      ByteLengthConcat(fields[0] + "\n", Join(fields[1..]));
      ByteLengthConcat(fields[0], "\n");
    }
  }

  lemma {:induction false} ParseEvent(payload: string, rest: string, limit: nat)
    ensures Parse(PrintEvent(payload) + rest, [], 0, limit)
         == (if Fits(payload, limit) then Prepend([payload], Parse(rest, [], 0, limit)) else Outcome([], true))
  {
    var fields := Split(payload);
    JoinSplit(payload);
    FitsByLines(payload, limit);
    assert PrintEvent(payload) + rest == PrintFields(fields) + ("\n" + rest);
    ParseClosedFields(fields, rest, limit);
  }

  lemma {:induction false} FitsByLines(payload: string, limit: nat)
    ensures LinesFit(Split(payload), 0, limit) == Fits(payload, limit)
  {
    JoinSplit(payload);
    FieldBytesOfJoin(Split(payload));
  }

  /** Data lines and the blank line that closes their event. */
  lemma {:induction false} ParseClosedFields(fields: seq<string>, rest: string, limit: nat)
    requires fields != [] && forall i :: 0 <= i < |fields| ==> '\n' !in fields[i]
    ensures Parse(PrintFields(fields) + ("\n" + rest), [], 0, limit)
         == (if LinesFit(fields, 0, limit) then Prepend([Join(fields)], Parse(rest, [], 0, limit))
             else Outcome([], true))
  {
    ParseFields(fields, "\n" + rest, [], 0, limit);
    assert [] + fields == fields;
    ParseBlankLine(rest, fields, FieldBytes(fields), limit);
  }

  /** The outcome of reading `payloads` of which the first `n` fit, with `rest` after them. */
  function PrefixOutcome(payloads: seq<string>, n: nat, rest: Outcome<string>): Outcome<string>
    requires n <= |payloads|
  {
    if n < |payloads| then Outcome(payloads[..n], true) else Prepend(payloads, rest)
  }

  lemma {:induction false} PrefixOutcomeCons(payloads: seq<string>, n: nat, rest: Outcome<string>)
    requires payloads != [] && n <= |payloads| - 1
    ensures Prepend([payloads[0]], PrefixOutcome(payloads[1..], n, rest)) == PrefixOutcome(payloads, n + 1, rest)
  {
  }

  lemma {:induction false} ParsePrinted(payloads: seq<string>, rest: string, limit: nat)
    ensures Parse(Print(payloads) + rest, [], 0, limit)
         == PrefixOutcome(payloads, FittingPrefix(payloads, limit), Parse(rest, [], 0, limit))
  {
    if payloads == [] {
      assert Print(payloads) + rest == rest;
    } else {
      var more := Print(payloads[1..]) + rest;
      assert Print(payloads) + rest == PrintEvent(payloads[0]) + more;
      ParseEvent(payloads[0], more, limit);
      if Fits(payloads[0], limit) {
        ParsePrinted(payloads[1..], rest, limit);
        PrefixOutcomeCons(payloads, FittingPrefix(payloads[1..], limit), Parse(rest, [], 0, limit));
      }
    }
  }

  lemma {:induction false} SplitFreeOfCr(text: string)
    requires '\r' !in text
    ensures forall i :: 0 <= i < |Split(text)| ==> '\r' !in Split(text)[i]
  {
    if text != [] {
      SplitFreeOfCr(text[1..]);
    }
  }

  lemma {:induction false} PrintFieldsFreeOfCr(fields: seq<string>)
    requires forall i :: 0 <= i < |fields| ==> '\r' !in fields[i]
    ensures '\r' !in PrintFields(fields)
  {
    if fields != [] {
      PrintFieldsFreeOfCr(fields[1..]);
    }
  }

  lemma {:induction false} PrintFreeOfCr(payloads: seq<string>)
    requires FreeOfCr(payloads)
    ensures '\r' !in Print(payloads)
  {
    if payloads != [] {
      SplitFreeOfCr(payloads[0]);
      PrintFieldsFreeOfCr(Split(payloads[0]));
      PrintFreeOfCr(payloads[1..]);
    }
  }

  /**
   Printed payloads, cut into chunks anywhere, come back in order; exactly the payloads before the first one over
   the size limit do, and then the size error is raised.
   */
  lemma {:induction false} RoundTrip(payloads: seq<string>, chunks: seq<string>, limit: nat)
    requires FreeOfCr(payloads) && Flatten(chunks) == Print(payloads)
    ensures var n := FittingPrefix(payloads, limit);
            Events(LineOutcome(Flatten(chunks), limit), [], 0, limit) == Outcome(payloads[..n], n < |payloads|)
  {
    PrintFreeOfCr(payloads);
    TranslateWithoutCr(Print(payloads));
    ParsePrinted(payloads, "", limit);
    assert Print(payloads) + "" == Print(payloads);
    assert Parse("", [], 0, limit) == Outcome([], false);
    if FittingPrefix(payloads, limit) == |payloads| {
      assert payloads + [] == payloads[..|payloads|];
    }
  }

  /** An event whose closing blank line never arrives is dropped. */
  lemma {:induction false} UnclosedEventIsDropped(
      payloads: seq<string>, unclosed: string, chunks: seq<string>, limit: nat)
    requires FreeOfCr(payloads) && '\r' !in unclosed
    requires FittingPrefix(payloads, limit) == |payloads| && Fits(unclosed, limit)
    requires Flatten(chunks) == Print(payloads) + PrintFields(Split(unclosed))
    ensures Events(LineOutcome(Flatten(chunks), limit), [], 0, limit) == Outcome(payloads, false)
  {
    var fields := Split(unclosed);
    PrintFreeOfCr(payloads);
    SplitFreeOfCr(unclosed);
    PrintFieldsFreeOfCr(fields);
    TranslateWithoutCr(Print(payloads) + PrintFields(fields));
    UnclosedYieldsNothing(unclosed, limit);
    ParsePrinted(payloads, PrintFields(fields), limit);
    assert payloads + [] == payloads;
  }

  lemma {:induction false} UnclosedYieldsNothing(unclosed: string, limit: nat)
    requires Fits(unclosed, limit)
    ensures Parse(PrintFields(Split(unclosed)), [], 0, limit) == Outcome([], false)
  {
    var fields := Split(unclosed);
    ParseFields(fields, "", [], 0, limit);
    JoinSplit(unclosed);
    FieldBytesOfJoin(fields);
    assert PrintFields(fields) + "" == PrintFields(fields) && [] + fields == fields;
  }
}
