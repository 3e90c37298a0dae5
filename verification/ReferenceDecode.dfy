/**
 The discarded-reference decode of a cloned-voice generation.

 A vocoder turns code frames into samples window by window.  The patched decoder skips each
 window that lies wholly below the point at which its caller cuts the reference away, and puts
 silence in its place.  The theorem is that no caller can tell.

 Tensors are abstract: a frame stands for one column of codes (all batch rows and all code groups
 of one time step), a sample for one column of the waveform.
 */
module ReferenceDecode {
  import opened Wrappers

  /** A code tensor of shape (batch, frames, groups). */
  datatype Codes<F> = Codes(batch: nat, groups: nat, frames: seq<F>)

  /** The pinned windowing contract together with the window decoder it calls. */
  datatype Vocoder<!F(!new), !S> = Vocoder(
    render: seq<F> -> seq<S>,
    voiced: F -> bool,
    silence: S,
    upsampleRate: nat,
    chunkSize: nat,
    leftContext: nat)
  {
    ghost predicate Valid() {
      && upsampleRate > 0
      && chunkSize > 0
      && forall w: seq<F> :: |render(w)| == |w| * upsampleRate
    }

    function WindowEnd(total: nat, start: nat): (end: nat)
    {
      if start + chunkSize < total then start + chunkSize else total
    }

    function ContextSize(start: nat): (size: nat)
      ensures size <= start
    {
      if start - leftContext > 0 then leftContext else start
    }

    /** One window, rendered afresh with its left context, which is then dropped. */
    function Window(frames: seq<F>, start: nat, end: nat): seq<S>
      requires Valid() && start <= end <= |frames|
    {
      var context := ContextSize(start);
      MulDistributes(end - start, context, upsampleRate);
      render(frames[start - context..end])[context * upsampleRate..]
    }

    /** The unpatched decode: every window, in order. */
    function PlainFrom(frames: seq<F>, start: nat): seq<S>
      requires Valid()
      decreases |frames| - start
    {
      if start >= |frames| then
        []
      else
        var end := WindowEnd(|frames|, start);
        Window(frames, start, end) + PlainFrom(frames, end)
    }

    function Plain(frames: seq<F>): seq<S>
      requires Valid()
    {
      PlainFrom(frames, 0)
    }

    /** The sample count that the codes themselves announce. */
    function ValidSamples(frames: seq<F>): nat {
      CountVoiced(frames) * upsampleRate
    }

    function CountVoiced(frames: seq<F>): (n: nat)
    {
      if frames == [] then 0 else (if voiced(frames[0]) then 1 else 0) + CountVoiced(frames[1..])
    }

    /** The length of the waveform once the caller has truncated it to its valid samples. */
    function EffectiveSamples(frames: seq<F>): nat {
      var full := |frames| * upsampleRate;
      var valid := ValidSamples(frames);
      if 0 < valid < full then valid else full
    }

    lemma WindowLength(frames: seq<F>, start: nat, end: nat)
      requires Valid() && start <= end <= |frames|
      ensures |Window(frames, start, end)| == (end - start) * upsampleRate
    {
      var context := ContextSize(start);
      var slice := frames[start - context..end];
      assert |slice| == (end - start) + context;
      MulDistributes(end - start, context, upsampleRate);
      assert |render(slice)| == |slice| * upsampleRate;
    }

    lemma {:induction false} PlainLength(frames: seq<F>, start: nat)
      requires Valid() && start <= |frames|
      ensures |PlainFrom(frames, start)| == (|frames| - start) * upsampleRate
      decreases |frames| - start
    {
      if start < |frames| {
        var end := WindowEnd(|frames|, start);
        PlainLength(frames, end);
        WindowLength(frames, start, end);
        MulDistributes(end - start, |frames| - end, upsampleRate);
      }
    }

    lemma WindowCall(frames: seq<F>, start: nat, end: nat)
      requires Valid() && start <= end <= |frames|
      ensures ContextSize(start) * upsampleRate <= |render(frames[start - ContextSize(start)..end])|
    {
    }

    /** The arithmetic of one window of the loop. */
    lemma WindowStep(total: nat, start: nat, end: nat)
      requires Valid() && start < total && end == WindowEnd(total, start)
      ensures start * upsampleRate + (end - start) * upsampleRate == end * upsampleRate
      ensures (end - start) * upsampleRate <= chunkSize * upsampleRate
      ensures end < total ==> end == start + chunkSize && end * upsampleRate < total * upsampleRate
      ensures end < total ==> (end - start) * upsampleRate == chunkSize * upsampleRate
      ensures 0 < (end - start) * upsampleRate
    {
    }

    /** What the loop needs of it. */
    lemma LoopStep(total: nat, start: nat, samples: nat)
      requires Valid() && start < total && samples == (WindowEnd(total, start) - start) * upsampleRate
      ensures start * upsampleRate + samples == WindowEnd(total, start) * upsampleRate <= total * upsampleRate
      ensures samples <= chunkSize * upsampleRate
      ensures WindowEnd(total, start) < total ==>
                samples == chunkSize * upsampleRate && start * upsampleRate + samples < total * upsampleRate
    {
      WindowStep(total, start, WindowEnd(total, start));
    }
  }

  ghost predicate IsMultiple(x: nat, unit: nat) {
    exists n: nat :: x == n * unit
  }

  lemma NextMultiple(x: nat, unit: nat)
    requires IsMultiple(x, unit)
    ensures IsMultiple(x + unit, unit)
  {
    var n: nat :| x == n * unit;
    MulDistributes(n, 1, unit);
    assert x + unit == (n + 1) * unit;
  }

  lemma MulMonotone(a: nat, b: nat, c: nat)
    requires a <= b
    ensures a * c <= b * c
  {
  }

  lemma MulDistributes(a: int, b: int, c: int)
    ensures (a + b) * c == a * c + b * c
  {
  }

  /** How many samples a caller cuts off: the reference's share of the waveform, rounded down. */
  function CutSamples(referenceFrames: nat, totalFrames: nat, samples: nat): int {
    (referenceFrames as real / (if totalFrames > 1 then totalFrames else 1) as real * samples as real).Floor
  }

  lemma CutBelowLength(referenceFrames: nat, totalFrames: nat, samples: nat)
    requires referenceFrames < totalFrames && 0 < samples
    ensures 0 <= CutSamples(referenceFrames, totalFrames, samples) < samples
  {
    var share := referenceFrames as real / totalFrames as real;
    ShareIsProper(referenceFrames as real, totalFrames as real);
    ScaleBelow(share, samples as real);
    FloorBelow(share * samples as real, samples);
    assert totalFrames as real == (if totalFrames > 1 then totalFrames else 1) as real;
  }

  lemma ShareIsProper(part: real, whole: real)
    requires 0.0 <= part < whole
    ensures 0.0 <= part / whole < 1.0
  {
    var share := part / whole;
    assert share * whole == part;
  }

  lemma FloorBelow(x: real, n: nat)
    requires 0.0 <= x < n as real
    ensures 0 <= x.Floor < n
  {
    assert x.Floor as real <= x < x.Floor as real + 1.0;
  }

  lemma ScaleBelow(share: real, x: real)
    requires 0.0 <= share < 1.0 && 0.0 < x
    ensures 0.0 <= share * x < x
  {
  }

  /** What a caller keeps of a decoded waveform: valid samples only, then nothing of the reference. */
  function Retained<S>(audio: seq<S>, validSamples: nat, referenceFrames: nat, totalFrames: nat): seq<S> {
    var truncated := if 0 < validSamples < |audio| then audio[..validSamples] else audio;
    var cut := CutSamples(referenceFrames, totalFrames, |truncated|);
    if 0 < cut < |truncated| then truncated[cut..] else truncated
  }

  /** Two waveforms of one length that agree from the cut on are retained alike. */
  lemma RetainedAgrees<S>(a: seq<S>, b: seq<S>, valid: nat, referenceFrames: nat, totalFrames: nat, skipped: nat)
    requires |a| == |b| && skipped <= |a| && a[skipped..] == b[skipped..]
    requires referenceFrames < totalFrames && 0 < |a|
    requires var effective := if 0 < valid < |a| then valid else |a|;
             skipped <= CutSamples(referenceFrames, totalFrames, effective)
    ensures Retained(a, valid, referenceFrames, totalFrames) == Retained(b, valid, referenceFrames, totalFrames)
  {
    var effective := if 0 < valid < |a| then valid else |a|;
    var ta := if 0 < valid < |a| then a[..valid] else a;
    var tb := if 0 < valid < |b| then b[..valid] else b;
    CutBelowLength(referenceFrames, totalFrames, effective);
    var cut := CutSamples(referenceFrames, totalFrames, effective);
    assert |ta| == |tb| == effective;
    assert forall k :: skipped <= k < |a| ==> a[k] == b[k] by {
      forall k | skipped <= k < |a| ensures a[k] == b[k] {
        assert a[k] == a[skipped..][k - skipped];
        assert b[k] == b[skipped..][k - skipped];
      }
    }
    assert ta[cut..] == tb[cut..];
    if cut == 0 {
      assert ta[0..] == ta && tb[0..] == tb;
    }
  }

  function Concat<S>(parts: seq<seq<S>>): seq<S> {
    if parts == [] then [] else Concat(parts[..|parts| - 1]) + parts[|parts| - 1]
  }

  lemma ConcatAppend<S>(parts: seq<seq<S>>, part: seq<S>, rest: seq<S>)
    ensures Concat(parts + [part]) + rest == Concat(parts) + (part + rest)
  {
  }

  lemma ConcatSkip<S>(whole: seq<S>, skipped: nat, part: seq<S>, rest: seq<S>)
    requires skipped <= |whole| && whole[skipped..] == [] + (part + rest)
    ensures skipped + |part| <= |whole| && whole[skipped + |part|..] == [] + rest
  {
  }

  function Silence<S>(s: S, n: nat): seq<S> {
    seq(n, _ => s)
  }

  /** True when the armed reference provably is the leading part of `codes`. */
  predicate ReferenceLeads<F(==)>(pending: Option<Codes<F>>, codes: Codes<F>) {
    && pending.Some?
    && 0 < |pending.value.frames| < |codes.frames|
    && pending.value.batch == codes.batch
    && pending.value.groups == codes.groups
    && pending.value.frames <= codes.frames
  }

  /** One generated row as the batch returns it. */
  datatype RowAudio<S> = RowAudio(index: nat, audio: seq<S>)

  /** The row that decoding the whole sequence and cutting the reference off gives. */
  function PlainRow<F(!new), S>(v: Vocoder<F, S>, reference: seq<F>, generated: seq<F>): seq<S>
    requires v.Valid()
  {
    if generated == [] then
      []
    else
      var full := reference + generated;
      Retained(v.Plain(full), v.ValidSamples(full), |reference|, |full|)
  }

  /** The windows before `start` are skipped, all at or below the cut, or from the first one above it rendered. */
  ghost predicate RenderedUpTo<F(!new), S>(
      v: Vocoder<F, S>, frames: seq<F>, cut: nat, start: nat, produced: nat, window: nat,
      rendered: seq<seq<S>>, skipped: nat)
    requires v.Valid()
  {
    && skipped <= cut && skipped <= produced && IsMultiple(skipped, window)
    && (rendered == [] ==> skipped == produced)
    && (rendered != [] ==> cut < produced && cut < skipped + window)
    && skipped <= |v.Plain(frames)|
    && v.Plain(frames)[skipped..] == Concat(rendered) + v.PlainFrom(frames, start)
  }

  /** Skipping one more whole window that lies at or below the cut. */
  lemma WindowSkipped<F(!new), S>(
      v: Vocoder<F, S>, frames: seq<F>, cut: nat, start: nat, produced: nat, window: nat,
      rendered: seq<seq<S>>, skipped: nat)
    requires v.Valid() && start < |frames|
    requires RenderedUpTo(v, frames, cut, start, produced, window, rendered, skipped)
    requires |v.Window(frames, start, v.WindowEnd(|frames|, start))| == window && produced + window <= cut
    ensures RenderedUpTo(
              v, frames, cut, v.WindowEnd(|frames|, start), produced + window, window, rendered, skipped + window)
  {
    var end := v.WindowEnd(|frames|, start);
    ConcatSkip(v.Plain(frames), skipped, v.Window(frames, start, end), v.PlainFrom(frames, end));
    NextMultiple(skipped, window);
  }

  /** Rendering the window in which the cut lies, or a later one. */
  lemma WindowRendered<F(!new), S>(
      v: Vocoder<F, S>, frames: seq<F>, cut: nat, start: nat, produced: nat, window: nat, samples: nat,
      rendered: seq<seq<S>>, skipped: nat)
    requires v.Valid() && start < |frames| && samples <= window
    requires RenderedUpTo(v, frames, cut, start, produced, window, rendered, skipped)
    requires cut < produced + samples
    ensures var end := v.WindowEnd(|frames|, start);
            RenderedUpTo(v, frames, cut, end, produced + samples, window,
              rendered + [v.Window(frames, start, end)], skipped)
  {
    var end := v.WindowEnd(|frames|, start);
    ConcatAppend(rendered, v.Window(frames, start, end), v.PlainFrom(frames, end));
  }

  /** The loaded model's decoder, with its one-shot reference handoff. */
  class ReferenceDecoder<F(==,!new), S> {
    const vocoder: Vocoder<F, S>
    var pendingReference: Option<Codes<F>>

    constructor (vocoder: Vocoder<F, S>)
      requires vocoder.Valid()
      ensures this.vocoder == vocoder && pendingReference == None
    {
      this.vocoder := vocoder;
      pendingReference := None;
    }

    method ClearHandoff()
      modifies this`pendingReference
      ensures pendingReference == None
    {
      if pendingReference != None {
        pendingReference := None;
      }
    }

    /**
     Decodes `codes`, consuming the handoff whatever it held.  The result always has the plain
     waveform's length; it differs from it only in its first `skipped` samples, which are silent and
     which are exactly the whole windows that lie below the cut.
     */
    method Decode(codes: Codes<F>) returns (waveform: seq<S>, validSamples: nat, skipped: nat)
      requires vocoder.Valid()
      modifies this`pendingReference
      ensures pendingReference == None
      ensures validSamples == vocoder.ValidSamples(codes.frames)
      ensures skipped <= |vocoder.Plain(codes.frames)|
      ensures waveform == Silence(vocoder.silence, skipped) + vocoder.Plain(codes.frames)[skipped..]
      ensures !ReferenceLeads(old(pendingReference), codes) ==> skipped == 0
      ensures ReferenceLeads(old(pendingReference), codes) ==>
                var cut := CutSamples(|old(pendingReference).value.frames|, |codes.frames|,
                                      vocoder.EffectiveSamples(codes.frames));
                var window := vocoder.chunkSize * vocoder.upsampleRate;
                skipped <= cut < skipped + window && IsMultiple(skipped, window)
    {
      var frames := codes.frames;
      vocoder.PlainLength(frames, 0);
      var pending := pendingReference;
      ClearHandoff();
      validSamples := vocoder.ValidSamples(frames);
      if !ReferenceLeads(pending, codes) {
        waveform := StockDecode(frames);
        skipped := 0;
        return;
      }
      var fullSamples := |frames| * vocoder.upsampleRate;
      var effective := if 0 < validSamples < fullSamples then validSamples else fullSamples;
      vocoder.WindowStep(|frames|, 0, vocoder.WindowEnd(|frames|, 0));
      MulMonotone(1, |frames|, vocoder.upsampleRate);
      CutBelowLength(|pending.value.frames|, |frames|, effective);
      var cut := CutSamples(|pending.value.frames|, |frames|, effective);
      var rendered;
      rendered, skipped := RenderFromCut(frames, cut);
      waveform := Silence(vocoder.silence, skipped) + Concat(rendered);
    }

    /** The window loop: it skips while the output so far stays at or below the cut. */
    method RenderFromCut(frames: seq<F>, cut: nat) returns (rendered: seq<seq<S>>, skipped: nat)
      requires vocoder.Valid()
      requires cut < |frames| * vocoder.upsampleRate
      ensures rendered != []
      ensures skipped <= |vocoder.Plain(frames)| && Concat(rendered) == vocoder.Plain(frames)[skipped..]
      ensures skipped <= cut < skipped + vocoder.chunkSize * vocoder.upsampleRate
      ensures IsMultiple(skipped, vocoder.chunkSize * vocoder.upsampleRate)
    {
      rendered := [];
      var total := |frames|;
      var produced, start := 0, 0;
      skipped := 0;
      ghost var window := vocoder.chunkSize * vocoder.upsampleRate;
      vocoder.PlainLength(frames, 0);
      assert IsMultiple(0, window) by {
        assert 0 == 0 * window;
      }
      while start < total
        invariant 0 <= start <= total && 0 <= produced == start * vocoder.upsampleRate
        invariant RenderedUpTo(vocoder, frames, cut, start, produced, window, rendered, skipped)
      {
        var end := vocoder.WindowEnd(total, start);
        var windowSamples := (end - start) * vocoder.upsampleRate;
        vocoder.WindowLength(frames, start, end);
        vocoder.LoopStep(total, start, windowSamples);
        if produced + windowSamples <= cut {
          WindowSkipped(vocoder, frames, cut, start, produced, window, rendered, skipped);
          skipped := skipped + windowSamples;
        } else {
          var piece := RenderWindow(frames, start, end);
          WindowRendered(vocoder, frames, cut, start, produced, window, windowSamples, rendered, skipped);
          rendered := rendered + [piece];
        }
        produced, start := produced + windowSamples, end;
      }
      assert produced == |frames| * vocoder.upsampleRate;
      assert Concat(rendered) + [] == Concat(rendered);
    }

    /** Renders a window with its left context and drops the context's samples. */
    method RenderWindow(frames: seq<F>, start: nat, end: nat) returns (piece: seq<S>)
      requires vocoder.Valid() && start <= end <= |frames|
      ensures piece == vocoder.Window(frames, start, end)
    {
      var contextSize := vocoder.ContextSize(start);
      var codesWindow := frames[start - contextSize..end];
      vocoder.WindowCall(frames, start, end);
      piece := vocoder.render(codesWindow)[contextSize * vocoder.upsampleRate..];
    }

    /** The decoder that the patch falls back to. */
    method StockDecode(frames: seq<F>) returns (waveform: seq<S>)
      requires vocoder.Valid()
      ensures waveform == vocoder.Plain(frames)
    {
      waveform := [];
      var start := 0;
      while start < |frames|
        invariant 0 <= start <= |frames|
        invariant waveform + vocoder.PlainFrom(frames, start) == vocoder.Plain(frames)
      {
        var end := vocoder.WindowEnd(|frames|, start);
        assert waveform + (vocoder.Window(frames, start, end) + vocoder.PlainFrom(frames, end))
            == waveform + vocoder.Window(frames, start, end) + vocoder.PlainFrom(frames, end);
        waveform := waveform + vocoder.Window(frames, start, end);
        start := end;
      }
    }

    /** Arms the handoff for one row, decodes, and disarms it. */
    method DecodeWithReference(full: Codes<F>, reference: Codes<F>)
      returns (waveform: seq<S>, validSamples: nat, ghost skipped: nat)
      requires vocoder.Valid()
      requires reference.frames <= full.frames && |reference.frames| < |full.frames|
      requires reference.batch == full.batch && reference.groups == full.groups
      modifies this`pendingReference
      ensures pendingReference == None
      ensures validSamples == vocoder.ValidSamples(full.frames)
      ensures |waveform| == |vocoder.Plain(full.frames)| == |full.frames| * vocoder.upsampleRate
      ensures skipped <= |waveform| && waveform[skipped..] == vocoder.Plain(full.frames)[skipped..]
      ensures skipped <= CutSamples(|reference.frames|, |full.frames|, vocoder.EffectiveSamples(full.frames))
    {
      pendingReference := Some(reference);
      vocoder.PlainLength(full.frames, 0);
      if |reference.frames| == 0 {
        assert !ReferenceLeads(pendingReference, full);
        CutBelowLength(0, |full.frames|, vocoder.EffectiveSamples(full.frames));
      }
      var silent;
      waveform, validSamples, silent := Decode(full);
      skipped := silent;
      ClearHandoff();
    }

    /** Every row comes out as the plain decode would give it, and no handoff stays armed. */
    method DecodeRows(generated: seq<seq<F>>, reference: Codes<F>) returns (results: seq<RowAudio<S>>)
      requires vocoder.Valid()
      modifies this`pendingReference
      ensures old(pendingReference) == None ==> pendingReference == None
      ensures |results| == |generated|
      ensures forall i :: 0 <= i < |results| ==>
                results[i] == RowAudio(i, PlainRow(vocoder, reference.frames, generated[i]))
    {
      results := [];
      for index := 0 to |generated|
        invariant |results| == index
        invariant old(pendingReference) == None ==> pendingReference == None
        invariant forall i :: 0 <= i < index ==>
                    results[i] == RowAudio(i, PlainRow(vocoder, reference.frames, generated[i]))
      {
        var row := generated[index];
        if row == [] {
          results := results + [RowAudio(index, [])];
        } else {
          var frames := reference.frames + row;
          var full := Codes(reference.batch, reference.groups, frames);
          var audio, valid, skipped := DecodeWithReference(full, reference);
          RetainedAgrees(audio, vocoder.Plain(frames), valid, |reference.frames|, |frames|, skipped);
          results := results + [RowAudio(index, Retained(audio, valid, |reference.frames|, |frames|))];
        }
      }
    }
  }
}
