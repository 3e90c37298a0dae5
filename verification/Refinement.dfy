/**
 Refining and retranscribing a capture while other requests do the same.

 The language model and the speech model run without a transaction being held, for hours if need be.  What is
 committed as refined text must nevertheless belong to the raw transcript that it is stored beside.
 */
module Refinement {
  import opened Wrappers

  type Id = string

  /** One run of the language model. */
  datatype Run = Run(source: string, flags: string, model: string, output: string)

  datatype Capture = Capture(
    raw: string,
    sttModel: string,
    language: Option<string>,
    refined: Option<string>,
    llmModel: Option<string>,
    flags: Option<string>)

  /** There is no refined text, or text, model and flags come from one run over the current raw transcript. */
  predicate Fresh(c: Capture, runs: set<Run>) {
    if c.refined == None then c.llmModel == None && c.flags == None
    else exists r :: r in runs && FromRun(c, r)
  }

  predicate FromRun(c: Capture, r: Run) {
    c.raw == r.source && c.refined == Some(r.output) && c.llmModel == Some(r.model) && c.flags == Some(r.flags)
  }

  predicate AllFresh(rows: map<Id, Capture>, runs: set<Run>) {
    forall id :: id in rows ==> Fresh(rows[id], runs)
  }

  lemma MoreRuns(rows: map<Id, Capture>, runs: set<Run>, more: set<Run>)
    requires AllFresh(rows, runs) && runs <= more
    ensures AllFresh(rows, more)
  {
  }

  function WithRun(c: Capture, r: Run): Capture {
    c.(refined := Some(r.output), llmModel := Some(r.model), flags := Some(r.flags))
  }

  function WithTranscript(c: Capture, transcript: string, sttModel: string, language: Option<string>): Capture {
    Capture(transcript, sttModel, if Given(language) then language else c.language, None, None, None)
  }

  predicate Given(language: Option<string>) {
    language.Some? && language.value != ""
  }

  /** The fields that an update is recognised by when the row is read back; `None` for those it did not write. */
  datatype Expected = Expected(
    raw: string,
    sttModel: Option<string>,
    language: Option<string>,
    refined: Option<string>,
    llmModel: Option<string>,
    flags: Option<string>)

  predicate Holds(c: Capture, e: Expected) {
    && c.raw == e.raw && c.refined == e.refined && c.llmModel == e.llmModel && c.flags == e.flags
    && (e.sttModel.Some? ==> c.sttModel == e.sttModel.value)
    && (e.language.Some? ==> c.language == e.language)
  }

  datatype Response = Done(row: Capture) | NotFound | AudioMissing | Changed | Raised

  class CaptureTable {
    var rows: map<Id, Capture>
    var runs: set<Run>          // every run of the language model so far
    var faults: nat             // commits that failed and reads that did not get through, so far

    constructor ()
      ensures rows == map[] && runs == {} && faults == 0 && Valid()
    {
      rows, runs, faults := map[], {}, 0;
    }

    ghost predicate Valid()
      reads this
    {
      AllFresh(rows, runs)
    }

    /** Other requests: any sequence of creations, deletions, refinements and transcriptions. */
    method Interfere()
      requires Valid()
      modifies this`rows, this`runs
      ensures Valid() && old(runs) <= runs
    {
      var next: map<Id, Capture>, more: set<Run> := *, *;
      if AllFresh(next, runs + more) {
        rows, runs := next, runs + more;
      }
    }

    method RunModel(source: string, flags: string, model: string) returns (run: Run)
      requires Valid()
      modifies this`rows, this`runs
      ensures Valid() && old(runs) <= runs && run in runs
      ensures run.source == source && run.flags == flags && run.model == model
    {
      Interfere();
      var output: string := *;
      run := Run(source, flags, model, output);
      MoreRuns(rows, runs, runs + {run});
      runs := runs + {run};
      Interfere();
    }

    /** The conditional update: it counts one row exactly if the transcript is still the one that was refined. */
    method UpdateIfUnchanged(id: Id, run: Run) returns (updated: nat)
      requires Valid() && run in runs
      modifies this`rows, this`faults
      ensures Valid()
      ensures updated == if id in old(rows) && old(rows)[id].raw == run.source then 1 else 0
      ensures rows == old(rows) || (updated == 1 && rows == old(rows)[id := WithRun(old(rows)[id], run)])
      ensures faults >= old(faults)
      ensures faults == old(faults) && updated == 1 ==> rows == old(rows)[id := WithRun(old(rows)[id], run)]
    {
      if id !in rows || rows[id].raw != run.source {
        return 0;
      }
      var refreshed := WithRun(rows[id], run);
      assert FromRun(refreshed, run);
      Commit(id, refreshed);
      return 1;
    }

    /** The unconditional update of a new transcript, which takes the refined text with it. */
    method UpdateTranscript(id: Id, transcript: string, sttModel: string, language: Option<string>)
      returns (updated: nat)
      requires Valid()
      modifies this`rows, this`faults
      ensures Valid()
      ensures updated == if id in old(rows) then 1 else 0
      ensures rows == old(rows)
           || (updated == 1 && rows == old(rows)[id := WithTranscript(old(rows)[id], transcript, sttModel, language)])
      ensures faults >= old(faults)
      ensures faults == old(faults) && updated == 1 ==>
                rows == old(rows)[id := WithTranscript(old(rows)[id], transcript, sttModel, language)]
    {
      if id !in rows {
        return 0;
      }
      Commit(id, WithTranscript(rows[id], transcript, sttModel, language));
      return 1;
    }

    /** A commit may report a failure although it took hold, and fail without having done so. */
    method Commit(id: Id, row: Capture)
      requires Valid() && id in rows && Fresh(row, runs)
      modifies this`rows, this`faults
      ensures Valid()
      ensures rows in {old(rows), old(rows)[id := row]}
      ensures faults == old(faults) || faults == old(faults) + 1
      ensures faults == old(faults) ==> rows == old(rows)[id := row]
    {
      var durable, acknowledged: bool := *, *;
      if durable {
        rows := rows[id := row];
      }
      if !durable || !acknowledged {
        faults := faults + 1;
      }
    }

    /** Reads the row in a new transaction; it is returned if the read succeeds and finds what was written. */
    method ReadBack(id: Id, expected: Expected) returns (row: Option<Capture>)
      requires Valid()
      modifies this
      ensures Valid() && old(runs) <= runs && faults >= old(faults)
      ensures row.Some? ==> id in rows && row.value == rows[id] && Holds(row.value, expected)
      ensures row == None && faults == old(faults) ==> id !in rows || !Holds(rows[id], expected)
    {
      Interfere();
      var readable: bool := *;
      if !readable {
        faults := faults + 1;
        return None;
      }
      return if id in rows && Holds(rows[id], expected) then Some(rows[id]) else None;
    }

    /** Answers with the stored row if it is as written, read back at once or proved in an independent session. */
    method Acknowledge(id: Id, expected: Expected) returns (response: Response)
      requires Valid()
      modifies this
      ensures Valid() && old(runs) <= runs && faults >= old(faults)
      ensures response == Raised || response.Done?
      ensures response.Done? ==> id in rows && response.row == rows[id] && Holds(response.row, expected)
      ensures response == Raised && faults == old(faults) ==> id !in rows || !Holds(rows[id], expected)
    {
      var row := ReadBack(id, expected);
      if row == None {
        row := ReadBack(id, expected);
      }
      response := if row.Some? then Done(row.value) else Raised;
    }

    /**
     Refines what the transcript was when the request began.  If the transcript has changed meanwhile, nothing is
     written; if the request is answered with a row, that row is stored and holds the output of the run just made.
     An error means that something failed or that the row was changed again before it could be read back.
     */
    method RefineCapture(id: Id, flags: string, model: string) returns (response: Response, run: Option<Run>)
      requires Valid()
      modifies this
      ensures Valid() && old(runs) <= runs
      ensures run.Some? ==> run.value in runs && run.value.flags == flags && run.value.model == model
      ensures response.Done? ==>
                run.Some? && id in rows && response.row == rows[id] && FromRun(response.row, run.value)
      ensures response == NotFound <==> id !in rows && response != Raised
      ensures response == Changed || response == Raised ==> run.Some?
      ensures response != AudioMissing
      ensures response == Raised && faults == old(faults) ==> id !in rows || !FromRun(rows[id], run.value)
    {
      Interfere();
      if id !in rows {
        return NotFound, None;
      }
      var source := rows[id].raw;
      var made := RunModel(source, flags, model);
      run := Some(made);
      var updated := UpdateIfUnchanged(id, made);
      if updated != 1 {
        Interfere();
        return if id in rows then Changed else NotFound, run;
      }
      response := Acknowledge(id, Expected(source, None, None, Some(made.output), Some(made.model), Some(made.flags)));
    }

    /**
     Replaces the transcript; an answered row is stored, carries it, and has no refined text.  Without the row's
     audio there is no transcription.
     */
    method RetranscribeCapture(id: Id, audioThere: bool, sttModel: string, language: Option<string>)
      returns (response: Response, transcript: Option<string>)
      requires Valid()
      modifies this
      ensures Valid() && old(runs) <= runs
      ensures response.Done? ==>
                && id in rows && response.row == rows[id] && Some(response.row.raw) == transcript
                && response.row.refined == None && response.row.llmModel == None && response.row.flags == None
                && response.row.sttModel == sttModel && (Given(language) ==> response.row.language == language)
      ensures response == NotFound <==> id !in rows && response != Raised
      ensures response == AudioMissing <==> id in rows && !audioThere
      ensures !audioThere ==> transcript == None && faults == old(faults)
      ensures response != Changed
    {
      transcript := None;
      Interfere();
      if id !in rows {
        return NotFound, transcript;
      }
      if !audioThere {
        return AudioMissing, transcript;
      }
      Interfere();
      var text: string := *;
      transcript := Some(text);
      var updated := UpdateTranscript(id, text, sttModel, language);
      if updated != 1 {
        return NotFound, transcript;
      }
      var kept := if Given(language) then language else None;
      response := Acknowledge(id, Expected(text, Some(sttModel), kept, None, None, None));
    }
  }

  /**
   Why the update must be conditional: after a transcription that changed the text, storing the finished run
   unconditionally would leave a row that no run accounts for.
   */
  lemma UnconditionalUpdateIsStale(c: Capture, r: Run, transcript: string, sttModel: string)
    requires transcript != r.source
    ensures Fresh(WithTranscript(c, transcript, sttModel, None), {r})
    ensures !Fresh(WithRun(WithTranscript(c, transcript, sttModel, None), r), {r})
  {
  }
}
