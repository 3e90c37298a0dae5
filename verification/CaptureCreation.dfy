/**
 Creating a capture, one durable effect at a time.

 Every effect may fail before or after it took hold, and the process may die at it.  The disk keeps its
 invariant throughout, so recovery settles it from wherever the request stopped.
 */
module CaptureCreation {
  import opened Wrappers
  import opened AudioJournal
  import opened AudioStore
  import opened Publication

  const SUFFIXES := {".wav", ".mp3", ".m4a", ".flac", ".ogg", ".webm"}

  /** An unknown extension is stored as WAV. */
  function Suffix(extension: string): (suffix: string)
    ensures suffix in SUFFIXES
  {
    if extension in SUFFIXES then extension else ".wav"
  }

  function Target(id: Id, suffix: string): Name {
    id + suffix
  }

  const PENDING_PREFIX := ".voicebox-delete-capture-new-"

  function Pending(id: Id, suffix: string): Name {
    PENDING_PREFIX + id + ".part" + suffix
  }

  /** What holds of a random identifier written in hexadecimal. */
  predicate PlainId(id: Id) {
    |id| > 0 && id[0] != '.'
  }

  /** The four names of one capture clash only when it is a WAV file to begin with. */
  lemma NamesDiffer(id: Id, suffix: string)
    requires PlainId(id)
    ensures Target(id, suffix) != Pending(id, suffix)
    ensures Target(id, ".wav") != Pending(id, suffix)
    ensures Target(id, suffix) != Pending(id, ".wav")
    ensures suffix != ".wav" ==> Target(id, suffix) != Target(id, ".wav") && Pending(id, suffix) != Pending(id, ".wav")
  {
    assert forall s: string :: Target(id, s)[0] == id[0] && Pending(id, s)[0] == '.';
    if suffix != ".wav" {
      assert Target(id, suffix)[|id|..] == suffix && Target(id, ".wav")[|id|..] == ".wav";
      var stem := PENDING_PREFIX + id + ".part";
      assert Pending(id, suffix)[|stem|..] == suffix && Pending(id, ".wav")[|stem|..] == ".wav";
    }
  }

  function CaptureFootprint(id: Id, suffix: string): Footprint {
    Footprint({Target(id, suffix), Pending(id, suffix), Target(id, ".wav"), Pending(id, ".wav")}, {id})
  }

  // ---- Staging one publication ----

  /** No trace of either name yet. */
  predicate Unused(v: Disk, target: Name, pending: Name) {
    && target !in v.files && pending !in v.files && !Owned(v, target) && !Owned(v, pending)
    && !Mentioned(v, target) && !Mentioned(v, pending)
  }

  lemma {:induction false} PlacedStaysCleanable(v: Disk, p: Name, entry: Entry, progress: Progress, fp: Footprint)
    requires Cleanable(v, progress, fp) && Finishable(v, progress.active)
    requires p in progress.untracked && !entry.audio && p !in v.files && !Mentioned(v, p) && !Owned(v, p)
    requires forall i :: i in progress.active ==> !Names(i, p)
    ensures var w := Apply(v, PutFile(p, entry)); Cleanable(w, progress, fp) && Finishable(w, progress.active)
  {
  }

  lemma {:induction false} IntentStaysCleanable(v: Disk, i: Intent, progress: Progress, fp: Footprint)
    requires Cleanable(v, progress, fp) && Finishable(v, progress.active)
    requires i.original in fp.names && i.staged in fp.names
    ensures var w := Apply(v, AddIntent(i)); Cleanable(w, progress, fp) && Finishable(w, progress.active)
  {
  }

  function Activated(progress: Progress, i: Intent): Progress {
    progress.(untracked := progress.untracked - {i.staged}, active := progress.active + [i])
  }

  lemma {:induction false} ActivatedStaysCleanable(v: Disk, i: Intent, progress: Progress, fp: Footprint)
    requires Cleanable(v, progress, fp) && Finishable(v, progress.active)
    requires i in v.journal && i !in progress.active
    ensures Cleanable(v, Activated(progress, i), fp) && Finishable(v, Activated(progress, i).active)
  {
    var after := Activated(progress, i);
    assert after.active[|progress.active|] == i;
    assert forall j :: j in progress.active ==> j in after.active;
    assert Names(i, i.staged) && i in after.active;
    forall q | q in v.files ensures Accounted(v, after, q) {
      assert Accounted(v, progress, q);
    }
  }

  lemma {:induction false} FilledStaysCleanable(v: Disk, p: Name, progress: Progress, fp: Footprint)
    requires Cleanable(v, progress, fp) && Finishable(v, progress.active) && p !in progress.untracked && p in v.files
    ensures var w := Apply(v, Fill(p)); Cleanable(w, progress, fp) && Finishable(w, progress.active)
  {
  }

  predicate Uncommitted(v: Disk, progress: Progress, fp: Footprint) {
    v.rows == map[] && !progress.commitStarted && Cleanable(v, progress, fp) && Finishable(v, progress.active)
    && forall i :: i in progress.active ==> i.original != i.staged
  }

  /** Places an empty private file and records the intent to publish it. */
  method Announce(store: Store, target: Name, pending: Name, progress: Progress, fp: Footprint)
    returns (ending: Ending, intent: Intent)
    requires Inv(store.disk) && Uncommitted(View(store.disk, fp), progress, fp)
    requires Unused(View(store.disk, fp), target, pending)
    requires target != pending && target in fp.names && pending in fp.names && pending in progress.untracked
    requires forall i :: i in progress.active ==> !Names(i, target) && !Names(i, pending)
    modifies store
    ensures Inv(store.disk) && Uncommitted(View(store.disk, fp), progress, fp)
    ensures store.faults >= old(store.faults) && (store.faults == old(store.faults) ==> ending == Done)
    ensures intent.original == target && intent.staged == pending
    ensures ending == Done ==> View(store.disk, fp) == Announced(old(View(store.disk, fp)), intent)
  {
    ghost var v := View(store.disk, fp);
    var placed, inode := store.PlaceFile(pending, fp);
    PlacedStaysCleanable(v, pending, Entry(inode, false), progress, fp);
    var journalName: nat := *;
    intent := Intent(journalName, target, pending, inode);
    if placed.ending != Done {
      return placed.ending, intent;
    }
    ghost var w := View(store.disk, fp);
    IntentCanBeAdded(v, w, intent);
    var recorded := store.Attempt(AddIntent(intent), fp);
    IntentStaysCleanable(w, intent, progress, fp);
    ending := recorded.ending;
  }

  function Announced(v: Disk, i: Intent): Disk {
    Apply(Apply(v, PutFile(i.staged, Entry(i.inode, false))), AddIntent(i))
  }

  /** The announced file is filled with audio only once the handler answers for its intent. */
  method StagePublication(store: Store, target: Name, pending: Name, before: Progress, fp: Footprint)
    returns (ending: Ending, progress: Progress, intent: Intent)
    requires Inv(store.disk) && Uncommitted(View(store.disk, fp), before, fp)
    requires Unused(View(store.disk, fp), target, pending)
    requires target != pending && target in fp.names && pending in fp.names && pending in before.untracked
    requires forall i :: i in before.active ==> !Names(i, target) && !Names(i, pending)
    modifies store
    ensures Inv(store.disk) && Uncommitted(View(store.disk, fp), progress, fp)
    ensures store.faults >= old(store.faults) && (store.faults == old(store.faults) ==> ending == Done)
    ensures ending == Done ==>
              && progress == Activated(before, intent)
              && intent.original == target && intent.staged == pending
              && View(store.disk, fp) == Staged(old(View(store.disk, fp)), intent)
  {
    progress := before;
    ending, intent := Announce(store, target, pending, before, fp);
    if ending != Done {
      return;
    }
    ghost var v := View(store.disk, fp);
    ReadyToFill(old(View(store.disk, fp)), v, intent, before, fp);
    progress := Activated(before, intent);
    var filled := store.Attempt(Fill(pending), fp);
    FilledStaysCleanable(v, pending, progress, fp);
    ending := filled.ending;
  }

  lemma {:induction false} ReadyToFill(was: Disk, v: Disk, i: Intent, progress: Progress, fp: Footprint)
    requires v == Announced(was, i) && Uncommitted(v, progress, fp)
    requires i.original != i.staged && forall j :: j in progress.active ==> !Names(j, i.staged)
    ensures Uncommitted(v, Activated(progress, i), fp)
    ensures Safe(v, Fill(i.staged)) && i.staged in v.files && i.staged !in Activated(progress, i).untracked
    ensures Apply(v, Fill(i.staged)) == Staged(was, i)
  {
    assert i in v.journal && Names(i, i.staged) && Mentioned(v, i.staged);
    ActivatedStaysCleanable(v, i, progress, fp);
  }

  lemma {:induction false} IntentCanBeAdded(v: Disk, w: Disk, i: Intent)
    requires Unused(v, i.original, i.staged) && i.original != i.staged && v.rows == map[]
    requires w == Apply(v, PutFile(i.staged, Entry(i.inode, false)))
    ensures Safe(w, AddIntent(i))
  {
  }

  // ---- From the staged upload to the committed row ----

  /** One publication is staged and nothing else is left. */
  predicate Ready(v: Disk, progress: Progress, i: Intent) {
    v == Staged(NOTHING, i) && progress == Progress({}, [i], None, false) && i.original != i.staged
  }

  /** Once the commit has started, the row is either there with its audio, or nothing but the audio is. */
  predicate AtCommit(v: Disk, progress: Progress, id: Id) {
    progress.commitStarted ==>
      && progress.publication.Some?
      && progress.active == [progress.publication.value]
      && (v == Revealed(progress.publication.value) || v == Committed(progress.publication.value, id))
  }

  /** All that the failure handler may assume. */
  predicate Recoverable(v: Disk, progress: Progress, id: Id, fp: Footprint) {
    && Cleanable(v, progress, fp) && Finishable(v, progress.active) && AtCommit(v, progress, id)
    && forall i :: i in progress.active ==> i.original != i.staged
  }

  /** Stages the WAV form beside a staged upload, then gives the upload up. */
  method Transcode(store: Store, target: Name, pending: Name, raw: Intent, before: Progress, fp: Footprint)
    returns (ending: Ending, progress: Progress, intent: Intent)
    requires target != pending && target in fp.names && pending in fp.names
    requires !Names(raw, target) && !Names(raw, pending)
    requires Inv(store.disk) && Uncommitted(View(store.disk, fp), before, fp)
    requires Ready(View(store.disk, fp), before, raw)
    modifies store
    ensures Inv(store.disk) && Uncommitted(View(store.disk, fp), progress, fp)
    ensures store.faults >= old(store.faults) && (store.faults == old(store.faults) ==> ending == Done)
    ensures ending == Done ==> Ready(View(store.disk, fp), progress, intent) && intent.original == target
  {
    progress := Progress({pending}, [raw], None, false);
    BothNamesUnused(View(store.disk, fp), raw, target, pending, before, progress, fp);
    ending, progress, intent := StagePublication(store, target, pending, progress, fp);
    if ending != Done {
      return;
    }
    BothActive(raw, intent);
    ending, progress := DropUpload(store, raw, intent, progress, fp);
  }

  lemma BothActive(raw: Intent, i: Intent)
    ensures Activated(Progress({i.staged}, [raw], None, false), i) == Progress({}, [raw, i], None, false)
  {
    assert [raw] + [i] == [raw, i] && {i.staged} - {i.staged} == {};
  }

  /** The WAV form is staged: the upload and its intent go. */
  method DropUpload(store: Store, raw: Intent, intent: Intent, before: Progress, fp: Footprint)
    returns (ending: Ending, progress: Progress)
    requires Inv(store.disk) && Uncommitted(View(store.disk, fp), before, fp)
    requires View(store.disk, fp) == Staged(Staged(NOTHING, raw), intent)
    requires before == Progress({}, [raw, intent], None, false)
    requires !Names(raw, intent.original) && !Names(raw, intent.staged)
    modifies store
    ensures Inv(store.disk) && Uncommitted(View(store.disk, fp), progress, fp)
    ensures store.faults >= old(store.faults) && (store.faults == old(store.faults) ==> ending == Done)
    ensures ending == Done ==> Ready(View(store.disk, fp), progress, intent)
  {
    progress := before;
    assert intent == before.active[1];
    UploadCanGo(View(store.disk, fp), progress, raw, intent, fp);
    var discarded := store.Attempt(DropFile(raw.staged), fp);
    if discarded.ending != Done {
      return discarded.ending, progress;
    }
    var finished := store.Attempt(DropIntent(raw), fp);
    if finished.ending != Done {
      return finished.ending, progress;
    }
    ending := Done;
    progress := progress.(active := [intent]);
  }

  lemma {:induction false} BothNamesUnused(
      v: Disk, raw: Intent, target: Name, pending: Name, before: Progress, after: Progress, fp: Footprint)
    requires Ready(v, before, raw) && Uncommitted(v, before, fp)
    requires target != raw.original && target != raw.staged && pending != raw.original && pending != raw.staged
    requires pending in fp.names && after == Progress({pending}, [raw], None, false)
    ensures Unused(v, target, pending) && Uncommitted(v, after, fp)
    ensures forall i :: i in after.active ==> !Names(i, target) && !Names(i, pending)
  {
  }

  lemma {:induction false} UploadCanGo(v: Disk, progress: Progress, raw: Intent, i: Intent, fp: Footprint)
    requires v == Staged(Staged(NOTHING, raw), i) && progress == Progress({}, [raw, i], None, false)
    requires Uncommitted(v, progress, fp)
    requires raw.original != i.original && raw.original != i.staged
    requires raw.staged != i.original && raw.staged != i.staged
    ensures Safe(v, DropFile(raw.staged)) && Within(v, DropFile(raw.staged), fp)
    ensures var w := Apply(v, DropFile(raw.staged));
            && Uncommitted(w, progress, fp) && Safe(w, DropIntent(raw)) && Within(w, DropIntent(raw), fp)
            && Uncommitted(Apply(w, DropIntent(raw)), progress, fp)
            && Apply(w, DropIntent(raw)) == Staged(NOTHING, i)
            && Uncommitted(Apply(w, DropIntent(raw)), progress.(active := [i]), fp)
  {
    var w := Apply(v, DropFile(raw.staged));
    var x := Apply(w, DropIntent(raw));
    assert raw == progress.active[0] && i == progress.active[1];
    assert w == Disk(map[i.staged := Entry(i.inode, true)], map[], {raw, i});
    assert x == Staged(NOTHING, i);
    OneStagedFile(w, i, progress, fp);
    OneStagedFile(x, i, progress, fp);
    OneStagedFile(x, i, progress.(active := [i]), fp);
  }

  lemma {:induction false} OneStagedFile(v: Disk, i: Intent, progress: Progress, fp: Footprint)
    requires v.files == map[i.staged := Entry(i.inode, true)] && v.rows == map[] && i in v.journal
    requires progress.untracked == {} && !progress.commitStarted && i in progress.active
    requires forall j :: j in v.journal ==> j.original in fp.names && j.staged in fp.names
    requires forall j :: j in progress.active ==>
               j.original in fp.names && j.staged in fp.names && j.original != j.staged
    requires forall j :: j in progress.active && j != i ==> !Names(j, i.staged)
    requires forall m, n :: 0 <= m < n < |progress.active| ==> progress.active[m] != progress.active[n]
    ensures Uncommitted(v, progress, fp)
  {
  }

  /** Renames the staged audio to its public name, commits the row and retires the intent. */
  method Publish(store: Store, id: Id, i: Intent, before: Progress, fp: Footprint)
    returns (ending: Ending, progress: Progress)
    requires Inv(store.disk) && Ready(View(store.disk, fp), before, i)
    requires fp.ids == {id} && i.original in fp.names && i.staged in fp.names
    modifies store
    ensures Inv(store.disk)
    ensures store.faults >= old(store.faults) && (store.faults == old(store.faults) ==> ending == Done)
    ensures ending == Raised ==> Recoverable(View(store.disk, fp), progress, id, fp)
    ensures ending == Done ==> Created(View(store.disk, fp), id, i)
    ensures progress.commitStarted ==> progress.publication == Some(i)
  {
    progress := before;
    StagesRecoverable(i, id, fp);
    var transcribed := store.Attempt(Nothing, fp);
    if transcribed.ending != Done {
      return transcribed.ending, progress;
    }
    var renamed := store.Attempt(Unhide(i), fp);
    if renamed.ending != Done {
      return renamed.ending, progress;
    }
    progress := Progress({}, [i], Some(i), true);
    var committed := store.Attempt(PutRow(id, Row(i.original, i.inode)), fp);
    if committed.ending != Done {
      return committed.ending, progress;
    }
    var refreshed := store.Attempt(Nothing, fp);
    if refreshed.ending != Done {
      return refreshed.ending, progress;
    }
    ending := FinishQuietly(store, id, i, fp);
  }

  lemma {:induction false} StagesRecoverable(i: Intent, id: Id, fp: Footprint)
    requires fp.ids == {id} && i.original in fp.names && i.staged in fp.names && i.original != i.staged
    ensures var begun := Progress({}, [i], Some(i), true);
            && Recoverable(Staged(NOTHING, i), Progress({}, [i], None, false), id, fp)
            && Recoverable(Revealed(i), Progress({}, [i], None, false), id, fp)
            && Recoverable(Revealed(i), begun, id, fp)
            && Recoverable(Committed(i, id), begun, id, fp)
    ensures var v := Staged(NOTHING, i);
            && Safe(v, Unhide(i)) && Apply(v, Unhide(i)) == Revealed(i)
            && Safe(Revealed(i), PutRow(id, Row(i.original, i.inode)))
            && Apply(Revealed(i), PutRow(id, Row(i.original, i.inode))) == Committed(i, id)
  {
    assert Apply(Staged(NOTHING, i), Unhide(i)).files == Revealed(i).files;
    assert i in [i] && Names(i, i.original) && Names(i, i.staged);
  }

  // ---- The whole request ----

  datatype Result = Success | Failure(clean: bool) | Crash

  /**
   The failure handler.  A commit whose outcome is unknown is proved by an independent read; otherwise, and
   when that read fails, every publication is finished from the rows and every placeholder discarded.
   */
  method HandleFailure(store: Store, id: Id, progress: Progress, fp: Footprint) returns (result: Result)
    requires Inv(store.disk) && Recoverable(View(store.disk, fp), progress, id, fp) && fp.ids == {id}
    modifies store
    ensures Inv(store.disk) && store.faults >= old(store.faults)
    ensures result == Success ==>
              progress.commitStarted && Created(View(store.disk, fp), id, progress.publication.value)
    ensures result.Failure? ==> OwnAudioInPlace(View(store.disk, fp))
    ensures result.Failure? ==> View(store.disk, fp).rows == old(View(store.disk, fp).rows)
    ensures result == Failure(true) ==> forall p :: p in View(store.disk, fp).files ==> Owned(View(store.disk, fp), p)
    ensures store.faults == old(store.faults) ==>
              result == if old(View(store.disk, fp)).rows == map[] then Failure(true) else Success
  {
    var rolledBack := store.Consult();
    var proved, ending := ProveCommit(store, id, progress, fp);
    if proved {
      return if ending == Crashed then Crash else Success;
    }
    result := CleanUp(store, progress, rolledBack, fp);
  }

  /** An independent read of the row; only if it finds row and audio is the commit proved, and then finished. */
  method ProveCommit(store: Store, id: Id, progress: Progress, fp: Footprint) returns (proved: bool, ending: Ending)
    requires Inv(store.disk) && Recoverable(View(store.disk, fp), progress, id, fp) && fp.ids == {id}
    modifies store
    ensures Inv(store.disk) && store.faults >= old(store.faults)
    ensures proved ==> progress.commitStarted && Created(View(store.disk, fp), id, progress.publication.value)
    ensures !proved ==> View(store.disk, fp) == old(View(store.disk, fp))
    ensures store.faults == old(store.faults) ==>
              ending == Done && (proved <==> old(View(store.disk, fp)).rows != map[])
    ensures proved ==> ending != Raised
  {
    proved, ending := false, Done;
    if progress.commitStarted {
      var proofRead := store.Consult();
      if proofRead && id in store.disk.rows {
        var i := progress.publication.value;
        assert id in View(store.disk, fp).rows;
        if store.disk.rows[id] == Row(i.original, i.inode) && AudioAt(store.disk, i.original, i.inode) {
          ending := FinishQuietly(store, id, i, fp);
          proved := true;
        }
      }
    }
  }

  /** Finishes the publications, in this session or an independent one, and discards the placeholders. */
  method CleanUp(store: Store, progress: Progress, rolledBack: bool, fp: Footprint) returns (result: Result)
    requires Inv(store.disk)
    requires Cleanable(View(store.disk, fp), progress, fp) && Finishable(View(store.disk, fp), progress.active)
    requires forall i :: i in progress.active ==> i.original != i.staged
    modifies store
    ensures Inv(store.disk) && store.faults >= old(store.faults) && (result == Crash || result.Failure?)
    ensures OwnAudioInPlace(View(store.disk, fp)) && View(store.disk, fp).rows == old(View(store.disk, fp).rows)
    ensures result == Failure(true) ==> forall p :: p in View(store.disk, fp).files ==> Owned(View(store.disk, fp), p)
    ensures store.faults == old(store.faults) && rolledBack ==> result == Failure(true)
  {
    var ending, clean := Done, false;
    var reconcilable := rolledBack;
    if !rolledBack {
      reconcilable := store.Consult();
    }
    if reconcilable {
      ending, clean := ReconcileActive(store, progress, fp);
      if ending == Crashed {
        return Crash;
      }
    }
    ghost var v := View(store.disk, fp);
    var discarded: bool;
    ending, discarded := DiscardUntracked(store, progress, fp);
    if ending == Crashed {
      return Crash;
    }
    result := Failure(clean && discarded);
    if clean && discarded {
      NothingLeft(v, View(store.disk, fp), progress, fp);
    }
  }

  lemma {:induction false} NothingLeft(v: Disk, w: Disk, progress: Progress, fp: Footprint)
    requires SettledFrom(v, progress.active, 0) && w.rows == v.rows && w.files.Keys <= v.files.Keys
    requires Cleanable(w, progress, fp) && w.files.Keys !! progress.untracked
    ensures forall p :: p in w.files ==> Owned(w, p)
  {
  }

  /** What one attempt at a creation reaches before its failure handler, if any, takes over. */
  method TryCreate(store: Store, id: Id, suffix: string) returns (ending: Ending, progress: Progress)
    requires PlainId(id) && Inv(store.disk)
    requires View(store.disk, CaptureFootprint(id, suffix)) == NOTHING
    modifies store
    ensures Inv(store.disk)
    ensures store.faults >= old(store.faults) && (store.faults == old(store.faults) ==> ending == Done)
    ensures ending == Raised ==>
              && Recoverable(View(store.disk, CaptureFootprint(id, suffix)), progress, id, CaptureFootprint(id, suffix))
              && (progress.commitStarted ==> progress.publication.value.original == Target(id, ".wav"))
    ensures ending == Done ==>
              CreatedAt(View(store.disk, CaptureFootprint(id, suffix)), id, Target(id, ".wav"))
  {
    NamesDiffer(id, suffix);
    var target, pending := Target(id, suffix), Pending(id, suffix);
    progress := Progress({pending}, [], None, false);
    var raw: Intent;
    ending, progress, raw := StagePublication(store, target, pending, progress, CaptureFootprint(id, suffix));
    if ending != Done {
      return;
    }
    assert progress == Progress({}, [raw], None, false);
    var decoded := store.Attempt(Nothing, CaptureFootprint(id, suffix));
    if decoded.ending != Done {
      return decoded.ending, progress;
    }
    var publication := raw;
    if suffix != ".wav" {
      var wav, pendingWav := Target(id, ".wav"), Pending(id, ".wav");
      NamesDiffer(id, ".wav");
      ending, progress, publication := Transcode(
        store, wav, pendingWav, raw, progress, CaptureFootprint(id, suffix));
      if ending != Done {
        return;
      }
    }
    ending, progress := Publish(store, id, publication, progress, CaptureFootprint(id, suffix));
  }

  /**
   Either the capture is committed with its audio at its public name, or the request fails; then any row it
   did commit still has its audio in place, and a clean-up that went through leaves no file without a row.
   Without a fault the creation succeeds, and one fault, whichever it is, is always cleaned up after.
   */
  method CreateCapture(store: Store, id: Id, extension: string) returns (result: Result)
    requires PlainId(id) && Inv(store.disk)
    requires View(store.disk, CaptureFootprint(id, Suffix(extension))) == NOTHING
    modifies store
    ensures Inv(store.disk)
    ensures var v := View(store.disk, CaptureFootprint(id, Suffix(extension)));
            && (result == Success ==> CreatedAt(v, id, Target(id, ".wav")))
            && (result.Failure? ==> OwnAudioInPlace(v))
            && (result == Failure(true) ==> forall p :: p in v.files ==> Owned(v, p))
    ensures store.faults == old(store.faults) ==> result == Success
    ensures store.faults == old(store.faults) + 1 ==> result != Failure(false)
  {
    var suffix := Suffix(extension);
    var ending, progress := TryCreate(store, id, suffix);
    match ending
    case Done => result := Success;
    case Crashed => result := Crash;
    case Raised => result := HandleFailure(store, id, progress, CaptureFootprint(id, suffix));
  }
}
