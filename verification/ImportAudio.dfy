/**
 Importing an audio file, and what its failure handler may do when the outcome of the commit is unknown.

 The handler asks the database twice through an independent session.  Either question may go unanswered;
 audio is discarded only after a definite "no row owns it".
 */
module ImportAudio {
  import opened Wrappers
  import opened AudioJournal
  import opened AudioStore
  import opened Publication

  function Target(id: Id, suffix: string): Name {
    id + suffix
  }

  const PENDING_PREFIX := ".voicebox-delete-import-"

  function Pending(id: Id, suffix: string): Name {
    PENDING_PREFIX + id + ".part" + suffix
  }

  function ImportFootprint(id: Id, suffix: string): Footprint {
    Footprint({Target(id, suffix), Pending(id, suffix)}, {id})
  }

  lemma NamesDiffer(id: Id, suffix: string)
    requires |id| > 0 && id[0] != '.'
    ensures Target(id, suffix) != Pending(id, suffix)
  {
  }

  /** The local variables that the handler works from. */
  datatype ImportProgress = ImportProgress(intent: Option<Intent>, published: bool, commitTried: bool)

  /** Only an empty placeholder, at most; an intent that was recorded after all may be lying about. */
  predicate Unpublished(v: Disk, target: Name, pending: Name, fp: Footprint) {
    && v.rows == map[] && v.files.Keys <= {pending} && pending != target
    && (pending in v.files ==> !v.files[pending].audio)
    && (forall i :: i in v.journal ==> i.original in fp.names && i.staged in fp.names)
  }

  /** Where the import can stand when it fails. */
  predicate Reached(v: Disk, progress: ImportProgress, id: Id, target: Name, pending: Name, fp: Footprint) {
    match progress.intent
    case None => !progress.published && Unpublished(v, target, pending, fp)
    case Some(i) =>
      && i.original == target && i.staged == pending && target != pending
      && (progress.commitTried ==> progress.published)
      && (v == Announced(i) || v == Staged(NOTHING, i) || v == Revealed(i) || v == Committed(i, id))
      && (progress.published ==> v == Revealed(i) || v == Committed(i, id))
      && (v == Committed(i, id) ==> progress.commitTried)
  }

  function Announced(i: Intent): Disk {
    Disk(map[i.staged := Entry(i.inode, false)], map[], {i})
  }

  lemma {:induction false} StagesConnect(i: Intent, id: Id, fp: Footprint)
    requires i.original != i.staged && i.original in fp.names && i.staged in fp.names && id in fp.ids
    ensures Safe(Announced(i), Fill(i.staged)) && Apply(Announced(i), Fill(i.staged)) == Staged(NOTHING, i)
    ensures var v := Staged(NOTHING, i);
            && Safe(v, Unhide(i)) && Apply(v, Unhide(i)) == Revealed(i)
            && Safe(Revealed(i), PutRow(id, Row(i.original, i.inode)))
            && Apply(Revealed(i), PutRow(id, Row(i.original, i.inode))) == Committed(i, id)
  {
  }

  function Placed(p: Name, inode: nat): Disk {
    Disk(map[p := Entry(inode, false)], map[], {})
  }

  /** Until the request knows of its intent, it is as good as unpublished, recorded or not. */
  lemma {:induction false} BeginningsAreReached(i: Intent, id: Id, fp: Footprint)
    requires i.original != i.staged && i.original in fp.names && i.staged in fp.names
    ensures Safe(NOTHING, PutFile(i.staged, Entry(0, false)))
    ensures Apply(NOTHING, PutFile(i.staged, Entry(i.inode, false))) == Placed(i.staged, i.inode)
    ensures Safe(Placed(i.staged, i.inode), AddIntent(i))
    ensures Apply(Placed(i.staged, i.inode), AddIntent(i)) == Announced(i)
    ensures var unknown := ImportProgress(None, false, false);
            && Reached(NOTHING, unknown, id, i.original, i.staged, fp)
            && Reached(Placed(i.staged, i.inode), unknown, id, i.original, i.staged, fp)
            && Reached(Announced(i), unknown, id, i.original, i.staged, fp)
            && Reached(Announced(i), unknown.(intent := Some(i)), id, i.original, i.staged, fp)
  {
  }

  /** Places the empty file and records the intent. */
  method Announce(store: Store, id: Id, target: Name, pending: Name, fp: Footprint)
    returns (ending: Ending, progress: ImportProgress)
    requires Inv(store.disk) && View(store.disk, fp) == NOTHING
    requires target != pending && target in fp.names && pending in fp.names
    modifies store
    ensures Inv(store.disk)
    ensures store.faults >= old(store.faults) && (store.faults == old(store.faults) ==> ending == Done)
    ensures Reached(View(store.disk, fp), progress, id, target, pending, fp)
    ensures !progress.published && !progress.commitTried
    ensures ending == Done ==> progress.intent.Some? && View(store.disk, fp) == Announced(progress.intent.value)
  {
    var journalName: nat := *;
    progress := ImportProgress(None, false, false);
    BeginningsAreReached(Intent(journalName, target, pending, 0), id, fp);
    var placed, inode := store.PlaceFile(pending, fp);
    var i := Intent(journalName, target, pending, inode);
    BeginningsAreReached(i, id, fp);
    if placed.ending != Done {
      return placed.ending, progress;
    }
    var recorded := store.Attempt(AddIntent(i), fp);
    if recorded.ending != Done {
      return recorded.ending, progress;
    }
    return Done, progress.(intent := Some(i));
  }

  /** Writes and probes the upload, renames it to its public name, and commits the row. */
  method PublishImport(store: Store, id: Id, i: Intent, fp: Footprint)
    returns (ending: Ending, progress: ImportProgress)
    requires Inv(store.disk) && View(store.disk, fp) == Announced(i)
    requires i.original != i.staged && i.original in fp.names && i.staged in fp.names && id in fp.ids
    modifies store
    ensures Inv(store.disk)
    ensures store.faults >= old(store.faults) && (store.faults == old(store.faults) ==> ending == Done)
    ensures ending == Raised ==> Reached(View(store.disk, fp), progress, id, i.original, i.staged, fp)
    ensures progress.intent == Some(i)
    ensures ending == Done ==> Created(View(store.disk, fp), id, i)
  {
    StagesConnect(i, id, fp);
    progress := ImportProgress(Some(i), false, false);
    var written := store.Attempt(Fill(i.staged), fp);
    if written.ending != Done {
      return written.ending, progress;
    }
    var probed := store.Attempt(Nothing, fp);
    if probed.ending != Done {
      return probed.ending, progress;
    }
    var renamed := store.Attempt(Unhide(i), fp);
    if renamed.ending != Done {
      return renamed.ending, progress;
    }
    progress := progress.(published := true);
    var profiled := store.Attempt(Nothing, fp);
    if profiled.ending != Done {
      return profiled.ending, progress;
    }
    progress := progress.(commitTried := true);
    var committed := store.Attempt(PutRow(id, Row(i.original, i.inode)), fp);
    if committed.ending != Done {
      return committed.ending, progress;
    }
    ending := FinishQuietly(store, id, i, fp);
  }

  datatype Result = Success | Failure | Crash

  /** The handler took nothing that a row owns, and discarded nothing but the entry the intent was written for. */
  predicate NothingLost(v: Disk, w: Disk, progress: ImportProgress, pending: Name) {
    && w.rows == v.rows
    && (forall id :: id in v.rows ==> AudioAt(w, v.rows[id].path, v.rows[id].audio))
    && (forall p :: p in w.files ==> p in v.files && w.files[p] == v.files[p])
    && (forall p :: p in v.files && p !in w.files ==>
          match progress.intent
          case Some(i) => v.files[p].inode == i.inode
          case None => p == pending)
  }

  /** What the second question was answered: whether the row owns the target, or nothing. */
  predicate Answered(v: Disk, progress: ImportProgress, id: Id, target: Name, keep: Option<bool>) {
    match keep
    case None => progress.published
    case Some(answer) => answer == (progress.published && id in v.rows && v.rows[id].path == target)
  }

  /** The failure handler: `keep` is the answer to its second question, as far as there was one. */
  method HandleFailure(store: Store, id: Id, target: Name, pending: Name, progress: ImportProgress, fp: Footprint)
    returns (result: Result, keep: Option<bool>)
    requires Inv(store.disk) && Reached(View(store.disk, fp), progress, id, target, pending, fp)
    requires target in fp.names && pending in fp.names && fp.ids == {id}
    modifies store
    ensures Inv(store.disk) && store.faults >= old(store.faults)
    ensures result == Success ==> progress.intent.Some? && Created(View(store.disk, fp), id, progress.intent.value)
    ensures result == Failure ==> Answered(old(View(store.disk, fp)), progress, id, target, keep)
    ensures result == Failure ==> NothingLost(old(View(store.disk, fp)), View(store.disk, fp), progress, pending)
    ensures result == Failure && keep == None ==> View(store.disk, fp) == old(View(store.disk, fp))
    ensures result == Failure && keep == Some(true) ==> View(store.disk, fp).files == old(View(store.disk, fp)).files
    ensures store.faults == old(store.faults) ==>
              if old(View(store.disk, fp)).rows != map[] then result == Success
              else result == Failure && View(store.disk, fp).files == map[]
  {
    keep := Some(false);
    var rolledBack := store.Consult();
    if progress.published && progress.commitTried {
      var proved, finished := ProveCommit(store, id, target, pending, progress, fp);
      if proved {
        return if finished == Crashed then Crash else Success, keep;
      }
    }
    if progress.published {
      keep := AskOwner(store, id, target, fp);
    }
    var ending := CleanUp(store, id, target, pending, progress, keep, fp);
    result := if ending == Crashed then Crash else Failure;
  }

  /** The first question: is the row there as it was written, with its audio?  Then the import did succeed. */
  method ProveCommit(
      store: Store, id: Id, target: Name, pending: Name, progress: ImportProgress, fp: Footprint)
    returns (proved: bool, ending: Ending)
    requires Inv(store.disk) && Reached(View(store.disk, fp), progress, id, target, pending, fp)
    requires progress.commitTried && progress.published && target in fp.names && pending in fp.names && fp.ids == {id}
    modifies store
    ensures Inv(store.disk) && store.faults >= old(store.faults)
    ensures proved ==>
              progress.intent.Some? && Created(View(store.disk, fp), id, progress.intent.value) && ending != Raised
    ensures !proved ==> View(store.disk, fp) == old(View(store.disk, fp))
    ensures store.faults == old(store.faults) ==>
              ending == Done && (proved <==> old(View(store.disk, fp)).rows != map[])
  {
    ghost var v := View(store.disk, fp);
    proved, ending := false, Done;
    var proofRead := store.Consult();
    var i := progress.intent.value;
    assert v in {Revealed(i), Committed(i, id)};
    assert id in v.rows <==> id in store.disk.rows;
    assert v.rows == map[] || id in v.rows;
    if proofRead && id in store.disk.rows {
      assert v == Committed(i, id) && store.disk.rows[id] == v.rows[id] == Row(target, i.inode);
      assert target in v.files && store.disk.files[target] == v.files[target] && AudioAt(v, target, i.inode);
      if store.disk.rows[id] == Row(target, i.inode) && AudioAt(store.disk, target, i.inode) {
        ending := FinishQuietly(store, id, i, fp);
        proved := true;
      }
    }
  }

  /** The second question: does a row own the target? */
  method AskOwner(store: Store, id: Id, target: Name, fp: Footprint) returns (keep: Option<bool>)
    requires fp.ids == {id}
    modifies store`faults
    ensures store.faults == old(store.faults) + (if keep == None then 1 else 0)
    ensures var v := View(store.disk, fp);
            keep.Some? ==> keep.value == (id in v.rows && v.rows[id].path == target)
  {
    keep := None;
    var ownerRead := store.Consult();
    if ownerRead {
      assert id in View(store.disk, fp).rows <==> id in store.disk.rows;
      keep := Some(id in store.disk.rows && store.disk.rows[id].path == target);
    }
  }

  /** What the handler does with the answer; without one it touches nothing. */
  method CleanUp(
      store: Store, id: Id, target: Name, pending: Name, progress: ImportProgress, keep: Option<bool>, fp: Footprint)
    returns (ending: Ending)
    requires Inv(store.disk) && Reached(View(store.disk, fp), progress, id, target, pending, fp)
    requires Answered(View(store.disk, fp), progress, id, target, keep)
    requires target in fp.names && pending in fp.names && fp.ids == {id}
    modifies store
    ensures Inv(store.disk) && store.faults >= old(store.faults)
    ensures NothingLost(old(View(store.disk, fp)), View(store.disk, fp), progress, pending)
    ensures keep == None ==> View(store.disk, fp) == old(View(store.disk, fp))
    ensures keep == Some(true) ==> View(store.disk, fp).files == old(View(store.disk, fp)).files
    ensures store.faults == old(store.faults) && keep == Some(false) ==>
              ending == Done && View(store.disk, fp).files == map[]
  {
    ghost var v := View(store.disk, fp);
    AnswerTells(v, progress, id, target, pending, keep, fp);
    ending := Done;
    if progress.intent.Some? && keep == Some(false) {
      ending := DiscardImport(store, progress.intent.value, id, fp);
    } else if progress.intent.Some? && keep == Some(true) {
      ending := KeepImport(store, progress.intent.value, id, fp);
    } else if !progress.published {
      ending := DropPlaceholder(store, target, pending, fp);
    }
  }

  /** Where an import can be whose question was answered one way or the other. */
  lemma {:induction false} AnswerTells(
      v: Disk, progress: ImportProgress, id: Id, target: Name, pending: Name, keep: Option<bool>, fp: Footprint)
    requires Reached(v, progress, id, target, pending, fp) && Answered(v, progress, id, target, keep)
    ensures NothingLost(v, v, progress, pending)
    ensures keep == Some(true) ==> progress.intent.Some? && v == Committed(progress.intent.value, id)
    ensures keep == Some(false) && progress.intent.Some? ==>
              var i := progress.intent.value;
              v in {Announced(i), Staged(NOTHING, i), Revealed(i)}
  {
  }

  /** No row owns the import: whichever entry matches the intent goes, then the intent. */
  method DiscardImport(store: Store, i: Intent, id: Id, fp: Footprint) returns (ending: Ending)
    requires Inv(store.disk) && i.original != i.staged && i.original in fp.names && i.staged in fp.names
    requires View(store.disk, fp) in {Announced(i), Staged(NOTHING, i), Revealed(i)}
    modifies store
    ensures Inv(store.disk)
    ensures NothingLost(old(View(store.disk, fp)), View(store.disk, fp), ImportProgress(Some(i), true, true), i.staged)
    ensures store.faults >= old(store.faults)
    ensures store.faults == old(store.faults) ==> ending == Done && View(store.disk, fp).files == map[]
  {
    if i.original in store.disk.files && i.staged in store.disk.files {
      return Done;
    }
    var present := i.original in store.disk.files || i.staged in store.disk.files;
    var entry := if i.original in store.disk.files then i.original else i.staged;
    if present {
      if store.disk.files[entry].inode != i.inode {
        return Done;
      }
      EntryCanGo(View(store.disk, fp), i, entry);
      var discarded := store.Attempt(DropFile(entry), fp);
      if discarded.ending != Done {
        return discarded.ending;
      }
    }
    var finished := store.Attempt(DropIntent(i), fp);
    ending := finished.ending;
  }

  /** The one entry of an import that no row owns. */
  lemma {:induction false} EntryCanGo(v: Disk, i: Intent, entry: Name)
    requires v in {Announced(i), Staged(NOTHING, i), Revealed(i)} && i.original != i.staged && entry in v.files
    ensures Safe(v, DropFile(entry)) && Names(i, entry) && v.files[entry].inode == i.inode
    ensures Apply(v, DropFile(entry)) == Disk(map[], map[], {i})
    ensures Safe(Disk(map[], map[], {i}), DropIntent(i))
  {
  }

  /** A row owns the import: its intent is retired if the entry is the right one. */
  method KeepImport(store: Store, i: Intent, id: Id, fp: Footprint) returns (ending: Ending)
    requires Inv(store.disk) && i.original != i.staged && i.original in fp.names && i.staged in fp.names
    requires View(store.disk, fp) == Committed(i, id)
    modifies store
    ensures Inv(store.disk) && View(store.disk, fp).files == old(View(store.disk, fp)).files
    ensures NothingLost(old(View(store.disk, fp)), View(store.disk, fp), ImportProgress(Some(i), true, true), i.staged)
    ensures store.faults >= old(store.faults)
  {
    ending := Done;
    if i.original in store.disk.files && store.disk.files[i.original].inode == i.inode {
      ending := FinishQuietly(store, id, i, fp);
    }
  }

  /** No intent was recorded, as far as the request knows: only its empty placeholder can be there. */
  method DropPlaceholder(store: Store, target: Name, pending: Name, fp: Footprint) returns (ending: Ending)
    requires Inv(store.disk) && pending in fp.names && Unpublished(View(store.disk, fp), target, pending, fp)
    modifies store
    ensures Inv(store.disk)
    ensures NothingLost(old(View(store.disk, fp)), View(store.disk, fp), ImportProgress(None, false, false), pending)
    ensures store.faults >= old(store.faults)
    ensures store.faults == old(store.faults) ==> ending == Done && View(store.disk, fp).files == map[]
  {
    ending := Done;
    if pending in store.disk.files {
      assert pending in View(store.disk, fp).files;
      var discarded := store.Attempt(DropFile(pending), fp);
      ending := discarded.ending;
    }
  }

  /**
   The whole request: committed with its audio, or failed without losing what a row owns.  Without a fault it
   succeeds, and after a single fault a failed import leaves no file behind.
   */
  method ImportFile(store: Store, id: Id, suffix: string) returns (result: Result)
    requires |id| > 0 && id[0] != '.' && Inv(store.disk)
    requires View(store.disk, ImportFootprint(id, suffix)) == NOTHING
    modifies store
    ensures Inv(store.disk)
    ensures result == Success ==> CreatedAt(View(store.disk, ImportFootprint(id, suffix)), id, Target(id, suffix))
    ensures result == Failure ==> OwnAudioInPlace(View(store.disk, ImportFootprint(id, suffix)))
    ensures store.faults == old(store.faults) ==> result == Success
    ensures store.faults == old(store.faults) + 1 && result == Failure ==>
              View(store.disk, ImportFootprint(id, suffix)).files == map[]
  {
    NamesDiffer(id, suffix);
    var ending, progress := Announce(
      store, id, Target(id, suffix), Pending(id, suffix), ImportFootprint(id, suffix));
    if ending == Done {
      ending, progress := PublishImport(store, id, progress.intent.value, ImportFootprint(id, suffix));
    }
    match ending
    case Done => result := Success;
    case Crashed => result := Crash;
    case Raised =>
      var keep;
      result, keep := HandleFailure(
        store, id, Target(id, suffix), Pending(id, suffix), progress, ImportFootprint(id, suffix));
  }
}
