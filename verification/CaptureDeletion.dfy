/**
 Deleting a capture: its audio is hidden under a journaled name before the row goes, and discarded only after.
 */
module CaptureDeletion {
  import opened Wrappers
  import opened AudioJournal
  import opened AudioStore

  /** A failure is clean when the handler undid everything that the commit did not make final. */
  datatype Result = Absent | Deleted | Failure(clean: bool) | Crash

  function DeletionFootprint(id: Id, path: Name, hidden: Name): Footprint {
    Footprint({path, hidden}, {id})
  }

  predicate Covers(id: Id, path: Name, hidden: Name, fp: Footprint) {
    id in fp.ids && path in fp.names && hidden in fp.names
  }

  /** The hidden name is new, and the row is at the path if it is there at all. */
  predicate Begun(v: Disk, id: Id, path: Name, hidden: Name) {
    && path != hidden && hidden !in v.files && !Owned(v, hidden) && !Mentioned(v, hidden)
    && (id in v.rows ==> v.rows[id].path == path)
  }

  predicate OwnedByAnother(v: Disk, id: Id, path: Name) {
    exists other :: other in v.rows && other != id && v.rows[other].path == path
  }

  /** An existing entry may be hidden under a new name. */
  lemma {:induction false} StagingIsSafe(d: Disk, id: Id, path: Name, hidden: Name, i: Intent)
    requires Inv(d) && Begun(View(d, DeletionFootprint(id, path, hidden)), id, path, hidden)
    requires id in d.rows && path in d.files
    requires i.original == path && i.staged == hidden && i.inode == d.files[path].inode
    ensures Safe(View(d, DeletionFootprint(id, path, hidden)), AddIntent(i))
  {
  }

  function Recorded(v: Disk, i: Intent): Disk {
    Apply(v, AddIntent(i))
  }

  function Hidden(v: Disk, i: Intent): Disk {
    Apply(Recorded(v, i), Hide(i))
  }

  /** Hiding moves the entry and nothing else, and showing it again restores the files. */
  lemma {:induction false} HidingMoves(v: Disk, i: Intent)
    requires i.original in v.files && i.staged !in v.files && i.original != i.staged
    ensures Safe(Recorded(v, i), Hide(i))
    ensures var h := Hidden(v, i);
            && Safe(h, Unhide(i))
            && Apply(h, Unhide(i)) == Recorded(v, i)
            && i.original !in h.files && i.staged in h.files
            && h.files[i.staged] == v.files[i.original]
            && h.files - {i.staged} == v.files - {i.original}
  {
  }

  /** Hides the entry, or puts everything back and reports the failure. */
  method StageAudio(store: Store, id: Id, path: Name, hidden: Name)
    returns (ending: Ending, staged: Option<Intent>, clean: bool)
    requires Inv(store.disk) && Begun(View(store.disk, DeletionFootprint(id, path, hidden)), id, path, hidden)
    requires id in store.disk.rows
    modifies store
    ensures Inv(store.disk)
    ensures View(store.disk, DeletionFootprint(id, path, hidden)).rows
         == old(View(store.disk, DeletionFootprint(id, path, hidden))).rows
    ensures store.faults >= old(store.faults) && (store.faults == old(store.faults) ==> ending == Done)
    ensures store.faults == old(store.faults) + 1 ==> clean
    ensures var files := old(View(store.disk, DeletionFootprint(id, path, hidden))).files;
            ending == Raised && clean ==> View(store.disk, DeletionFootprint(id, path, hidden)).files == files
    ensures var v := old(View(store.disk, DeletionFootprint(id, path, hidden)));
            ending == Done ==>
              if path in v.files then
                && staged.Some? && staged.value.original == path && staged.value.staged == hidden
                && staged.value.inode == v.files[path].inode
                && View(store.disk, DeletionFootprint(id, path, hidden)) == Hidden(v, staged.value)
              else
                staged == None && View(store.disk, DeletionFootprint(id, path, hidden)) == v
  {
    ghost var v := View(store.disk, DeletionFootprint(id, path, hidden));
    staged, clean := None, true;
    if path !in store.disk.files {
      return Done, None, true;
    }
    var journalName: nat := *;
    var i := Intent(journalName, path, hidden, store.disk.files[path].inode);
    StagingIsSafe(store.disk, id, path, hidden, i);
    HidingMoves(v, i);
    var recorded := store.Attempt(AddIntent(i), DeletionFootprint(id, path, hidden));
    if recorded.ending != Done {
      return recorded.ending, None, true;
    }
    var moved := store.Attempt(Hide(i), DeletionFootprint(id, path, hidden));
    if moved.ending == Done {
      return Done, Some(i), true;
    }
    if moved.ending == Crashed {
      return Crashed, None, true;
    }
    ending, clean := UndoStaging(store, v, id, i);
  }

  /** A rename that failed, perhaps after it took hold, is reversed. */
  method UndoStaging(store: Store, ghost v: Disk, id: Id, i: Intent) returns (ending: Ending, clean: bool)
    requires Inv(store.disk) && i.original in v.files && i.staged !in v.files && i.original != i.staged
    requires View(store.disk, DeletionFootprint(id, i.original, i.staged)) in {Recorded(v, i), Hidden(v, i)}
    requires id in v.rows && v.rows[id].path == i.original
    modifies store
    ensures Inv(store.disk) && ending != Done && store.faults >= old(store.faults)
    ensures store.faults == old(store.faults) ==> clean
    ensures View(store.disk, DeletionFootprint(id, i.original, i.staged)).rows == v.rows
    ensures clean ==> View(store.disk, DeletionFootprint(id, i.original, i.staged)).files == v.files
  {
    HidingMoves(v, i);
    assert Owned(v, i.original);
    if i.staged in store.disk.files {
      assert View(store.disk, DeletionFootprint(id, i.original, i.staged)) == Hidden(v, i);
      var restored := store.Attempt(Unhide(i), DeletionFootprint(id, i.original, i.staged));
      if restored.ending != Done {
        return restored.ending, false;
      }
    }
    if i.original in store.disk.files && store.disk.files[i.original].inode == i.inode {
      assert Owned(Recorded(v, i), i.original) by {
        assert id in Recorded(v, i).rows;
      }
      var finished := store.Attempt(DropIntent(i), DeletionFootprint(id, i.original, i.staged));
      if finished.ending == Crashed {
        return Crashed, true;
      }
    }
    return Raised, true;
  }

  function Gone(v: Disk, id: Id): Disk {
    Apply(v, DropRow(id))
  }

  /** Why the row may go: another row keeps the file, or the file is out of the way. */
  lemma {:induction false} RowCanGo(v: Disk, id: Id, path: Name)
    requires id in v.rows && v.rows[id].path == path
    requires OwnedByAnother(v, id, path) || path !in v.files
    ensures Safe(v, DropRow(id))
    ensures OwnedByAnother(v, id, path) == Owned(Gone(v, id), path)
  {
    if OwnedByAnother(v, id, path) {
      var other :| other in v.rows && other != id && v.rows[other].path == path;
      assert other in Gone(v, id).rows;
    }
  }

  /** Discards the hidden audio of a deleted capture; a failure leaves it to startup. */
  method DiscardAudio(store: Store, i: Intent, fp: Footprint) returns (ending: Ending)
    requires Inv(store.disk) && i.original in fp.names && i.staged in fp.names && i.original != i.staged
    requires i in View(store.disk, fp).journal && i.original !in View(store.disk, fp).files
    requires !Owned(View(store.disk, fp), i.original) && !Owned(View(store.disk, fp), i.staged)
    modifies store
    ensures Inv(store.disk) && ending != Raised && store.faults >= old(store.faults)
    ensures View(store.disk, fp).rows == old(View(store.disk, fp).rows)
    ensures View(store.disk, fp).files.Keys <= old(View(store.disk, fp).files.Keys)
    ensures store.faults == old(store.faults) ==> ending == Done && i.staged !in View(store.disk, fp).files
  {
    ghost var v := View(store.disk, fp);
    assert i in store.disk.journal;
    assert forall j :: j in v.journal && j.staged == i.staged ==> j == i;
    var discarded := store.Attempt(DropFile(i.staged), fp);
    if discarded.ending != Done {
      return if discarded.ending == Crashed then Crashed else Done;
    }
    assert !Owned(View(store.disk, fp), i.original);
    var finished := store.Attempt(DropIntent(i), fp);
    ending := if finished.ending == Crashed then Crashed else Done;
  }

  /**
   A deletion that returns has removed exactly its own row, and the file too unless another row is at the path.
   One that fails has removed the row or nothing; if the row survived a clean failure, so did the file.  Without
   a fault the deletion goes through and leaves nothing hidden, and after a single fault a failure is clean.
   */
  method DeleteCapture(store: Store, id: Id, path: Name, hidden: Name) returns (result: Result)
    requires Inv(store.disk) && Begun(View(store.disk, DeletionFootprint(id, path, hidden)), id, path, hidden)
    modifies store
    ensures Inv(store.disk)
    ensures var v := old(View(store.disk, DeletionFootprint(id, path, hidden)));
            var w := View(store.disk, DeletionFootprint(id, path, hidden));
            && (result == Absent <==> id !in v.rows)
            && (result == Absent ==> w == v)
            && (result == Deleted ==> w.rows == v.rows - {id})
            && (result == Deleted && OwnedByAnother(v, id, path) ==> w.files == v.files && w.journal == v.journal)
            && (result == Deleted && !OwnedByAnother(v, id, path) ==> path !in w.files)
            && (result.Failure? ==> w.rows == v.rows || w.rows == v.rows - {id})
            && (result == Failure(true) && id in w.rows ==> w.files == v.files)
            && (store.faults == old(store.faults) && id in v.rows ==>
                  result == Deleted && (!OwnedByAnother(v, id, path) ==> path !in w.files && hidden !in w.files))
    ensures store.faults == old(store.faults) + 1 ==> result != Failure(false)
  {
    ghost var fp := DeletionFootprint(id, path, hidden);
    ghost var v := View(store.disk, fp);
    if id !in store.disk.rows {
      return Absent;
    }
    assert id in v.rows;
    var flushed := store.Attempt(Nothing, DeletionFootprint(id, path, hidden));
    if flushed.ending != Done {
      return if flushed.ending == Crashed then Crash else Failure(true);
    }
    var staged: Option<Intent> := None;
    if !OwnedByAnother(store.disk, id, path) {
      SameOtherOwner(store.disk, id, path, hidden);
      var ending, clean;
      ending, staged, clean := StageAudio(store, id, path, hidden);
      if ending != Done {
        return if ending == Crashed then Crash else Failure(clean);
      }
    } else {
      SameOtherOwner(store.disk, id, path, hidden);
    }
    result := CommitDeletion(store, v, id, path, hidden, staged, DeletionFootprint(id, path, hidden));
  }

  lemma SameOtherOwner(d: Disk, id: Id, path: Name, hidden: Name)
    ensures OwnedByAnother(View(d, DeletionFootprint(id, path, hidden)), id, path) == OwnedByAnother(d, id, path)
  {
    if OwnedByAnother(d, id, path) {
      var other :| other in d.rows && other != id && d.rows[other].path == path;
      assert other in View(d, DeletionFootprint(id, path, hidden)).rows;
    }
  }

  /** The state in which the deletion is committed. */
  predicate AboutToCommit(v: Disk, w: Disk, id: Id, path: Name, hidden: Name, staged: Option<Intent>) {
    && Begun(v, id, path, hidden) && id in v.rows
    && match staged
       case None => w == v && (OwnedByAnother(v, id, path) || path !in v.files)
       case Some(i) =>
         && !OwnedByAnother(v, id, path) && path in v.files && w == Hidden(v, i)
         && i.original == path && i.staged == hidden && i.inode == v.files[path].inode
  }

  /** Commits the row's deletion; before this step a failure leaves nothing to reconcile. */
  method CommitDeletion(
      store: Store, ghost v: Disk, id: Id, path: Name, hidden: Name, staged: Option<Intent>, fp: Footprint)
      returns (result: Result)
    requires Covers(id, path, hidden, fp)
    requires Inv(store.disk)
    requires AboutToCommit(v, View(store.disk, fp), id, path, hidden, staged)
    modifies store
    ensures Inv(store.disk) && result != Absent
    ensures var w := View(store.disk, fp);
            && (result == Deleted ==> w.rows == v.rows - {id})
            && (result == Deleted && OwnedByAnother(v, id, path) ==> w.files == v.files && w.journal == v.journal)
            && (result == Deleted && !OwnedByAnother(v, id, path) ==> path !in w.files)
            && (result.Failure? ==> w.rows == v.rows || w.rows == v.rows - {id})
            && (result == Failure(true) && id in w.rows ==> w.files == v.files)
            && (store.faults == old(store.faults) ==>
                  result == Deleted && (!OwnedByAnother(v, id, path) ==> hidden !in w.files))
    ensures store.faults >= old(store.faults)
    ensures store.faults == old(store.faults) + 1 ==> result != Failure(false)
  {
    ghost var h := View(store.disk, fp);
    CommitIsSafe(v, h, id, path, hidden, staged);
    var committed := store.Attempt(DropRow(id), fp);
    if committed.ending == Crashed {
      return Crash;
    }
    if committed.ending == Raised {
      result := HandleFailure(store, v, h, id, path, hidden, staged, fp);
      return;
    }
    result := FinishDeletion(store, v, h, id, path, hidden, staged, fp);
  }

  /** The row is gone: the hidden audio, if there is any, goes too. */
  method FinishDeletion(
      store: Store, ghost v: Disk, ghost h: Disk, id: Id, path: Name, hidden: Name, staged: Option<Intent>,
      fp: Footprint)
      returns (result: Result)
    requires Covers(id, path, hidden, fp)
    requires Inv(store.disk) && AboutToCommit(v, h, id, path, hidden, staged)
    requires View(store.disk, fp) == Gone(h, id)
    modifies store
    ensures Inv(store.disk) && result in {Deleted, Crash} && store.faults >= old(store.faults)
    ensures var w := View(store.disk, fp);
            && w.rows == v.rows - {id}
            && (OwnedByAnother(v, id, path) ==> w.files == v.files && w.journal == v.journal)
            && (!OwnedByAnother(v, id, path) ==> path !in w.files)
            && (store.faults == old(store.faults) ==>
                  result == Deleted && (!OwnedByAnother(v, id, path) ==> hidden !in w.files))
  {
    CommitIsSafe(v, h, id, path, hidden, staged);
    if staged == None {
      return Deleted;
    }
    var ending := DiscardAudio(store, staged.value, fp);
    result := if ending == Crashed then Crash else Deleted;
  }

  /** What the commit starts from and what it leads to. */
  lemma {:induction false} CommitIsSafe(
      v: Disk, h: Disk, id: Id, path: Name, hidden: Name, staged: Option<Intent>)
    requires AboutToCommit(v, h, id, path, hidden, staged)
    ensures Safe(h, DropRow(id)) && id in h.rows && h.rows == v.rows
    ensures staged == None ==> h == v && (OwnedByAnother(v, id, path) || path !in v.files)
    ensures staged.Some? ==>
              var i := staged.value;
              && i in Gone(h, id).journal && i.original == path && i.staged == hidden && path != hidden
              && path !in Gone(h, id).files && hidden in Gone(h, id).files
              && !Owned(Gone(h, id), path) && !Owned(Gone(h, id), hidden)
  {
    if staged.Some? {
      HidingMoves(v, staged.value);
    }
    assert OwnedByAnother(h, id, path) == OwnedByAnother(v, id, path);
    RowCanGo(h, id, path);
  }

  lemma {:induction false} CommitLeaves(
      v: Disk, h: Disk, id: Id, path: Name, hidden: Name, staged: Option<Intent>)
    requires AboutToCommit(v, h, id, path, hidden, staged)
    ensures h.rows == v.rows && Gone(h, id).rows == v.rows - {id} && id !in Gone(h, id).rows
    ensures staged == None ==> h.files == v.files && Gone(h, id).files == v.files
    ensures staged.Some? ==> h == Hidden(v, staged.value)
  {
  }

  /**
   The commit raised, and may have taken hold.  The hidden audio is dealt with in this session once it is rolled back,
   else in an independent one; if that cannot be had either, it is left to startup.
   */
  method HandleFailure(
      store: Store, ghost v: Disk, ghost h: Disk, id: Id, path: Name, hidden: Name, staged: Option<Intent>,
      fp: Footprint)
      returns (result: Result)
    requires Covers(id, path, hidden, fp)
    requires Inv(store.disk) && AboutToCommit(v, h, id, path, hidden, staged)
    requires View(store.disk, fp) in {h, Gone(h, id)}
    modifies store
    ensures Inv(store.disk) && (result == Crash || result.Failure?)
    ensures var w := View(store.disk, fp);
            && (w.rows == v.rows || w.rows == v.rows - {id})
            && (result == Failure(true) && id in w.rows ==> w.files == v.files)
    ensures store.faults >= old(store.faults)
    ensures store.faults == old(store.faults) ==> result == Failure(true)
  {
    CommitLeaves(v, h, id, path, hidden, staged);
    var reconcilable := store.Consult();
    if !reconcilable {
      reconcilable := store.Consult();
    }
    if staged == None {
      return Failure(true);
    }
    if !reconcilable {
      return Failure(false);
    }
    var ending := UndoDeletion(store, v, id, path, hidden, staged.value, fp);
    result := if ending == Crashed then Crash else Failure(ending == Done);
  }

  /** After a failed commit the intent is finished from the rows: the audio is shown again exactly if the row stayed. */
  method UndoDeletion(
      store: Store, ghost v: Disk, id: Id, path: Name, hidden: Name, i: Intent, fp: Footprint) returns (ending: Ending)
    requires Covers(id, path, hidden, fp)
    requires Inv(store.disk) && AboutToCommit(v, Hidden(v, i), id, path, hidden, Some(i))
    requires View(store.disk, fp) in {Hidden(v, i), Gone(Hidden(v, i), id)}
    modifies store
    ensures Inv(store.disk) && store.faults == old(store.faults) + Fault(ending)
    ensures var w := View(store.disk, fp);
            && (w.rows == v.rows || w.rows == v.rows - {id})
            && (ending == Done && id in w.rows ==> w.files == v.files)
            && (ending == Done && id !in w.rows ==> path !in w.files && hidden !in w.files)
  {
    ghost var h := View(store.disk, fp);
    OnlyIntentForHidden(store.disk, fp, i);
    ending := store.ReconcileNow(i, fp);
    UndoOutcome(v, h, View(store.disk, fp), id, i);
  }

  lemma {:induction false} OnlyIntentForHidden(d: Disk, fp: Footprint, i: Intent)
    requires Inv(d) && i in View(d, fp).journal
    ensures var v := View(d, fp);
            forall j :: j in v.journal && (j.staged == i.original || j.staged == i.staged) ==> j == i
  {
  }

  lemma {:induction false} UndoOutcome(v: Disk, h: Disk, w: Disk, id: Id, i: Intent)
    requires id in v.rows && v.rows[id].path == i.original && !OwnedByAnother(v, id, i.original)
    requires i.original in v.files && i.staged !in v.files && i.original != i.staged
    requires i.inode == v.files[i.original].inode
    requires h in {Hidden(v, i), Gone(Hidden(v, i), id)} && w in ReconcileStages(h, i)
    ensures w.rows == h.rows
    ensures Reconcile(h, i) == Ok(w) && id in w.rows ==> w.files == v.files
    ensures Reconcile(h, i) == Ok(w) && id !in w.rows ==> i.original !in w.files && i.staged !in w.files
  {
  }
}
