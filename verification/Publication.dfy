/**
 Publishing one audio file: the stages it goes through, and how a failed request cleans up after itself.

 Placeholders are discarded and publications are finished from the committed rows, in reverse order, each
 failure being left to startup.
 */
module Publication {
  import opened Wrappers
  import opened AudioJournal
  import opened AudioStore

  // ---- The stages ----

  const NOTHING := Disk(map[], map[], {})

  function Staged(v: Disk, i: Intent): Disk {
    v.(files := v.files[i.staged := Entry(i.inode, true)], journal := v.journal + {i})
  }

  function Revealed(i: Intent): Disk {
    Disk(map[i.original := Entry(i.inode, true)], map[], {i})
  }

  function Committed(i: Intent, id: Id): Disk {
    Revealed(i).(rows := map[id := Row(i.original, i.inode)])
  }

  /** The row is committed, its audio is in place, and at most its own intent is still recorded. */
  predicate Created(v: Disk, id: Id, i: Intent) {
    v.files == Committed(i, id).files && v.rows == Committed(i, id).rows && v.journal <= {i}
  }

  ghost predicate CreatedAt(v: Disk, id: Id, path: Name) {
    exists i: Intent :: i.original == path && Created(v, id, i)
  }

  /** Retires the intent of a committed row; a failure to do so is ignored. */
  method FinishQuietly(store: Store, id: Id, i: Intent, fp: Footprint) returns (ending: Ending)
    requires Inv(store.disk) && View(store.disk, fp) == Committed(i, id)
    requires i.original != i.staged && i.original in fp.names && i.staged in fp.names
    modifies store
    ensures Inv(store.disk) && ending != Raised
    ensures store.faults == old(store.faults) ==> ending == Done
    ensures store.faults >= old(store.faults)
    ensures Created(View(store.disk, fp), id, i)
  {
    assert Owned(Committed(i, id), i.original) by {
      assert id in Committed(i, id).rows;
    }
    var finished := store.Attempt(DropIntent(i), fp);
    ending := if finished.ending == Crashed then Crashed else Done;
  }

  // ---- Cleaning up ----

  /** The local variables that the failure handler works from. */
  datatype Progress =
    Progress(untracked: set<Name>, active: seq<Intent>, publication: Option<Intent>, commitStarted: bool)

  predicate Names(i: Intent, p: Name) {
    i.original == p || i.staged == p
  }

  /** The handler knows of every file: each is an empty placeholder, or published under an intent, or owned. */
  predicate Accounted(v: Disk, progress: Progress, p: Name) {
    || p in progress.untracked
    || (exists i :: i in progress.active && Names(i, p))
    || Owned(v, p)
  }

  predicate OwnAudioInPlace(v: Disk) {
    forall id :: id in v.rows ==> AudioAt(v, v.rows[id].path, v.rows[id].audio)
  }

  /** What the failure handler relies on, besides being able to finish each publication. */
  predicate Cleanable(v: Disk, progress: Progress, fp: Footprint) {
    && v.rows.Keys <= fp.ids
    && (v.rows != map[] ==> progress.commitStarted)
    && OwnAudioInPlace(v)
    && (forall i :: i in progress.active ==> i.original in fp.names && i.staged in fp.names)
    && (forall i :: i in v.journal ==> i.original in fp.names && i.staged in fp.names)
    && (forall j, k :: 0 <= j < k < |progress.active| ==> progress.active[j] != progress.active[k])
    && (forall p :: p in progress.untracked ==> p in fp.names)
    && (forall p :: p in progress.untracked && p in v.files ==> !v.files[p].audio)
    && (forall p :: p in v.files ==> Accounted(v, progress, p))
  }

  predicate Finishable(v: Disk, intents: seq<Intent>) {
    forall i :: i in intents ==> i in v.journal || (i.original !in v.files && i.staged !in v.files)
  }

  /** The invariant holds of the part that the request sees. */
  lemma {:induction false} CleanableViewInv(d: Disk, progress: Progress, fp: Footprint)
    requires Inv(d) && Cleanable(View(d, fp), progress, fp)
    ensures Inv(View(d, fp))
  {
    var v := View(d, fp);
    forall p | p in v.files && v.files[p].audio ensures Owned(v, p) || Mentioned(v, p) {
      ViewOwned(d, fp, p);
      ViewMentioned(d, fp, p);
    }
    forall i | i in v.journal ensures IntentHolds(v, i) {
      assert IntentHolds(d, i);
    }
    forall id | id in v.rows ensures RowHasAudio(v, v.rows[id]) {
      assert AudioAt(v, v.rows[id].path, v.rows[id].audio);
    }
  }

  lemma {:induction false} ReconciledStaysCleanable(v: Disk, w: Disk, i: Intent, progress: Progress, fp: Footprint)
    requires Inv(v) && Cleanable(v, progress, fp) && i in progress.active && w in ReconcileStages(v, i)
    requires Finishable(v, [i])
    ensures Cleanable(w, progress, fp)
    ensures w.rows == v.rows
    ensures w.files.Keys <= v.files.Keys
    ensures w.journal == v.journal || w.journal == v.journal - {i}
  {
    assert i in [i];
    ReconciledRemoves(v, w, i);
    OwnedAudioStays(v, w, i);
    forall p | p in w.files ensures Accounted(w, progress, p) {
      assert Accounted(v, progress, p);
      SameOwners(v, w, p);
    }
  }

  /** With every owned file in its place, finishing a publication only takes things away. */
  lemma {:induction false} ReconciledRemoves(v: Disk, w: Disk, i: Intent)
    requires Inv(v) && OwnAudioInPlace(v) && w in ReconcileStages(v, i)
    requires i in v.journal || (i.original !in v.files && i.staged !in v.files)
    ensures w.rows == v.rows
    ensures forall p :: p in w.files ==> p in v.files && w.files[p] == v.files[p]
    ensures w.journal == v.journal || w.journal == v.journal - {i}
  {
    if i in v.journal {
      assert IntentHolds(v, i);
    }
    assert Owned(v, i.original) ==> i.original in v.files by {
      assert forall id :: id in v.rows ==> AudioAt(v, v.rows[id].path, v.rows[id].audio);
    }
  }

  lemma {:induction false} OwnedAudioStays(v: Disk, w: Disk, i: Intent)
    requires Inv(v) && OwnAudioInPlace(v) && w in ReconcileStages(v, i)
    requires i in v.journal || (i.original !in v.files && i.staged !in v.files)
    ensures OwnAudioInPlace(w)
  {
  }

  lemma SameOwners(v: Disk, w: Disk, p: Name)
    requires v.rows == w.rows
    ensures Owned(v, p) == Owned(w, p)
  {
  }

  // ---- The failure handler ----

  predicate Settles(v: Disk, i: Intent) {
    && (i.original in v.files ==> Owned(v, i.original))
    && i.staged !in v.files
  }

  lemma {:induction false} ReconciledSettles(v: Disk, w: Disk, i: Intent)
    requires IntentHolds(v, i) || (i.original !in v.files && i.staged !in v.files)
    requires i.original != i.staged && Reconcile(v, i) == Ok(w)
    ensures Settles(w, i)
  {
  }

  lemma {:induction false} SettledStays(v: Disk, w: Disk, i: Intent)
    requires Settles(v, i) && w.rows == v.rows && w.files.Keys <= v.files.Keys
    ensures Settles(w, i)
  {
  }

  /** The publications from `k` on are finished: nothing is left of them that no row owns. */
  predicate SettledFrom(v: Disk, intents: seq<Intent>, k: nat) {
    forall j :: k <= j < |intents| ==> Settles(v, intents[j])
  }

  predicate Cleaning(v: Disk, progress: Progress, k: nat, fp: Footprint) {
    k <= |progress.active| && Cleanable(v, progress, fp) && Finishable(v, progress.active[..k])
  }

  method ReconcileOne(store: Store, progress: Progress, k: nat, fp: Footprint) returns (ending: Ending)
    requires Inv(store.disk) && k < |progress.active| && Cleaning(View(store.disk, fp), progress, k + 1, fp)
    requires progress.active[k].original != progress.active[k].staged
    modifies store
    ensures Inv(store.disk) && Cleaning(View(store.disk, fp), progress, k, fp)
    ensures store.faults == old(store.faults) + Fault(ending)
    ensures View(store.disk, fp).rows == old(View(store.disk, fp).rows)
    ensures SettledFrom(old(View(store.disk, fp)), progress.active, k + 1) && ending == Done ==>
              SettledFrom(View(store.disk, fp), progress.active, k)
  {
    var i := progress.active[k];
    ghost var v := View(store.disk, fp);
    CleanableViewInv(store.disk, progress, fp);
    ReadyToReconcile(v, progress, k, fp);
    ending := store.ReconcileNow(i, fp);
    ghost var w := View(store.disk, fp);
    ReconciledStaysCleanable(v, w, i, progress, fp);
    StillFinishable(v, w, progress, k);
    if ending == Done {
      ReconciledSettles(v, w, i);
      forall j | k < j < |progress.active| && Settles(v, progress.active[j]) ensures Settles(w, progress.active[j]) {
        SettledStays(v, w, progress.active[j]);
      }
    }
  }

  /** Finishes the active publications, last one first.  A failure is swallowed and leaves the rest to startup. */
  method ReconcileActive(store: Store, progress: Progress, fp: Footprint) returns (ending: Ending, clean: bool)
    requires Inv(store.disk)
    requires Cleanable(View(store.disk, fp), progress, fp) && Finishable(View(store.disk, fp), progress.active)
    requires forall i :: i in progress.active ==> i.original != i.staged
    modifies store
    ensures Inv(store.disk) && Cleanable(View(store.disk, fp), progress, fp)
    ensures View(store.disk, fp).rows == old(View(store.disk, fp).rows)
    ensures ending != Raised && store.faults >= old(store.faults)
    ensures store.faults == old(store.faults) ==> ending == Done && clean
    ensures ending == Done && clean ==> SettledFrom(View(store.disk, fp), progress.active, 0)
  {
    var k: nat := |progress.active|;
    clean := true;
    assert progress.active[..k] == progress.active;
    while 0 < k
      invariant Inv(store.disk) && Cleaning(View(store.disk, fp), progress, k, fp)
      invariant View(store.disk, fp).rows == old(View(store.disk, fp).rows)
      invariant store.faults >= old(store.faults) && (store.faults == old(store.faults) ==> clean)
      invariant clean ==> SettledFrom(View(store.disk, fp), progress.active, k)
    {
      k := k - 1;
      ending := ReconcileOne(store, progress, k, fp);
      if ending == Crashed {
        return Crashed, false;
      }
      clean := clean && ending == Done;
    }
    ending := Done;
  }

  lemma {:induction false} ReadyToReconcile(v: Disk, progress: Progress, k: nat, fp: Footprint)
    requires Inv(v) && Cleanable(v, progress, fp) && k < |progress.active|
    requires Finishable(v, progress.active[..k + 1])
    ensures var i := progress.active[k];
            && Finishable(v, [i])
            && (i in v.journal || (i.original !in v.files && i.staged !in v.files))
            && (i in v.journal ==> IntentHolds(v, i))
            && i.original in fp.names && i.staged in fp.names
  {
  }

  lemma {:induction false} StillFinishable(v: Disk, w: Disk, progress: Progress, k: nat)
    requires k < |progress.active| && Finishable(v, progress.active[..k + 1])
    requires forall j, m :: 0 <= j < m < |progress.active| ==> progress.active[j] != progress.active[m]
    requires w.files.Keys <= v.files.Keys
    requires w.journal == v.journal || w.journal == v.journal - {progress.active[k]}
    ensures Finishable(w, progress.active[..k])
  {
  }

  /** Discards the placeholders that no intent was recorded for. */
  method DiscardUntracked(store: Store, progress: Progress, fp: Footprint) returns (ending: Ending, clean: bool)
    requires Inv(store.disk) && Cleanable(View(store.disk, fp), progress, fp)
    modifies store
    ensures Inv(store.disk) && Cleanable(View(store.disk, fp), progress, fp)
    ensures View(store.disk, fp).rows == old(View(store.disk, fp).rows)
    ensures View(store.disk, fp).files.Keys <= old(View(store.disk, fp).files.Keys)
    ensures ending != Raised && store.faults >= old(store.faults)
    ensures store.faults == old(store.faults) ==> ending == Done && clean
    ensures ending == Done && clean ==> View(store.disk, fp).files.Keys !! progress.untracked
  {
    var left := progress.untracked;
    ghost var before := View(store.disk, fp);
    clean := true;
    while left != {}
      invariant left <= progress.untracked
      invariant Inv(store.disk) && Cleanable(View(store.disk, fp), progress, fp)
      invariant View(store.disk, fp).rows == before.rows && View(store.disk, fp).files.Keys <= before.files.Keys
      invariant store.faults >= old(store.faults) && (store.faults == old(store.faults) ==> clean)
      invariant clean ==> View(store.disk, fp).files.Keys !! (progress.untracked - left)
      decreases left
    {
      var p :| p in left;
      left := left - {p};
      ending := DiscardOne(store, p, progress, fp);
      if ending == Crashed {
        return Crashed, false;
      }
      clean := clean && ending == Done;
    }
    ending := Done;
  }

  method DiscardOne(store: Store, p: Name, progress: Progress, fp: Footprint) returns (ending: Ending)
    requires Inv(store.disk) && Cleanable(View(store.disk, fp), progress, fp) && p in progress.untracked
    modifies store
    ensures Inv(store.disk) && Cleanable(View(store.disk, fp), progress, fp)
    ensures View(store.disk, fp).rows == old(View(store.disk, fp).rows)
    ensures View(store.disk, fp).files.Keys <= old(View(store.disk, fp).files.Keys)
    ensures store.faults == old(store.faults) + Fault(ending)
    ensures ending == Done ==> p !in View(store.disk, fp).files
  {
    ending := Done;
    if p in store.disk.files {
      ghost var v := View(store.disk, fp);
      assert p in v.files;
      var outcome := store.Attempt(DropFile(p), fp);
      DroppedStaysCleanable(v, p, progress, fp);
      ending := outcome.ending;
    }
  }

  lemma {:induction false} DroppedStaysCleanable(v: Disk, p: Name, progress: Progress, fp: Footprint)
    requires Cleanable(v, progress, fp) && p in progress.untracked
    requires p in v.files ==> !v.files[p].audio
    ensures Cleanable(Apply(v, DropFile(p)), progress, fp)
  {
  }
}
