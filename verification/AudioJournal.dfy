/**
 The deletion journal: what the database, the audio directory and the durable intents guarantee together.

 A row is committed, a file is renamed and an intent is written at different moments, and the process can
 die between any two of them.  `Inv` is what every single step keeps; `Recover` turns any state that
 satisfies it into one where audio is present exactly when a row owns it.
 */
module AudioJournal {
  import opened Wrappers

  type Name = string
  type Id = string

  /** A directory entry: its inode, and whether it holds audio or is an empty placeholder. */
  datatype Entry = Entry(inode: nat, audio: bool)

  /** A committed row, with the inode of the audio it was committed with. */
  datatype Row = Row(path: Name, audio: nat)

  /** A durable intent: one entry, with the name it belongs at and the hidden name it may be found at. */
  datatype Intent = Intent(journalName: nat, original: Name, staged: Name, inode: nat)

  /** What survives a crash. */
  datatype Disk = Disk(files: map<Name, Entry>, rows: map<Id, Row>, journal: set<Intent>)

  predicate AudioAt(d: Disk, p: Name, inode: nat) {
    p in d.files && d.files[p] == Entry(inode, true)
  }

  predicate Owned(d: Disk, p: Name) {
    exists id :: id in d.rows && d.rows[id].path == p
  }

  predicate Mentioned(d: Disk, p: Name) {
    exists i :: i in d.journal && (i.original == p || i.staged == p)
  }

  /** The audio of a row is at its path, or hidden under a name that an intent gives for that path. */
  predicate RowHasAudio(d: Disk, r: Row) {
    || AudioAt(d, r.path, r.audio)
    || exists i :: i in d.journal && i.original == r.path && i.inode == r.audio && AudioAt(d, i.staged, r.audio)
  }

  /** Whatever is at either name of an intent is the entry it was written for, and it is at one of them only. */
  predicate IntentHolds(d: Disk, i: Intent) {
    && i.original != i.staged
    && !(i.original in d.files && i.staged in d.files)
    && (i.original in d.files ==> d.files[i.original].inode == i.inode)
    && (i.staged in d.files ==> d.files[i.staged].inode == i.inode)
  }

  predicate Inv(d: Disk) {
    && (forall id :: id in d.rows ==> RowHasAudio(d, d.rows[id]))
    && (forall p :: p in d.files && d.files[p].audio ==> Owned(d, p) || Mentioned(d, p))
    && (forall i :: i in d.journal ==> IntentHolds(d, i))
    && NamesAgree(d)
  }

  /** Names are not shared by accident: no hard links, no hidden name in use elsewhere, one inode to a path. */
  predicate NamesAgree(d: Disk) {
    && (forall p, q :: p in d.files && q in d.files && d.files[p].inode == d.files[q].inode ==> p == q)
    && (forall i, j :: i in d.journal && j in d.journal ==> i.staged != j.original)
    && (forall i, j :: i in d.journal && j in d.journal && i.staged == j.staged ==> i == j)
    && (forall i, j :: i in d.journal && j in d.journal && i.original == j.original ==> i.inode == j.inode)
    && (forall i, id :: i in d.journal && id in d.rows ==> i.staged != d.rows[id].path)
    && (forall i, id :: i in d.journal && id in d.rows && i.original == d.rows[id].path ==> i.inode == d.rows[id].audio)
    && (forall id, other :: id in d.rows && other in d.rows && d.rows[id].path == d.rows[other].path ==>
          d.rows[id].audio == d.rows[other].audio)
  }

  // ---- Single durable effects ----

  datatype Effect =
    | Nothing
    | PutFile(name: Name, entry: Entry)      // an empty private placeholder
    | Fill(name: Name)                       // audio bytes written to it
    | AddIntent(intent: Intent)
    | Unhide(intent: Intent)                 // rename staged -> original
    | Hide(intent: Intent)                   // rename original -> staged
    | PutRow(id: Id, row: Row)
    | DropRow(id: Id)
    | DropFile(name: Name)
    | DropIntent(intent: Intent)

  function Apply(d: Disk, e: Effect): Disk {
    match e
    case Nothing => d
    case PutFile(p, entry) => d.(files := d.files[p := entry])
    case Fill(p) => if p in d.files then d.(files := d.files[p := d.files[p].(audio := true)]) else d
    case AddIntent(i) => d.(journal := d.journal + {i})
    case Unhide(i) =>
      if i.staged in d.files then d.(files := (d.files - {i.staged})[i.original := d.files[i.staged]]) else d
    case Hide(i) =>
      if i.original in d.files then d.(files := (d.files - {i.original})[i.staged := d.files[i.original]]) else d
    case PutRow(id, r) => d.(rows := d.rows[id := r])
    case DropRow(id) => d.(rows := d.rows - {id})
    case DropFile(p) => d.(files := d.files - {p})
    case DropIntent(i) => d.(journal := d.journal - {i})
  }

  /** When an effect keeps the invariant; `PutFile` moreover needs an unused inode. */
  predicate Safe(d: Disk, e: Effect) {
    match e
    case Nothing => true
    case PutFile(p, entry) => p !in d.files && !Owned(d, p) && !Mentioned(d, p) && !entry.audio
    case Fill(p) => p in d.files && Mentioned(d, p)
    case AddIntent(i) =>
      && IntentHolds(d, i) && !Owned(d, i.staged) && !Mentioned(d, i.staged)
      && (forall j :: j in d.journal ==> j.staged != i.original && (j.original == i.original ==> j.inode == i.inode))
      && (forall id :: id in d.rows && d.rows[id].path == i.original ==> d.rows[id].audio == i.inode)
    case Unhide(i) => i in d.journal && i.staged in d.files && i.original !in d.files
    case Hide(i) => i in d.journal && i.original in d.files && i.staged !in d.files
    case PutRow(id, r) =>
      && id !in d.rows && AudioAt(d, r.path, r.audio) && !Owned(d, r.path)
      && (forall i :: i in d.journal ==> i.staged != r.path && (i.original == r.path ==> i.inode == r.audio))
    case DropRow(id) =>
      && id in d.rows
      && var path := d.rows[id].path; path !in d.files || Mentioned(d, path) || Owned(Apply(d, e), path)
    case DropFile(p) =>
      || (p in d.files && !d.files[p].audio)
      || (!Owned(d, p) && forall i :: i in d.journal && i.staged == p ==> !Owned(d, i.original))
    case DropIntent(i) =>
      i.staged !in d.files && (i.original in d.files && d.files[i.original].audio ==> Owned(d, i.original))
  }

  predicate FreshInode(d: Disk, inode: nat) {
    forall p :: p in d.files ==> d.files[p].inode != inode
  }

  lemma {:induction false} PutFileKeepsInv(d: Disk, p: Name, entry: Entry)
    requires Inv(d) && Safe(d, PutFile(p, entry)) && FreshInode(d, entry.inode)
    ensures Inv(Apply(d, PutFile(p, entry)))
  {
    var t := Apply(d, PutFile(p, entry));
    forall id | id in t.rows ensures RowHasAudio(t, t.rows[id]) {
      RowAudioCarries(d, t, d.rows[id]);
    }
    forall q | q in t.files && t.files[q].audio ensures Owned(t, q) || Mentioned(t, q) {
      CoverCarries(d, t, q);
    }
    forall i | i in t.journal ensures IntentHolds(t, i) {
      assert IntentHolds(d, i) && i.original != p && i.staged != p;
    }
    PutFileNames(d, p, entry);
  }

  lemma PutFileNames(d: Disk, p: Name, entry: Entry)
    requires NamesAgree(d) && FreshInode(d, entry.inode)
    ensures NamesAgree(Apply(d, PutFile(p, entry)))
  {
  }

  /** Names still agree in a part of the disk. */
  lemma PartAgrees(d: Disk, t: Disk)
    requires NamesAgree(d) && t.journal <= d.journal
    requires forall p :: p in t.files ==> p in d.files && t.files[p] == d.files[p]
    requires forall id :: id in t.rows ==> id in d.rows && t.rows[id] == d.rows[id]
    ensures NamesAgree(t)
  {
  }

  /** A row keeps its audio when entries with audio and intents are only added to. */
  lemma RowAudioCarries(d: Disk, t: Disk, r: Row)
    requires RowHasAudio(d, r) && d.journal <= t.journal
    requires forall p :: p in d.files && d.files[p].audio ==> p in t.files && t.files[p] == d.files[p]
    ensures RowHasAudio(t, r)
  {
  }

  lemma CoverCarries(d: Disk, t: Disk, p: Name)
    requires Owned(d, p) || Mentioned(d, p)
    requires d.journal <= t.journal && forall id :: id in d.rows ==> id in t.rows && t.rows[id] == d.rows[id]
    ensures Owned(t, p) || Mentioned(t, p)
  {
  }

  lemma {:induction false} FillKeepsInv(d: Disk, p: Name)
    requires Inv(d) && Safe(d, Fill(p))
    ensures Inv(Apply(d, Fill(p)))
  {
    var t := Apply(d, Fill(p));
    forall id | id in t.rows ensures RowHasAudio(t, t.rows[id]) {
      RowAudioCarries(d, t, d.rows[id]);
    }
    forall q | q in t.files && t.files[q].audio ensures Owned(t, q) || Mentioned(t, q) {
      CoverCarries(d, t, q);
    }
    forall j | j in t.journal ensures IntentHolds(t, j) { assert IntentHolds(d, j); }
    FillNames(d, p);
  }

  lemma FillNames(d: Disk, p: Name)
    requires NamesAgree(d)
    ensures NamesAgree(Apply(d, Fill(p)))
  {
  }

  lemma {:induction false} AddIntentKeepsInv(d: Disk, i: Intent)
    requires Inv(d) && Safe(d, AddIntent(i))
    ensures Inv(Apply(d, AddIntent(i)))
  {
    var t := Apply(d, AddIntent(i));
    forall id | id in t.rows ensures RowHasAudio(t, t.rows[id]) {
      RowAudioCarries(d, t, d.rows[id]);
    }
    forall q | q in t.files && t.files[q].audio ensures Owned(t, q) || Mentioned(t, q) {
      CoverCarries(d, t, q);
    }
    forall j | j in t.journal ensures IntentHolds(t, j) {
      assert j in d.journal ==> IntentHolds(d, j);
    }
    AddIntentNames(d, i);
  }

  lemma AddIntentNames(d: Disk, i: Intent)
    requires NamesAgree(d) && Safe(d, AddIntent(i))
    ensures NamesAgree(Apply(d, AddIntent(i)))
  {
    var t := Apply(d, AddIntent(i));
    assert forall j :: j in d.journal ==> j.original != i.staged && j.staged != i.staged;
    assert forall id :: id in d.rows ==> d.rows[id].path != i.staged;
    assert t.files == d.files && t.rows == d.rows && forall j :: j in t.journal <==> j in d.journal || j == i;
  }

  lemma MoveRow(d: Disk, i: Intent, from: Name, to: Name, id: Id)
    requires Inv(d) && i in d.journal && from in d.files && to !in d.files && id in d.rows
    requires (from == i.staged && to == i.original) || (from == i.original && to == i.staged)
    ensures RowHasAudio(d.(files := (d.files - {from})[to := d.files[from]]), d.rows[id])
  {
  }

  /** Moving an entry between the two names of its intent. */
  lemma {:induction false} MoveKeepsInv(d: Disk, i: Intent, from: Name, to: Name)
    requires Inv(d) && i in d.journal && from in d.files && to !in d.files
    requires (from == i.staged && to == i.original) || (from == i.original && to == i.staged)
    ensures Inv(d.(files := (d.files - {from})[to := d.files[from]]))
  {
    var t := d.(files := (d.files - {from})[to := d.files[from]]);
    assert IntentHolds(d, i);
    MoveNames(d, from, to);
    forall j | j in t.journal ensures IntentHolds(t, j) {
      assert IntentHolds(d, j);
      if j.staged == i.staged {
        assert j == i;
      }
    }
    forall id | id in t.rows ensures RowHasAudio(t, t.rows[id]) {
      MoveRow(d, i, from, to, id);
    }
    forall q | q in t.files && t.files[q].audio ensures Owned(t, q) || Mentioned(t, q) {
      if q == to {
        assert i in t.journal;
      } else {
        CoverCarries(d, t, q);
      }
    }
  }

  lemma MoveNames(d: Disk, from: Name, to: Name)
    requires NamesAgree(d) && from in d.files && to !in d.files
    ensures var t := d.(files := (d.files - {from})[to := d.files[from]]);
            && NamesAgree(t)
            && forall p :: p in t.files ==> p == to || (p in d.files && p != from && t.files[p] == d.files[p])
  {
  }

  lemma {:induction false} PutRowKeepsInv(d: Disk, id: Id, r: Row)
    requires Inv(d) && Safe(d, PutRow(id, r))
    ensures Inv(Apply(d, PutRow(id, r)))
  {
    var t := Apply(d, PutRow(id, r));
    forall other | other in t.rows ensures RowHasAudio(t, t.rows[other]) {
      if other != id {
        RowAudioCarries(d, t, d.rows[other]);
      }
    }
    forall q | q in t.files && t.files[q].audio ensures Owned(t, q) || Mentioned(t, q) {
      CoverCarries(d, t, q);
    }
    forall j | j in t.journal ensures IntentHolds(t, j) { assert IntentHolds(d, j); }
    PutRowNames(d, id, r);
  }

  lemma PutRowNames(d: Disk, id: Id, r: Row)
    requires NamesAgree(d) && Safe(d, PutRow(id, r))
    ensures NamesAgree(Apply(d, PutRow(id, r)))
  {
  }

  lemma {:induction false} DropRowKeepsInv(d: Disk, id: Id)
    requires Inv(d) && Safe(d, DropRow(id))
    ensures Inv(Apply(d, DropRow(id)))
  {
    var t := Apply(d, DropRow(id));
    forall other | other in t.rows ensures RowHasAudio(t, t.rows[other]) {
      RowAudioCarries(d, t, d.rows[other]);
    }
    forall q | q in t.files && t.files[q].audio ensures Owned(t, q) || Mentioned(t, q) {
      if q != d.rows[id].path {
        if Owned(d, q) {
          var other :| other in d.rows && d.rows[other].path == q;
          assert other in t.rows;
        } else {
          var i :| i in d.journal && (i.original == q || i.staged == q);
          assert i in t.journal;
        }
      } else if Mentioned(d, q) {
        var i :| i in d.journal && (i.original == q || i.staged == q);
        assert i in t.journal;
      }
    }
    PartAgrees(d, t);
    forall j | j in t.journal ensures IntentHolds(t, j) { assert IntentHolds(d, j); }
  }

  lemma {:induction false} DropFileKeepsInv(d: Disk, p: Name)
    requires Inv(d) && Safe(d, DropFile(p))
    ensures Inv(Apply(d, DropFile(p)))
  {
    var t := Apply(d, DropFile(p));
    forall id | id in t.rows ensures RowHasAudio(t, t.rows[id]) {
      var r := d.rows[id];
      assert RowHasAudio(d, r);
      if !AudioAt(d, r.path, r.audio) {
        var i :| i in d.journal && i.original == r.path && i.inode == r.audio && AudioAt(d, i.staged, r.audio);
        assert Owned(d, i.original);
        assert i in t.journal && AudioAt(t, i.staged, r.audio);
      } else {
        assert Owned(d, r.path);
      }
    }
    PartAgrees(d, t);
    forall q | q in t.files && t.files[q].audio ensures Owned(t, q) || Mentioned(t, q) {
      CoverCarries(d, t, q);
    }
    forall j | j in t.journal ensures IntentHolds(t, j) { assert IntentHolds(d, j); }
  }

  lemma {:induction false} DropIntentKeepsInv(d: Disk, i: Intent)
    requires Inv(d) && Safe(d, DropIntent(i))
    ensures Inv(Apply(d, DropIntent(i)))
  {
  }

  /** Every safe effect keeps the invariant. */
  lemma SafeEffectKeepsInv(d: Disk, e: Effect)
    requires Inv(d) && Safe(d, e)
    requires e.PutFile? ==> FreshInode(d, e.entry.inode)
    ensures Inv(Apply(d, e))
  {
    match e
    case Nothing =>
    case PutFile(p, entry) => PutFileKeepsInv(d, p, entry);
    case Fill(p) => FillKeepsInv(d, p);
    case AddIntent(i) => AddIntentKeepsInv(d, i);
    case Unhide(i) => MoveKeepsInv(d, i, i.staged, i.original);
    case Hide(i) => MoveKeepsInv(d, i, i.original, i.staged);
    case PutRow(id, r) => PutRowKeepsInv(d, id, r);
    case DropRow(id) => DropRowKeepsInv(d, id);
    case DropFile(p) => DropFileKeepsInv(d, p);
    case DropIntent(i) => DropIntentKeepsInv(d, i);
  }

  // ---- Reconciliation and recovery ----

  datatype ReconcileError = BothExist | IdentityChanged

  /** Finishes one intent from the committed rows: an owned entry is put back, an unowned one discarded. */
  function Reconcile(d: Disk, i: Intent): Result<Disk, ReconcileError> {
    if i.original in d.files && i.staged in d.files then
      Err(BothExist)
    else if i.original in d.files then
      if d.files[i.original].inode != i.inode then Err(IdentityChanged)
      else if !Owned(d, i.original) then Ok(Apply(Apply(d, DropFile(i.original)), DropIntent(i)))
      else Ok(Apply(d, DropIntent(i)))
    else if i.staged !in d.files then
      Ok(Apply(d, DropIntent(i)))
    else if d.files[i.staged].inode != i.inode then
      Err(IdentityChanged)
    else
      Ok(Apply(Apply(d, if Owned(d, i.original) then Unhide(i) else DropFile(i.staged)), DropIntent(i)))
  }

  /** Under the invariant an intent can always be finished, and finishing it keeps the invariant. */
  lemma ReconcileSucceeds(d: Disk, i: Intent)
    requires Inv(d) && i in d.journal
    ensures Reconcile(d, i).Ok?
    ensures var t := Reconcile(d, i).value; Inv(t) && t.journal == d.journal - {i} && t.rows == d.rows
  {
    var first := FirstEffect(d, i);
    ReconcileIsTwoEffects(d, i);
    FirstEffectSafe(d, i);
    SafeEffectKeepsInv(d, first);
    SafeEffectKeepsInv(Apply(d, first), DropIntent(i));
  }

  lemma {:induction false} ReconcileIsTwoEffects(d: Disk, i: Intent)
    requires IntentHolds(d, i)
    ensures var t := Apply(Apply(d, FirstEffect(d, i)), DropIntent(i));
            Reconcile(d, i) == Ok(t) && t.journal == d.journal - {i} && t.rows == d.rows
  {
  }

  /** What reconciliation does to the files before it retires the intent. */
  function FirstEffect(d: Disk, i: Intent): Effect {
    if i.original in d.files then (if Owned(d, i.original) then Nothing else DropFile(i.original))
    else if i.staged in d.files then (if Owned(d, i.original) then Unhide(i) else DropFile(i.staged))
    else Nothing
  }

  lemma FirstEffectSafe(d: Disk, i: Intent)
    requires Inv(d)
    requires i in d.journal || (i.original !in d.files && i.staged !in d.files)
    ensures Safe(d, FirstEffect(d, i))
    ensures Safe(Apply(d, FirstEffect(d, i)), DropIntent(i))
  {
  }

  /** Nothing is pending, every row has its audio at its path, and all other audio is gone. */
  predicate Settled(d: Disk) {
    && d.journal == {}
    && (forall id :: id in d.rows ==> AudioAt(d, d.rows[id].path, d.rows[id].audio))
    && (forall p :: p in d.files && d.files[p].audio ==> Owned(d, p))
  }

  /** The order of the journal does not matter: settled disks with the same rows hold the same audio. */
  lemma SettledAudioIsDetermined(t: Disk, u: Disk, p: Name, inode: nat)
    requires Settled(t) && Settled(u) && t.rows == u.rows && AudioAt(t, p, inode)
    ensures AudioAt(u, p, inode)
  {
  }

  /** Startup: the intents are finished in whatever order the directory lists them. */
  method Recover(d: Disk) returns (t: Disk)
    requires Inv(d)
    ensures Settled(t)
    ensures t.rows == d.rows
  {
    t := d;
    while t.journal != {}
      invariant Inv(t) && t.rows == d.rows
      decreases t.journal
    {
      var i :| i in t.journal;
      ReconcileSucceeds(t, i);
      var result := Reconcile(t, i);
      if result.Err? {
        assert false;
      }
      t := result.value;
    }
  }
}
