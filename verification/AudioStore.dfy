/**
 Durable effects attempted one at a time, while other requests work on other names.

 An attempt can fail before or after its effect became durable, and the process can die at it.  Between two
 attempts the rest of the program may do anything that keeps the invariant and stays off this request's
 footprint; every attempt, in turn, stays within the footprint of the request that makes it.
 */
module AudioStore {
  import opened AudioJournal
  import opened Wrappers

  /** The names and row ids that one request works on. */
  datatype Footprint = Footprint(names: set<Name>, ids: set<Id>)

  /** What a request can rely on: the part of the disk that only it changes. */
  function View(d: Disk, fp: Footprint): Disk {
    Disk(
      map p | p in d.files && p in fp.names :: d.files[p],
      map id | id in d.rows && (id in fp.ids || d.rows[id].path in fp.names) :: d.rows[id],
      set i | i in d.journal && (i.original in fp.names || i.staged in fp.names))
  }

  /** A step of the rest of the program. */
  predicate EnvStep(d: Disk, e: Disk, fp: Footprint) {
    Inv(e) && View(e, fp) == View(d, fp)
  }

  /** The effect concerns nothing outside the footprint. */
  predicate Within(d: Disk, e: Effect, fp: Footprint) {
    match e
    case Nothing => true
    case PutFile(p, _) => p in fp.names
    case Fill(p) => p in fp.names
    case AddIntent(i) => i.original in fp.names && i.staged in fp.names
    case Unhide(i) => i.original in fp.names && i.staged in fp.names
    case Hide(i) => i.original in fp.names && i.staged in fp.names
    case PutRow(id, r) => id in fp.ids && r.path in fp.names && (id in d.rows ==> d.rows[id].path in fp.names)
    case DropRow(id) => id in fp.ids && (id in d.rows ==> d.rows[id].path in fp.names)
    case DropFile(p) => p in fp.names && forall i :: i in d.journal && i.staged == p ==> i.original in fp.names
    case DropIntent(i) => i.original in fp.names && i.staged in fp.names
  }

  lemma ViewOwned(d: Disk, fp: Footprint, p: Name)
    requires p in fp.names
    ensures Owned(View(d, fp), p) == Owned(d, p)
  {
    if Owned(d, p) {
      var id :| id in d.rows && d.rows[id].path == p;
      assert id in View(d, fp).rows;
    }
  }

  lemma ViewMentioned(d: Disk, fp: Footprint, p: Name)
    requires p in fp.names
    ensures Mentioned(View(d, fp), p) == Mentioned(d, p)
  {
  }

  /** An effect within the footprint has the same effect on the view. */
  lemma ViewCommutes(d: Disk, e: Effect, fp: Footprint)
    requires Within(View(d, fp), e, fp)
    ensures View(Apply(d, e), fp) == Apply(View(d, fp), e)
  {
  }

  /** What is safe on the view is safe. */
  lemma ViewSafe(d: Disk, e: Effect, fp: Footprint)
    requires Within(View(d, fp), e, fp) && Safe(View(d, fp), e)
    ensures Safe(d, e)
  {
    var v := View(d, fp);
    match e
    case PutFile(p, _) => ViewOwned(d, fp, p); ViewMentioned(d, fp, p);
    case Fill(p) => ViewMentioned(d, fp, p);
    case AddIntent(i) =>
      ViewOwned(d, fp, i.staged);
      ViewMentioned(d, fp, i.staged);
      assert forall j :: j in d.journal && (j.staged == i.original || j.original == i.original) ==> j in v.journal;
      assert forall id :: id in d.rows && d.rows[id].path == i.original ==> id in v.rows;
    case PutRow(id, r) =>
      ViewOwned(d, fp, r.path);
      assert id in d.rows ==> id in v.rows;
      assert forall j :: j in d.journal && (j.staged == r.path || j.original == r.path) ==> j in v.journal;
    case DropRow(id) =>
      ViewCommutes(d, e, fp);
      var path := d.rows[id].path;
      ViewOwned(Apply(d, e), fp, path);
      ViewMentioned(d, fp, path);
    case DropFile(p) =>
      ViewOwned(d, fp, p);
      forall i | i in d.journal && i.staged == p
        ensures i in v.journal && Owned(v, i.original) == Owned(d, i.original)
      {
        assert i in v.journal;
        ViewOwned(d, fp, i.original);
      }
    case DropIntent(i) => ViewOwned(d, fp, i.original);
    case _ =>
  }

  /** What one request does is, for every request with a disjoint footprint, a step of the rest of the program. */
  lemma EffectIsEnvStep(d: Disk, e: Effect, mine: Footprint, theirs: Footprint)
    requires Inv(d) && Within(View(d, mine), e, mine) && Safe(View(d, mine), e)
    requires e.PutFile? ==> FreshInode(d, e.entry.inode)
    requires mine.names !! theirs.names && mine.ids !! theirs.ids
    ensures EnvStep(d, Apply(d, e), theirs)
  {
    ViewSafe(d, e, mine);
    SafeEffectKeepsInv(d, e);
    OthersSeeNothing(d, e, mine, theirs);
  }

  lemma {:induction false} OthersSeeNothing(d: Disk, e: Effect, mine: Footprint, theirs: Footprint)
    requires Within(View(d, mine), e, mine)
    requires mine.names !! theirs.names && mine.ids !! theirs.ids
    ensures View(Apply(d, e), theirs) == View(d, theirs)
  {
  }

  // ---- Attempts ----

  datatype Ending = Done | Raised | Crashed

  datatype RawOutcome = RawOutcome(ending: Ending, applied: bool)

  type Outcome = o: RawOutcome | o.ending == Done ==> o.applied witness RawOutcome(Done, true)

  /** What an attempt adds to the count of things that went wrong. */
  function Fault(ending: Ending): nat {
    if ending == Done then 0 else 1
  }

  class Store {
    var disk: Disk
    var faults: nat             // everything that was not done as asked, so far

    constructor ()
      ensures disk == Disk(map[], map[], {}) && faults == 0
    {
      disk, faults := Disk(map[], map[], {}), 0;
    }

    /** A rollback, or opening an independent session, which may fail but changes nothing durable. */
    method Consult() returns (ok: bool)
      modifies this`faults
      ensures faults == old(faults) + (if ok then 0 else 1)
    {
      ok := *;
      faults := faults + (if ok then 0 else 1);
    }

    /** The rest of the program runs for a while. */
    method Interfere(fp: Footprint)
      requires Inv(disk)
      modifies this`disk
      ensures EnvStep(old(disk), disk, fp)
    {
      var next: Disk := *;
      if EnvStep(disk, next, fp) {
        disk := next;
      }
    }

    method Attempt(e: Effect, fp: Footprint) returns (outcome: Outcome)
      requires Inv(disk) && !e.PutFile?
      requires Within(View(disk, fp), e, fp) && Safe(View(disk, fp), e)
      modifies this
      ensures Inv(disk) && faults == old(faults) + Fault(outcome.ending)
      ensures View(disk, fp) == (if outcome.applied then Apply(old(View(disk, fp)), e) else old(View(disk, fp)))
    {
      Interfere(fp);
      outcome := *;
      faults := faults + Fault(outcome.ending);
      if outcome.applied {
        ViewSafe(disk, e, fp);
        ViewCommutes(disk, e, fp);
        SafeEffectKeepsInv(disk, e);
        disk := Apply(disk, e);
      }
    }

    /** Creates an empty private file; the file system gives it an inode that no other entry has. */
    method PlaceFile(p: Name, fp: Footprint) returns (outcome: Outcome, inode: nat)
      requires Inv(disk) && p in fp.names
      requires Safe(View(disk, fp), PutFile(p, Entry(0, false)))
      modifies this
      ensures Inv(disk) && faults == old(faults) + Fault(outcome.ending)
      ensures View(disk, fp)
           == (if outcome.applied then Apply(old(View(disk, fp)), PutFile(p, Entry(inode, false)))
               else old(View(disk, fp)))
    {
      Interfere(fp);
      inode := NextInode(disk.files);
      outcome := *;
      faults := faults + Fault(outcome.ending);
      if outcome.applied {
        var e := PutFile(p, Entry(inode, false));
        ViewSafe(disk, e, fp);
        ViewCommutes(disk, e, fp);
        SafeEffectKeepsInv(disk, e);
        disk := Apply(disk, e);
      }
    }

    /**
     Finishes one intent at run time.  Whatever goes wrong is swallowed, and the intent is then left for startup;
     if nothing does, the result is the one startup would have reached.
     */
    method ReconcileNow(i: Intent, fp: Footprint) returns (ending: Ending)
      requires Inv(disk) && i.original in fp.names && i.staged in fp.names
      requires var v := View(disk, fp);
               && (i in v.journal || (i.original !in v.files && i.staged !in v.files))
               && forall j :: j in v.journal && (j.staged == i.original || j.staged == i.staged) ==>
                    j.original in fp.names
      modifies this
      ensures Inv(disk) && faults == old(faults) + Fault(ending)
      ensures ending == Done ==> Reconcile(old(View(disk, fp)), i) == Ok(View(disk, fp))
      ensures View(disk, fp) in ReconcileStages(old(View(disk, fp)), i)
    {
      FirstEffectOnView(disk, i, fp);
      var outcome := Attempt(FirstEffect(View(disk, fp), i), fp);
      if outcome.ending != Done {
        return outcome.ending;
      }
      outcome := Attempt(DropIntent(i), fp);
      ending := outcome.ending;
    }
  }

  /** The states that finishing an intent passes through: untouched, files settled, intent retired. */
  function ReconcileStages(v: Disk, i: Intent): set<Disk> {
    var settled := Apply(v, FirstEffect(v, i));
    {v, settled, Apply(settled, DropIntent(i))}
  }

  lemma FirstEffectOnView(d: Disk, i: Intent, fp: Footprint)
    requires Inv(d) && i.original in fp.names && i.staged in fp.names
    requires var v := View(d, fp);
             && (i in v.journal || (i.original !in v.files && i.staged !in v.files))
             && forall j :: j in v.journal && (j.staged == i.original || j.staged == i.staged) ==>
                  j.original in fp.names
    ensures var v := View(d, fp);
            var first := FirstEffect(v, i);
            && Safe(v, first) && Within(v, first, fp)
            && Safe(Apply(v, first), DropIntent(i))
            && Reconcile(v, i) == Ok(Apply(Apply(v, first), DropIntent(i)))
  {
  }

  function Inodes(files: map<Name, Entry>): set<nat> {
    set p | p in files :: files[p].inode
  }

  function NextInode(files: map<Name, Entry>): (inode: nat)
    ensures forall p :: p in files ==> files[p].inode != inode
  {
    var inode := Above(Inodes(files));
    assert forall p :: p in files ==> files[p].inode in Inodes(files);
    inode
  }

  function Above(s: set<nat>): (bound: nat)
    ensures forall n :: n in s ==> n < bound
  {
    if s == {} then 0
    else
      LargestExists(s);
      var largest :| largest in s && forall n :: n in s ==> n <= largest;
      largest + 1
  }

  lemma {:induction false} LargestExists(s: set<nat>)
    requires s != {}
    ensures exists m :: m in s && forall n :: n in s ==> n <= m
    decreases s
  {
    var x :| x in s;
    var rest := s - {x};
    if rest == {} {
      LargerOfTwo(s, x, x);
    } else {
      LargestExists(rest);
      var m :| m in rest && forall n :: n in rest ==> n <= m;
      LargerOfTwo(s, x, m);
    }
  }

  lemma {:induction false} LargerOfTwo(s: set<nat>, x: nat, m: nat)
    requires x in s && m in s && forall n :: n in s - {x} ==> n <= m
    ensures exists k :: k in s && forall n :: n in s ==> n <= k
  {
    forall n | n in s ensures n <= m || n <= x {
      assert n == x || n in s - {x};
    }
    if m < x {
      assert forall n :: n in s ==> n <= x;
    }
  }
}
