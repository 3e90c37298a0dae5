/**
 Every run of exact submissions: retries, races between identical requests, commits of unknown outcome,
 queue rejections, and rows deleted in between.
 */
module ExactBatchRuns {
  import opened Wrappers
  import opened ExactBatch

  type Tid = nat

  /** How far a request that found none of its ids has come. */
  datatype Pending = Prepared(batch: Batch) | Stored(batch: Batch, incarnation: nat)

  /** A queued unit: the row it was queued for, told from later rows with the same id. */
  datatype Ticket = Ticket(id: Id, incarnation: nat)

  /** `history[n]` is the envelope stored as incarnation `n`, or `None` for a row of another route. */
  datatype State = State(
    rows: map<Id, Row>,
    pending: map<Tid, Pending>,
    enqueued: seq<Ticket>,
    live: set<Id>,
    history: seq<Option<Batch>>)

  /** How a commit ends: acknowledged or proved; not durable; or durable without the request learning of it. */
  datatype Commit = Acknowledged | NotDurable | Unproved(reconciled: bool)

  datatype Action =
    | Begin(tid: Tid, items: seq<Item>, server: Server)
    | Insert(tid: Tid, commit: Commit)
    | Enqueue(tid: Tid, room: bool)
    | Progress(id: Id, status: Status)      // a worker, or another route
    | Leave(id: Id)                         // the queue is done with an id
    | Delete(id: Id)
    | AddOther(id: Id, contract: Contract)  // a row that carries no envelope

  // ---- Changes to the rows ----

  predicate Active(row: Row) {
    row.status == Generating || row.status == LoadingModel
  }

  function SetStatus(rows: map<Id, Row>, ids: seq<Id>, status: Status): map<Id, Row> {
    map id | id in rows :: if id in ids then rows[id].(status := status) else rows[id]
  }

  /** The rows of an envelope that nobody will run any more are made terminal; statuses that are final stay. */
  function FailUnowned(rows: map<Id, Row>, ids: seq<Id>, live: set<Id>): map<Id, Row> {
    if exists id :: id in ids && id in live then rows
    else map id | id in rows :: if id in ids && Active(rows[id]) then rows[id].(status := Failed) else rows[id]
  }

  function StoreAll(rows: map<Id, Row>, items: seq<Item>, contracts: seq<Contract>, n: nat): map<Id, Row>
    requires |contracts| == |items|
    decreases |items|
  {
    if items == [] then rows
    else StoreAll(rows[items[0].id := Row(contracts[0], Generating, n)], items[1..], contracts[1..], n)
  }

  lemma {:induction false} StoreAllStores(rows: map<Id, Row>, items: seq<Item>, contracts: seq<Contract>, n: nat)
    requires |contracts| == |items| && Distinct(Ids(items))
    ensures var t := StoreAll(rows, items, contracts, n);
            && (forall id :: id in t <==> id in rows || id in Ids(items))
            && (forall id :: id in rows && id !in Ids(items) ==> t[id] == rows[id])
            && (forall k :: 0 <= k < |items| ==>
                  items[k].id in t && t[items[k].id] == Row(contracts[k], Generating, n))
    decreases |items|
  {
    if items == [] {
      assert Ids(items) == [];
    } else {
      var rest := items[1..];
      TailIds(items);
      StoreAllStores(rows[items[0].id := Row(contracts[0], Generating, n)], rest, contracts[1..], n);
      forall k | 0 < k < |items|
        ensures items[k].id in StoreAll(rows, items, contracts, n)
             && StoreAll(rows, items, contracts, n)[items[k].id] == Row(contracts[k], Generating, n)
      {
        assert rest[k - 1] == items[k] && contracts[1..][k - 1] == contracts[k];
      }
    }
  }

  lemma TailIds(items: seq<Item>)
    requires items != [] && Distinct(Ids(items))
    ensures Ids(items) == [items[0].id] + Ids(items[1..])
    ensures Distinct(Ids(items[1..])) && items[0].id !in Ids(items[1..])
  {
    assert forall k :: 0 <= k < |items[1..]| ==> Ids(items[1..])[k] == Ids(items)[k + 1] != Ids(items)[0];
  }

  predicate NoneStored(items: seq<Item>, rows: map<Id, Row>) {
    forall k :: 0 <= k < |items| ==> items[k].id !in rows
  }

  // ---- One step ----

  predicate Enabled(s: State, a: Action) {
    match a
    case Begin(tid, _, _) => tid !in s.pending
    case Insert(tid, _) => tid in s.pending && s.pending[tid].Prepared?
    case Enqueue(tid, _) => tid in s.pending && s.pending[tid].Stored?
    case AddOther(id, contract) => id !in s.rows && contract.envelope == None
    case _ => true
  }

  function Tickets(items: seq<Item>, n: nat): (tickets: seq<Ticket>)
    ensures |tickets| == |items|
  {
    seq(|items|, k requires 0 <= k < |items| => Ticket(items[k].id, n))
  }

  function Begun(s: State, tid: Tid, items: seq<Item>, server: Server): State {
    match Examine(items, s.rows, server)
    case Reattached(_) => s.(rows := FailUnowned(s.rows, Ids(items), s.live))
    case Refused => s
    case Fresh =>
      if Acceptable(items, server) then s.(pending := s.pending[tid := Prepared(Accept(items, server))]) else s
  }

  function Stores(s: State, b: Batch): State
    requires Sound(b)
  {
    s.(rows := StoreAll(s.rows, b.items, b.contracts, |s.history|), history := s.history + [Some(b)])
  }

  /** The ids are primary keys: a batch is stored whole, or not at all when one of them is taken. */
  function Inserted(s: State, tid: Tid, b: Batch, commit: Commit): State
    requires Sound(b)
  {
    var gone := s.(pending := s.pending - {tid});
    if !NoneStored(b.items, s.rows) || commit == NotDurable then gone
    else
      match commit
      case Acknowledged => Stores(s, b).(pending := s.pending[tid := Stored(b, |s.history|)])
      case Unproved(reconciled) =>
        var stored := Stores(s, b).(pending := s.pending - {tid});
        if reconciled && MatchOf(b.items, stored.rows).Reattached?
        then stored.(rows := FailUnowned(stored.rows, Ids(b.items), s.live))
        else stored
  }

  function Queued(s: State, tid: Tid, p: Pending, room: bool): State
    requires p.Stored?
  {
    var ids := Ids(p.batch.items);
    var gone := s.(pending := s.pending - {tid});
    if room && forall id :: id in ids ==> id !in s.live then
      gone.(enqueued := s.enqueued + Tickets(p.batch.items, p.incarnation), live := s.live + set id | id in ids)
    else gone.(rows := SetStatus(s.rows, ids, Failed))
  }

  function Step(s: State, a: Action): State
    requires Inv(s) && Enabled(s, a)
  {
    match a
    case Begin(tid, items, server) => Begun(s, tid, items, server)
    case Insert(tid, commit) => Inserted(s, tid, s.pending[tid].batch, commit)
    case Enqueue(tid, room) => Queued(s, tid, s.pending[tid], room)
    case Progress(id, status) => s.(rows := SetStatus(s.rows, [id], status))
    case Leave(id) => s.(live := s.live - {id})
    case Delete(id) => s.(rows := s.rows - {id})
    case AddOther(id, contract) =>
      s.(rows := s.rows[id := Row(contract, Generating, |s.history|)], history := s.history + [None])
  }

  // ---- The invariant ----

  /** The row is a unit of the batch, with the contract it was accepted with. */
  predicate UnitOf(id: Id, row: Row, b: Batch) {
    && Sound(b)
    && exists k :: 0 <= k < |b.items| && b.items[k].id == id && row.contract == b.contracts[k]
  }

  predicate RowExplained(id: Id, row: Row, history: seq<Option<Batch>>) {
    && row.incarnation < |history|
    && match history[row.incarnation]
       case None => row.contract.envelope == None
       case Some(b) => UnitOf(id, row, b)
  }

  predicate RowsExplained(s: State) {
    forall id :: id in s.rows ==> RowExplained(id, s.rows[id], s.history)
  }

  /** The ids that were stored as one incarnation by this route. */
  function IdsOf(history: seq<Option<Batch>>, n: nat): seq<Id> {
    if n < |history| && history[n].Some? then Ids(history[n].value.items) else []
  }

  /** No stored row is older than a stored row of an envelope that has its id. */
  predicate NoneOverwritten(s: State) {
    forall id, later :: id in s.rows && later in s.rows && s.rows[id].incarnation < s.rows[later].incarnation ==>
      id !in IdsOf(s.history, s.rows[later].incarnation)
  }

  predicate PendingHolds(s: State) {
    forall tid :: tid in s.pending ==>
      var p := s.pending[tid];
      && Sound(p.batch)
      && (p.Stored? ==>
            && p.incarnation < |s.history|
            && (forall t :: t in s.enqueued ==> t.incarnation != p.incarnation)
            && (forall other :: other in s.pending && s.pending[other].Stored? && other != tid ==>
                  s.pending[other].incarnation != p.incarnation))
  }

  predicate EnqueuedOnce(s: State) {
    Distinct(s.enqueued) && forall t :: t in s.enqueued ==> t.incarnation < |s.history|
  }

  predicate Inv(s: State) {
    RowsExplained(s) && NoneOverwritten(s) && PendingHolds(s) && EnqueuedOnce(s)
  }

  /** A change of statuses, or the loss of some rows. */
  predicate Weakened(before: map<Id, Row>, after: map<Id, Row>) {
    forall id :: id in after ==>
      id in before && after[id].contract == before[id].contract && after[id].incarnation == before[id].incarnation
  }

  lemma WeakenedKeepsInv(s: State, rows: map<Id, Row>)
    requires Inv(s) && Weakened(s.rows, rows)
    ensures Inv(s.(rows := rows))
  {
  }

  lemma {:induction false} StoringKeepsInv(s: State, tid: Tid, b: Batch)
    requires Inv(s) && Sound(b) && NoneStored(b.items, s.rows)
    ensures Inv(Stores(s, b).(pending := s.pending - {tid}))
    ensures Inv(Stores(s, b).(pending := s.pending[tid := Stored(b, |s.history|)]))
  {
    StoringExplains(s, b);
    StoringOverwritesNothing(s, b);
    var t := Stores(s, b);
    assert PendingHolds(t.(pending := s.pending - {tid}));
    assert PendingHolds(t.(pending := s.pending[tid := Stored(b, |s.history|)]));
  }

  lemma {:induction false} StoringExplains(s: State, b: Batch)
    requires RowsExplained(s) && Sound(b) && NoneStored(b.items, s.rows)
    ensures RowsExplained(Stores(s, b))
  {
    var t := Stores(s, b);
    StoreAllStores(s.rows, b.items, b.contracts, |s.history|);
    forall id | id in t.rows ensures RowExplained(id, t.rows[id], t.history) {
      if id in Ids(b.items) {
        var k :| 0 <= k < |b.items| && Ids(b.items)[k] == id;
        assert UnitOf(id, t.rows[id], b);
      } else {
        assert RowExplained(id, s.rows[id], s.history);
      }
    }
  }

  lemma {:induction false} StoringOverwritesNothing(s: State, b: Batch)
    requires RowsExplained(s) && NoneOverwritten(s) && Sound(b) && NoneStored(b.items, s.rows)
    ensures NoneOverwritten(Stores(s, b))
  {
    var t := Stores(s, b);
    StoreAllStores(s.rows, b.items, b.contracts, |s.history|);
    forall id, later | id in t.rows && later in t.rows && t.rows[id].incarnation < t.rows[later].incarnation
      ensures id !in IdsOf(t.history, t.rows[later].incarnation)
    {
      NewRowsAreNewest(s, b, id);
      NewRowsAreNewest(s, b, later);
    }
  }

  lemma {:induction false} NewRowsAreNewest(s: State, b: Batch, id: Id)
    requires RowsExplained(s) && Sound(b) && NoneStored(b.items, s.rows) && id in Stores(s, b).rows
    ensures id in s.rows ==>
              id !in Ids(b.items) && Stores(s, b).rows[id] == s.rows[id] && s.rows[id].incarnation < |s.history|
    ensures id !in s.rows ==> Stores(s, b).rows[id].incarnation == |s.history|
  {
    StoreAllStores(s.rows, b.items, b.contracts, |s.history|);
    if id in Ids(b.items) {
      var k :| 0 <= k < |b.items| && Ids(b.items)[k] == id;
    }
    assert id in s.rows ==> RowExplained(id, s.rows[id], s.history);
  }

  lemma {:induction false} QueueingKeepsInv(s: State, tid: Tid)
    requires Inv(s) && tid in s.pending && s.pending[tid].Stored?
    ensures var p := s.pending[tid];
            Inv(s.(pending := s.pending - {tid}, enqueued := s.enqueued + Tickets(p.batch.items, p.incarnation)))
  {
    var p := s.pending[tid];
    var tickets := Tickets(p.batch.items, p.incarnation);
    assert forall k :: 0 <= k < |tickets| ==> tickets[k].id == Ids(p.batch.items)[k];
    assert forall t :: t in tickets ==> t.incarnation == p.incarnation;
    var enqueued := s.enqueued + tickets;
    assert forall j :: 0 <= j < |s.enqueued| ==> s.enqueued[j] in s.enqueued;
    assert forall t :: t in enqueued ==> t in s.enqueued || t in tickets;
  }

  lemma {:induction false} InsertKeepsInv(s: State, tid: Tid, commit: Commit)
    requires Inv(s) && tid in s.pending && s.pending[tid].Prepared?
    ensures Sound(s.pending[tid].batch)
    ensures Inv(Inserted(s, tid, s.pending[tid].batch, commit))
  {
    var b := s.pending[tid].batch;
    ForgettingKeepsInv(s, tid);
    if NoneStored(b.items, s.rows) && commit != NotDurable {
      StoringKeepsInv(s, tid, b);
      var stored := Stores(s, b).(pending := s.pending - {tid});
      WeakenedKeepsInv(stored, FailUnowned(stored.rows, Ids(b.items), s.live));
    }
  }

  lemma {:induction false} ForgettingKeepsInv(s: State, tid: Tid)
    requires Inv(s)
    ensures Inv(s.(pending := s.pending - {tid}))
  {
  }

  lemma {:induction false} QueueOwnershipIsFree(s: State, live: set<Id>)
    requires Inv(s)
    ensures Inv(s.(live := live))
  {
  }

  lemma {:induction false} EnqueueKeepsInv(s: State, tid: Tid, room: bool)
    requires Inv(s) && tid in s.pending && s.pending[tid].Stored?
    ensures Inv(Queued(s, tid, s.pending[tid], room))
  {
    var p, t := s.pending[tid], Queued(s, tid, s.pending[tid], room);
    if t.enqueued != s.enqueued {
      var queued := s.(pending := t.pending, enqueued := s.enqueued + Tickets(p.batch.items, p.incarnation));
      QueueingKeepsInv(s, tid);
      QueueOwnershipIsFree(queued, t.live);
      assert t == queued.(live := t.live);
    } else {
      ForgettingKeepsInv(s, tid);
      WeakenedKeepsInv(s.(pending := s.pending - {tid}), SetStatus(s.rows, Ids(p.batch.items), Failed));
      QueuedNothing(s, tid, room);
    }
  }

  lemma {:induction false} QueuedNothing(s: State, tid: Tid, room: bool)
    requires Inv(s) && tid in s.pending && s.pending[tid].Stored?
    requires Queued(s, tid, s.pending[tid], room).enqueued == s.enqueued
    ensures Queued(s, tid, s.pending[tid], room)
         == s.(pending := s.pending - {tid}, rows := SetStatus(s.rows, Ids(s.pending[tid].batch.items), Failed))
  {
  }

  lemma {:induction false} PreparingKeepsInv(s: State, tid: Tid, b: Batch)
    requires Inv(s) && tid !in s.pending && Sound(b)
    ensures Inv(s.(pending := s.pending[tid := Prepared(b)]))
  {
  }

  /** What the first phase does to the state: nothing, or one of two changes. */
  lemma {:induction false} BeginChanges(s: State, tid: Tid, items: seq<Item>, server: Server)
    ensures var t := Begun(s, tid, items, server);
            || t == s
            || t == s.(rows := FailUnowned(s.rows, Ids(items), s.live))
            || (Acceptable(items, server) && t == s.(pending := s.pending[tid := Prepared(Accept(items, server))]))
  {
  }

  lemma {:induction false} BeginKeepsInv(s: State, tid: Tid, items: seq<Item>, server: Server)
    requires Inv(s) && tid !in s.pending
    ensures Inv(Begun(s, tid, items, server))
  {
    BeginChanges(s, tid, items, server);
    WeakenedKeepsInv(s, FailUnowned(s.rows, Ids(items), s.live));
    if Acceptable(items, server) {
      PreparingKeepsInv(s, tid, Accept(items, server));
    }
  }

  /** Every step of every run keeps the invariant. */
  lemma {:induction false} StepKeepsInv(s: State, a: Action)
    requires Inv(s) && Enabled(s, a)
    ensures Inv(Step(s, a))
  {
    match a
    case Begin(tid, items, server) => BeginKeepsInv(s, tid, items, server);
    case Insert(tid, commit) => InsertKeepsInv(s, tid, commit);
    case Enqueue(tid, room) => EnqueueKeepsInv(s, tid, room);
    case Progress(id, status) => WeakenedKeepsInv(s, SetStatus(s.rows, [id], status));
    case Leave(id) => QueueOwnershipIsFree(s, s.live - {id});
    case Delete(id) => WeakenedKeepsInv(s, s.rows - {id});
    case AddOther(id, contract) => OtherKeepsInv(s, id, contract);
  }

  lemma {:induction false} OtherKeepsInv(s: State, id: Id, contract: Contract)
    requires Inv(s) && id !in s.rows && contract.envelope == None
    ensures Inv(s.(rows := s.rows[id := Row(contract, Generating, |s.history|)], history := s.history + [None]))
  {
  }

  // ---- What every run guarantees ----

  ghost predicate Run(states: seq<State>, actions: seq<Action>) {
    && |states| == |actions| + 1
    && Inv(states[0])
    && forall k :: 0 <= k < |actions| ==> Leads(states[k], actions[k], states[k + 1])
  }

  ghost predicate Leads(s: State, a: Action, t: State) {
    Inv(s) && Enabled(s, a) && t == Step(s, a)
  }

  const EMPTY := State(map[], map[], [], {}, [])

  lemma RunsBegin()
    ensures Run([EMPTY], [])
  {
  }

  /** A run can always be continued, and never enqueues a stored unit twice. */
  lemma {:induction false} RunsGoOn(states: seq<State>, actions: seq<Action>, a: Action)
    requires Run(states, actions) && Enabled(states[|actions|], a)
    ensures Inv(states[|actions|])
    ensures Run(states + [Step(states[|actions|], a)], actions + [a])
    ensures Distinct(Step(states[|actions|], a).enqueued)
  {
    LastHolds(states, actions);
    StepKeepsInv(states[|actions|], a);
    RunExtends(states, actions, a, Step(states[|actions|], a));
  }

  lemma {:induction false} RunExtends(states: seq<State>, actions: seq<Action>, a: Action, next: State)
    requires Run(states, actions) && Leads(states[|actions|], a, next)
    ensures Run(states + [next], actions + [a])
  {
  }

  lemma {:induction false} LastHolds(states: seq<State>, actions: seq<Action>)
    requires Run(states, actions)
    ensures Inv(states[|actions|])
  {
    if actions != [] {
      var n := |actions| - 1;
      assert Leads(states[n], actions[n], states[n + 1]);
      StepKeepsInv(states[n], actions[n]);
    }
  }

  /** The row is still there, and is the same row up to its status. */
  predicate Kept(before: map<Id, Row>, after: map<Id, Row>, id: Id)
    requires id in before
  {
    && id in after
    && after[id].contract == before[id].contract
    && after[id].incarnation == before[id].incarnation
  }

  lemma {:induction false} InsertKeepsRows(s: State, tid: Tid, b: Batch, commit: Commit, id: Id)
    requires Sound(b) && id in s.rows
    ensures Kept(s.rows, Inserted(s, tid, b, commit).rows, id)
  {
    if NoneStored(b.items, s.rows) {
      StoreAllStores(s.rows, b.items, b.contracts, |s.history|);
      assert forall k :: 0 <= k < |b.items| ==> Ids(b.items)[k] != id;
      assert id !in Ids(b.items);
    }
  }

  /** A stored contract never changes; it can only be deleted with its row. */
  lemma {:induction false} ContractsAreFixed(s: State, a: Action, id: Id)
    requires Inv(s) && Enabled(s, a) && id in s.rows
    ensures id !in Step(s, a).rows <==> a == Delete(id)
    ensures a != Delete(id) ==> Kept(s.rows, Step(s, a).rows, id)
  {
    match a
    case Begin(tid, items, server) => BeginChanges(s, tid, items, server);
    case Insert(tid, commit) => InsertKeepsRows(s, tid, s.pending[tid].batch, commit, id);
    case Enqueue(tid, room) => QueueingKeepsRows(s, tid, s.pending[tid], room, id);
    case _ =>
  }

  lemma {:induction false} QueueingKeepsRows(s: State, tid: Tid, p: Pending, room: bool, id: Id)
    requires p.Stored? && id in s.rows
    ensures Kept(s.rows, Queued(s, tid, p, room).rows, id)
  {
  }

  lemma {:induction false} CarriedThroughRun(
      states: seq<State>, actions: seq<Action>, items: seq<Item>, contracts: seq<Contract>)
    requires Run(states, actions) && Carries(items, contracts, states[0].rows)
    requires forall k, j :: 0 <= k < |actions| && 0 <= j < |items| ==> actions[k] != Delete(items[j].id)
    ensures Carries(items, contracts, states[|actions|].rows)
    decreases |actions|
  {
    if actions != [] {
      var n := |actions| - 1;
      CarriedThroughRun(states[..n + 1], actions[..n], items, contracts);
      assert Leads(states[n], actions[n], states[n + 1]);
      forall j | 0 <= j < |items|
        ensures items[j].id in states[n + 1].rows && states[n + 1].rows[items[j].id].contract == contracts[j]
      {
        ContractsAreFixed(states[n], actions[n], items[j].id);
      }
    }
  }

  /**
   Idempotence over runs.  After an envelope was stored, and whatever happened since short of deleting its rows,
   submitting it again returns its own rows in order and leaves the queue, the history and the other requests
   alone — exactly if the server has kept its revision, and the units name their engines or their profile's default
   is the presumed one.  Otherwise it changes nothing.
   */
  lemma {:induction false} ResubmittingIsIdempotent(
      states: seq<State>, actions: seq<Action>, items: seq<Item>, server: Server, tid: Tid, now: Server)
    requires Run(states, actions) && Acceptable(items, server)
    requires Carries(items, NewContracts(items, server), states[0].rows)
    requires forall k :: 0 <= k < |items| ==> Parsed(items[k].request)
    requires forall k, j :: 0 <= k < |actions| && 0 <= j < |items| ==> actions[k] != Delete(items[j].id)
    ensures var s := states[|actions|];
            var t := Begun(s, tid, items, now);
            && AllStored(items, s.rows)
            && (Examine(items, s.rows, now) == Reattached(RowsFor(items, s.rows)) <==>
                  now.revision == server.revision && AllPresumed(items, server))
            && t == if Examine(items, s.rows, now).Reattached?
                    then s.(rows := FailUnowned(s.rows, Ids(items), s.live)) else s
  {
    CarriedThroughRun(states, actions, items, NewContracts(items, server));
    ResubmissionReattaches(items, server, states[|actions|].rows, now);
  }

  /** A durable insertion is where such a run starts. */
  lemma {:induction false} InsertionCarries(s: State, tid: Tid, b: Batch, commit: Commit)
    requires Sound(b) && commit != NotDurable && NoneStored(b.items, s.rows)
    ensures Carries(b.items, b.contracts, Inserted(s, tid, b, commit).rows)
  {
    StoreAllStores(s.rows, b.items, b.contracts, |s.history|);
    var stored := Stores(s, b).rows;
    assert Carries(b.items, b.contracts, stored);
    FailingCarries(b.items, b.contracts, stored, s.live);
    var t := Inserted(s, tid, b, commit);
    assert t.rows == stored || t.rows == FailUnowned(stored, Ids(b.items), s.live);
  }

  lemma {:induction false} FailingCarries(
      items: seq<Item>, contracts: seq<Contract>, rows: map<Id, Row>, live: set<Id>)
    requires Carries(items, contracts, rows)
    ensures Carries(items, contracts, FailUnowned(rows, Ids(items), live))
  {
  }

  /**
   Only an accepted envelope is ever answered with rows: whatever matches is, unit for unit and in order, one
   envelope that was stored, and all of its rows come from that one insertion.
   */
  lemma {:induction false} OnlyAcceptedEnvelopesMatch(s: State, items: seq<Item>)
    requires Inv(s) && items != [] && MatchOf(items, s.rows).Reattached?
    ensures var n := s.rows[items[0].id].incarnation;
            && n < |s.history| && s.history[n].Some?
            && SameEnvelope(s.history[n].value.items, items)
            && forall k :: 0 <= k < |items| ==> s.rows[items[k].id].incarnation == n
  {
    var e := EnvelopeFor(items, s.rows);
    OneInsertion(s, items);
    assert StoredUnder(s, items, 0, e);
    UnitsCarryTheBatch(s, items, s.history[s.rows[items[0].id].incarnation].value, e);
  }

  lemma {:induction false} OneInsertion(s: State, items: seq<Item>)
    requires Inv(s) && items != [] && MatchOf(items, s.rows).Reattached?
    ensures forall k :: 0 <= k < |items| ==>
              && StoredUnder(s, items, k, EnvelopeFor(items, s.rows))
              && s.rows[items[k].id].incarnation == s.rows[items[0].id].incarnation
  {
    var e := EnvelopeFor(items, s.rows);
    MatchedRow(s, items, 0);
    forall k | 0 <= k < |items|
      ensures StoredUnder(s, items, k, e)
      ensures s.rows[items[k].id].incarnation == s.rows[items[0].id].incarnation
    {
      MatchedRow(s, items, k);
      SameInsertion(s, items, 0, k, e);
      SameInsertion(s, items, k, 0, e);
    }
  }

  lemma {:induction false} UnitsCarryTheBatch(s: State, items: seq<Item>, b: Batch, e: Envelope)
    requires Sound(b) && Ids(b.items) == Ids(items) && items != [] && MatchOf(items, s.rows).Reattached?
    requires forall k :: 0 <= k < |items| ==> UnitOf(items[k].id, s.rows[items[k].id], b)
    ensures SameEnvelope(b.items, items)
  {
    forall m | 0 <= m < |b.items| ensures b.items[m].id in s.rows && s.rows[b.items[m].id].contract == b.contracts[m] {
      assert Ids(b.items)[m] == Ids(items)[m];
      UnitAt(s, items, m, b);
    }
    UnitNamesItsEnvelope(items[0].id, s.rows[items[0].id], b);
    OnlyTheEnvelopeReattaches(b, items, s.rows);
  }

  /** The row of a matched unit was stored, by this route, under an envelope with the same ids in the same order. */
  predicate StoredUnder(s: State, items: seq<Item>, k: nat, e: Envelope)
    requires k < |items|
  {
    && items[k].id in s.rows
    && var row := s.rows[items[k].id];
       && row.incarnation < |s.history| && s.history[row.incarnation].Some?
       && UnitOf(items[k].id, row, s.history[row.incarnation].value)
       && row.contract.envelope == Some(e)
       && s.history[row.incarnation].value.envelope == e
       && Ids(s.history[row.incarnation].value.items) == Ids(items)
  }

  lemma {:induction false} MatchedRow(s: State, items: seq<Item>, k: nat)
    requires Inv(s) && k < |items| && MatchOf(items, s.rows).Reattached?
    ensures StoredUnder(s, items, k, EnvelopeFor(items, s.rows))
  {
    var e, row := EnvelopeFor(items, s.rows), s.rows[items[k].id];
    assert SameRequest(items[k].request, row.contract, e);
    assert RowExplained(items[k].id, row, s.history);
    UnitNamesItsEnvelope(items[k].id, row, s.history[row.incarnation].value);
    forall j | 0 <= j < |items| ensures Ids(items)[j] == e[j].id {
      assert e[j] == Entry(items[j].id, DigestFor(items[j].request, s.rows[items[j].id].contract));
    }
  }

  lemma {:induction false} UnitNamesItsEnvelope(id: Id, row: Row, b: Batch)
    requires UnitOf(id, row, b)
    ensures row.contract.envelope == Some(b.envelope)
    ensures |b.envelope| == |b.items| && forall j :: 0 <= j < |b.items| ==> Ids(b.items)[j] == b.envelope[j].id
  {
  }

  lemma {:induction false} SameInsertion(s: State, items: seq<Item>, j: nat, k: nat, e: Envelope)
    requires Inv(s) && j < |items| && k < |items| && StoredUnder(s, items, j, e) && StoredUnder(s, items, k, e)
    ensures s.rows[items[j].id].incarnation >= s.rows[items[k].id].incarnation
  {
    assert Ids(items)[j] == items[j].id;
    assert items[j].id in IdsOf(s.history, s.rows[items[k].id].incarnation);
  }

  lemma {:induction false} UnitAt(s: State, items: seq<Item>, m: nat, b: Batch)
    requires m < |items| && items[m].id in s.rows && Ids(b.items) == Ids(items)
    requires UnitOf(items[m].id, s.rows[items[m].id], b)
    ensures s.rows[items[m].id].contract == b.contracts[m]
  {
    var k :| 0 <= k < |b.items| && b.items[k].id == items[m].id && s.rows[items[m].id].contract == b.contracts[k];
    assert Ids(b.items)[k] == Ids(b.items)[m];
    assert Distinct(Ids(b.items));
  }

  // ---- The route ----

  datatype Reply = Existing(rows: seq<Row>) | Conflict | Unacceptable | Continue | Raised

  class ExactBatchRoute {
    var rows: map<Id, Row>
    var pending: map<Tid, Pending>
    var enqueued: seq<Ticket>
    var live: set<Id>
    var history: seq<Option<Batch>>

    constructor ()
      ensures Abs() == EMPTY && Inv(Abs())
    {
      rows, pending, enqueued, live, history := map[], map[], [], {}, [];
    }

    ghost function Abs(): State
      reads this
    {
      State(rows, pending, enqueued, live, history)
    }

    /** Makes the active rows of an envelope terminal unless the queue still has one of its ids. */
    method FailUnownedBatch(ids: seq<Id>)
      modifies this`rows
      ensures rows == FailUnowned(old(rows), ids, live)
    {
      for k := 0 to |ids|
        invariant rows == old(rows)
        invariant forall j :: 0 <= j < k ==> ids[j] !in live
      {
        if ids[k] in live {
          return;
        }
      }
      for k := 0 to |ids|
        invariant rows == FailUnowned(old(rows), ids[..k], live)
      {
        assert ids[..k + 1] == ids[..k] + [ids[k]];
        if ids[k] in rows && Active(rows[ids[k]]) {
          rows := rows[ids[k] := rows[ids[k]].(status := Failed)];
        }
      }
      assert ids[..|ids|] == ids;
    }

    /** Refuses what another revision of the server was asked for, or what has no seed. */
    method RequireCurrent(items: seq<Item>, server: Server) returns (current: bool)
      ensures current <==> Current(items, server)
    {
      if !Distinct(Ids(items)) {
        return false;
      }
      for k := 0 to |items|
        invariant forall j :: 0 <= j < k ==> Exact(items[j].request, server)
      {
        if !RevisionHolds(items[k].request, server) || items[k].request.params.seed == None {
          return false;
        }
      }
      return true;
    }

    /** The stored rows of the submission, the active ones made terminal if nobody is going to run them. */
    method Reattach(items: seq<Item>) returns (reply: Reply)
      requires AllStored(items, rows)
      modifies this`rows
      ensures rows == FailUnowned(old(rows), Ids(items), live)
      ensures AllStored(items, rows) && reply == Existing(RowsFor(items, rows))
    {
      FailUnownedBatch(Ids(items));
      reply := Existing(RowsFor(items, rows));
    }

    /** The first phase: refuse a stale submission, reattach to the stored rows, or go on with a batch of new ids. */
    method Submit(tid: Tid, items: seq<Item>, server: Server) returns (reply: Reply)
      requires Inv(Abs()) && tid !in pending
      modifies this
      ensures Abs() == Begun(old(Abs()), tid, items, server) && Inv(Abs())
      ensures reply.Existing? <==> Examine(items, old(rows), server).Reattached?
      ensures reply.Existing? ==> AllStored(items, rows) && reply.rows == RowsFor(items, rows)
      ensures reply == Continue <==> tid in pending
    {
      BeginKeepsInv(Abs(), tid, items, server);
      var current := RequireCurrent(items, server);
      if !current {
        return Unacceptable;
      }
      var found := MatchingExistingBatch(items, rows);
      match found
      case Reattached(_) =>
        reply := Reattach(items);
      case Refused => return Conflict;
      case Fresh =>
        if !Acceptable(items, server) {
          return Unacceptable;
        }
        pending := pending[tid := Prepared(Accept(items, server))];
        return Continue;
    }

    /** The second phase: one transaction stores every row or none. */
    method Insert(tid: Tid, commit: Commit) returns (reply: Reply)
      requires Inv(Abs()) && Enabled(Abs(), Action.Insert(tid, commit))
      modifies this
      ensures Abs() == Step(old(Abs()), Action.Insert(tid, commit)) && Inv(Abs())
      ensures reply == Continue <==> tid in pending
      ensures reply.Existing? ==>
                rows == old(rows) && MatchOf(old(pending[tid]).batch.items, rows) == Reattached(reply.rows)
    {
      InsertKeepsInv(Abs(), tid, commit);
      var b := pending[tid].batch;
      if !NoneStored(b.items, rows) {
        pending := pending - {tid};
        var found := MatchingExistingBatch(b.items, rows);
        return if found.Reattached? then Existing(found.rows) else Conflict;
      }
      if commit == NotDurable {
        pending := pending - {tid};
        return Raised;
      }
      var k := 0;
      var n := |history|;
      while k < |b.items|
        invariant 0 <= k <= |b.items| && pending == old(pending) && unchanged(`enqueued, `live, `history)
        invariant StoreAll(rows, b.items[k..], b.contracts[k..], n) == StoreAll(old(rows), b.items, b.contracts, n)
      {
        rows := rows[b.items[k].id := Row(b.contracts[k], Generating, n)];
        k := k + 1;
      }
      history := history + [Some(b)];
      if commit == Acknowledged {
        pending := pending[tid := Stored(b, n)];
        return Continue;
      }
      pending := pending - {tid};
      if commit.reconciled {
        var found := MatchingExistingBatch(b.items, rows);
        if found.Reattached? {
          FailUnownedBatch(Ids(b.items));
        }
      }
      return Raised;
    }

    method MarkFailed(ids: seq<Id>)
      modifies this`rows
      ensures rows == SetStatus(old(rows), ids, Failed)
    {
      for k := 0 to |ids|
        invariant rows == SetStatus(old(rows), ids[..k], Failed)
      {
        assert ids[..k + 1] == ids[..k] + [ids[k]];
        if ids[k] in rows {
          rows := rows[ids[k] := rows[ids[k]].(status := Failed)];
        }
      }
      assert ids[..|ids|] == ids;
    }

    /** The last phase: the queue takes all units as one job, or every row is marked failed. */
    method Enqueue(tid: Tid, room: bool) returns (reply: Reply)
      requires Inv(Abs()) && Enabled(Abs(), Action.Enqueue(tid, room))
      modifies this
      ensures Abs() == Step(old(Abs()), Action.Enqueue(tid, room)) && Inv(Abs())
      ensures reply == Raised <==> enqueued == old(enqueued)
    {
      EnqueueKeepsInv(Abs(), tid, room);
      var p := pending[tid];
      var ids := Ids(p.batch.items);
      assert Sound(p.batch) && |Tickets(p.batch.items, p.incarnation)| > 0;
      pending := pending - {tid};
      if room && forall id :: id in ids ==> id !in live {
        enqueued := enqueued + Tickets(p.batch.items, p.incarnation);
        live := live + set id | id in ids;
        return Existing([]);
      }
      MarkFailed(ids);
      return Raised;
    }
  }
}
