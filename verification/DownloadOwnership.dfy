/**
 Ownership of model downloads: which task may be cancelled, and whose entry in the list of downloads may go.

 Each method is what happens in one turn of the event loop.  Done-callbacks run some turns after their task has
 ended, possibly after the model was downloaded again.
 */
module DownloadOwnership {
  import opened Wrappers

  type Model = string
  type Task = nat

  datatype Status = Live | Finished | Cancelled

  /** A download is for a model; the one other kind of task moves the whole cache. */
  datatype Purpose = Download(model: Model) | Migration

  datatype Job = Job(purpose: Purpose, status: Status, reported: bool)

  predicate LiveIn(jobs: map<Task, Job>, t: Task) {
    t in jobs && jobs[t].status == Live
  }

  /** Every live task is the registered owner of its purpose, and listed until it has reported success. */
  predicate LiveTaskRegistered(
      jobs: map<Task, Job>, owners: map<Model, Task>, migration: Option<Task>, listed: map<Model, Task>, t: Task)
    requires t in jobs
  {
    match jobs[t].purpose
    case Download(m) => m in owners && owners[m] == t && (!jobs[t].reported ==> m in listed)
    case Migration => migration == Some(t)
  }

  ghost predicate Consistent(
      jobs: map<Task, Job>, owners: map<Model, Task>, migration: Option<Task>, listed: map<Model, Task>,
      callbacks: set<Task>)
  {
    && (forall m :: m in owners ==> owners[m] in jobs && jobs[owners[m]].purpose == Download(m))
    && (forall t :: LiveIn(jobs, t) ==> LiveTaskRegistered(jobs, owners, migration, listed, t))
    && (migration.Some? ==> migration.value in jobs && jobs[migration.value].purpose == Migration)
    && (forall m :: m in owners && m in listed ==> listed[m] == owners[m])
    && (forall t :: t in callbacks ==> t in jobs && jobs[t].status != Live)
  }

  lemma StartingIsConsistent(
      jobs: map<Task, Job>, owners: map<Model, Task>, migration: Option<Task>, listed: map<Model, Task>,
      callbacks: set<Task>, model: Model, task: Task)
    requires Consistent(jobs, owners, migration, listed, callbacks) && task !in jobs && model !in owners
    ensures Consistent(
              jobs[task := Job(Download(model), Live, false)], owners[model := task], migration,
              listed[model := task], callbacks)
  {
    var after := jobs[task := Job(Download(model), Live, false)];
    forall t | LiveIn(after, t)
      ensures LiveTaskRegistered(after, owners[model := task], migration, listed[model := task], t)
    {
      assert t != task ==> LiveIn(jobs, t) && LiveTaskRegistered(jobs, owners, migration, listed, t);
    }
  }

  class ModelTasks {
    var jobs: map<Task, Job>              // every task ever created
    var owners: map<Model, Task>
    var migration: Option<Task>
    var listed: map<Model, Task>          // the shown downloads, each with the task it was listed for
    var callbacks: set<Task>              // ended tasks whose callback has yet to run

    constructor ()
      ensures Valid() && jobs == map[] && owners == map[] && listed == map[]
    {
      jobs, owners, migration, listed, callbacks := map[], map[], None, map[], {};
    }

    predicate IsLive(t: Task)
      reads this
    {
      LiveIn(jobs, t)
    }

    ghost predicate Valid()
      reads this
    {
      Consistent(jobs, owners, migration, listed, callbacks)
    }

    /** Two live tasks are never for the same purpose. */
    lemma AtMostOneLive(s: Task, t: Task)
      requires Valid() && IsLive(s) && IsLive(t) && jobs[s].purpose == jobs[t].purpose
      ensures s == t
    {
    }

    /** Removes ownership and the listed download, but only on behalf of the task that still owns them. */
    method Finish(model: Model, task: Task)
      requires Valid() && task in jobs && jobs[task].status != Live && jobs[task].purpose == Download(model)
      modifies this`owners, this`listed
      ensures Valid()
      ensures owners == if Owns(old(owners), model, task) then old(owners) - {model} else old(owners)
      ensures listed == if Owns(old(owners), model, task) && jobs[task].status == Cancelled
                        then old(listed) - {model} else old(listed)
      ensures Owns(old(owners), model, task) && model in old(listed) ==> old(listed)[model] == task
    {
      var released := false;
      if Owns(owners, model, task) {
        owners := owners - {model};
        released := true;
      }
      if released && jobs[task].status == Cancelled {
        listed := listed - {model};
      }
    }

    /** Starts a download unless a live task owns the model; an ended owner is replaced. */
    method Start(model: Model, task: Task, created: bool) returns (started: bool)
      requires Valid() && task !in jobs
      modifies this
      ensures Valid()
      ensures started == (created && !(model in old(owners) && old(IsLive(owners[model]))))
      ensures started ==>
                && jobs == old(jobs)[task := Job(Download(model), Live, false)]
                && owners == old(owners)[model := task] && listed == old(listed)[model := task]
      ensures !started ==>
                && jobs == old(jobs) && listed == old(listed)
                && (owners == old(owners) || (owners == old(owners) - {model} && !old(IsLive(owners[model]))))
      ensures callbacks == old(callbacks) && migration == old(migration)
    {
      if model in owners && IsLive(owners[model]) {
        return false;
      }
      if model in owners {
        owners := owners - {model};
      }
      if !created {
        return false;
      }
      StartingIsConsistent(jobs, owners, migration, listed, callbacks, model, task);
      jobs := jobs[task := Job(Download(model), Live, false)];
      owners := owners[model := task];
      listed := listed[model := task];
      return true;
    }

    method StartMigration(task: Task) returns (started: bool)
      requires Valid() && task !in jobs
      modifies this
      ensures Valid()
      ensures started == !(old(migration).Some? && old(IsLive(migration.value)))
      ensures started ==> migration == Some(task) && jobs == old(jobs)[task := Job(Migration, Live, false)]
      ensures !started ==> migration == old(migration) && jobs == old(jobs)
      ensures owners == old(owners) && listed == old(listed) && callbacks == old(callbacks)
    {
      if migration.Some? && IsLive(migration.value) {
        return false;
      }
      jobs := jobs[task := Job(Migration, Live, false)];
      migration := Some(task);
      assert forall t :: LiveIn(jobs, t) && t != task ==>
               LiveIn(old(jobs), t) && LiveTaskRegistered(old(jobs), old(owners), old(migration), old(listed), t);
      return true;
    }

    /** A download that succeeded takes its own entry off the list before it ends. */
    method Report(task: Task)
      requires Valid() && IsLive(task) && jobs[task].purpose.Download?
      modifies this
      ensures Valid()
      ensures listed == old(listed) - {old(jobs)[task].purpose.model}
      ensures jobs == old(jobs)[task := old(jobs)[task].(reported := true)]
      ensures owners == old(owners) && callbacks == old(callbacks) && migration == old(migration)
    {
      jobs := jobs[task := jobs[task].(reported := true)];
      listed := listed - {jobs[task].purpose.model};
      assert LiveTaskRegistered(old(jobs), old(owners), old(migration), old(listed), task);
      assert forall t :: LiveIn(jobs, t) && t != task ==>
               LiveIn(old(jobs), t) && LiveTaskRegistered(old(jobs), old(owners), old(migration), old(listed), t);
    }

    /** The task ends, its executor thread having been waited for; the callback is only scheduled. */
    method End(task: Task, cancelled: bool)
      requires Valid() && IsLive(task)
      modifies this
      ensures Valid()
      ensures jobs == old(jobs)[task := old(jobs)[task].(status := if cancelled then Cancelled else Finished)]
      ensures callbacks == old(callbacks) + {task}
      ensures owners == old(owners) && listed == old(listed) && migration == old(migration)
    {
      jobs := jobs[task := jobs[task].(status := if cancelled then Cancelled else Finished)];
      callbacks := callbacks + {task};
      assert forall t :: LiveIn(jobs, t) && t != task ==>
               LiveIn(old(jobs), t) && LiveTaskRegistered(old(jobs), old(owners), old(migration), old(listed), t);
    }

    /** A late callback touches nothing that belongs to a task which took over meanwhile. */
    method RunCallback(task: Task)
      requires Valid() && task in callbacks
      modifies this
      ensures Valid() && jobs == old(jobs) && callbacks == old(callbacks) - {task}
      ensures forall t :: t in jobs && IsLive(t) ==>
                (forall m :: m in old(owners) && old(owners)[m] == t ==> m in owners && owners[m] == t)
                && (forall m :: m in old(listed) && old(listed)[m] == t ==> m in listed && listed[m] == t)
                && (old(migration) == Some(t) ==> migration == Some(t))
      ensures match jobs[task].purpose
              case Download(m) =>
                && migration == old(migration)
                && (!Owns(old(owners), m, task) ==> owners == old(owners) && listed == old(listed))
                && !Owns(owners, m, task)
              case Migration => owners == old(owners) && listed == old(listed) && migration != Some(task)
    {
      callbacks := callbacks - {task};
      match jobs[task].purpose
      case Download(m) => Finish(m, task);
      case Migration =>
        if migration == Some(task) {
          migration := None;
        }
    }

    /**
     The first turn of a cancel request.  A live task is only asked to stop and is still owned and listed; without
     one, what is left of earlier tasks is dismissed.
     */
    method BeginCancel(model: Model) returns (waitFor: Option<Task>)
      requires Valid()
      modifies this
      ensures Valid() && jobs == old(jobs) && callbacks == old(callbacks) && migration == old(migration)
      ensures waitFor.Some? <==> model in old(owners) && old(IsLive(owners[model]))
      ensures waitFor.Some? ==> waitFor.value == owners[model] && owners == old(owners) && listed == old(listed)
      ensures waitFor == None ==> owners == old(owners) - {model} && listed == old(listed) - {model}
    {
      if model in owners && IsLive(owners[model]) {
        return Some(owners[model]);
      }
      if model in owners {
        Finish(model, owners[model]);
      }
      listed := listed - {model};
      return None;
    }

    /** The turn in which the awaited task has ended; by then the model may be owned by another. */
    method FinishCancel(model: Model, task: Task)
      requires Valid() && task in jobs && jobs[task].status != Live && jobs[task].purpose == Download(model)
      modifies this
      ensures Valid() && jobs == old(jobs) && callbacks == old(callbacks) && migration == old(migration)
      ensures !Owns(owners, model, task)
      ensures owners == if Owns(old(owners), model, task) then old(owners) - {model} else old(owners)
      ensures listed == if Owns(old(owners), model, task) && jobs[task].status == Cancelled
                        then old(listed) - {model} else old(listed)
    {
      Finish(model, task);
    }

    /** Clears everything, or nothing when any real task is live; then it says which. */
    method ClearMetadata() returns (active: set<Purpose>)
      requires Valid()
      modifies this
      ensures Valid() && jobs == old(jobs) && callbacks == old(callbacks) && migration == old(migration)
      ensures active == set t | t in jobs && IsLive(t) :: jobs[t].purpose
      ensures active != {} ==> owners == old(owners) && listed == old(listed)
      ensures active == {} ==> owners == map[] && listed == map[]
    {
      active := set m | m in owners && IsLive(owners[m]) :: Download(m);
      if migration.Some? && IsLive(migration.value) {
        active := active + {Migration};
      }
      LiveTasksAreOwned();
      ghost var live := set t | t in jobs && IsLive(t) :: jobs[t].purpose;
      assert active == live;
      assert forall t :: t in jobs && IsLive(t) ==> jobs[t].purpose in live;
      if active != {} {
        return;
      }
      owners, listed := map[], map[];
    }

    /** What the two registries show as live is all that is live. */
    lemma LiveTasksAreOwned()
      requires Valid()
      ensures (set t | t in jobs && IsLive(t) :: jobs[t].purpose)
           == (set m | m in owners && IsLive(owners[m]) :: Download(m))
              + (if migration.Some? && IsLive(migration.value) then {Migration} else {})
    {
    }
  }

  predicate Owns(owners: map<Model, Task>, model: Model, task: Task) {
    model in owners && owners[model] == task
  }
}
