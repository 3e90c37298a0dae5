/**
 Processes that race for the data root.  Each step on the lock file is atomic and any others come in between; the
 stamp on an empty file comes before the lock, so it may land on the record of a process that holds it.
 */
module OwnerRaces {
  import opened Wrappers
  import opened Decimal
  import opened OwnerRecord

  type Process = nat

  /** How far a process has got with acquiring the lock. */
  datatype Stage =
    | Outside
    | MustStamp                   // found the file empty
    | Ready                       // about to try the lock
    | Refused                     // found it taken; about to read the record
    | Told(details: Details)
    | Holding
    | Emptied                     // has the lock and truncated the file
    | Recorded(owner: Owner)

  datatype State = State(content: string, holder: Option<Process>, stages: map<Process, Stage>)

  datatype Action =
    | Stat(p: Process)
    | Stamp(p: Process)
    | TryLock(p: Process)
    | ReadOwner(p: Process)
    | Truncate(p: Process)
    | WriteRecord(p: Process, owner: Owner)
    | Leave(p: Process)           // releases, fails or dies

  /** One byte written at the start of the file. */
  function Stamped(content: string): string {
    if content == "" then "\0" else "\0" + content[1..]
  }

  /** A text written at the start of the file; what lies beyond it stays. */
  function Overwritten(content: string, payload: string): string {
    payload + if |payload| <= |content| then content[|payload|..] else ""
  }

  function Moved(s: State, p: Process, stage: Stage): State {
    s.(stages := s.stages[p := stage])
  }

  /** One step of a process, if it is possible. */
  function Step(s: State, a: Action): Option<State> {
    if a.p !in s.stages then None
    else
      var stage := s.stages[a.p];
      match a
      case Stat(p) =>
        if !stage.Outside? then None else Some(Moved(s, p, if s.content == "" then MustStamp else Ready))
      case Stamp(p) =>
        if !stage.MustStamp? then None else Some(Moved(s, p, Ready).(content := Stamped(s.content)))
      case TryLock(p) =>
        if !stage.Ready? then None
        else if s.holder.Some? then Some(Moved(s, p, Refused))
        else Some(Moved(s, p, Holding).(holder := Some(p)))
      case ReadOwner(p) =>
        if !stage.Refused? then None else Some(Moved(s, p, Told(OwnerDetails(s.content))))
      case Truncate(p) =>
        if !stage.Holding? then None else Some(Moved(s, p, Emptied).(content := ""))
      case WriteRecord(p, o) =>
        if !stage.Emptied? || !Recordable(o) then None
        else Some(Moved(s, p, Recorded(o)).(content := Overwritten(s.content, Record(o))))
      case Leave(p) =>
        if stage.Outside? then None
        else Some(Moved(s, p, Outside).(holder := if s.holder == Some(p) then None else s.holder))
  }

  function Run(s: State, actions: seq<Action>): Option<State> {
    if actions == [] then Some(s)
    else
      match Run(s, actions[..|actions| - 1])
      case None => None
      case Some(t) => Step(t, actions[|actions| - 1])
  }

  // ---- The invariant ----

  predicate Holds(stage: Stage) {
    stage.Holding? || stage.Emptied? || stage.Recorded?
  }

  /** An emptied file can only have been stamped, and a record can only have been stamped. */
  predicate ContentFits(content: string, stage: Stage) {
    && (stage.Emptied? ==> content in {"", "\0"})
    && (stage.Recorded? ==> content in {Record(stage.owner), Stamped(Record(stage.owner))})
  }

  ghost predicate Inv(s: State) {
    && (s.holder.Some? ==> s.holder.value in s.stages)
    && forall p :: p in s.stages ==>
         && (Holds(s.stages[p]) <==> s.holder == Some(p))
         && ContentFits(s.content, s.stages[p])
  }

  predicate Initial(s: State) {
    s.holder == None && forall p :: p in s.stages ==> s.stages[p].Outside?
  }

  lemma StampOnce(content: string)
    ensures Stamped(Stamped(content)) == Stamped(content)
  {
  }

  /** Every record has two bytes and more, so it covers a stamp. */
  lemma {:induction false} RecordCoversStamp(o: Owner)
    ensures |Record(o)| > 1
    ensures Overwritten("", Record(o)) == Record(o) && Overwritten("\0", Record(o)) == Record(o)
  {
    assert |PidLine(o.pid)| >= 4;
  }

  lemma {:induction false} StepKeepsInv(s: State, a: Action)
    requires Inv(s) && Step(s, a).Some?
    ensures Inv(Step(s, a).value)
  {
    var t := Step(s, a).value;
    assert s.stages.Keys == t.stages.Keys;
    match a
    case Stamp(p) => StampedFits(s);
    case WriteRecord(p, o) => RecordCoversStamp(o);
    case _ =>
  }

  lemma {:induction false} StampedFits(s: State)
    requires Inv(s)
    ensures forall p :: p in s.stages ==> ContentFits(Stamped(s.content), s.stages[p])
  {
    forall p | p in s.stages ensures ContentFits(Stamped(s.content), s.stages[p]) {
      assert Stamped("\0") == "\0";
      if s.stages[p].Recorded? {
        StampOnce(Record(s.stages[p].owner));
      }
    }
  }

  /** In every run at most one process holds the lock, and its record is there, whole or stamped, from its write on. */
  lemma {:induction false} HolderIsOnRecord(s: State, actions: seq<Action>)
    requires Initial(s) && Run(s, actions).Some?
    ensures Inv(Run(s, actions).value)
  {
    if actions != [] {
      HolderIsOnRecord(s, actions[..|actions| - 1]);
      StepKeepsInv(Run(s, actions[..|actions| - 1]).value, actions[|actions| - 1]);
    }
  }

  // ---- What becomes of a record ----

  predicate IsStamped(actions: seq<Action>) {
    exists k :: 0 <= k < |actions| && actions[k].Stamp?
  }

  /** A process that has written its record, and does not leave, in any run. */
  lemma {:induction false} RecordStands(s: State, p: Process, actions: seq<Action>)
    requires Inv(s) && p in s.stages && s.stages[p].Recorded? && s.content == Record(s.stages[p].owner)
    requires Run(s, actions).Some? && Leave(p) !in actions
    ensures var t := Run(s, actions).value;
            var r := Record(s.stages[p].owner);
            && Inv(t) && p in t.stages && t.stages[p] == s.stages[p]
            && t.content == if IsStamped(actions) then Stamped(r) else r
  {
    if actions != [] {
      var before, last := actions[..|actions| - 1], actions[|actions| - 1];
      RecordStands(s, p, before);
      var t := Run(s, before).value;
      StepKeepsInv(t, last);
      assert Leave(p) !in before && last != Leave(p);
      LastStamps(actions);
      StampOnce(Record(s.stages[p].owner));
    }
  }

  lemma LastStamps(actions: seq<Action>)
    requires actions != []
    ensures IsStamped(actions) <==> IsStamped(actions[..|actions| - 1]) || actions[|actions| - 1].Stamp?
  {
  }

  // ---- What a refused process is told ----

  /** A line that does not set the pid. */
  predicate Pidless(line: string) {
    !("pid=" <= line)
  }

  predicate AllPidless(lines: seq<string>) {
    forall k :: 0 <= k < |lines| ==> Pidless(lines[k])
  }

  lemma {:induction false} PidlessLine(fields: map<string, string>, line: string)
    requires Pidless(line) && "pid" !in fields
    ensures "pid" !in WithField(fields, line)
  {
    if 3 < |line| {
      assert line[..4] == line[..3] + [line[3]];
      assert "pid=" == "pid" + ['='];
    }
  }

  lemma {:induction false} NoPidField(lines: seq<string>)
    requires AllPidless(lines)
    ensures "pid" !in Fields(lines)
  {
    if lines != [] {
      NoPidField(lines[..|lines| - 1]);
      PidlessLine(Fields(lines[..|lines| - 1]), lines[|lines| - 1]);
    }
  }

  lemma PartIsPidless(line: string, c: nat)
    requires c <= |line| && 1 < |line| && (line[0] != 'p' || line[1] != 'i')
    ensures Pidless(line[..c])
  {
    assert "pid="[0] == 'p' && "pid="[1] == 'i';
  }

  /** The end of a record, cut anywhere, sets no pid. */
  lemma {:induction false} PortIsPidless(port: nat, c: nat)
    requires Unbroken(PortLine(port)) && c <= |PortLine(port) + "\n"|
    ensures AllPidless(Lines((PortLine(port) + "\n")[..c]))
  {
    var line := PortLine(port);
    assert line[0] == 'p' && line[1] == 'o';
    if c <= |line| {
      assert (line + "\n")[..c] == line[..c];
      LastLine(line[..c]);
      PartIsPidless(line, c);
    } else {
      assert (line + "\n")[..c] == line + "\n";
      LastLine(line);
      PartIsPidless(line, |line|);
      assert line[..|line|] == line;
    }
  }

  lemma {:induction false} RestIsPidless(a: Address, c: nat)
    requires PlainHost(a.host) && c <= |HostLine(a.host) + "\n" + (PortLine(a.port) + "\n")|
    ensures AllPidless(Lines((HostLine(a.host) + "\n" + (PortLine(a.port) + "\n"))[..c]))
  {
    var line, end := HostLine(a.host), PortLine(a.port) + "\n";
    LinesAreUnbroken(0, a.host, a.port);
    assert line[0] == 'h';
    if c <= |line| {
      assert (line + "\n" + end)[..c] == line[..c];
      LastLine(line[..c]);
      PartIsPidless(line, c);
    } else {
      var d := c - |line| - 1;
      assert (line + "\n" + end)[..c] == line + "\n" + end[..d];
      FirstLine(line, end[..d]);
      PartIsPidless(line, |line|);
      assert line[..|line|] == line;
      PortIsPidless(a.port, d);
    }
  }

  function Rest(o: Owner): string {
    match o.address
    case None => ""
    case Some(a) => HostLine(a.host) + "\n" + (PortLine(a.port) + "\n")
  }

  lemma StampedLine(line: string, rest: string)
    requires line != ""
    ensures Stamped(line + "\n" + rest) == "\0" + line[1..] + "\n" + rest
  {
    assert (line + "\n" + rest)[1..] == line[1..] + "\n" + rest;
  }

  lemma RecordIsPidAndRest(o: Owner)
    ensures Record(o) == PidLine(o.pid) + "\n" + Rest(o)
  {
  }

  lemma {:induction false} StampedRecord(o: Owner)
    ensures Stamped(Record(o)) == "\0id=" + Print(o.pid) + "\n" + Rest(o)
  {
    RecordIsPidAndRest(o);
    StampedLine(PidLine(o.pid), Rest(o));
    assert "\0" + PidLine(o.pid)[1..] == "\0id=" + Print(o.pid);
  }

  /** What is read of a file whose first line is short. */
  lemma {:induction false} HeadAfter(first: string, rest: string) returns (c: nat)
    requires |first| < READ_LIMIT
    ensures c <= |rest| && Head(first + "\n" + rest) == first + "\n" + rest[..c]
  {
    var room := READ_LIMIT - |first| - 1;
    if |rest| <= room {
      c := |rest|;
      assert rest[..c] == rest;
    } else {
      c := room;
    }
  }

  /** The stamp takes the first letter of the pid's name. */
  lemma {:induction false} StampedPidIsLost(o: Owner)
    requires Recordable(o)
    ensures OwnerDetails(Stamped(Record(o))).pid == None
  {
    var first := "\0id=" + Print(o.pid);
    PidIsShort(o.pid);
    StampedRecord(o);
    var c := HeadAfter(first, Rest(o));
    NumeralsAreUnbroken(o.pid);
    assert Unbroken(first);
    FirstLine(first, Rest(o)[..c]);
    if o.address.Some? {
      RestIsPidless(o.address.value, c);
    }
    StampedIsPidless(o.pid);
    NoPidField(Lines(first + "\n" + Rest(o)[..c]));
  }

  lemma StampedIsPidless(pid: nat)
    ensures Pidless("\0id=" + Print(pid))
  {
    assert "pid="[0] == 'p' && ("\0id=" + Print(pid))[0] == '\0';
  }

  /** What the file tells of the owner, whether or not its record has been stamped. */
  lemma {:induction false} StandingRecordIsRead(o: Owner, stamped: bool)
    requires Recordable(o)
    ensures OwnerDetails(if stamped then Stamped(Record(o)) else Record(o)) == Expected(o)
            <==> |Record(o)| <= READ_LIMIT + 1 && !stamped
  {
    if stamped {
      StampedPidIsLost(o);
    } else {
      RecordRoundTrip(o);
    }
  }

  lemma AskedIsTold(t: State, q: Process)
    requires q in t.stages && t.stages[q].Refused?
    ensures Step(t, ReadOwner(q)) == Some(Moved(t, q, Told(OwnerDetails(t.content))))
  {
  }

  /**
   As long as the owner stays, a process that asks is told exactly pid, host and port if and only if the record fits
   and nobody has stamped the file since it was written.
   */
  lemma {:induction false} ToldExactly(s: State, p: Process, o: Owner, actions: seq<Action>, q: Process)
    requires Inv(s) && Step(s, WriteRecord(p, o)).Some? && Leave(p) !in actions
    requires Run(Step(s, WriteRecord(p, o)).value, actions).Some?
    requires var t := Run(Step(s, WriteRecord(p, o)).value, actions).value;
             q in t.stages && t.stages[q].Refused?
    ensures var t := Run(Step(s, WriteRecord(p, o)).value, actions).value;
            Step(t, ReadOwner(q)).Some? &&
            (Step(t, ReadOwner(q)).value.stages[q] == Told(Expected(o)) <==>
              |Record(o)| <= READ_LIMIT + 1 && !IsStamped(actions))
  {
    var w := Step(s, WriteRecord(p, o)).value;
    RecordCoversStamp(o);
    StepKeepsInv(s, WriteRecord(p, o));
    RecordStands(w, p, actions);
    AskedIsTold(Run(w, actions).value, q);
    StandingRecordIsRead(o, IsStamped(actions));
  }

  predicate SomeoneMustStamp(s: State) {
    exists q :: q in s.stages && s.stages[q].MustStamp?
  }

  /** After the write no process finds the file empty, so nobody new is going to stamp it. */
  lemma {:induction false} NobodyStamps(s: State, p: Process, actions: seq<Action>)
    requires Inv(s) && p in s.stages && s.stages[p].Recorded? && s.content == Record(s.stages[p].owner)
    requires Run(s, actions).Some? && Leave(p) !in actions && !SomeoneMustStamp(s)
    ensures !SomeoneMustStamp(Run(s, actions).value) && !IsStamped(actions)
  {
    if actions != [] {
      var before, last := actions[..|actions| - 1], actions[|actions| - 1];
      assert Leave(p) !in before;
      NobodyStamps(s, p, before);
      RecordStands(s, p, before);
      RecordCoversStamp(s.stages[p].owner);
      LastStamps(actions);
    }
  }

  /** The record may be stamped before its owner leaves. */
  ghost predicate CanBeStamped(s: State, p: Process) {
    exists actions :: Leave(p) !in actions && Run(s, actions).Some? && IsStamped(actions)
  }

  /** Exactly those are at risk whose record is written while another process is about to stamp the file. */
  lemma {:induction false} StampedExactly(s: State, p: Process, o: Owner)
    requires Inv(s) && Step(s, WriteRecord(p, o)).Some?
    ensures CanBeStamped(Step(s, WriteRecord(p, o)).value, p) <==> SomeoneMustStamp(s)
  {
    var w := Step(s, WriteRecord(p, o)).value;
    RecordCoversStamp(o);
    StepKeepsInv(s, WriteRecord(p, o));
    if SomeoneMustStamp(s) {
      var q :| q in s.stages && s.stages[q].MustStamp?;
      assert w.stages[q].MustStamp?;
      var actions := [Stamp(q)];
      assert actions[..0] == [] && actions[0].Stamp? && Leave(p) !in actions;
      assert Run(w, []) == Some(w);
    } else {
      assert forall q :: q in w.stages ==> q in s.stages && !w.stages[q].MustStamp?;
      forall actions | Leave(p) !in actions && Run(w, actions).Some?
        ensures !IsStamped(actions)
      {
        NobodyStamps(w, p, actions);
      }
    }
  }

  /** Whatever happens while the owner stays, its record is read back. */
  ghost predicate AlwaysReadBack(s: State, p: Process, o: Owner) {
    forall actions :: Leave(p) !in actions && Run(s, actions).Some? ==>
      OwnerDetails(Run(s, actions).value.content) == Expected(o)
  }

  /** Whether a record will be read back by all who ask is decided when it is written. */
  lemma {:induction false} ReadBackExactly(s: State, p: Process, o: Owner)
    requires Inv(s) && Step(s, WriteRecord(p, o)).Some?
    ensures AlwaysReadBack(Step(s, WriteRecord(p, o)).value, p, o)
            <==> |Record(o)| <= READ_LIMIT + 1 && !SomeoneMustStamp(s)
  {
    var w := Step(s, WriteRecord(p, o)).value;
    RecordCoversStamp(o);
    StepKeepsInv(s, WriteRecord(p, o));
    StampedExactly(s, p, o);
    forall actions | Leave(p) !in actions && Run(w, actions).Some?
      ensures OwnerDetails(Run(w, actions).value.content) == Expected(o)
              <==> |Record(o)| <= READ_LIMIT + 1 && !IsStamped(actions)
    {
      RecordStands(w, p, actions);
      StandingRecordIsRead(o, IsStamped(actions));
    }
    assert Run(w, []) == Some(w) && !IsStamped([]);
  }

  lemma RunOneMore(s: State, actions: seq<Action>, t: State, a: Action)
    requires Run(s, actions) == Some(t)
    ensures Run(s, actions + [a]) == Step(t, a)
  {
    assert (actions + [a])[..|actions|] == actions;
  }

  lemma LastStageCounts(stages: map<Process, Stage>, p: Process, first: Stage, last: Stage)
    ensures stages[p := first][p := last] == stages[p := last]
  {
  }

  // ---- Undisturbed, and disturbed ----

  lemma {:induction false} RecordIsWritten(s: State, actions: seq<Action>, t: State, p: Process, o: Owner)
    requires Run(s, actions) == Some(t) && p in t.stages && t.stages[p].Emptied? && t.content == "" && Recordable(o)
    ensures Run(s, actions + [WriteRecord(p, o)]) == Some(Moved(t, p, Recorded(o)).(content := Record(o)))
  {
    RecordCoversStamp(o);
    RunOneMore(s, actions, t, WriteRecord(p, o));
  }

  function Approach(content: string, p: Process): seq<Action> {
    if content == "" then [] + [Stat(p)] + [Stamp(p)] else [] + [Stat(p)]
  }

  lemma {:induction false} ApproachIsRun(s: State, p: Process)
    requires p in s.stages && s.stages[p].Outside?
    ensures Run(s, Approach(s.content, p))
         == Some(Moved(s, p, Ready).(content := if s.content == "" then "\0" else s.content))
  {
    RunOneMore(s, [], s, Stat(p));
    if s.content == "" {
      RunOneMore(s, [] + [Stat(p)], Moved(s, p, MustStamp), Stamp(p));
      LastStageCounts(s.stages, p, MustStamp, Ready);
    }
  }

  /** Without others in between the steps do what `LockFile.Acquire` does in one. */
  lemma {:induction false} UndisturbedAcquisition(s: State, p: Process, o: Owner)
    requires p in s.stages && s.stages[p].Outside? && Recordable(o)
    ensures s.holder == None ==>
              Run(s, Approach(s.content, p) + [TryLock(p)] + [Truncate(p)] + [WriteRecord(p, o)])
              == Some(State(Record(o), Some(p), s.stages[p := Recorded(o)]))
    ensures s.holder.Some? ==>
              var content := if s.content == "" then "\0" else s.content;
              Run(s, Approach(s.content, p) + [TryLock(p)] + [ReadOwner(p)])
              == Some(State(content, s.holder, s.stages[p := Told(OwnerDetails(content))]))
  {
    var steps, content := Approach(s.content, p), if s.content == "" then "\0" else s.content;
    var ready := Moved(s, p, Ready).(content := content);
    ApproachIsRun(s, p);
    RunOneMore(s, steps, ready, TryLock(p));
    if s.holder == None {
      LastStageCounts(s.stages, p, Ready, Holding);
      RunOneMore(s, steps + [TryLock(p)], State(content, Some(p), s.stages[p := Holding]), Truncate(p));
      LastStageCounts(s.stages, p, Holding, Emptied);
      RecordIsWritten(s, steps + [TryLock(p)] + [Truncate(p)], State("", Some(p), s.stages[p := Emptied]), p, o);
      LastStageCounts(s.stages, p, Emptied, Recorded(o));
    } else {
      LastStageCounts(s.stages, p, Ready, Refused);
      var refused := State(content, s.holder, s.stages[p := Refused]);
      AskedIsTold(refused, p);
      RunOneMore(s, steps + [TryLock(p)], refused, ReadOwner(p));
      LastStageCounts(s.stages, p, Refused, Told(OwnerDetails(content)));
    }
  }

  /** Two processes find the file empty, and one of them takes the lock. */
  function Race(p: Process, q: Process): seq<Action> {
    [] + [Stat(q)] + [Stat(p)] + [Stamp(p)] + [TryLock(p)] + [Truncate(p)]
  }

  lemma {:induction false} RaceIsRun(s: State, p: Process, q: Process)
    requires Initial(s) && s.content == "" && p in s.stages && q in s.stages && p != q
    ensures Run(s, Race(p, q)) == Some(State("", Some(p), s.stages[q := MustStamp][p := Emptied]))
  {
    var waiting := s.stages[q := MustStamp];
    var s1 := State("", None, waiting);
    var s2 := State("", None, waiting[p := MustStamp]);
    var s3 := State("\0", None, waiting[p := Ready]);
    var s4 := State("\0", Some(p), waiting[p := Holding]);
    RunOneMore(s, [], s, Stat(q));
    RunOneMore(s, [] + [Stat(q)], s1, Stat(p));
    RunOneMore(s, [] + [Stat(q)] + [Stat(p)], s2, Stamp(p));
    LastStageCounts(waiting, p, MustStamp, Ready);
    RunOneMore(s, [] + [Stat(q)] + [Stat(p)] + [Stamp(p)], s3, TryLock(p));
    LastStageCounts(waiting, p, Ready, Holding);
    RunOneMore(s, [] + [Stat(q)] + [Stat(p)] + [Stamp(p)] + [TryLock(p)], s4, Truncate(p));
    LastStageCounts(waiting, p, Holding, Emptied);
  }

  /** What follows when a process stamps the file after all, finds the lock taken, and asks. */
  lemma {:induction false} StampAndAsk(s: State, actions: seq<Action>, t: State, q: Process)
    requires Run(s, actions) == Some(t) && t.holder.Some? && q in t.stages && t.stages[q].MustStamp?
    ensures Run(s, actions + [Stamp(q)] + [TryLock(q)] + [ReadOwner(q)])
         == Some(Moved(t, q, Told(OwnerDetails(Stamped(t.content)))).(content := Stamped(t.content)))
  {
    var stamped := t.(content := Stamped(t.content));
    RunOneMore(s, actions, t, Stamp(q));
    RunOneMore(s, actions + [Stamp(q)], Moved(stamped, q, Ready), TryLock(q));
    LastStageCounts(t.stages, q, Ready, Refused);
    AskedIsTold(Moved(stamped, q, Refused), q);
    RunOneMore(s, actions + [Stamp(q)] + [TryLock(q)], Moved(stamped, q, Refused), ReadOwner(q));
    LastStageCounts(t.stages, q, Refused, Told(OwnerDetails(stamped.content)));
  }

  /** From an empty file, any owner's record can lose its pid to a process that is then refused and not told it. */
  lemma {:induction false} AnyOwnerCanLoseItsPid(s: State, p: Process, q: Process, o: Owner)
    requires Initial(s) && s.content == "" && p in s.stages && q in s.stages && p != q && Recordable(o)
    ensures var t := Run(s, Race(p, q) + [WriteRecord(p, o)] + [Stamp(q)] + [TryLock(q)] + [ReadOwner(q)]);
            && t.Some? && p in t.value.stages && q in t.value.stages && t.value.stages[p] == Recorded(o)
            && t.value.stages[q].Told? && t.value.stages[q].details.pid == None
  {
    RaceIsRun(s, p, q);
    var t := Run(s, Race(p, q)).value;
    RecordIsWritten(s, Race(p, q), t, p, o);
    StampAndAsk(s, Race(p, q) + [WriteRecord(p, o)], Moved(t, p, Recorded(o)).(content := Record(o)), q);
    StampedPidIsLost(o);
  }
}
