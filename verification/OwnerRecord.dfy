/**
 The record of who holds the data root: written into the locked file, read back by whoever finds it locked.
 */
module OwnerRecord {
  import opened Wrappers
  import opened Decimal

  const READ_LIMIT := 1024
  const MAX_PID := 2147483647
  const MAX_PORT := 65535

  datatype Address = Address(host: string, port: nat)

  datatype Owner = Owner(pid: nat, address: Option<Address>)

  /** What a reader makes of a record; any part may be missing. */
  datatype Details = Details(pid: Option<nat>, host: Option<string>, port: Option<nat>)

  function PidLine(pid: nat): string {
    "pid=" + Print(pid)
  }

  function HostLine(host: string): string {
    "host=" + host
  }

  function PortLine(port: nat): string {
    "port=" + Print(port)
  }

  function Record(o: Owner): string {
    PidLine(o.pid) + "\n" +
    match o.address
    case None => ""
    case Some(a) => HostLine(a.host) + "\n" + PortLine(a.port) + "\n"
  }

  // ---- Lines and fields ----

  /** The characters below 128 that end a line. */
  predicate IsBreak(c: char) {
    c == '\n' || c == '\r' || 11 <= c as int <= 12 || 28 <= c as int <= 30
  }

  predicate IsAscii(s: string) {
    forall k :: 0 <= k < |s| ==> s[k] as int < 128
  }

  predicate Unbroken(s: string) {
    forall k :: 0 <= k < |s| ==> !IsBreak(s[k])
  }

  function BreakAt(s: string): (k: nat)
    ensures k <= |s| && Unbroken(s[..k]) && (k < |s| ==> IsBreak(s[k]))
  {
    if s == "" then 0
    else if IsBreak(s[0]) then 0
    else
      var k := 1 + BreakAt(s[1..]);
      assert s[..k] == [s[0]] + s[1..][..k - 1];
      k
  }

  /** A carriage return takes a line feed that follows it along. */
  function BreakLength(s: string, k: nat): (n: nat)
    requires k < |s|
    ensures 1 <= n <= |s| - k
  {
    if s[k] == '\r' && k + 1 < |s| && s[k + 1] == '\n' then 2 else 1
  }

  function Lines(s: string): seq<string>
    decreases |s|
  {
    if s == "" then []
    else
      var k := BreakAt(s);
      if k == |s| then [s] else [s[..k]] + Lines(s[k + BreakLength(s, k)..])
  }

  function EqualsAt(s: string): (k: nat)
    ensures k <= |s| && '=' !in s[..k] && (k < |s| ==> s[k] == '=')
  {
    if s == "" || s[0] == '=' then 0
    else
      var k := 1 + EqualsAt(s[1..]);
      assert s[..k] == [s[0]] + s[1..][..k - 1];
      k
  }

  function WithField(fields: map<string, string>, line: string): map<string, string> {
    var k := EqualsAt(line);
    if k < |line| then fields[line[..k] := line[k + 1..]] else fields
  }

  function Fields(lines: seq<string>): map<string, string> {
    if lines == [] then map[] else WithField(Fields(lines[..|lines| - 1]), lines[|lines| - 1])
  }

  function NumberField(fields: map<string, string>, name: string, maximum: nat): Option<nat> {
    if name in fields && IsDecimal(fields[name]) && 0 < Parse(fields[name]) <= maximum
    then Some(Parse(fields[name])) else None
  }

  function Head(content: string): string {
    if |content| <= READ_LIMIT then content else content[..READ_LIMIT]
  }

  function DetailsOf(fields: map<string, string>): Details {
    Details(
      NumberField(fields, "pid", MAX_PID),
      if "host" in fields && fields["host"] != "" then Some(fields["host"]) else None,
      NumberField(fields, "port", MAX_PORT))
  }

  function OwnerDetails(content: string): Details {
    if IsAscii(Head(content)) then DetailsOf(Fields(Lines(Head(content)))) else Details(None, None, None)
  }

  // ---- The file ----

  datatype LockError = InUse(holder: Details)

  /** An open lock file; `locked` is the operating system's lock on it. */
  class LockFile {
    var content: string
    var position: nat
    var locked: bool

    constructor (content: string, locked: bool)
      ensures this.content == content && this.locked == locked
    {
      this.content, this.position, this.locked := content, 0, locked;
    }

    method Seek(offset: nat)
      modifies this`position
      ensures position == offset
    {
      position := offset;
    }

    method Truncate()
      modifies this`content
      ensures content == ""
    {
      content := "";
    }

    /** Overwrites from the current position on, and leaves what lies beyond. */
    method Write(payload: string)
      requires position <= |content|
      modifies this`content, this`position
      ensures content == old(content)[..old(position)] + payload
                         + (if old(position) + |payload| <= |old(content)|
                            then old(content)[old(position) + |payload|..] else "")
      ensures position == old(position) + |payload|
    {
      var after := position + |payload|;
      content := content[..position] + payload + (if after <= |content| then content[after..] else "");
      position := after;
    }

    /** Reads the fields of the first bytes of the file. */
    method ReadOwnerDetails() returns (details: Details)
      modifies this`position
      ensures details == OwnerDetails(content)
    {
      Seek(0);
      var payload := Head(content);
      if !IsAscii(payload) {
        return Details(None, None, None);
      }
      var lines := Lines(payload);
      var fields: map<string, string> := map[];
      for k := 0 to |lines|
        invariant fields == Fields(lines[..k])
      {
        assert lines[..k + 1][..k] == lines[..k];
        var equals := EqualsAt(lines[k]);
        if equals < |lines[k]| {
          fields := fields[lines[k][..equals] := lines[k][equals + 1..]];
        }
      }
      assert lines[..|lines|] == lines;
      details := DetailsOf(fields);
    }

    /** Takes the lock and replaces whatever the file held by the new record, or reports the present owner. */
    method Acquire(owner: Owner) returns (result: Result<(), LockError>)
      modifies this
      ensures result.Ok? <==> !old(locked)
      ensures result.Ok? ==> locked && content == Record(owner)
      ensures result.Err? ==> locked && content == (if old(content) == "" then "\0" else old(content))
      ensures result.Err? ==> result.error == InUse(OwnerDetails(content))
    {
      if content == "" {
        Seek(0);
        Write("\0");
      }
      Seek(0);
      if locked {
        var holder := ReadOwnerDetails();
        return Err(InUse(holder));
      }
      locked := true;
      Truncate();
      Seek(0);
      Write(Record(owner));
      assert "" + Record(owner) + "" == Record(owner);
      return Ok(());
    }
  }

  /** An acquired lock.  Only its first release gives up the file's lock, which may be another process's later. */
  class DataRootLock {
    const file: LockFile
    var released: bool

    constructor (file: LockFile)
      ensures this.file == file && !released
    {
      this.file := file;
      released := false;
    }

    method Release()
      modifies this, file
      ensures released && file.content == old(file.content)
      ensures file.locked == (old(released) && old(file.locked))
    {
      if released {
        return;
      }
      file.locked := false;
      released := true;
    }
  }

  // ---- The round trip ----

  predicate PlainHost(host: string) {
    host != "" && IsAscii(host) && Unbroken(host)
  }

  predicate Recordable(o: Owner) {
    && 0 < o.pid <= MAX_PID
    && (o.address.Some? ==> PlainHost(o.address.value.host) && 0 < o.address.value.port <= MAX_PORT)
  }

  function Expected(o: Owner): Details {
    match o.address
    case None => Details(Some(o.pid), None, None)
    case Some(a) => Details(Some(o.pid), Some(a.host), Some(a.port))
  }

  lemma {:induction false} BreakAfter(line: string, rest: string)
    requires Unbroken(line)
    ensures BreakAt(line + "\n" + rest) == |line|
    ensures BreakAt(line) == |line|
  {
    if line == "" {
      assert line + "\n" + rest == "\n" + rest;
    } else {
      assert (line + "\n" + rest)[1..] == line[1..] + "\n" + rest;
      BreakAfter(line[1..], rest);
    }
  }

  lemma FirstLine(line: string, rest: string)
    requires Unbroken(line)
    ensures Lines(line + "\n" + rest) == [line] + Lines(rest)
  {
    var s := line + "\n" + rest;
    BreakAfter(line, rest);
    assert s[..|line|] == line && s[|line|] == '\n' && s[|line| + 1..] == rest;
  }

  lemma LastLine(line: string)
    requires Unbroken(line)
    ensures Lines(line) == if line == "" then [] else [line]
    ensures line != "" ==> Lines(line + "\n") == [line]
  {
    BreakAfter(line, "");
    FirstLine(line, "");
    assert line + "\n" + "" == line + "\n";
  }

  lemma {:induction false} EqualsAfter(name: string, value: string)
    requires '=' !in name
    ensures EqualsAt(name + "=" + value) == |name|
  {
    if name == "" {
      assert name + "=" + value == "=" + value;
    } else {
      assert (name + "=" + value)[1..] == name[1..] + "=" + value;
      EqualsAfter(name[1..], value);
    }
  }

  lemma FieldOf(name: string, value: string, fields: map<string, string>)
    requires '=' !in name
    ensures WithField(fields, name + "=" + value) == fields[name := value]
  {
    var line := name + "=" + value;
    EqualsAfter(name, value);
    assert line[..|name|] == name && line[|name| + 1..] == value;
  }

  lemma NumeralsAreUnbroken(n: nat)
    ensures Unbroken(Print(n)) && IsAscii(Print(n)) && '=' !in Print(n)
  {
  }

  lemma {:induction false} FieldsOfPid(pid: nat)
    ensures Fields([PidLine(pid)]) == map["pid" := Print(pid)]
  {
    FieldOf("pid", Print(pid), map[]);
    assert PidLine(pid) == "pid" + "=" + Print(pid);
    assert [PidLine(pid)][..0] == [];
    assert Fields([PidLine(pid)]) == WithField(Fields([]), PidLine(pid));
  }

  /** What reading the three lines gives, the last of them possibly cut short. */
  lemma {:induction false} FieldsOfRecord(pid: nat, host: string, tail: string)
    ensures Fields([PidLine(pid)]) == map["pid" := Print(pid)]
    ensures Fields([PidLine(pid), HostLine(host)]) == map["pid" := Print(pid), "host" := host]
    ensures Fields([PidLine(pid), HostLine(host), tail])
         == WithField(map["pid" := Print(pid), "host" := host], tail)
    ensures Fields([PidLine(pid), tail]) == WithField(map["pid" := Print(pid)], tail)
  {
    FieldsOfPid(pid);
    FieldOf("host", host, map["pid" := Print(pid)]);
    assert HostLine(host) == "host" + "=" + host;
    assert [PidLine(pid), HostLine(host)][..1] == [PidLine(pid)];
    assert [PidLine(pid), tail][..1] == [PidLine(pid)];
    assert [PidLine(pid), HostLine(host), tail][..2] == [PidLine(pid), HostLine(host)];
  }

  lemma TwoLines(first: string, second: string, tail: string)
    requires Unbroken(first) && Unbroken(second)
    ensures Lines(first + "\n" + (second + "\n" + tail)) == [first, second] + Lines(tail)
  {
    FirstLine(second, tail);
    FirstLine(first, second + "\n" + tail);
    Prepended(first, second, Lines(tail));
  }

  lemma Prepended(first: string, second: string, lines: seq<string>)
    ensures [first] + ([second] + lines) == [first, second] + lines
  {
  }

  lemma LinesAreUnbroken(pid: nat, host: string, port: nat)
    requires PlainHost(host)
    ensures Unbroken(PidLine(pid)) && Unbroken(HostLine(host)) && Unbroken(PortLine(port))
  {
  }

  lemma FieldsOfThreeLines(pid: nat, host: string, port: nat)
    ensures Fields([PidLine(pid), HostLine(host), PortLine(port)])
         == map["pid" := Print(pid), "host" := host, "port" := Print(port)]
  {
    FieldsOfRecord(pid, host, PortLine(port));
    FieldOf("port", Print(port), map["pid" := Print(pid), "host" := host]);
    assert PortLine(port) == "port" + "=" + Print(port);
  }

  lemma PortLineIsLast(port: nat, end: string)
    requires Unbroken(PortLine(port)) && end in {"", "\n"}
    ensures Lines(PortLine(port) + end) == [PortLine(port)]
  {
    LastLine(PortLine(port));
    assert PortLine(port) + "" == PortLine(port);
  }

  /** The fields of the three lines, whether or not the last has its line end. */
  lemma {:induction false} FieldsOfWholeRecord(pid: nat, host: string, port: nat, end: string)
    requires PlainHost(host) && end in {"", "\n"}
    ensures Fields(Lines(PidLine(pid) + "\n" + (HostLine(host) + "\n" + (PortLine(port) + end))))
         == map["pid" := Print(pid), "host" := host, "port" := Print(port)]
  {
    LinesAreUnbroken(pid, host, port);
    PortLineIsLast(port, end);
    TwoLines(PidLine(pid), HostLine(host), PortLine(port) + end);
    assert [PidLine(pid), HostLine(host)] + [PortLine(port)] == [PidLine(pid), HostLine(host), PortLine(port)];
    FieldsOfThreeLines(pid, host, port);
  }

  /** With the port line whole, and its line end there or not, everything is read back. */
  lemma {:induction false} WholeRecordIsRead(pid: nat, host: string, port: nat, end: string)
    requires 0 < pid <= MAX_PID && PlainHost(host) && 0 < port <= MAX_PORT && end in {"", "\n"}
    ensures var read := PidLine(pid) + "\n" + (HostLine(host) + "\n" + (PortLine(port) + end));
            |read| <= READ_LIMIT ==> OwnerDetails(read) == Details(Some(pid), Some(host), Some(port))
  {
    var read := PidLine(pid) + "\n" + (HostLine(host) + "\n" + (PortLine(port) + end));
    FieldsOfWholeRecord(pid, host, port, end);
    PortLineIsAscii(port, end);
    RecordIsAscii(pid, host, PortLine(port) + end);
    WholeDetails(pid, host, port, Fields(Lines(read)));
    if |read| <= READ_LIMIT {
      UncutRead(read);
    }
  }

  lemma PortLineIsAscii(port: nat, end: string)
    requires end in {"", "\n"}
    ensures IsAscii(PortLine(port) + end)
  {
  }

  lemma UncutRead(read: string)
    requires |read| <= READ_LIMIT && IsAscii(read)
    ensures OwnerDetails(read) == DetailsOf(Fields(Lines(read)))
  {
  }

  lemma RecordIsAscii(pid: nat, host: string, tail: string)
    requires PlainHost(host)
    ensures IsAscii(PidLine(pid) + "\n" + (HostLine(host) + "\n" + tail)) <==> IsAscii(tail)
  {
    NumeralsAreUnbroken(pid);
    var start := PidLine(pid) + "\n" + HostLine(host) + "\n";
    assert IsAscii(start);
    var whole := PidLine(pid) + "\n" + (HostLine(host) + "\n" + tail);
    assert whole == start + tail;
    assert forall k :: 0 <= k < |tail| ==> tail[k] == whole[|start| + k];
  }

  lemma WholeDetails(pid: nat, host: string, port: nat, fields: map<string, string>)
    requires 0 < pid <= MAX_PID && host != "" && 0 < port <= MAX_PORT
    requires fields == map["pid" := Print(pid), "host" := host, "port" := Print(port)]
    ensures DetailsOf(fields) == Details(Some(pid), Some(host), Some(port))
  {
    ParsePrint(pid);
    ParsePrint(port);
  }

  lemma {:induction false} ShorterNumeral(n: nat, c: nat)
    requires 0 < c < |Print(n)|
    ensures IsDecimal(Print(n)[..c]) && Parse(Print(n)[..c]) < n
  {
    assert Print(n)[..|Print(n)| - 1] == Print(n / 10);
    ParsePrint(n / 10);
    if c < |Print(n)| - 1 {
      ShorterNumeral(n / 10, c);
      assert Print(n)[..c] == Print(n / 10)[..c];
    }
  }

  /** A port line that lost its end never yields the port. */
  lemma {:induction false} CutPortIsNotRead(port: nat, c: nat, fields: map<string, string>)
    requires c < |PortLine(port)| && "port" !in fields
    ensures NumberField(WithField(fields, PortLine(port)[..c]), "port", MAX_PORT) != Some(port)
  {
    var line := PortLine(port)[..c];
    if c <= 4 {
      assert line == "port"[..c];
      assert EqualsAt(line) == |line|;
    } else {
      var digits := Print(port)[..c - 5];
      assert line == "port" + "=" + digits;
      FieldOf("port", digits, fields);
      if digits != "" {
        ShorterNumeral(port, c - 5);
      }
    }
  }

  /** A host line that lost its end yields no port at all. */
  lemma {:induction false} CutHostHasNoPort(host: string, c: nat, fields: map<string, string>)
    requires c <= |HostLine(host)| && "port" !in fields
    ensures "port" !in WithField(fields, HostLine(host)[..c])
  {
  }

  /** What is read ends within the host line. */
  lemma {:induction false} CutInHost(pid: nat, a: Address, c: nat)
    requires PlainHost(a.host) && c <= |HostLine(a.host)|
    ensures "port" !in Fields(Lines(PidLine(pid) + "\n" + HostLine(a.host)[..c]))
  {
    var part := HostLine(a.host)[..c];
    LinesAreUnbroken(pid, a.host, a.port);
    FirstLine(PidLine(pid), part);
    LastLine(part);
    FieldsOfRecord(pid, a.host, part);
    CutHostHasNoPort(a.host, c, map["pid" := Print(pid)]);
    assert [PidLine(pid)] + [part] == [PidLine(pid), part] && [PidLine(pid)] + [] == [PidLine(pid)];
  }

  /** What is read ends within the port line. */
  lemma {:induction false} CutInPort(pid: nat, a: Address, c: nat)
    requires PlainHost(a.host) && c < |PortLine(a.port)|
    ensures NumberField(Fields(Lines(PidLine(pid) + "\n" + (HostLine(a.host) + "\n" + PortLine(a.port)[..c]))),
                        "port", MAX_PORT) != Some(a.port)
  {
    var part := PortLine(a.port)[..c];
    LinesAreUnbroken(pid, a.host, a.port);
    TwoLines(PidLine(pid), HostLine(a.host), part);
    LastLine(part);
    FieldsOfRecord(pid, a.host, part);
    CutPortIsNotRead(a.port, c, map["pid" := Print(pid), "host" := a.host]);
    assert [PidLine(pid), HostLine(a.host)] + [part] == [PidLine(pid), HostLine(a.host), part];
    assert [PidLine(pid), HostLine(a.host)] + [] == [PidLine(pid), HostLine(a.host)];
  }

  /** A record of two bytes too many, or more, loses at least a digit of the port. */
  lemma {:induction false} LongRecordIsMisread(o: Owner)
    requires Recordable(o) && |Record(o)| > READ_LIMIT + 1
    ensures o.address.Some? && OwnerDetails(Record(o)).port != Some(o.address.value.port)
  {
    PidIsShort(o.pid);
    var a := o.address.value;
    var hostStart, portStart := |PidLine(o.pid)| + 1, |PidLine(o.pid)| + 1 + |HostLine(a.host)| + 1;
    if READ_LIMIT < portStart {
      var c := READ_LIMIT - hostStart;
      assert Head(Record(o)) == PidLine(o.pid) + "\n" + HostLine(a.host)[..c];
      CutInHost(o.pid, a, c);
    } else {
      var c := READ_LIMIT - portStart;
      assert Head(Record(o)) == PidLine(o.pid) + "\n" + (HostLine(a.host) + "\n" + PortLine(a.port)[..c]);
      CutInPort(o.pid, a, c);
    }
  }

  lemma PidIsShort(pid: nat)
    requires pid <= MAX_PID
    ensures |PidLine(pid)| <= 14
  {
    assert Pow10(10) == 10000000000 by {
      assert Pow10(5) == 100000;
    }
    PrintBound(pid, 10);
  }

  /**
   The record round trip: what a reader finds is exactly what was written, if and only if the record is at most one
   byte longer than what is read, that byte being its final line end.
   */
  lemma {:induction false} RecordRoundTrip(o: Owner)
    requires Recordable(o)
    ensures OwnerDetails(Record(o)) == Expected(o) <==> |Record(o)| <= READ_LIMIT + 1
  {
    match o.address
    case Some(a) =>
      if |Record(o)| > READ_LIMIT + 1 {
        LongRecordIsMisread(o);
      } else {
        ShortRecordIsRead(o, a);
      }
    case None => BareRecordIsRead(o.pid);
  }

  lemma {:induction false} ShortRecordIsRead(o: Owner, a: Address)
    requires Recordable(o) && o.address == Some(a) && |Record(o)| <= READ_LIMIT + 1
    ensures OwnerDetails(Record(o)) == Expected(o)
  {
    var whole := PidLine(o.pid) + "\n" + (HostLine(a.host) + "\n" + (PortLine(a.port) + "\n"));
    var cut := PidLine(o.pid) + "\n" + (HostLine(a.host) + "\n" + (PortLine(a.port) + ""));
    assert Record(o) == whole;
    WholeRecordIsRead(o.pid, a.host, a.port, "\n");
    WholeRecordIsRead(o.pid, a.host, a.port, "");
    if |whole| == READ_LIMIT + 1 {
      assert whole == cut + "\n" && Head(whole) == cut == Head(cut);
    }
  }

  lemma {:induction false} BareRecordIsRead(pid: nat)
    requires 0 < pid <= MAX_PID
    ensures |Record(Owner(pid, None))| <= READ_LIMIT + 1
    ensures OwnerDetails(Record(Owner(pid, None))) == Details(Some(pid), None, None)
  {
    var read := PidLine(pid) + "\n";
    assert Record(Owner(pid, None)) == read;
    PidIsShort(pid);
    BarePid(pid);
    UncutRead(read);
  }

  lemma {:induction false} BarePid(pid: nat)
    requires 0 < pid <= MAX_PID
    ensures IsAscii(PidLine(pid) + "\n")
    ensures DetailsOf(Fields(Lines(PidLine(pid) + "\n"))) == Details(Some(pid), None, None)
  {
    NumeralsAreUnbroken(pid);
    LastLine(PidLine(pid));
    FieldsOfPid(pid);
    BareDetails(pid, Fields([PidLine(pid)]));
  }

  lemma {:induction false} BareDetails(pid: nat, fields: map<string, string>)
    requires 0 < pid <= MAX_PID && fields == map["pid" := Print(pid)]
    ensures DetailsOf(fields) == Details(Some(pid), None, None)
  {
    ParsePrint(pid);
  }
}
