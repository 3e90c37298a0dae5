/**
 Stored paths: the resolver, its lexical counterpart for destructive callers, and the form paths are stored in.

 The file system has no symbolic links, so resolving a path is collapsing its `..` parts.
 */
module StoragePaths {
  import opened Wrappers

  /** A parsed path: the root is kept apart, and there are no empty and no `.` parts. */
  datatype Path = Path(absolute: bool, parts: seq<string>)

  predicate Parsed(p: Path) {
    forall k :: 0 <= k < |p.parts| ==> p.parts[k] != "" && p.parts[k] != "."
  }

  /** What asking for a path's existence can yield. */
  datatype Existence = Exists | Missing | Unknown

  predicate Plain(parts: seq<string>) {
    forall k :: 0 <= k < |parts| ==> parts[k] != "" && parts[k] != "." && parts[k] != ".."
  }

  /** Collapses `..` from left to right; above the root there is only the root. */
  function Collapse(done: seq<string>, parts: seq<string>): (r: seq<string>)
    decreases |parts|
  {
    if parts == [] then done
    else if parts[0] == ".." then Collapse(if done == [] then [] else done[..|done| - 1], parts[1..])
    else Collapse(done + [parts[0]], parts[1..])
  }

  lemma {:induction false} CollapseIsPlain(done: seq<string>, parts: seq<string>)
    requires Plain(done) && Parsed(Path(true, parts))
    ensures Plain(Collapse(done, parts))
    decreases |parts|
  {
    if parts != [] {
      assert Parsed(Path(true, parts[1..]));
      var next := if parts[0] != ".." then done + [parts[0]] else if done == [] then [] else done[..|done| - 1];
      CollapseIsPlain(next, parts[1..]);
    }
  }

  lemma {:induction false} CollapsePlain(done: seq<string>, parts: seq<string>)
    requires Plain(parts)
    ensures Collapse(done, parts) == done + parts
    decreases |parts|
  {
    if parts == [] {
      assert done + parts == done;
    } else {
      CollapsePlain(done + [parts[0]], parts[1..]);
      assert done + [parts[0]] + parts[1..] == done + parts;
    }
  }

  predicate Under(root: seq<string>, parts: seq<string>) {
    root <= parts
  }

  // ---- Older installations ----

  /** What follows the first part called `data`. */
  function LegacyTail(parts: seq<string>): Option<seq<string>> {
    if parts == [] then None
    else if parts[0] == "data" then Some(parts[1..])
    else LegacyTail(parts[1..])
  }

  lemma {:induction false} LegacyTailIsFirst(parts: seq<string>)
    ensures LegacyTail(parts) == None <==> "data" !in parts
    ensures LegacyTail(parts).Some? ==>
              exists k :: 0 <= k < |parts| && parts[k] == "data" && "data" !in parts[..k]
                       && LegacyTail(parts).value == parts[k + 1..]
  {
    if parts != [] {
      LegacyTailIsFirst(parts[1..]);
      if parts[0] == "data" {
        assert "data" !in parts[..0];
      } else if LegacyTail(parts[1..]).Some? {
        var k :| 0 <= k < |parts[1..]| && parts[1..][k] == "data" && "data" !in parts[1..][..k]
                 && LegacyTail(parts[1..]).value == parts[1..][k + 1..];
        assert parts[..k + 1] == [parts[0]] + parts[1..][..k];
        assert parts[k + 1] == "data" && parts[k + 2..] == parts[1..][k + 1..];
      }
    }
  }

  method PathRelativeToAnyDataDir(parts: seq<string>) returns (tail: Option<seq<string>>)
    ensures tail == LegacyTail(parts)
  {
    assert parts[0..] == parts;
    for index := 0 to |parts|
      invariant LegacyTail(parts) == LegacyTail(parts[index..])
    {
      assert parts[index..][1..] == parts[index + 1..];
      if parts[index] == "data" {
        return Some(parts[index + 1..]);
      }
    }
    return None;
  }

  function WithoutDataPrefix(parts: seq<string>): seq<string> {
    if parts != [] && parts[0] == "data" then parts[1..] else parts
  }

  // ---- The two resolvers ----

  datatype Failure = ExistenceUnknown

  /** The file a stored value stands for, if any. */
  function Resolve(p: Path, root: seq<string>, exists_: Path -> Existence): Result<Option<Path>, Failure> {
    if !p.absolute then
      if p.parts == [] then Ok(None)
      else Ok(Some(Path(true, Collapse(root, WithoutDataPrefix(p.parts)))))
    else if Under(root, Collapse([], p.parts)) then
      Ok(Some(Path(true, Collapse([], p.parts))))
    else
      match LegacyTail(p.parts)
      case None => Ok(Some(p))
      case Some(tail) =>
        var candidate := Path(true, Collapse(root, tail));
        match exists_(candidate)
        case Exists => Ok(Some(candidate))
        case Unknown => Err(ExistenceUnknown)
        case Missing =>
          match exists_(p)
          case Exists => Ok(Some(p))
          case Unknown => Err(ExistenceUnknown)
          case Missing => Ok(Some(candidate))
  }

  /** The same, relative to the root, for callers that are about to delete: anything doubtful is refused. */
  function ManagedRelative(p: Path, root: seq<string>, exists_: Path -> Existence): Option<seq<string>> {
    if !p.absolute && p.parts == [] then None
    else
      var relative :=
        if !p.absolute then RelativeTo(root, Collapse(root, WithoutDataPrefix(p.parts)))
        else if Under(root, Collapse([], p.parts)) then RelativeTo(root, Collapse([], p.parts))
        else Rebased(p, root, exists_);
      if relative.Some? && (relative.value == [] || !Plain(relative.value)) then None else relative
  }

  function RelativeTo(root: seq<string>, parts: seq<string>): Option<seq<string>> {
    if Under(root, parts) then Some(parts[|root|..]) else None
  }

  function Rebased(p: Path, root: seq<string>, exists_: Path -> Existence): Option<seq<string>> {
    match LegacyTail(p.parts)
    case None => None
    case Some(tail) =>
      var rebased := Collapse(root, tail);
      if !Under(root, rebased) then None
      else
        match exists_(Path(true, rebased))
        case Exists => RelativeTo(root, rebased)
        case Unknown => None
        case Missing =>
          match exists_(p)
          case Missing => RelativeTo(root, rebased)
          case _ => None
  }

  predicate Root(root: seq<string>) {
    Plain(root)
  }

  /** The part of a resolved path below the root, if it is strictly below it. */
  function StrictlyBelow(resolved: Result<Option<Path>, Failure>, root: seq<string>): Option<seq<string>> {
    match resolved
    case Ok(Some(q)) =>
      var parts := Collapse([], q.parts);
      if Under(root, parts) && parts != root then Some(parts[|root|..]) else None
    case _ => None
  }

  lemma {:induction false} LegacyTailParsed(parts: seq<string>)
    requires Parsed(Path(true, parts)) && LegacyTail(parts).Some?
    ensures Parsed(Path(true, LegacyTail(parts).value))
  {
    if parts[0] != "data" {
      assert Parsed(Path(true, parts[1..]));
      LegacyTailParsed(parts[1..]);
    }
  }

  lemma CollapseIsStable(done: seq<string>, parts: seq<string>)
    requires Plain(done) && Parsed(Path(true, parts))
    ensures Plain(Collapse(done, parts))
    ensures Collapse([], Collapse(done, parts)) == Collapse(done, parts)
  {
    CollapseIsPlain(done, parts);
    CollapsePlain([], Collapse(done, parts));
    assert [] + Collapse(done, parts) == Collapse(done, parts);
  }

  /** Below is `Some` of a non-empty plain path exactly when the resolver's answer lies strictly below the root. */
  lemma {:induction false} ResolversAgree(p: Path, root: seq<string>, exists_: Path -> Existence)
    requires Root(root) && Parsed(p)
    ensures ManagedRelative(p, root, exists_) == StrictlyBelow(Resolve(p, root, exists_), root)
  {
    if !p.absolute {
      if p.parts != [] {
        assert Parsed(Path(true, WithoutDataPrefix(p.parts)));
        CollapseIsStable(root, WithoutDataPrefix(p.parts));
      }
    } else {
      CollapseIsStable([], p.parts);
      if !Under(root, Collapse([], p.parts)) && LegacyTail(p.parts).Some? {
        LegacyTailParsed(p.parts);
        CollapseIsStable(root, LegacyTail(p.parts).value);
      }
    }
  }

  /** Whatever a destructive caller gets is confined, and is the file that the resolver would have returned. */
  lemma {:induction false} ManagedPathsAreConfined(p: Path, root: seq<string>, exists_: Path -> Existence)
    requires Root(root) && Parsed(p) && ManagedRelative(p, root, exists_).Some?
    ensures var relative := ManagedRelative(p, root, exists_).value;
            && relative != [] && Plain(relative)
            && Resolve(p, root, exists_) == Ok(Some(Path(true, root + relative)))
  {
    if !p.absolute {
      JoinBelow(root, Collapse(root, WithoutDataPrefix(p.parts)));
    } else if Under(root, Collapse([], p.parts)) {
      JoinBelow(root, Collapse([], p.parts));
    } else {
      JoinBelow(root, Collapse(root, LegacyTail(p.parts).value));
    }
  }

  lemma JoinBelow(root: seq<string>, parts: seq<string>)
    ensures Under(root, parts) ==> root + parts[|root|..] == parts
  {
  }

  // ---- Storing a path ----

  /** The stored form of a resolved path; the root itself is stored as `.`, which parses to no parts at all. */
  function ToStorage(p: Path, root: seq<string>): Path {
    if Under(root, p.parts) then Path(false, p.parts[|root|..])
    else
      match LegacyTail(p.parts)
      case Some(tail) => Path(false, tail)
      case None => p
  }

  /** What a caller can check before storing a path. */
  predicate Storable(p: Path, root: seq<string>) {
    if Under(root, p.parts) then p.parts != root && p.parts[|root|] != "data"
    else "data" !in p.parts
  }

  /** A stored path comes back exactly if it is storable, whatever exists. */
  lemma {:induction false} StorageRoundTrip(p: Path, root: seq<string>, exists_: Path -> Existence)
    requires Root(root) && p.absolute && Plain(p.parts)
    ensures Resolve(ToStorage(p, root), root, exists_) == Ok(Some(p)) <==> Storable(p, root)
  {
    if Under(root, p.parts) {
      RelativeRoundTrip(p.parts[|root|..], root, exists_);
      JoinBelow(root, p.parts);
    } else if LegacyTail(p.parts).Some? {
      LegacyTailIsFirst(p.parts);
      RelativeRoundTrip(LegacyTail(p.parts).value, root, exists_);
    } else {
      LegacyTailIsFirst(p.parts);
      CollapsePlain([], p.parts);
      assert [] + p.parts == p.parts;
    }
  }

  /** What a plain relative path resolves to. */
  lemma RelativeRoundTrip(relative: seq<string>, root: seq<string>, exists_: Path -> Existence)
    requires Plain(relative)
    ensures Resolve(Path(false, relative), root, exists_)
         == Ok(if relative == [] then None else Some(Path(true, root + WithoutDataPrefix(relative))))
  {
    CollapsePlain(root, WithoutDataPrefix(relative));
  }

  /** Stored forms tell the files below the root apart. */
  lemma StoredFormsDiffer(p: Path, q: Path, root: seq<string>)
    requires p.absolute && q.absolute && Under(root, p.parts) && Under(root, q.parts)
    requires ToStorage(p, root) == ToStorage(q, root)
    ensures p == q
  {
    JoinBelow(root, p.parts);
    JoinBelow(root, q.parts);
  }
}
