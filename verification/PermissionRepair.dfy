/**
 Permission repair: which inodes of a tree get the required mode, and that nothing else is touched.

 The tree is quiet while it is repaired.  Whether an owned entry can be opened depends on the mode that its
 inode has at that moment, so a second repair has to be argued for, not assumed to see the same tree.
 */
module PermissionRepair {

  const PRIVATE_DIR_MODE := 448       // 0o700
  const PRIVATE_FILE_MODE := 384      // 0o600
  const SHARED_ROOT_MODE := 457       // 0o711
  const SHARED_DIR_MODE := 493        // 0o755
  const SHARED_FILE_MODE := 420       // 0o644

  predicate OwnerReadable(mode: nat) {
    mode / 256 % 2 == 1
  }

  /** `blocked` is any reason other than the inode's own mode for which it cannot be opened. */
  datatype Node =
    | Directory(inode: nat, owned: bool, blocked: bool, listable: bool, entries: Listing)
    | File(inode: nat, owned: bool, blocked: bool, links: nat)
    | Link
    | Special

  datatype Listing = End | Entry(node: Node, rest: Listing)

  type Modes = map<nat, nat>

  /** The modes required of directories and of files. */
  datatype Policy = Policy(directories: nat, files: nat)

  predicate ReadablePolicy(p: Policy) {
    OwnerReadable(p.directories) && OwnerReadable(p.files)
  }

  // ---- Inodes ----

  function NodeInodes(n: Node): set<nat> {
    match n
    case Directory(inode, _, _, _, entries) => {inode} + ListingInodes(entries)
    case File(inode, _, _, _) => {inode}
    case _ => {}
  }

  function ListingInodes(l: Listing): set<nat> {
    match l
    case End => {}
    case Entry(n, rest) => NodeInodes(n) + ListingInodes(rest)
  }

  /** The inodes that have a single name: directories, and files with one link. */
  function NodeSole(n: Node): (s: set<nat>)
    ensures s <= NodeInodes(n)
  {
    match n
    case Directory(inode, _, _, _, entries) => {inode} + ListingSole(entries)
    case File(inode, _, _, links) => if links == 1 then {inode} else {}
    case _ => {}
  }

  function ListingSole(l: Listing): (s: set<nat>)
    ensures s <= ListingInodes(l)
  {
    match l
    case End => {}
    case Entry(n, rest) => NodeSole(n) + ListingSole(rest)
  }

  /** An inode with a single name appears once. */
  predicate NodeProper(n: Node) {
    n.Directory? ==> n.inode !in ListingInodes(n.entries) && ListingProper(n.entries)
  }

  predicate ListingProper(l: Listing) {
    match l
    case End => true
    case Entry(n, rest) => NodeProper(n) && ListingProper(rest) && Apart(n, rest)
  }

  predicate Apart(n: Node, rest: Listing) {
    NodeSole(n) !! ListingInodes(rest) && NodeInodes(n) !! ListingSole(rest)
  }

  // ---- What is to be repaired, and to which mode ----

  predicate Openable(inode: nat, owned: bool, blocked: bool, modes: Modes)
    requires inode in modes
  {
    !blocked && (owned ==> OwnerReadable(modes[inode]))
  }

  function NodeTargets(n: Node, p: Policy, recurse: bool, modes: Modes): (t: Modes)
    requires NodeInodes(n) <= modes.Keys
    ensures t.Keys <= NodeSole(n)
  {
    match n
    case Directory(inode, owned, blocked, listable, entries) =>
      if !Openable(inode, owned, blocked, modes) || !owned then map[]
      else map[inode := p.directories] + (if recurse && listable then ListingTargets(entries, p, modes) else map[])
    case File(inode, owned, blocked, links) =>
      if Openable(inode, owned, blocked, modes) && links == 1 && owned then map[inode := p.files] else map[]
    case _ => map[]
  }

  function ListingTargets(l: Listing, p: Policy, modes: Modes): (t: Modes)
    requires ListingInodes(l) <= modes.Keys
    ensures t.Keys <= ListingSole(l)
  {
    match l
    case End => map[]
    case Entry(n, rest) => NodeTargets(n, p, true, modes) + ListingTargets(rest, p, modes)
  }

  function NodeSkips(n: Node, recurse: bool, modes: Modes): nat
    requires NodeInodes(n) <= modes.Keys
  {
    match n
    case Directory(inode, owned, blocked, listable, entries) =>
      if !Openable(inode, owned, blocked, modes) || !owned then 1
      else if !recurse then 0
      else if listable then ListingSkips(entries, modes) else 1
    case File(inode, owned, blocked, links) =>
      if Openable(inode, owned, blocked, modes) && links == 1 && owned then 0 else 1
    case _ => 1
  }

  function ListingSkips(l: Listing, modes: Modes): nat
    requires ListingInodes(l) <= modes.Keys
  {
    match l
    case End => 0
    case Entry(n, rest) => NodeSkips(n, true, modes) + ListingSkips(rest, modes)
  }

  /** The inodes whose mode a repair actually changes. */
  function Changed(modes: Modes, targets: Modes): set<nat> {
    set i | i in targets && i in modes && modes[i] != targets[i]
  }

  predicate Agree(a: Modes, b: Modes, inodes: set<nat>) {
    forall i :: i in inodes ==> (i in a <==> i in b) && (i in a ==> a[i] == b[i])
  }

  // ---- The targets, said without following the traversal ----

  predicate Listed(n: Node, l: Listing) {
    l.Entry? && (l.node == n || Listed(n, l.rest))
  }

  /** A directory that can be opened and listed and belongs to the process. */
  predicate Passable(n: Node, modes: Modes) {
    n.Directory? && n.owned && n.listable && n.inode in modes && Openable(n.inode, true, n.blocked, modes)
  }

  /** A real directory or a single-link regular file that can be opened and belongs to the process. */
  predicate Repairable(n: Node, modes: Modes) {
    && (n.Directory? || (n.File? && n.links == 1))
    && n.owned && n.inode in modes && Openable(n.inode, true, n.blocked, modes)
  }

  /** Each node is listed in the directory before it, and all but the last can be passed. */
  predicate Chain(nodes: seq<Node>, l: Listing, modes: Modes) {
    && nodes != [] && Listed(nodes[0], l)
    && (|nodes| > 1 ==> Passable(nodes[0], modes) && Chain(nodes[1..], nodes[0].entries, modes))
  }

  function RequiredMode(n: Node, p: Policy): nat {
    if n.Directory? then p.directories else p.files
  }

  lemma {:induction false} ListedIsApart(n: Node, l: Listing)
    requires Listed(n, l) && ListingProper(l)
    ensures NodeProper(n) && NodeInodes(n) <= ListingInodes(l) && NodeSole(n) <= ListingSole(l)
  {
    if l.node != n {
      ListedIsApart(n, l.rest);
    }
  }

  /** Whatever a chain of passable directories leads to is repaired, to the mode of its kind. */
  lemma {:induction false} ReachedIsTarget(nodes: seq<Node>, l: Listing, p: Policy, modes: Modes)
    requires Chain(nodes, l, modes) && Repairable(nodes[|nodes| - 1], modes)
    requires ListingProper(l) && ListingInodes(l) <= modes.Keys
    ensures var last := nodes[|nodes| - 1];
            && last.inode in ListingTargets(l, p, modes)
            && ListingTargets(l, p, modes)[last.inode] == RequiredMode(last, p)
    decreases |nodes|, l
  {
    var last := nodes[|nodes| - 1];
    if l.node == nodes[0] {
      if |nodes| > 1 {
        ReachedIsTarget(nodes[1..], nodes[0].entries, p, modes);
        assert last.inode in ListingTargets(nodes[0].entries, p, modes);
      }
      assert last.inode in NodeTargets(l.node, p, true, modes);
      assert last.inode !in ListingTargets(l.rest, p, modes);
    } else {
      ReachedIsTarget(nodes, l.rest, p, modes);
    }
  }

  /** And only that is. */
  lemma {:induction false} TargetIsReached(l: Listing, p: Policy, modes: Modes, i: nat) returns (nodes: seq<Node>)
    requires ListingInodes(l) <= modes.Keys && i in ListingTargets(l, p, modes)
    ensures Chain(nodes, l, modes) && Repairable(nodes[|nodes| - 1], modes) && nodes[|nodes| - 1].inode == i
  {
    if i in ListingTargets(l.rest, p, modes) {
      nodes := TargetIsReached(l.rest, p, modes, i);
    } else if l.node.inode == i {
      nodes := [l.node];
    } else {
      var deeper := TargetIsReached(l.node.entries, p, modes, i);
      nodes := [l.node] + deeper;
      assert nodes[1..] == deeper;
    }
  }

  // ---- Repairing one part does not affect another ----

  lemma {:induction false} NodeTargetsDependOnInodes(n: Node, p: Policy, recurse: bool, a: Modes, b: Modes)
    requires NodeInodes(n) <= a.Keys && NodeInodes(n) <= b.Keys && Agree(a, b, NodeInodes(n))
    ensures NodeTargets(n, p, recurse, a) == NodeTargets(n, p, recurse, b)
    ensures NodeSkips(n, recurse, a) == NodeSkips(n, recurse, b)
  {
    if n.Directory? {
      ListingTargetsDependOnInodes(n.entries, p, a, b);
    }
  }

  lemma {:induction false} ListingTargetsDependOnInodes(l: Listing, p: Policy, a: Modes, b: Modes)
    requires ListingInodes(l) <= a.Keys && ListingInodes(l) <= b.Keys && Agree(a, b, ListingInodes(l))
    ensures ListingTargets(l, p, a) == ListingTargets(l, p, b)
    ensures ListingSkips(l, a) == ListingSkips(l, b)
  {
    match l
    case End =>
    case Entry(n, rest) =>
      NodeTargetsDependOnInodes(n, p, true, a, b);
      ListingTargetsDependOnInodes(rest, p, a, b);
  }

  /** Disjoint repairs add up. */
  lemma ChangesAddUp(modes: Modes, first: Modes, second: Modes)
    requires first.Keys !! second.Keys && first.Keys <= modes.Keys
    ensures |Changed(modes, first + second)| == |Changed(modes, first)| + |Changed(modes + first, second)|
  {
    assert Changed(modes, first + second) == Changed(modes, first) + Changed(modes, second);
    assert Changed(modes + first, second) == Changed(modes, second);
    assert Changed(modes, first) !! Changed(modes, second);
  }

  // ---- A second repair ----

  /** The targets have readable modes, and everything else is as it was. */
  predicate Repaired(inodes: set<nat>, targets: Modes, before: Modes, after: Modes) {
    forall i :: i in inodes ==>
      i in before && i in after && if i in targets then OwnerReadable(after[i]) else after[i] == before[i]
  }

  lemma {:induction false} NodeTargetsStay(n: Node, p: Policy, recurse: bool, before: Modes, after: Modes)
    requires NodeProper(n) && NodeInodes(n) <= before.Keys && NodeInodes(n) <= after.Keys
    requires Repaired(NodeInodes(n), NodeTargets(n, p, recurse, before), before, after)
    ensures NodeTargets(n, p, recurse, after) == NodeTargets(n, p, recurse, before)
  {
    if n.Directory? && n.inode in NodeTargets(n, p, recurse, before) && recurse && n.listable {
      ListingTargetsStay(n.entries, p, before, after);
    }
  }

  lemma {:induction false} ListingTargetsStay(l: Listing, p: Policy, before: Modes, after: Modes)
    requires ListingProper(l) && ListingInodes(l) <= before.Keys && ListingInodes(l) <= after.Keys
    requires Repaired(ListingInodes(l), ListingTargets(l, p, before), before, after)
    ensures ListingTargets(l, p, after) == ListingTargets(l, p, before)
  {
    match l
    case End =>
    case Entry(n, rest) =>
      NodeTargetsStay(n, p, true, before, after);
      ListingTargetsStay(rest, p, before, after);
  }

  /** Repairing again finds the same targets and changes nothing. */
  lemma {:induction false} SecondRepairChangesNothing(l: Listing, p: Policy, modes: Modes)
    requires ListingProper(l) && ListingInodes(l) <= modes.Keys && ReadablePolicy(p)
    ensures var after := modes + ListingTargets(l, p, modes);
            && ListingTargets(l, p, after) == ListingTargets(l, p, modes)
            && Changed(after, ListingTargets(l, p, after)) == {}
  {
    ListingTargetsAreRequired(l, p, modes);
    ListingTargetsStay(l, p, modes, modes + ListingTargets(l, p, modes));
  }

  lemma {:induction false} NodeTargetsAreRequired(n: Node, p: Policy, recurse: bool, modes: Modes)
    requires NodeInodes(n) <= modes.Keys && ReadablePolicy(p)
    ensures forall i :: i in NodeTargets(n, p, recurse, modes) ==> OwnerReadable(NodeTargets(n, p, recurse, modes)[i])
  {
    if n.Directory? {
      ListingTargetsAreRequired(n.entries, p, modes);
    }
  }

  lemma {:induction false} ListingTargetsAreRequired(l: Listing, p: Policy, modes: Modes)
    requires ListingInodes(l) <= modes.Keys && ReadablePolicy(p)
    ensures forall i :: i in ListingTargets(l, p, modes) ==> OwnerReadable(ListingTargets(l, p, modes)[i])
  {
    match l
    case End =>
    case Entry(n, rest) =>
      NodeTargetsAreRequired(n, p, true, modes);
      ListingTargetsAreRequired(rest, p, modes);
  }

  // ---- The data root ----

  datatype Root = Root(inode: nat, owned: bool, blocked: bool, entries: map<string, Node>)

  /** One name below the root: a database file, or a directory with its policy. */
  datatype Task = DatabaseFile(name: string) | Tree(name: string, policy: Policy, recurse: bool)

  const DATABASE_FILES := [".voicebox.lock", "voicebox.db", "voicebox.db-journal", "voicebox.db-shm", "voicebox.db-wal"]
  const PRIVATE_RECURSIVE_DIRS :=
    ["cache", "captures", "deletion_journal", "exact_voice_snapshots", "logs", "profiles"]
  const PRIVATE_TOP_LEVEL_DIRS := ["backends", "models"]
  const PRIVATE := Policy(PRIVATE_DIR_MODE, PRIVATE_FILE_MODE)

  function Tasks(shared: bool): seq<Task> {
    seq(5, k requires 0 <= k < 5 => DatabaseFile(DATABASE_FILES[k]))
    + seq(6, k requires 0 <= k < 6 => Tree(PRIVATE_RECURSIVE_DIRS[k], PRIVATE, true))
    + seq(2, k requires 0 <= k < 2 => Tree(PRIVATE_TOP_LEVEL_DIRS[k], PRIVATE, false))
    + [Tree("generations", if shared then Policy(SHARED_DIR_MODE, SHARED_FILE_MODE) else PRIVATE, true)]
  }

  /** The names are all different, and every policy leaves its targets readable to the owner. */
  predicate Orderly(tasks: seq<Task>) {
    && (forall j, k :: 0 <= j < k < |tasks| ==> tasks[j].name != tasks[k].name)
    && (forall k :: 0 <= k < |tasks| ==> tasks[k].Tree? ==> ReadablePolicy(tasks[k].policy))
  }

  lemma TasksAreOrderly(shared: bool)
    ensures Orderly(Tasks(shared))
  {
    var names := DATABASE_FILES + PRIVATE_RECURSIVE_DIRS + PRIVATE_TOP_LEVEL_DIRS + ["generations"];
    NamesDiffer(names);
    assert forall k :: 0 <= k < 14 ==> Tasks(shared)[k].name == names[k];
  }

  lemma NamesDiffer(names: seq<string>)
    requires names == DATABASE_FILES + PRIVATE_RECURSIVE_DIRS + PRIVATE_TOP_LEVEL_DIRS + ["generations"]
    ensures Pairwise(names)
  {
  }

  predicate Pairwise(names: seq<string>) {
    forall j, k :: 0 <= j < k < |names| ==> names[j] != names[k]
  }

  function RootMode(shared: bool): nat {
    if shared then SHARED_ROOT_MODE else PRIVATE_DIR_MODE
  }

  predicate RootProper(root: Root) {
    && (forall name :: name in root.entries ==>
          NodeProper(root.entries[name]) && root.inode !in NodeInodes(root.entries[name]))
    && (forall a, b :: a in root.entries && b in root.entries && a != b ==>
          NodeSole(root.entries[a]) !! NodeInodes(root.entries[b]))
  }

  predicate Known(root: Root, modes: Modes) {
    root.inode in modes && forall name :: name in root.entries ==> NodeInodes(root.entries[name]) <= modes.Keys
  }

  function TaskTargets(root: Root, task: Task, modes: Modes): (t: Modes)
    requires Known(root, modes)
    ensures t != map[] ==> task.name in root.entries && t.Keys <= NodeSole(root.entries[task.name])
  {
    if task.name !in root.entries then map[]
    else
      var n := root.entries[task.name];
      match task
      case DatabaseFile(_) => if n.File? then NodeTargets(n, PRIVATE, false, modes) else map[]
      case Tree(_, policy, recurse) => if n.Directory? then NodeTargets(n, policy, recurse, modes) else map[]
  }

  function TaskSkips(root: Root, task: Task, modes: Modes): nat
    requires Known(root, modes)
  {
    if task.name !in root.entries then 0
    else
      var n := root.entries[task.name];
      match task
      case DatabaseFile(_) => if n.File? then NodeSkips(n, false, modes) else 1
      case Tree(_, _, recurse) => if n.Directory? then NodeSkips(n, recurse, modes) else 1
  }

  function AllTargets(root: Root, tasks: seq<Task>, modes: Modes): Modes
    requires Known(root, modes)
  {
    if tasks == [] then map[] else TaskTargets(root, tasks[0], modes) + AllTargets(root, tasks[1..], modes)
  }

  function AllSkips(root: Root, tasks: seq<Task>, modes: Modes): nat
    requires Known(root, modes)
  {
    if tasks == [] then 0 else TaskSkips(root, tasks[0], modes) + AllSkips(root, tasks[1..], modes)
  }

  function OwnTarget(root: Root, shared: bool): Modes {
    if root.owned then map[root.inode := RootMode(shared)] else map[]
  }

  /** Every inode that a repair of the data root is responsible for, with its required mode. */
  function RootTargets(root: Root, shared: bool, modes: Modes): Modes
    requires Known(root, modes)
  {
    OwnTarget(root, shared) + AllTargets(root, Tasks(shared), modes)
  }

  /** The targets of later tasks lie under other names. */
  lemma {:induction false} AllTargetsLieUnderNames(root: Root, tasks: seq<Task>, modes: Modes, i: nat)
    requires Known(root, modes) && i in AllTargets(root, tasks, modes)
    ensures exists k :: 0 <= k < |tasks| && tasks[k].name in root.entries && i in NodeSole(root.entries[tasks[k].name])
                     && i in TaskTargets(root, tasks[k], modes)
  {
    if i in TaskTargets(root, tasks[0], modes) {
      assert tasks[0].name in root.entries;
    } else {
      AllTargetsLieUnderNames(root, tasks[1..], modes, i);
      var k :| 0 <= k < |tasks[1..]| && tasks[1..][k].name in root.entries
               && i in NodeSole(root.entries[tasks[1..][k].name]) && i in TaskTargets(root, tasks[1..][k], modes);
      assert tasks[k + 1] == tasks[1..][k];
    }
  }

  /** What one task repairs is of no concern to the others, nor to the root. */
  lemma {:induction false} TasksAreApart(root: Root, tasks: seq<Task>, modes: Modes)
    requires Known(root, modes) && RootProper(root) && Orderly(tasks) && tasks != []
    ensures TaskTargets(root, tasks[0], modes).Keys !! AllTargets(root, tasks[1..], modes).Keys
  {
    forall i | i in AllTargets(root, tasks[1..], modes) ensures i !in TaskTargets(root, tasks[0], modes) {
      AllTargetsLieUnderNames(root, tasks[1..], modes, i);
    }
  }

  lemma {:induction false} RootIsApart(root: Root, tasks: seq<Task>, modes: Modes)
    requires Known(root, modes) && RootProper(root)
    ensures root.inode !in AllTargets(root, tasks, modes)
  {
    if root.inode in AllTargets(root, tasks, modes) {
      AllTargetsLieUnderNames(root, tasks, modes, root.inode);
    }
  }

  /** The remaining tasks see the modes they would have seen at the start. */
  lemma {:induction false} TasksSeeTheStart(root: Root, tasks: seq<Task>, before: Modes, after: Modes)
    requires Known(root, before) && Known(root, after)
    requires forall k :: 0 <= k < |tasks| && tasks[k].name in root.entries ==>
               Agree(before, after, NodeInodes(root.entries[tasks[k].name]))
    ensures AllTargets(root, tasks, after) == AllTargets(root, tasks, before)
    ensures AllSkips(root, tasks, after) == AllSkips(root, tasks, before)
  {
    if tasks != [] {
      assert forall k :: 0 <= k < |tasks[1..]| ==> tasks[1..][k] == tasks[k + 1];
      TasksSeeTheStart(root, tasks[1..], before, after);
      TaskSeesTheStart(root, tasks[0], before, after);
    }
  }

  lemma {:induction false} TaskSeesTheStart(root: Root, task: Task, before: Modes, after: Modes)
    requires Known(root, before) && Known(root, after)
    requires task.name in root.entries ==> Agree(before, after, NodeInodes(root.entries[task.name]))
    ensures TaskTargets(root, task, after) == TaskTargets(root, task, before)
    ensures TaskSkips(root, task, after) == TaskSkips(root, task, before)
  {
    if task.name in root.entries {
      var n := root.entries[task.name];
      NodeTargetsDependOnInodes(n, PRIVATE, false, before, after);
      if task.Tree? {
        NodeTargetsDependOnInodes(n, task.policy, task.recurse, before, after);
      }
    }
  }

  /** The first task changes nothing that a later one looks at. */
  lemma {:induction false} FirstTaskLeavesTheRest(root: Root, tasks: seq<Task>, modes: Modes)
    requires Known(root, modes) && RootProper(root) && Orderly(tasks) && tasks != []
    ensures var after := modes + TaskTargets(root, tasks[0], modes);
            && Known(root, after)
            && AllTargets(root, tasks[1..], after) == AllTargets(root, tasks[1..], modes)
            && AllSkips(root, tasks[1..], after) == AllSkips(root, tasks[1..], modes)
  {
    var after := modes + TaskTargets(root, tasks[0], modes);
    forall k | 0 <= k < |tasks[1..]| && tasks[1..][k].name in root.entries
      ensures Agree(modes, after, NodeInodes(root.entries[tasks[1..][k].name]))
    {
      assert tasks[1..][k] == tasks[k + 1] && tasks[k + 1].name != tasks[0].name;
    }
    TasksSeeTheStart(root, tasks[1..], modes, after);
  }

  /** A second repair of a whole data root finds the same targets and changes nothing. */
  lemma {:induction false} SecondRootRepairChangesNothing(root: Root, shared: bool, modes: Modes)
    requires Known(root, modes) && RootProper(root)
    ensures var after := modes + RootTargets(root, shared, modes);
            && Known(root, after)
            && RootTargets(root, shared, after) == RootTargets(root, shared, modes)
            && Changed(after, RootTargets(root, shared, after)) == {}
  {
    var tasks, targets := Tasks(shared), RootTargets(root, shared, modes);
    TasksAreOrderly(shared);
    TasksStay(root, tasks, 0, shared, modes);
    assert tasks[0..] == tasks;
    assert forall i :: i in targets ==> (modes + targets)[i] == targets[i];
  }

  lemma {:induction false} TasksStay(root: Root, tasks: seq<Task>, k: nat, shared: bool, before: Modes)
    requires Known(root, before) && RootProper(root) && tasks == Tasks(shared) && Orderly(tasks) && k <= |tasks|
    ensures var after := before + RootTargets(root, shared, before);
            Known(root, after) && AllTargets(root, tasks[k..], after) == AllTargets(root, tasks[k..], before)
    decreases |tasks| - k
  {
    if k < |tasks| {
      assert tasks[k..][1..] == tasks[k + 1..];
      TasksStay(root, tasks, k + 1, shared, before);
      TaskStays(root, shared, k, before);
    }
  }

  lemma {:induction false} TaskStays(root: Root, shared: bool, k: nat, before: Modes)
    requires Known(root, before) && RootProper(root) && Orderly(Tasks(shared)) && k < |Tasks(shared)|
    ensures var after := before + RootTargets(root, shared, before);
            && Known(root, after)
            && TaskTargets(root, Tasks(shared)[k], after) == TaskTargets(root, Tasks(shared)[k], before)
  {
    var tasks, task := Tasks(shared), Tasks(shared)[k];
    var after := before + RootTargets(root, shared, before);
    if task.name in root.entries && TaskTargets(root, task, before) != map[] {
      TargetsBelong(root, shared, k, before);
    }
    if task.name in root.entries {
      var n := root.entries[task.name];
      var policy := if task.Tree? then task.policy else PRIVATE;
      var recurse := task.Tree? && task.recurse;
      if n.File? == task.DatabaseFile? && n.Directory? == task.Tree? {
        TargetsBelong(root, shared, k, before);
        NodeTargetsAreRequired(n, policy, recurse, before);
        NodeTargetsStay(n, policy, recurse, before, after);
      }
    }
  }

  /** Below one name, a repair of the root does what that name's own task requires. */
  lemma {:induction false} TargetsBelong(root: Root, shared: bool, k: nat, before: Modes)
    requires Known(root, before) && RootProper(root) && Orderly(Tasks(shared)) && k < |Tasks(shared)|
    requires Tasks(shared)[k].name in root.entries
    ensures var after := before + RootTargets(root, shared, before);
            forall i :: i in NodeInodes(root.entries[Tasks(shared)[k].name]) ==>
              && i in after
              && after[i] == (if i in TaskTargets(root, Tasks(shared)[k], before)
                              then TaskTargets(root, Tasks(shared)[k], before)[i] else before[i])
  {
    var tasks, task := Tasks(shared), Tasks(shared)[k];
    forall i | i in NodeInodes(root.entries[task.name])
      ensures i != root.inode
      ensures i in AllTargets(root, tasks, before) <==> i in TaskTargets(root, task, before)
      ensures i in AllTargets(root, tasks, before) ==>
                AllTargets(root, tasks, before)[i] == TaskTargets(root, task, before)[i]
    {
      OnlyOwnTask(root, tasks, k, before, i);
    }
  }

  lemma {:induction false} OnlyOwnTask(root: Root, tasks: seq<Task>, k: nat, modes: Modes, i: nat)
    requires Known(root, modes) && RootProper(root) && Orderly(tasks) && k < |tasks|
    requires tasks[k].name in root.entries && i in NodeInodes(root.entries[tasks[k].name])
    ensures i in AllTargets(root, tasks, modes) <==> i in TaskTargets(root, tasks[k], modes)
    ensures i in AllTargets(root, tasks, modes) ==>
              AllTargets(root, tasks, modes)[i] == TaskTargets(root, tasks[k], modes)[i]
    decreases |tasks|
  {
    var rest := tasks[1..];
    assert forall m :: 0 <= m < |rest| ==> rest[m] == tasks[m + 1];
    if k == 0 {
      if i in AllTargets(root, rest, modes) {
        AllTargetsLieUnderNames(root, rest, modes, i);
      }
    } else {
      assert i !in TaskTargets(root, tasks[0], modes);
      OnlyOwnTask(root, rest, k - 1, modes, i);
    }
  }

  /** A repair of the first name and then of the others is the repair of all. */
  lemma {:induction false} FirstTaskThenRest(root: Root, tasks: seq<Task>, before: Modes)
    requires Known(root, before) && RootProper(root) && Orderly(tasks) && tasks != []
    ensures var after := before + TaskTargets(root, tasks[0], before);
            var rest := AllTargets(root, tasks[1..], before);
            && Known(root, after) && Orderly(tasks[1..])
            && AllTargets(root, tasks[1..], after) == rest
            && AllSkips(root, tasks[1..], after) == AllSkips(root, tasks[1..], before)
            && after + rest == before + AllTargets(root, tasks, before)
            && |Changed(before, AllTargets(root, tasks, before))|
               == |Changed(before, TaskTargets(root, tasks[0], before))| + |Changed(after, rest)|
  {
    var first, rest := TaskTargets(root, tasks[0], before), AllTargets(root, tasks[1..], before);
    FirstTaskLeavesTheRest(root, tasks, before);
    TasksAreApart(root, tasks, before);
    ChangesAddUp(before, first, rest);
    OverrideIsAssociative(before, first, rest);
  }

  // ---- The repair itself ----

  /** What was done so far and what is still to be done make up the repair of the whole directory. */
  predicate Between(l: Listing, cursor: Listing, p: Policy, before: Modes, done: Modes) {
    && ListingProper(cursor) && ListingInodes(l) <= before.Keys && ListingInodes(cursor) <= before.Keys
    && done.Keys <= before.Keys && done.Keys !! ListingInodes(cursor)
    && ListingTargets(l, p, before) == done + ListingTargets(cursor, p, before)
  }

  lemma OverrideIsAssociative(a: Modes, b: Modes, c: Modes)
    ensures a + b + c == a + (b + c)
  {
  }

  /** Repairing the next entry of a directory extends what was done for the entries before it. */
  lemma {:induction false} NextEntry(whole: Listing, l: Listing, p: Policy, before: Modes, done: Modes)
    requires l.Entry? && Between(whole, l, p, before, done)
    ensures NodeInodes(l.node) <= before.Keys && NodeProper(l.node)
    ensures NodeTargets(l.node, p, true, before + done) == NodeTargets(l.node, p, true, before)
    ensures NodeSkips(l.node, true, before + done) == NodeSkips(l.node, true, before)
    ensures ListingSkips(l, before) == NodeSkips(l.node, true, before) + ListingSkips(l.rest, before)
    ensures var targets := NodeTargets(l.node, p, true, before);
            && before + done + targets == before + (done + targets)
            && |Changed(before, done + targets)| == |Changed(before, done)| + |Changed(before + done, targets)|
            && Between(whole, l.rest, p, before, done + targets)
  {
    var targets := NodeTargets(l.node, p, true, before);
    NodeTargetsDependOnInodes(l.node, p, true, before, before + done);
    ChangesAddUp(before, done, targets);
    OverrideIsAssociative(before, done, targets);
    OverrideIsAssociative(done, targets, ListingTargets(l.rest, p, before));
  }

  lemma {:induction false} AroundTheEntries(l: Listing, p: Policy, before: Modes, done: Modes)
    requires ListingProper(l) && ListingInodes(l) <= before.Keys
    ensures Between(l, l, p, before, map[]) && before == before + map[] && Changed(before, map[]) == {}
    ensures Between(l, End, p, before, done) ==> done == ListingTargets(l, p, before)
    ensures ListingSkips(End, before) == 0
  {
  }

  /** A directory's own mode is repaired before, and apart from, what is below it. */
  lemma {:induction false} DirectoryFirst(n: Node, p: Policy, before: Modes)
    requires n.Directory? && NodeProper(n) && NodeInodes(n) <= before.Keys
    ensures ListingInodes(n.entries) <= before.Keys
    ensures ListingTargets(n.entries, p, before[n.inode := p.directories]) == ListingTargets(n.entries, p, before)
    ensures ListingSkips(n.entries, before[n.inode := p.directories]) == ListingSkips(n.entries, before)
    ensures var own := map[n.inode := p.directories];
            var inner := ListingTargets(n.entries, p, before);
            && before[n.inode := p.directories] + inner == before + (own + inner)
            && |Changed(before, own + inner)|
               == |Changed(before, own)| + |Changed(before[n.inode := p.directories], inner)|
  {
    var own := map[n.inode := p.directories];
    assert before + own == before[n.inode := p.directories];
    ListingTargetsDependOnInodes(n.entries, p, before, before + own);
    ChangesAddUp(before, own, ListingTargets(n.entries, p, before));
    OverrideIsAssociative(before, own, ListingTargets(n.entries, p, before));
  }

  /** The root's own mode is repaired before, and apart from, what is below it. */
  lemma {:induction false} RootFirst(root: Root, shared: bool, before: Modes)
    requires Known(root, before) && RootProper(root)
    ensures var after := if root.owned then before[root.inode := RootMode(shared)] else before;
            var all := AllTargets(root, Tasks(shared), before);
            && Orderly(Tasks(shared)) && Known(root, after)
            && AllTargets(root, Tasks(shared), after) == all
            && AllSkips(root, Tasks(shared), after) == AllSkips(root, Tasks(shared), before)
            && after + all == before + RootTargets(root, shared, before)
            && |Changed(before, RootTargets(root, shared, before))|
               == (if root.owned && before[root.inode] != RootMode(shared) then 1 else 0) + |Changed(after, all)|
  {
    var own, all := OwnTarget(root, shared), AllTargets(root, Tasks(shared), before);
    var after := before + own;
    assert after == if root.owned then before[root.inode := RootMode(shared)] else before;
    TasksAreOrderly(shared);
    TasksSeeTheStart(root, Tasks(shared), before, after);
    RootIsApart(root, Tasks(shared), before);
    OneChange(before, root.inode, RootMode(shared));
    ChangesAddUp(before, own, all);
    OverrideIsAssociative(before, own, all);
  }

  /** When only the directory itself is repaired. */
  lemma OwnOnly(n: Node, p: Policy, recurse: bool, before: Modes)
    requires n.Directory? && NodeInodes(n) <= before.Keys && Openable(n.inode, n.owned, n.blocked, before)
    ensures !n.owned ==> NodeTargets(n, p, recurse, before) == map[] && before + map[] == before
    ensures n.owned && !(recurse && n.listable) ==>
              && NodeTargets(n, p, recurse, before) == map[n.inode := p.directories]
              && before + map[n.inode := p.directories] == before[n.inode := p.directories]
  {
  }

  class Repair {
    var modes: Modes
    var repaired: nat
    var skipped: nat
    var descriptors: seq<nat>   // the inodes open at the moment

    constructor (initial: Modes)
      ensures modes == initial && repaired == 0 && skipped == 0 && descriptors == []
    {
      modes, repaired, skipped, descriptors := initial, 0, 0, [];
    }

    method RepairOpenFd(inode: nat, owned: bool, expected: nat)
      requires inode in modes
      modifies this
      ensures modes == (if owned then old(modes)[inode := expected] else old(modes))
      ensures repaired == old(repaired) + (if owned && old(modes)[inode] != expected then 1 else 0)
      ensures skipped == old(skipped) + (if owned then 0 else 1)
      ensures descriptors == old(descriptors)
    {
      if !owned {
        skipped := skipped + 1;
        return;
      }
      if modes[inode] != expected {
        modes := modes[inode := expected];
        repaired := repaired + 1;
      }
    }

    /** Every entry of an open directory, one after the other. */
    method RepairTree(listing: Listing, p: Policy)
      requires ListingProper(listing) && ListingInodes(listing) <= modes.Keys
      modifies this
      ensures modes == old(modes) + ListingTargets(listing, p, old(modes))
      ensures repaired == old(repaired) + |Changed(old(modes), ListingTargets(listing, p, old(modes)))|
      ensures skipped == old(skipped) + ListingSkips(listing, old(modes))
      ensures descriptors == old(descriptors)
      decreases listing, 0
    {
      var cursor := listing;
      ghost var before, done: Modes := modes, map[];
      AroundTheEntries(listing, p, before, done);
      while cursor.Entry?
        invariant cursor == listing || cursor < listing
        invariant Between(listing, cursor, p, before, done)
        invariant modes == before + done && descriptors == old(descriptors)
        invariant repaired == old(repaired) + |Changed(before, done)|
        invariant skipped + ListingSkips(cursor, before) == old(skipped) + ListingSkips(listing, before)
        decreases cursor
      {
        NextEntry(listing, cursor, p, before, done);
        RepairEntry(cursor.node, p);
        done := done + NodeTargets(cursor.node, p, true, before);
        cursor := cursor.rest;
      }
      AroundTheEntries(listing, p, before, done);
    }

    method RepairEntry(n: Node, p: Policy)
      requires NodeProper(n) && NodeInodes(n) <= modes.Keys
      modifies this
      ensures modes == old(modes) + NodeTargets(n, p, true, old(modes))
      ensures repaired == old(repaired) + |Changed(old(modes), NodeTargets(n, p, true, old(modes)))|
      ensures skipped == old(skipped) + NodeSkips(n, true, old(modes))
      ensures descriptors == old(descriptors)
      decreases n, 1
    {
      match n
      case Link => skipped := skipped + 1;
      case Special => skipped := skipped + 1;
      case Directory(inode, owned, blocked, listable, entries) =>
        if !Openable(inode, owned, blocked, modes) {
          skipped := skipped + 1;
          return;
        }
        RepairDirectory(n, p, true);
      case File(inode, owned, blocked, links) => RepairFile(n, p);
    }

    /** An openable directory: its own mode first, then its entries. */
    method RepairDirectory(n: Node, p: Policy, recurse: bool)
      requires n.Directory? && NodeProper(n) && NodeInodes(n) <= modes.Keys
      requires Openable(n.inode, n.owned, n.blocked, modes)
      modifies this
      ensures modes == old(modes) + NodeTargets(n, p, recurse, old(modes))
      ensures repaired == old(repaired) + |Changed(old(modes), NodeTargets(n, p, recurse, old(modes)))|
      ensures skipped == old(skipped) + NodeSkips(n, recurse, old(modes))
      ensures descriptors == old(descriptors)
      decreases n, 0
    {
      ghost var before := modes;
      descriptors := descriptors + [n.inode];
      RepairOpenFd(n.inode, n.owned, p.directories);
      OneChange(before, n.inode, p.directories);
      OwnOnly(n, p, recurse, before);
      if recurse && n.owned {
        DirectoryFirst(n, p, before);
        if n.listable {
          RepairTree(n.entries, p);
        } else {
          skipped := skipped + 1;
        }
      }
      descriptors := descriptors[..|descriptors| - 1];
    }

    method RepairFile(n: Node, p: Policy)
      requires n.File? && NodeInodes(n) <= modes.Keys
      modifies this
      ensures modes == old(modes) + NodeTargets(n, p, true, old(modes))
      ensures repaired == old(repaired) + |Changed(old(modes), NodeTargets(n, p, true, old(modes)))|
      ensures skipped == old(skipped) + NodeSkips(n, true, old(modes))
      ensures descriptors == old(descriptors)
    {
      if !Openable(n.inode, n.owned, n.blocked, modes) {
        skipped := skipped + 1;
        return;
      }
      OneChange(old(modes), n.inode, p.files);
      descriptors := descriptors + [n.inode];
      if n.links != 1 {
        skipped := skipped + 1;
      } else {
        RepairOpenFd(n.inode, n.owned, p.files);
      }
      descriptors := descriptors[..|descriptors| - 1];
    }

    /** One name below the root. */
    method RepairName(root: Root, task: Task)
      requires Known(root, modes) && RootProper(root)
      modifies this
      ensures modes == old(modes) + TaskTargets(root, task, old(modes))
      ensures repaired == old(repaired) + |Changed(old(modes), TaskTargets(root, task, old(modes)))|
      ensures skipped == old(skipped) + TaskSkips(root, task, old(modes))
      ensures descriptors == old(descriptors)
    {
      if task.name !in root.entries {
        return;
      }
      var n := root.entries[task.name];
      TaskIsNode(root, task, modes);
      if task.DatabaseFile? && n.File? {
        RepairFile(n, PRIVATE);
      } else if task.Tree? && n.Directory? && Openable(n.inode, n.owned, n.blocked, modes) {
        RepairDirectory(n, task.policy, task.recurse);
      } else {
        skipped := skipped + 1;
      }
    }

    /**
     Repairs the data root, or fails because it cannot be opened.  Exactly the targets get their required modes,
     `repaired` counts the inodes whose mode changed, and every descriptor is closed again.
     */
    method RepairDataPermissions(root: Root, shared: bool) returns (ok: bool)
      requires Known(root, modes) && RootProper(root)
      modifies this
      ensures ok == Openable(root.inode, root.owned, root.blocked, old(modes))
      ensures !ok ==> modes == old(modes) && repaired == old(repaired)
      ensures ok ==> modes == old(modes) + RootTargets(root, shared, old(modes))
      ensures ok ==> repaired == old(repaired) + |Changed(old(modes), RootTargets(root, shared, old(modes)))|
      ensures ok ==> skipped == old(skipped) + (if root.owned then 0 else 1) + AllSkips(root, Tasks(shared), old(modes))
      ensures descriptors == old(descriptors)
    {
      if !Openable(root.inode, root.owned, root.blocked, modes) {
        return false;
      }
      descriptors := descriptors + [root.inode];
      RootFirst(root, shared, modes);
      RepairOpenFd(root.inode, root.owned, RootMode(shared));
      RepairNames(root, Tasks(shared));
      descriptors := descriptors[..|descriptors| - 1];
      return true;
    }

    method RepairNames(root: Root, tasks: seq<Task>)
      requires Known(root, modes) && RootProper(root) && Orderly(tasks)
      modifies this
      ensures modes == old(modes) + AllTargets(root, tasks, old(modes))
      ensures repaired == old(repaired) + |Changed(old(modes), AllTargets(root, tasks, old(modes)))|
      ensures skipped == old(skipped) + AllSkips(root, tasks, old(modes))
      ensures descriptors == old(descriptors)
      decreases |tasks|
    {
      if tasks == [] {
        return;
      }
      FirstTaskThenRest(root, tasks, modes);
      RepairName(root, tasks[0]);
      RepairNames(root, tasks[1..]);
    }
  }

  /** What a task asks for is what its entry asks for, if that is of the right kind and can be opened. */
  lemma {:induction false} TaskIsNode(root: Root, task: Task, modes: Modes)
    requires Known(root, modes) && RootProper(root) && task.name in root.entries
    ensures var n := root.entries[task.name];
            && NodeProper(n) && NodeInodes(n) <= modes.Keys
            && (if task.DatabaseFile? && n.File? then
                  && TaskTargets(root, task, modes) == NodeTargets(n, PRIVATE, true, modes)
                  && TaskSkips(root, task, modes) == NodeSkips(n, true, modes)
                else if task.Tree? && n.Directory? && Openable(n.inode, n.owned, n.blocked, modes) then
                  && TaskTargets(root, task, modes) == NodeTargets(n, task.policy, task.recurse, modes)
                  && TaskSkips(root, task, modes) == NodeSkips(n, task.recurse, modes)
                else TaskTargets(root, task, modes) == map[] && TaskSkips(root, task, modes) == 1)
    ensures Changed(modes, map[]) == {}
  {
  }

  lemma OneChange(modes: Modes, inode: nat, mode: nat)
    requires inode in modes
    ensures |Changed(modes, map[inode := mode])| == if modes[inode] != mode then 1 else 0
    ensures Changed(modes, map[]) == {}
  {
    assert Changed(modes, map[inode := mode]) == if modes[inode] != mode then {inode} else {};
  }
}
