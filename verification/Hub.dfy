/** Transactions on a Git branch shared by several gateways and by writers outside them. */
module Hub {
  import opened Json

  type Path = string
  type Tree = map<Path, string>

  /** Commits are numbered so that parents come before their children. */
  datatype Commit = Commit(parents: set<nat>, tree: Tree)

  datatype Edit = Refused | Wrote(worktree: Tree, paths: seq<Path>)
  type Mutator = Tree -> Edit

  // -------------------------------------------------------------- what a transaction makes of a tree

  /** A path names a file, or a directory with everything under it. */
  predicate Covers(path: Path, file: Path) {
    file == path || path + "/" <= file
  }

  predicate Covered(paths: seq<Path>, file: Path) {
    exists i | 0 <= i < |paths| :: Covers(paths[i], file)
  }

  predicate Matches(path: Path, tree: Tree) {
    exists file | file in tree :: Covers(path, file)
  }

  /** Git refuses to add a path that names nothing it tracks and nothing in the worktree. */
  predicate AllMatch(paths: seq<Path>, before: Tree, worktree: Tree) {
    forall i | 0 <= i < |paths| :: Matches(paths[i], before) || Matches(paths[i], worktree)
  }

  /** The tree after adding only the named paths of the worktree. */
  function Staged(before: Tree, worktree: Tree, paths: seq<Path>): Tree {
    (map file | file in worktree && Covered(paths, file) :: worktree[file])
    + (map file | file in before && !Covered(paths, file) :: before[file])
  }

  /** The tree a transaction commits, unless it refuses, names no path, names a path that
      matches nothing or changes nothing. */
  function Applied(mutate: Mutator, before: Tree): Option<Tree> {
    match mutate(before)
    case Refused => None
    case Wrote(worktree, paths) =>
      var tree := Staged(before, worktree, paths);
      if paths == [] || !AllMatch(paths, before, worktree) || tree == before then None else Some(tree)
  }

  // -------------------------------------------------------------- the same, file by file

  /** Two trees agree about a file: both lack it, or both have it with the same content. */
  predicate Agree(a: Tree, b: Tree, file: Path) {
    (file in a <==> file in b) && (file in a ==> a[file] == b[file])
  }

  /** Every file the edit names is as in the worktree, and every other file as in the base. */
  ghost predicate Edits(before: Tree, edit: Edit, after: Tree) {
    edit.Wrote? && forall file: Path :: Agree(after, if Covered(edit.paths, file) then edit.worktree else before, file)
  }

  /** There is something to commit: the edit was made, names paths that all match, and differs
      from the base at a file it names. */
  ghost predicate WorthCommitting(before: Tree, edit: Edit) {
    && edit.Wrote? && edit.paths != [] && AllMatch(edit.paths, before, edit.worktree)
    && exists file: Path :: Covered(edit.paths, file) && !Agree(before, edit.worktree, file)
  }

  /** The tree is what the mutator's edit of the base asks to commit. */
  ghost predicate Commits(mutate: Mutator, before: Tree, after: Tree) {
    WorthCommitting(before, mutate(before)) && Edits(before, mutate(before), after)
  }

  lemma StagedEdits(before: Tree, worktree: Tree, paths: seq<Path>)
    ensures Edits(before, Wrote(worktree, paths), Staged(before, worktree, paths))
  {
  }

  /** An edit of a base determines the tree. */
  lemma EditIsDetermined(before: Tree, edit: Edit, a: Tree, b: Tree)
    requires Edits(before, edit, a) && Edits(before, edit, b)
    ensures a == b
  {
    hide Covered;
    forall file: Path
      ensures Agree(a, b, file)
    {
      assert Agree(a, if Covered(edit.paths, file) then edit.worktree else before, file);
    }
    SameEverywhere(a, b);
  }

  /** What a transaction commits, without mention of staging: exactly the edit, and exactly
      when there is something to commit. */
  lemma AppliedMeans(mutate: Mutator, before: Tree)
    ensures Applied(mutate, before).Some? <==> WorthCommitting(before, mutate(before))
    ensures forall after :: Applied(mutate, before) == Some(after) <==> Commits(mutate, before, after)
  {
    hide Covered, AllMatch, Staged;
    var edit := mutate(before);
    if edit.Wrote? {
      var tree := Staged(before, edit.worktree, edit.paths);
      StagedEdits(before, edit.worktree, edit.paths);
      assert Edits(before, edit, tree);
      ChangesSomewhere(before, edit, tree);
      forall after | Commits(mutate, before, after)
        ensures after == tree
      {
        EditIsDetermined(before, edit, after, tree);
      }
    }
  }

  /** An edited tree differs from its base exactly if the edit does at a file it names. */
  lemma ChangesSomewhere(before: Tree, edit: Edit, tree: Tree)
    requires Edits(before, edit, tree)
    ensures tree != before <==> exists file: Path :: Covered(edit.paths, file) && !Agree(before, edit.worktree, file)
  {
    hide Covered;
    if forall file: Path :: Covered(edit.paths, file) ==> Agree(before, edit.worktree, file) {
      forall file: Path
        ensures Agree(tree, before, file)
      {
        assert Agree(tree, if Covered(edit.paths, file) then edit.worktree else before, file);
      }
      SameEverywhere(tree, before);
    } else {
      var file: Path :| Covered(edit.paths, file) && !Agree(before, edit.worktree, file);
      assert Agree(tree, if Covered(edit.paths, file) then edit.worktree else before, file);
    }
  }

  lemma SameEverywhere(a: Tree, b: Tree)
    requires forall file: Path :: Agree(a, b, file)
    ensures a == b
  {
    forall file: Path
      ensures file in a.Keys <==> file in b.Keys
      ensures file in a && file in b ==> a[file] == b[file]
    {
      assert Agree(a, b, file);
    }
  }

  // -------------------------------------------------------------- the state

  /** Who moved the branch: a writer outside, a call that opened the branch, or a transaction. */
  datatype Source = Outsider | Opened(call: nat) | Transaction(call: nat)

  datatype Landing = Landing(commit: nat, source: Source)

  /** A push on its way: the head the server advertised, and the commit to replace it. */
  datatype Request = Request(source: Source, expects: Option<nat>, replacement: nat)

  datatype Gateway = Gateway(transaction: Option<nat>, repository: Option<nat>, tracking: Option<nat>)

  datatype Phase =
    | Waiting
    | Queued
    | Locked
    | Fetched
    | Opening
    | Ensured
    | Based(before: nat)
    | Edited(before: nat, tree: Tree)
    | Committed(before: nat, after: nat)
    | Pushing(before: nat, after: nat)
    | Pushed(before: nat, after: nat)
    | Succeeded(before: nat, after: nat)
    | FailedEarly
    | FailedLate(before: nat, after: nat)

  /** A call, with the length of the branch's history when it took its locks, when it
      first fetched and when it last fetched. */
  datatype Call = Call(gateway: nat, expected: Option<nat>, mutate: Mutator, phase: Phase,
                       started: nat, fetched: Option<nat>, basis: nat)

  /** The log holds every head the branch has had, oldest first. */
  datatype World = World(commits: seq<Commit>, log: seq<Landing>, sent: set<Request>, gateways: seq<Gateway>, calls: seq<Call>)

  function HeadAt(log: seq<Landing>, n: nat): Option<nat>
    requires n <= |log|
  {
    if n == 0 then None else Some(log[n - 1].commit)
  }

  function Head(w: World): Option<nat> {
    HeadAt(w.log, |w.log|)
  }

  predicate Ancestor(commits: seq<Commit>, a: nat, b: nat)
    requires b < |commits|
    decreases b
  {
    a == b || exists p | p in commits[b].parents :: p < b && Ancestor(commits, a, p)
  }

  // -------------------------------------------------------------- the steps

  datatype Step =
    | OutsiderCommits(commit: Commit)
    | OutsiderPushes(head: nat)
    | ServerAccepts(request: Request)
    | Refresh(gateway: nat)
    | TakeTransactionLock(call: nat)
    | TakeRepositoryLock(call: nat)
    | Fetch(call: nat)
    | FindBranch(call: nat)
    | OpenBranch(call: nat, base: nat)
    | FetchAgain(call: nat)
    | ReadBase(call: nat)
    | Mutate(call: nat)
    | CommitTree(call: nat, after: nat)
    | Push(call: nat)
    | PushReported(call: nat)
    | Verify(call: nat)
    | Fail(call: nat)

  predicate FastForward(w: World, head: nat) {
    && head < |w.commits|
    && match Head(w)
       case None => true
       case Some(tip) => tip != head && tip < |w.commits| && Ancestor(w.commits, tip, head)
  }

  predicate Over(phase: Phase) {
    phase.Succeeded? || phase.FailedEarly? || phase.FailedLate?
  }

  predicate IsCall(w: World, c: nat) {
    c < |w.calls| && w.calls[c].gateway < |w.gateways|
  }

  predicate Enabled(w: World, step: Step) {
    match step
    case OutsiderCommits(commit) => forall p | p in commit.parents :: p < |w.commits|
    case OutsiderPushes(head) => FastForward(w, head)
    // The server moves the branch only from the head it advertised.
    case ServerAccepts(request) => request in w.sent && Head(w) == request.expects
    case Refresh(g) => g < |w.gateways| && w.gateways[g].repository.None?
    case TakeTransactionLock(c) =>
      IsCall(w, c) && w.calls[c].phase.Waiting? && w.gateways[w.calls[c].gateway].transaction.None?
    case TakeRepositoryLock(c) =>
      IsCall(w, c) && w.calls[c].phase.Queued? && w.gateways[w.calls[c].gateway].repository.None?
    case Fetch(c) => IsCall(w, c) && w.calls[c].phase.Locked?
    case FindBranch(c) => IsCall(w, c) && w.calls[c].phase.Fetched? && w.gateways[w.calls[c].gateway].tracking.Some?
    case OpenBranch(c, base) =>
      && IsCall(w, c) && w.calls[c].phase.Fetched? && w.gateways[w.calls[c].gateway].tracking.None?
      && base < |w.commits|
    case FetchAgain(c) => IsCall(w, c) && w.calls[c].phase.Opening?
    case ReadBase(c) =>
      && IsCall(w, c) && w.calls[c].phase.Ensured?
      && var tracking := w.gateways[w.calls[c].gateway].tracking;
         tracking.Some? && (w.calls[c].expected.None? || w.calls[c].expected == tracking)
    case Mutate(c) =>
      && IsCall(w, c) && w.calls[c].phase.Based? && w.calls[c].phase.before < |w.commits|
      && Applied(w.calls[c].mutate, w.commits[w.calls[c].phase.before].tree).Some?
    // Equal commits have equal names, so the commit may exist already.
    case CommitTree(c, after) =>
      && IsCall(w, c) && w.calls[c].phase.Edited?
      && (after < |w.commits| ==> w.commits[after] == Commit({w.calls[c].phase.before}, w.calls[c].phase.tree))
      && after <= |w.commits|
    case Push(c) => IsCall(w, c) && w.calls[c].phase.Committed? && (Head(w) == Some(w.calls[c].phase.after) || FastForward(w, w.calls[c].phase.after))
    case PushReported(c) =>
      IsCall(w, c) && w.calls[c].phase.Pushing? && exists i | 0 <= i < |w.log| :: w.log[i].source == Transaction(c)
    case Verify(c) => IsCall(w, c) && w.calls[c].phase.Pushed? && Head(w) == Some(w.calls[c].phase.after)
    case Fail(c) => IsCall(w, c) && !Over(w.calls[c].phase)
  }

  function SetPhase(w: World, c: nat, phase: Phase): World
    requires c < |w.calls|
  {
    w.(calls := w.calls[c := w.calls[c].(phase := phase)])
  }

  function SetTracking(w: World, g: nat, tracking: Option<nat>): World
    requires g < |w.gateways|
  {
    w.(gateways := w.gateways[g := w.gateways[g].(tracking := tracking)])
  }

  /** Gives back whatever locks the call holds. */
  function Release(w: World, c: nat): World
    requires IsCall(w, c)
  {
    var g := w.calls[c].gateway;
    var gateway := w.gateways[g];
    w.(gateways := w.gateways[g := gateway.(
      transaction := if gateway.transaction == Some(c) then None else gateway.transaction,
      repository := if gateway.repository == Some(c) then None else gateway.repository)])
  }

  function Failed(phase: Phase): Phase {
    if phase.Pushing? || phase.Pushed? then FailedLate(phase.before, phase.after) else FailedEarly
  }

  function After(w: World, step: Step): World
    requires Enabled(w, step)
  {
    match step
    case OutsiderCommits(commit) => w.(commits := w.commits + [commit])
    case OutsiderPushes(head) => w.(log := w.log + [Landing(head, Outsider)])
    case ServerAccepts(request) => w.(log := w.log + [Landing(request.replacement, request.source)], sent := w.sent - {request})
    case Refresh(g) => SetTracking(w, g, Head(w))
    case TakeTransactionLock(c) =>
      var g := w.calls[c].gateway;
      SetPhase(w, c, Queued).(gateways := w.gateways[g := w.gateways[g].(transaction := Some(c))])
    case TakeRepositoryLock(c) =>
      var g := w.calls[c].gateway;
      w.(gateways := w.gateways[g := w.gateways[g].(repository := Some(c))],
         calls := w.calls[c := w.calls[c].(phase := Locked, started := |w.log|)])
    case Fetch(c) =>
      SetTracking(w, w.calls[c].gateway, Head(w))
      .(calls := w.calls[c := w.calls[c].(phase := Fetched, fetched := Some(|w.log|), basis := |w.log|)])
    case FindBranch(c) => SetPhase(w, c, Ensured)
    case OpenBranch(c, base) =>
      var w' := SetPhase(w, c, Opening);
      if FastForward(w, base) then w'.(sent := w.sent + {Request(Opened(c), Head(w), base)}) else w'
    case FetchAgain(c) =>
      SetTracking(w, w.calls[c].gateway, Head(w))
      .(calls := w.calls[c := w.calls[c].(phase := Ensured, basis := |w.log|)])
    case ReadBase(c) => SetPhase(w, c, Based(w.gateways[w.calls[c].gateway].tracking.value))
    case Mutate(c) =>
      var before := w.calls[c].phase.before;
      SetPhase(w, c, Edited(before, Applied(w.calls[c].mutate, w.commits[before].tree).value))
    case CommitTree(c, after) =>
      var before, tree := w.calls[c].phase.before, w.calls[c].phase.tree;
      SetPhase(w, c, Committed(before, after))
      .(commits := if after < |w.commits| then w.commits else w.commits + [Commit({before}, tree)])
    // Pushing the head the branch has already reports success without a request.
    case Push(c) =>
      var before, after := w.calls[c].phase.before, w.calls[c].phase.after;
      if Head(w) == Some(after) then SetPhase(w, c, Pushed(before, after))
      else SetPhase(w, c, Pushing(before, after)).(sent := w.sent + {Request(Transaction(c), Head(w), after)})
    case PushReported(c) =>
      var before, after := w.calls[c].phase.before, w.calls[c].phase.after;
      SetTracking(SetPhase(w, c, Pushed(before, after)), w.calls[c].gateway, Some(after))
    case Verify(c) => Release(SetPhase(w, c, Succeeded(w.calls[c].phase.before, w.calls[c].phase.after)), c)
    case Fail(c) => Release(SetPhase(w, c, Failed(w.calls[c].phase)), c)
  }

  predicate Sound(commits: seq<Commit>) {
    forall i, p | 0 <= i < |commits| && p in commits[i].parents :: p < i
  }

  /** Any sound history pushed by outsiders, clones that saw some part of it, no call begun. */
  predicate Initial(w: World) {
    && Sound(w.commits) && w.sent == {}
    && (forall i | 0 <= i < |w.log| :: w.log[i].source == Outsider && w.log[i].commit < |w.commits|)
    && (forall i | 0 < i < |w.log| :: Link(w.commits, w.log[i - 1].commit, w.log[i].commit))
    && (forall g | 0 <= g < |w.gateways| ::
          && w.gateways[g].transaction.None? && w.gateways[g].repository.None?
          && (w.gateways[g].tracking.Some? ==> InLog(w.log, w.gateways[g].tracking.value)))
    && (forall c | 0 <= c < |w.calls| ::
          && w.calls[c].gateway < |w.gateways| && w.calls[c].phase.Waiting? && w.calls[c].fetched.None?)
  }

  ghost predicate Goes(w: World, w': World) {
    exists step :: Enabled(w, step) && w' == After(w, step)
  }

  ghost predicate Behaviour(ws: seq<World>) {
    ws != [] && Initial(ws[0]) && forall i | 0 < i < |ws| :: Goes(ws[i - 1], ws[i])
  }

  // -------------------------------------------------------------- what every step keeps

  predicate Link(commits: seq<Commit>, a: nat, b: nat) {
    a != b && b < |commits| && Ancestor(commits, a, b)
  }

  predicate InLog(log: seq<Landing>, commit: nat) {
    exists i | 0 <= i < |log| :: log[i].commit == commit
  }

  /** The branch had b as its head just after a. */
  predicate Replaced(log: seq<Landing>, a: nat, b: nat) {
    exists i | 0 < i < |log| :: log[i - 1].commit == a && log[i].commit == b
  }

  /** The base and the commit a call has tried to push. */
  function Tried(phase: Phase): Option<(nat, nat)> {
    if phase.Pushing? || phase.Pushed? || phase.Succeeded? || phase.FailedLate? then Some((phase.before, phase.after)) else None
  }

  /** Commit a is the call's edit of commit b, on top of b. */
  predicate MadeBy(commits: seq<Commit>, mutate: Mutator, b: nat, a: nat) {
    && b < a < |commits| && commits[a].parents == {b}
    && Applied(mutate, commits[b].tree) == Some(commits[a].tree)
  }

  /** The commit b was the branch's head at some time after the call took its locks. */
  predicate Seen(log: seq<Landing>, call: Call, b: nat) {
    && 0 < call.basis <= |log| && call.started <= call.basis && log[call.basis - 1].commit == b
    && (call.expected.None? || call.expected == Some(b))
  }

  predicate HoldsLocks(phase: Phase) {
    !phase.Waiting? && !phase.Queued? && !Over(phase)
  }

  predicate CallOk(commits: seq<Commit>, log: seq<Landing>, gateway: Gateway, c: nat, call: Call) {
    && (HoldsLocks(call.phase) ==> gateway.repository == Some(c) && gateway.transaction == Some(c))
    && (call.phase.Queued? ==> gateway.transaction == Some(c))
    && match call.phase
       case Waiting => call.fetched.None?
       case Queued => call.fetched.None?
       case Locked => call.fetched.None? && call.started <= |log|
       case Fetched =>
         && call.fetched == Some(call.basis) && call.started <= call.basis <= |log|
         && gateway.tracking == HeadAt(log, call.basis)
       case Opening => call.fetched == Some(0) && call.started <= |log|
       case Ensured =>
         call.fetched.Some? && call.started <= call.basis <= |log| && gateway.tracking == HeadAt(log, call.basis)
       case Based(b) => call.fetched.Some? && Seen(log, call, b) && b < |commits|
       case Edited(b, tree) =>
         call.fetched.Some? && Seen(log, call, b) && b < |commits| && Applied(call.mutate, commits[b].tree) == Some(tree)
       case Committed(b, a) => call.fetched.Some? && Seen(log, call, b) && MadeBy(commits, call.mutate, b, a)
       case Pushing(b, a) => call.fetched.Some? && Seen(log, call, b) && MadeBy(commits, call.mutate, b, a)
       case Pushed(b, a) => Seen(log, call, b) && MadeBy(commits, call.mutate, b, a) && Replaced(log, b, a)
       case Succeeded(b, a) => Seen(log, call, b) && MadeBy(commits, call.mutate, b, a) && Replaced(log, b, a)
       case FailedEarly => true
       case FailedLate(b, a) => Seen(log, call, b) && MadeBy(commits, call.mutate, b, a)
  }

  predicate CallsOk(w: World) {
    forall c | 0 <= c < |w.calls| ::
      w.calls[c].gateway < |w.gateways| && CallOk(w.commits, w.log, w.gateways[w.calls[c].gateway], c, w.calls[c])
  }

  predicate RequestOk(commits: seq<Commit>, calls: seq<Call>, request: Request) {
    && request.replacement < |commits|
    && (request.expects.Some? ==> Link(commits, request.expects.value, request.replacement))
    && match request.source
       case Outsider => false
       case Opened(c) => c < |calls| && calls[c].fetched == Some(0)
       case Transaction(c) =>
         c < |calls| && request.expects.Some? && Tried(calls[c].phase) == Some((request.expects.value, request.replacement))
  }

  predicate RequestsOk(w: World) {
    forall request | request in w.sent :: RequestOk(w.commits, w.calls, request)
  }

  predicate LandingOk(commits: seq<Commit>, log: seq<Landing>, calls: seq<Call>, i: nat)
    requires i < |log|
  {
    && log[i].commit < |commits|
    && (i > 0 ==> Link(commits, log[i - 1].commit, log[i].commit))
    && match log[i].source
       case Outsider => true
       case Opened(c) => c < |calls| && calls[c].fetched == Some(0)
       case Transaction(c) => c < |calls| && i > 0 && Tried(calls[c].phase) == Some((log[i - 1].commit, log[i].commit))
  }

  predicate LogOk(w: World) {
    forall i | 0 <= i < |w.log| :: LandingOk(w.commits, w.log, w.calls, i)
  }

  predicate Invariant(w: World) {
    Sound(w.commits) && CallsOk(w) && RequestsOk(w) && LogOk(w)
  }

  lemma {:induction false} AncestorBelow(commits: seq<Commit>, a: nat, b: nat)
    requires b < |commits| && Ancestor(commits, a, b)
    ensures a <= b
    decreases b
  {
    if a != b {
      var p :| p in commits[b].parents && p < b && Ancestor(commits, a, p);
      AncestorBelow(commits, a, p);
    }
  }

  lemma {:induction false} AncestorTransitive(commits: seq<Commit>, a: nat, b: nat, c: nat)
    requires b < |commits| && c < |commits| && Ancestor(commits, a, b) && Ancestor(commits, b, c)
    ensures Ancestor(commits, a, c)
    decreases c
  {
    if b != c {
      var p :| p in commits[c].parents && p < c && Ancestor(commits, b, p);
      AncestorTransitive(commits, a, b, p);
    }
  }

  /** Adding commits does not change who descends from whom. */
  lemma {:induction false} AncestorStays(commits: seq<Commit>, commits': seq<Commit>, a: nat, b: nat)
    requires commits <= commits' && b < |commits| && Ancestor(commits, a, b)
    ensures Ancestor(commits', a, b)
    decreases b
  {
    if a != b {
      var p :| p in commits[b].parents && p < b && Ancestor(commits, a, p);
      AncestorStays(commits, commits', a, p);
    }
  }

  lemma LinkStays(commits: seq<Commit>, commits': seq<Commit>, a: nat, b: nat)
    requires commits <= commits' && Link(commits, a, b)
    ensures Link(commits', a, b)
  {
    AncestorStays(commits, commits', a, b);
  }

  /** Earlier heads are ancestors of later ones. */
  lemma {:induction false} LogAncestry(w: World, i: nat, j: nat)
    requires LogOk(w) && i <= j < |w.log|
    ensures w.log[j].commit < |w.commits| && Ancestor(w.commits, w.log[i].commit, w.log[j].commit)
    ensures i < j ==> w.log[i].commit < w.log[j].commit
    decreases j
  {
    hide Ancestor;
    assert LandingOk(w.commits, w.log, w.calls, j);
    if i < j {
      LogAncestry(w, i, j - 1);
      AncestorBelow(w.commits, w.log[j - 1].commit, w.log[j].commit);
      AncestorTransitive(w.commits, w.log[i].commit, w.log[j - 1].commit, w.log[j].commit);
    } else {
      AncestorOfItself(w.commits, w.log[j].commit);
    }
  }

  lemma AncestorOfItself(commits: seq<Commit>, a: nat)
    requires a < |commits|
    ensures Ancestor(commits, a, a)
  {
  }

  /** A proper ancestor of a commit with one parent is an ancestor of that parent. */
  lemma AncestorOfParent(commits: seq<Commit>, x: nat, b: nat, a: nat)
    requires b < a < |commits| && commits[a].parents == {b} && Link(commits, x, a)
    ensures Ancestor(commits, x, b)
  {
  }

  /** Between a base that was once the head and the commit made on it lies nothing: if the
      head is an ancestor of the commit, it is the base itself. */
  lemma HeadIsBase(w: World, k: nat, b: nat, a: nat)
    requires LogOk(w) && k < |w.log| && w.log[k].commit == b
    requires b < a < |w.commits| && w.commits[a].parents == {b}
    requires Link(w.commits, w.log[|w.log| - 1].commit, a)
    ensures w.log[|w.log| - 1].commit == b
  {
    hide Ancestor;
    var head := w.log[|w.log| - 1].commit;
    LogAncestry(w, k, |w.log| - 1);
    AncestorOfParent(w.commits, head, b, a);
    AncestorBelow(w.commits, head, b);
    AncestorBelow(w.commits, b, head);
  }

  /** If the commit made on a base has become the head, it replaced the base at once. */
  lemma HeadReplacedBase(w: World, k: nat, b: nat, a: nat)
    requires LogOk(w) && k < |w.log| && w.log[k].commit == b
    requires b < a < |w.commits| && w.commits[a].parents == {b}
    requires w.log[|w.log| - 1].commit == a
    ensures Replaced(w.log, b, a)
  {
    hide Ancestor;
    var last := |w.log| - 1;
    assert LandingOk(w.commits, w.log, w.calls, last);
    var x := w.log[last - 1].commit;
    LogAncestry(w, k, last - 1);
    AncestorOfParent(w.commits, x, b, a);
    AncestorBelow(w.commits, x, b);
    AncestorBelow(w.commits, b, x);
  }

  /** What no step takes back: commits, heads, a call's first fetch and what it tried to push. */
  ghost predicate Grows(w: World, w': World) {
    && w.commits <= w'.commits && w.log <= w'.log
    && |w.calls| == |w'.calls| && |w.gateways| == |w'.gateways|
    && forall c | 0 <= c < |w.calls| :: CallGrows(w.calls[c], w'.calls[c])
  }

  ghost predicate CallGrows(call: Call, call': Call) {
    && call'.gateway == call.gateway && call'.mutate == call.mutate && call'.expected == call.expected
    && (call.fetched.Some? ==> call'.fetched == call.fetched)
    && (Tried(call.phase).Some? ==> Tried(call'.phase) == Tried(call.phase))
    && (call.phase.FailedEarly? ==> call'.phase.FailedEarly?)
  }

  lemma CallStays(commits: seq<Commit>, commits': seq<Commit>, log: seq<Landing>, log': seq<Landing>, gateway: Gateway, gateway': Gateway, c: nat, call: Call)
    requires commits <= commits' && log <= log' && CallOk(commits, log, gateway, c, call)
    requires SafeChange(call.phase, gateway, gateway')
    ensures CallOk(commits', log', gateway', c, call)
  {
  }

  lemma RequestStays(commits: seq<Commit>, commits': seq<Commit>, calls: seq<Call>, calls': seq<Call>, request: Request)
    requires commits <= commits' && |calls| == |calls'| && forall c | 0 <= c < |calls| :: CallGrows(calls[c], calls'[c])
    requires RequestOk(commits, calls, request)
    ensures RequestOk(commits', calls', request)
  {
    hide Link;
    if request.expects.Some? {
      LinkStays(commits, commits', request.expects.value, request.replacement);
    }
  }

  lemma LandingStays(commits: seq<Commit>, commits': seq<Commit>, log: seq<Landing>, log': seq<Landing>, calls: seq<Call>, calls': seq<Call>, i: nat)
    requires commits <= commits' && log <= log' && |calls| == |calls'|
    requires forall c | 0 <= c < |calls| :: CallGrows(calls[c], calls'[c])
    requires i < |log| && LandingOk(commits, log, calls, i)
    ensures LandingOk(commits', log', calls', i)
  {
    hide Link;
    if i > 0 {
      LinkStays(commits, commits', log[i - 1].commit, log[i].commit);
    }
  }

  /** Only this call moved, and no gateway another call has locked changed under it. */
  ghost predicate OnlyCall(w: World, w': World, c: nat) {
    && |w.calls| == |w'.calls| && |w.gateways| == |w'.gateways|
    && forall other | 0 <= other < |w.calls| && other != c :: Undisturbed(w, w', other)
  }

  ghost predicate Undisturbed(w: World, w': World, c: nat)
    requires c < |w.calls| == |w'.calls| && |w.gateways| == |w'.gateways|
  {
    && w'.calls[c] == w.calls[c]
    && (w.calls[c].gateway < |w.gateways| ==>
          SafeChange(w.calls[c].phase, w.gateways[w.calls[c].gateway], w'.gateways[w.calls[c].gateway]))
  }

  predicate SafeChange(phase: Phase, gateway: Gateway, gateway': Gateway) {
    || gateway' == gateway
    || !(HoldsLocks(phase) || phase.Queued?)
    || (phase.Queued? && gateway'.transaction == gateway.transaction)
  }

  /** One call's step keeps the invariant if that call, any new request and any new head are in order. */
  lemma StepKeeps(w: World, w': World, c: nat)
    requires Invariant(w) && Grows(w, w') && OnlyCall(w, w', c) && Sound(w'.commits)
    requires c < |w.calls| ==> CallOk(w'.commits, w'.log, w'.gateways[w'.calls[c].gateway], c, w'.calls[c])
    requires forall request | request in w'.sent && request !in w.sent :: RequestOk(w'.commits, w'.calls, request)
    requires forall i | |w.log| <= i < |w'.log| :: LandingOk(w'.commits, w'.log, w'.calls, i)
    ensures Invariant(w')
  {
    hide CallOk, RequestOk, LandingOk, CallGrows, SafeChange, Sound;
    forall c' | 0 <= c' < |w'.calls|
      ensures w'.calls[c'].gateway < |w'.gateways| && CallOk(w'.commits, w'.log, w'.gateways[w'.calls[c'].gateway], c', w'.calls[c'])
    {
      assert CallGrows(w.calls[c'], w'.calls[c']);
      SameGateway(w.calls[c'], w'.calls[c']);
      if c' != c {
        assert Undisturbed(w, w', c');
        CallStays(w.commits, w'.commits, w.log, w'.log, w.gateways[w.calls[c'].gateway], w'.gateways[w.calls[c'].gateway], c', w.calls[c']);
      }
    }
    forall request | request in w'.sent
      ensures RequestOk(w'.commits, w'.calls, request)
    {
      if request in w.sent {
        RequestStays(w.commits, w'.commits, w.calls, w'.calls, request);
      }
    }
    forall i | 0 <= i < |w'.log|
      ensures LandingOk(w'.commits, w'.log, w'.calls, i)
    {
      if i < |w.log| {
        LandingStays(w.commits, w'.commits, w.log, w'.log, w.calls, w'.calls, i);
      }
    }
  }

  lemma SameGateway(call: Call, call': Call)
    requires CallGrows(call, call')
    ensures call'.gateway == call.gateway
  {
  }

  /** A step of call c that adds no commit, head or request. */
  ghost predicate Quiet(w: World, w': World, c: nat) {
    && c < |w.calls| && w'.commits == w.commits && w'.log == w.log && w'.sent == w.sent
    && OnlyCall(w, w', c) && CallGrows(w.calls[c], w'.calls[c])
    && w'.calls[c].gateway < |w'.gateways|
    && CallOk(w.commits, w.log, w'.gateways[w'.calls[c].gateway], c, w'.calls[c])
  }

  lemma QuietKeeps(w: World, w': World, c: nat)
    requires Invariant(w) && Quiet(w, w', c)
    ensures Invariant(w') && Grows(w, w')
  {
    hide CallOk, RequestOk, LandingOk, SafeChange, Sound;
    forall other | 0 <= other < |w.calls|
      ensures CallGrows(w.calls[other], w'.calls[other])
    {
      assert other != c ==> Undisturbed(w, w', other);
    }
    StepKeeps(w, w', c);
  }

  lemma LocksKeep(w: World, step: Step)
    requires Invariant(w) && Enabled(w, step) && (step.TakeTransactionLock? || step.TakeRepositoryLock?)
    ensures Quiet(w, After(w, step), step.call)
  {
    hide Sound, RequestOk, LandingOk, Applied, Replaced, MadeBy, Ancestor;
    var w', c := After(w, step), step.call;
    assert CallOk(w.commits, w.log, w.gateways[w.calls[c].gateway], c, w.calls[c]);
    forall other | 0 <= other < |w.calls| && other != c
      ensures Undisturbed(w, w', other)
    {
      assert CallOk(w.commits, w.log, w.gateways[w.calls[other].gateway], other, w.calls[other]);
    }
  }

  lemma FetchesKeep(w: World, step: Step)
    requires Invariant(w) && Enabled(w, step) && (step.Fetch? || step.FindBranch? || step.FetchAgain?)
    ensures Quiet(w, After(w, step), step.call)
  {
    hide Sound, RequestOk, LandingOk, Applied, Replaced, MadeBy, Ancestor;
    var w', c := After(w, step), step.call;
    assert CallOk(w.commits, w.log, w.gateways[w.calls[c].gateway], c, w.calls[c]);
    forall other | 0 <= other < |w.calls| && other != c
      ensures Undisturbed(w, w', other)
    {
      assert CallOk(w.commits, w.log, w.gateways[w.calls[other].gateway], other, w.calls[other]);
    }
  }

  lemma EditsKeep(w: World, step: Step)
    requires Invariant(w) && Enabled(w, step) && (step.ReadBase? || step.Mutate?)
    ensures Quiet(w, After(w, step), step.call)
  {
    hide Sound, RequestOk, Applied, Replaced, MadeBy, Ancestor, SafeChange;
    var w', c := After(w, step), step.call;
    assert CallOk(w.commits, w.log, w.gateways[w.calls[c].gateway], c, w.calls[c]);
    if step.ReadBase? {
      assert LandingOk(w.commits, w.log, w.calls, w.calls[c].basis - 1);
    }
    forall other | 0 <= other < |w.calls| && other != c
      ensures Undisturbed(w, w', other)
    {
      SameGatewayIsSafe(w.calls[other].phase, w.gateways[w.calls[other].gateway]);
    }
  }

  lemma SameGatewayIsSafe(phase: Phase, gateway: Gateway)
    ensures SafeChange(phase, gateway, gateway)
  {
  }

  lemma ReportKeeps(w: World, step: Step)
    requires Invariant(w) && Enabled(w, step) && step.PushReported?
    ensures Quiet(w, After(w, step), step.call)
  {
    hide Sound, RequestOk, Applied, MadeBy, Ancestor;
    var w', c := After(w, step), step.call;
    assert CallOk(w.commits, w.log, w.gateways[w.calls[c].gateway], c, w.calls[c]);
    var i :| 0 <= i < |w.log| && w.log[i].source == Transaction(c);
    assert LandingOk(w.commits, w.log, w.calls, i);
    forall other | 0 <= other < |w.calls| && other != c
      ensures Undisturbed(w, w', other)
    {
      assert CallOk(w.commits, w.log, w.gateways[w.calls[other].gateway], other, w.calls[other]);
    }
  }

  lemma EndsKeep(w: World, step: Step)
    requires Invariant(w) && Enabled(w, step) && (step.Verify? || step.Fail?)
    ensures Quiet(w, After(w, step), step.call)
  {
    hide Sound, RequestOk, LandingOk, Applied, MadeBy, Replaced, Ancestor;
    var w', c := After(w, step), step.call;
    assert CallOk(w.commits, w.log, w.gateways[w.calls[c].gateway], c, w.calls[c]);
    forall other | 0 <= other < |w.calls| && other != c
      ensures Undisturbed(w, w', other)
    {
      assert CallOk(w.commits, w.log, w.gateways[w.calls[other].gateway], other, w.calls[other]);
    }
  }

  /** A new commit sits on top of the base it edits. */
  lemma CommitKeeps(w: World, step: Step)
    requires Invariant(w) && Enabled(w, step) && step.CommitTree?
    ensures Invariant(After(w, step)) && Grows(w, After(w, step))
  {
    hide RequestOk, LandingOk, Applied, Replaced, Ancestor, SafeChange;
    var w', c := After(w, step), step.call;
    assert CallOk(w.commits, w.log, w.gateways[w.calls[c].gateway], c, w.calls[c]);
    forall other | 0 <= other < |w.calls| && other != c
      ensures Undisturbed(w, w', other)
    {
      SameGatewayIsSafe(w.calls[other].phase, w.gateways[w.calls[other].gateway]);
    }
    StepKeeps(w, w', c);
  }

  lemma OpenKeeps(w: World, step: Step)
    requires Invariant(w) && Enabled(w, step) && step.OpenBranch?
    ensures Invariant(After(w, step)) && Grows(w, After(w, step))
  {
    hide Sound, LandingOk, Applied, Replaced, MadeBy, Ancestor, SafeChange;
    var w', c := After(w, step), step.call;
    assert CallOk(w.commits, w.log, w.gateways[w.calls[c].gateway], c, w.calls[c]);
    forall other | 0 <= other < |w.calls| && other != c
      ensures Undisturbed(w, w', other)
    {
      SameGatewayIsSafe(w.calls[other].phase, w.gateways[w.calls[other].gateway]);
    }
    StepKeeps(w, w', c);
  }

  /** A push is only ever sent against the base itself. */
  lemma PushKeeps(w: World, step: Step)
    requires Invariant(w) && Enabled(w, step) && step.Push?
    ensures Invariant(After(w, step)) && Grows(w, After(w, step))
  {
    hide Sound, LandingOk, Applied, Replaced, Ancestor, SafeChange;
    var w', c := After(w, step), step.call;
    assert CallOk(w.commits, w.log, w.gateways[w.calls[c].gateway], c, w.calls[c]);
    var before, after := w.calls[c].phase.before, w.calls[c].phase.after;
    if Head(w) == Some(after) {
      HeadReplacedBase(w, w.calls[c].basis - 1, before, after);
    } else {
      HeadIsBase(w, w.calls[c].basis - 1, before, after);
    }
    forall other | 0 <= other < |w.calls| && other != c
      ensures Undisturbed(w, w', other)
    {
      SameGatewayIsSafe(w.calls[other].phase, w.gateways[w.calls[other].gateway]);
    }
    StepKeeps(w, w', c);
  }

  /** Steps taken outside the calls. */
  lemma OutsideKeeps(w: World, step: Step)
    requires Invariant(w) && Enabled(w, step)
    requires step.OutsiderCommits? || step.OutsiderPushes? || step.ServerAccepts? || step.Refresh?
    ensures Invariant(After(w, step)) && Grows(w, After(w, step))
  {
    hide Applied, Replaced, MadeBy, Ancestor;
    var w' := After(w, step);
    forall other | 0 <= other < |w.calls|
      ensures Undisturbed(w, w', other)
    {
      assert CallOk(w.commits, w.log, w.gateways[w.calls[other].gateway], other, w.calls[other]);
    }
    if step.ServerAccepts? {
      assert RequestOk(w.commits, w.calls, step.request);
    }
    StepKeeps(w, w', |w.calls|);
  }

  lemma EveryStepKeeps(w: World, step: Step)
    requires Invariant(w) && Enabled(w, step)
    ensures Invariant(After(w, step)) && Grows(w, After(w, step))
  {
    hide Invariant, Grows, Quiet;
    match step
    case OutsiderCommits(_) => OutsideKeeps(w, step);
    case OutsiderPushes(_) => OutsideKeeps(w, step);
    case ServerAccepts(_) => OutsideKeeps(w, step);
    case Refresh(_) => OutsideKeeps(w, step);
    case CommitTree(_, _) => CommitKeeps(w, step);
    case OpenBranch(_, _) => OpenKeeps(w, step);
    case Push(_) => PushKeeps(w, step);
    case TakeTransactionLock(c) => LocksKeep(w, step); QuietKeeps(w, After(w, step), c);
    case TakeRepositoryLock(c) => LocksKeep(w, step); QuietKeeps(w, After(w, step), c);
    case Fetch(c) => FetchesKeep(w, step); QuietKeeps(w, After(w, step), c);
    case FindBranch(c) => FetchesKeep(w, step); QuietKeeps(w, After(w, step), c);
    case FetchAgain(c) => FetchesKeep(w, step); QuietKeeps(w, After(w, step), c);
    case ReadBase(c) => EditsKeep(w, step); QuietKeeps(w, After(w, step), c);
    case Mutate(c) => EditsKeep(w, step); QuietKeeps(w, After(w, step), c);
    case PushReported(c) => ReportKeeps(w, step); QuietKeeps(w, After(w, step), c);
    case Verify(c) => EndsKeep(w, step); QuietKeeps(w, After(w, step), c);
    case Fail(c) => EndsKeep(w, step); QuietKeeps(w, After(w, step), c);
  }

  // -------------------------------------------------------------- what every behaviour keeps

  lemma InitiallyInvariant(w: World)
    requires Initial(w)
    ensures Invariant(w)
  {
    hide Ancestor;
  }

  lemma {:induction false} AlwaysInvariant(ws: seq<World>, i: nat)
    requires Behaviour(ws) && i < |ws|
    ensures Invariant(ws[i])
    decreases i
  {
    hide Invariant, Initial, Enabled;
    if i == 0 {
      InitiallyInvariant(ws[0]);
    } else {
      AlwaysInvariant(ws, i - 1);
      assert Goes(ws[i - 1], ws[i]);
      var step :| Enabled(ws[i - 1], step) && ws[i] == After(ws[i - 1], step);
      EveryStepKeeps(ws[i - 1], step);
    }
  }

  lemma GrowsTransitive(a: World, b: World, c: World)
    requires Grows(a, b) && Grows(b, c)
    ensures Grows(a, c)
  {
    forall i | 0 <= i < |a.calls|
      ensures CallGrows(a.calls[i], c.calls[i])
    {
      assert CallGrows(a.calls[i], b.calls[i]) && CallGrows(b.calls[i], c.calls[i]);
    }
  }

  lemma {:induction false} AlwaysGrows(ws: seq<World>, i: nat, j: nat)
    requires Behaviour(ws) && i <= j < |ws|
    ensures Grows(ws[i], ws[j])
    decreases j
  {
    hide Invariant, Initial, Enabled;
    if i < j {
      AlwaysGrows(ws, i, j - 1);
      AlwaysInvariant(ws, j - 1);
      assert Goes(ws[j - 1], ws[j]);
      var step :| Enabled(ws[j - 1], step) && ws[j] == After(ws[j - 1], step);
      EveryStepKeeps(ws[j - 1], step);
      GrowsTransitive(ws[i], ws[j - 1], ws[j]);
    }
  }

  ghost predicate OneChain(w: World) {
    forall p, q | 0 <= p < q < |w.log| :: Precedes(w, p, q)
  }

  /** The head at place p of the log is an ancestor of the one at place q, and another commit. */
  ghost predicate Precedes(w: World, p: nat, q: nat)
    requires p < |w.log| && q < |w.log|
  {
    && w.log[p].commit != w.log[q].commit && w.log[q].commit < |w.commits|
    && Ancestor(w.commits, w.log[p].commit, w.log[q].commit)
  }

  /** In every interleaving the branch's heads form one chain that is only ever added to,
      and no head ever returns. */
  lemma HeadsFormOneChain(ws: seq<World>, i: nat, j: nat)
    requires Behaviour(ws) && i <= j < |ws|
    ensures ws[i].log <= ws[j].log && ws[i].commits <= ws[j].commits
    ensures OneChain(ws[j])
  {
    hide Behaviour, Invariant, OneChain, CallGrows;
    AlwaysGrows(ws, i, j);
    AlwaysInvariant(ws, j);
    LogIsChain(ws[j]);
  }

  lemma LogIsChain(w: World)
    requires Invariant(w)
    ensures OneChain(w)
  {
    hide Ancestor, LogOk;
    forall p, q | 0 <= p < q < |w.log|
      ensures Precedes(w, p, q)
    {
      LogAncestry(w, p, q);
    }
  }

  /** No commit is the head twice. */
  lemma HeadOnce(w: World, p: nat, q: nat)
    requires OneChain(w) && p < |w.log| && q < |w.log| && w.log[p].commit == w.log[q].commit
    ensures p == q
  {
    hide Ancestor;
    assert p < q ==> Precedes(w, p, q);
    assert q < p ==> Precedes(w, q, p);
  }

  /** A landed transaction, at place i of the log, is its edit of the very head it replaced,
      which the call saw after taking its locks and which is the head its caller expected; it
      lands nowhere else. */
  ghost predicate LandedProperly(w: World, i: nat, c: nat)
    requires i < |w.log|
  {
    && 0 < i && c < |w.calls| && w.log[i].commit < |w.commits| && w.log[i - 1].commit < |w.commits|
    && w.commits[w.log[i].commit].parents == {w.log[i - 1].commit}
    && Commits(w.calls[c].mutate, w.commits[w.log[i - 1].commit].tree, w.commits[w.log[i].commit].tree)
    && Seen(w.log, w.calls[c], w.log[i - 1].commit) && w.calls[c].basis == i
    && forall k | 0 <= k < |w.log| && w.log[k].source == Transaction(c) :: k == i
  }

  lemma TransactionsLandOnTheirBase(ws: seq<World>, j: nat, i: nat, c: nat)
    requires Behaviour(ws) && j < |ws| && i < |ws[j].log| && ws[j].log[i].source == Transaction(c)
    ensures LandedProperly(ws[j], i, c)
  {
    hide Behaviour;
    AlwaysInvariant(ws, j);
    LandingIsProper(ws[j], i, c);
  }

  lemma LandingIsProper(w: World, i: nat, c: nat)
    requires Invariant(w) && i < |w.log| && w.log[i].source == Transaction(c)
    ensures LandedProperly(w, i, c)
  {
    hide Ancestor, Applied, Commits, Sound, RequestsOk;
    assert LandingOk(w.commits, w.log, w.calls, i);
    AppliedMeans(w.calls[c].mutate, w.commits[w.log[i - 1].commit].tree);
    assert CallOk(w.commits, w.log, w.gateways[w.calls[c].gateway], c, w.calls[c]);
    LogIsChain(w);
    forall k | 0 <= k < |w.log| && w.log[k].source == Transaction(c)
      ensures k == i
    {
      assert LandingOk(w.commits, w.log, w.calls, k);
      HeadOnce(w, k, i);
    }
    var basis := w.calls[c].basis;
    HeadOnce(w, basis - 1, i - 1);
  }

  /** The branch had b as its head just after a, at some time after its history had this length. */
  predicate ReplacedSince(log: seq<Landing>, start: nat, a: nat, b: nat) {
    exists i | 0 < i < |log| && start <= i :: log[i - 1].commit == a && log[i].commit == b
  }

  /** A transaction that reports success has landed on its base, after it took its locks. */
  lemma SuccessHasLanded(ws: seq<World>, j: nat, c: nat)
    requires Behaviour(ws) && j < |ws| && c < |ws[j].calls| && ws[j].calls[c].phase.Succeeded?
    ensures var w, call := ws[j], ws[j].calls[c];
            var before, after := call.phase.before, call.phase.after;
            && ReplacedSince(w.log, call.started, before, after) && (call.expected.None? || call.expected == Some(before))
            && before < after < |w.commits| && w.commits[after].parents == {before}
            && Commits(call.mutate, w.commits[before].tree, w.commits[after].tree)
  {
    hide Behaviour, Ancestor, Applied, Commits, LogOk, RequestsOk, OneChain, Replaced, ReplacedSince;
    AlwaysInvariant(ws, j);
    var w, call := ws[j], ws[j].calls[c];
    assert CallOk(w.commits, w.log, w.gateways[call.gateway], c, call);
    LogIsChain(w);
    SeenThenReplaced(w, call.started, call.basis, call.phase.before, call.phase.after);
    AppliedMeans(call.mutate, w.commits[call.phase.before].tree);
  }

  lemma SeenThenReplaced(w: World, start: nat, basis: nat, b: nat, a: nat)
    requires OneChain(w) && Replaced(w.log, b, a)
    requires 0 < basis <= |w.log| && w.log[basis - 1].commit == b && start <= basis
    ensures ReplacedSince(w.log, start, b, a)
  {
    hide Ancestor;
    var i :| 0 < i < |w.log| && w.log[i - 1].commit == b && w.log[i].commit == a;
    HeadOnce(w, i - 1, basis - 1);
  }

  /** The call has taken no lock yet, or took its second when the history was at least so long. */
  predicate StartsAfter(call: Call, n: nat) {
    call.phase.Waiting? || call.phase.Queued? || call.started >= n || call.phase.FailedEarly?
  }

  lemma StepStartsAfter(w: World, step: Step, c: nat, n: nat)
    requires c < |w.calls| && Enabled(w, step) && StartsAfter(w.calls[c], n) && n <= |w.log|
    ensures c < |After(w, step).calls| && StartsAfter(After(w, step).calls[c], n) && |w.log| <= |After(w, step).log|
  {
    hide Applied, FastForward, Ancestor;
  }

  lemma {:induction false} AlwaysStartsAfter(ws: seq<World>, i: nat, j: nat, c: nat)
    requires Behaviour(ws) && i <= j < |ws| && c < |ws[i].calls| && (ws[i].calls[c].phase.Waiting? || ws[i].calls[c].phase.Queued?)
    ensures c < |ws[j].calls| && StartsAfter(ws[j].calls[c], |ws[i].log|) && |ws[i].log| <= |ws[j].log|
    decreases j
  {
    hide Enabled, After;
    if i < j {
      AlwaysStartsAfter(ws, i, j - 1, c);
      assert Goes(ws[j - 1], ws[j]);
      var step :| Enabled(ws[j - 1], step) && ws[j] == After(ws[j - 1], step);
      StepStartsAfter(ws[j - 1], step, c, |ws[i].log|);
    }
  }

  /** A transaction that reports success landed while it ran: the branch moved to its commit
      from its base only after every moment at which the call still waited for its locks. */
  lemma SuccessLandedMeanwhile(ws: seq<World>, i: nat, j: nat, c: nat)
    requires Behaviour(ws) && i <= j < |ws| && c < |ws[j].calls| && ws[j].calls[c].phase.Succeeded?
    requires c < |ws[i].calls| && (ws[i].calls[c].phase.Waiting? || ws[i].calls[c].phase.Queued?)
    ensures ReplacedSince(ws[j].log, |ws[i].log|, ws[j].calls[c].phase.before, ws[j].calls[c].phase.after)
  {
    hide Behaviour, Commits;
    AlwaysStartsAfter(ws, i, j, c);
    SuccessHasLanded(ws, j, c);
  }

  /** Success is only ever reported at a moment when the call's commit is the branch's head. */
  lemma SuccessIsVerified(ws: seq<World>, i: nat, c: nat)
    requires Behaviour(ws) && i + 1 < |ws| && c < |ws[i].calls| && c < |ws[i + 1].calls|
    requires !ws[i].calls[c].phase.Succeeded? && ws[i + 1].calls[c].phase.Succeeded?
    ensures Head(ws[i]) == Some(ws[i + 1].calls[c].phase.after)
  {
    hide Initial, Applied, FastForward;
    assert Goes(ws[i], ws[i + 1]);
    var step :| Enabled(ws[i], step) && ws[i + 1] == After(ws[i], step);
    SucceedsByVerifying(ws[i], step, c);
  }

  lemma SucceedsByVerifying(w: World, step: Step, c: nat)
    requires Enabled(w, step) && c < |w.calls| && c < |After(w, step).calls|
    requires !w.calls[c].phase.Succeeded? && After(w, step).calls[c].phase.Succeeded?
    ensures step == Verify(c) && Head(w) == Some(After(w, step).calls[c].phase.after)
  {
    hide Applied, FastForward;
  }

  /** A call that failed before its push never moves the branch to a transaction of its own,
      then or later; it may have opened the branch, but only where it found none. */
  lemma EarlyFailureLandsNothing(ws: seq<World>, i: nat, j: nat, c: nat)
    requires Behaviour(ws) && i <= j < |ws| && c < |ws[i].calls| && ws[i].calls[c].phase.FailedEarly?
    ensures forall k | 0 <= k < |ws[j].log| :: ws[j].log[k].source != Transaction(c)
    ensures forall k | 0 <= k < |ws[j].log| && ws[j].log[k].source == Opened(c) ::
              c < |ws[j].calls| && ws[j].calls[c].fetched == Some(0)
  {
    hide Behaviour, Ancestor, Link;
    AlwaysInvariant(ws, j);
    AlwaysGrows(ws, i, j);
    assert CallGrows(ws[i].calls[c], ws[j].calls[c]);
    forall k | 0 <= k < |ws[j].log|
      ensures ws[j].log[k].source != Transaction(c)
      ensures ws[j].log[k].source == Opened(c) ==> ws[j].calls[c].fetched == Some(0)
    {
      assert LandingOk(ws[j].commits, ws[j].log, ws[j].calls, k);
    }
  }

  /** The tree one gets by making the landed edits one at a time, in the order they landed. */
  function Serial(w: World, n: nat): Option<Tree>
    requires n <= |w.log|
  {
    if n == 0 then None
    else
      match w.log[n - 1].source
      case Transaction(c) =>
        var before := Serial(w, n - 1);
        if before.Some? && c < |w.calls| then Applied(w.calls[c].mutate, before.value) else None
      case _ => if w.log[n - 1].commit < |w.commits| then Some(w.commits[w.log[n - 1].commit].tree) else None
  }

  /** Every head's tree is what the landed transactions make of it serially: each turns the
      tree before it into its edit of that tree. */
  lemma {:induction false} HistoryIsSerial(ws: seq<World>, j: nat, n: nat)
    requires Behaviour(ws) && j < |ws| && 0 < n <= |ws[j].log|
    ensures ws[j].log[n - 1].commit < |ws[j].commits|
    ensures Serial(ws[j], n) == Some(ws[j].commits[ws[j].log[n - 1].commit].tree)
    ensures ws[j].log[n - 1].source.Transaction? ==>
              var c := ws[j].log[n - 1].source.call;
              && c < |ws[j].calls| && Serial(ws[j], n - 1).Some?
              && Commits(ws[j].calls[c].mutate, Serial(ws[j], n - 1).value, Serial(ws[j], n).value)
    decreases n
  {
    hide Behaviour, Ancestor, Applied, Commits;
    AlwaysInvariant(ws, j);
    assert LandingOk(ws[j].commits, ws[j].log, ws[j].calls, n - 1);
    if ws[j].log[n - 1].source.Transaction? {
      var c := ws[j].log[n - 1].source.call;
      TransactionsLandOnTheirBase(ws, j, n - 1, c);
      HistoryIsSerial(ws, j, n - 1);
      AppliedMeans(ws[j].calls[c].mutate, Serial(ws[j], n - 1).value);
    }
  }

  /** In every run a call that has read its base goes on to an edited tree exactly if there is
      something to commit; otherwise it can only fail. The commit it then makes is the edit. */
  lemma CommitsExactlyChanges(ws: seq<World>, i: nat, c: nat, after: nat)
    requires Behaviour(ws) && i < |ws| && IsCall(ws[i], c)
    ensures ws[i].calls[c].phase.Based? ==>
              var w, call := ws[i], ws[i].calls[c];
              && call.phase.before < |w.commits|
              && (Enabled(w, Mutate(c)) <==>
                  WorthCommitting(w.commits[call.phase.before].tree, call.mutate(w.commits[call.phase.before].tree)))
    ensures Enabled(ws[i], CommitTree(c, after)) ==>
              var w, call, w' := ws[i], ws[i].calls[c], After(ws[i], CommitTree(c, after));
              && after < |w'.commits| && w'.calls[c].phase == Committed(call.phase.before, after)
              && call.phase.before < |w.commits| && w'.commits[after].parents == {call.phase.before}
              && Commits(call.mutate, w.commits[call.phase.before].tree, w'.commits[after].tree)
  {
    hide Behaviour, Ancestor, Applied, Commits, WorthCommitting;
    AlwaysInvariant(ws, i);
    var w, call := ws[i], ws[i].calls[c];
    assert CallOk(w.commits, w.log, w.gateways[call.gateway], c, call);
    if call.phase.Based? || call.phase.Edited? {
      AppliedMeans(call.mutate, w.commits[call.phase.before].tree);
    }
  }

  // -------------------------------------------------------------- locks are given back

  /** A lock of a gateway is held by a call of that gateway that is still under way. */
  predicate LocksHeld(w: World) {
    forall g | 0 <= g < |w.gateways| ::
      && (w.gateways[g].transaction.Some? ==> Occupies(w.calls, w.gateways[g].transaction.value, g, false))
      && (w.gateways[g].repository.Some? ==> Occupies(w.calls, w.gateways[g].repository.value, g, true))
  }

  predicate Occupies(calls: seq<Call>, c: nat, g: nat, both: bool) {
    c < |calls| && calls[c].gateway == g && (HoldsLocks(calls[c].phase) || (!both && calls[c].phase.Queued?))
  }

  /** No lock changes hands, and whoever holds one is still under way. */
  predicate SameLocks(w: World, w': World) {
    && |w'.gateways| == |w.gateways| && |w'.calls| == |w.calls|
    && (forall g | 0 <= g < |w.gateways| ::
          w'.gateways[g].transaction == w.gateways[g].transaction && w'.gateways[g].repository == w.gateways[g].repository)
    && (forall c | 0 <= c < |w.calls| ::
          && w'.calls[c].gateway == w.calls[c].gateway && (w.calls[c].phase.Queued? ==> w'.calls[c].phase.Queued?)
          && (HoldsLocks(w.calls[c].phase) ==> HoldsLocks(w'.calls[c].phase)))
  }

  lemma LocksStay(w: World, w': World)
    requires LocksHeld(w) && SameLocks(w, w')
    ensures LocksHeld(w')
  {
    hide HoldsLocks;
  }

  predicate ChangesLocks(step: Step) {
    step.TakeTransactionLock? || step.TakeRepositoryLock? || step.Verify? || step.Fail?
  }

  predicate MovesEdit(step: Step) {
    step.ReadBase? || step.Mutate? || step.CommitTree? || step.Push? || step.PushReported?
  }

  lemma EditingKeepsLocks(w: World, step: Step)
    requires Enabled(w, step) && MovesEdit(step)
    ensures SameLocks(w, After(w, step))
  {
    hide Applied, FastForward;
  }

  lemma OtherStepsKeepLocks(w: World, step: Step)
    requires Enabled(w, step) && !ChangesLocks(step) && !MovesEdit(step)
    ensures SameLocks(w, After(w, step))
  {
    hide Applied, FastForward;
  }

  lemma TakingKeepsLocks(w: World, step: Step)
    requires LocksHeld(w) && Enabled(w, step) && (step.TakeTransactionLock? || step.TakeRepositoryLock?)
    ensures LocksHeld(After(w, step))
  {
  }

  lemma EndingKeepsLocks(w: World, step: Step)
    requires LocksHeld(w) && Enabled(w, step) && (step.Verify? || step.Fail?)
    ensures LocksHeld(After(w, step))
  {
  }

  lemma LocksStayHeld(w: World, step: Step)
    requires LocksHeld(w) && Enabled(w, step)
    ensures LocksHeld(After(w, step))
  {
    hide Enabled, LocksHeld, SameLocks;
    if step.TakeTransactionLock? || step.TakeRepositoryLock? {
      TakingKeepsLocks(w, step);
    } else if step.Verify? || step.Fail? {
      EndingKeepsLocks(w, step);
    } else {
      if MovesEdit(step) {
        EditingKeepsLocks(w, step);
      } else {
        OtherStepsKeepLocks(w, step);
      }
      LocksStay(w, After(w, step));
    }
  }

  /** In every run each lock is held by a call under way, so a call that is over, by success
      or by failure at any point, holds none. */
  lemma {:induction false} LocksAreGivenBack(ws: seq<World>, i: nat)
    requires Behaviour(ws) && i < |ws|
    ensures LocksHeld(ws[i])
    ensures forall c, g | 0 <= c < |ws[i].calls| && 0 <= g < |ws[i].gateways| && Over(ws[i].calls[c].phase) ::
              ws[i].gateways[g].transaction != Some(c) && ws[i].gateways[g].repository != Some(c)
    decreases i
  {
    hide Enabled;
    if i > 0 {
      hide LocksHeld;
      LocksAreGivenBack(ws, i - 1);
      assert Goes(ws[i - 1], ws[i]);
      var step :| Enabled(ws[i - 1], step) && ws[i] == After(ws[i - 1], step);
      LocksStayHeld(ws[i - 1], step);
    }
    HolderIsUnderWay(ws[i]);
  }

  lemma HolderIsUnderWay(w: World)
    ensures LocksHeld(w) ==>
              forall c, g | 0 <= c < |w.calls| && 0 <= g < |w.gateways| && Over(w.calls[c].phase) ::
                w.gateways[g].transaction != Some(c) && w.gateways[g].repository != Some(c)
  {
  }

  // -------------------------------------------------------------- an undisturbed transaction

  /** Some steps lead from one world to the other. */
  ghost predicate Leads(w: World, w': World) {
    exists ws: seq<World> :: ws != [] && ws[0] == w && ws[|ws| - 1] == w' && Steps(ws)
  }

  ghost predicate Steps(ws: seq<World>) {
    forall i | 0 < i < |ws| :: Goes(ws[i - 1], ws[i])
  }

  lemma LeadsNowhere(w: World)
    ensures Leads(w, w)
  {
    assert Steps([w]) && [w][0] == w;
  }

  lemma LeadsOn(a: World, b: World, step: Step, c: World)
    requires Leads(a, b) && Enabled(b, step) && c == After(b, step)
    ensures Leads(a, c)
  {
    hide Enabled, After;
    var ws: seq<World> :| ws != [] && ws[0] == a && ws[|ws| - 1] == b && Steps(ws);
    var more := ws + [c];
    assert Goes(b, c);
    forall i | 0 < i < |more|
      ensures Goes(more[i - 1], more[i])
    {
      assert i < |ws| ==> Goes(ws[i - 1], ws[i]);
    }
    assert more[0] == a && more[|more| - 1] == c && Steps(more);
  }

  /** The same world but for one call and the gateway it uses. */
  function Put(w: World, c: nat, call: Call, gateway: Gateway): World
    requires c < |w.calls| && call.gateway < |w.gateways|
  {
    w.(calls := w.calls[c := call], gateways := w.gateways[call.gateway := gateway])
  }

  lemma Puts(w: World, c: nat, call: Call, gateway: Gateway)
    requires c < |w.calls| && call.gateway < |w.gateways|
    ensures w.calls[c := call][c := call] == w.calls[c := call] && w.calls[c := call][c] == call
    ensures w.gateways[call.gateway := gateway][call.gateway] == gateway
  {
  }

  /** Nothing stands in the way of the call: its gateway's locks are free, the branch has the
      head it expects, and there is something to commit on it. */
  ghost predicate Clear(w: World, c: nat) {
    && IsCall(w, c) && w.calls[c].phase.Waiting? && w.log != []
    && var tip, call := w.log[|w.log| - 1].commit, w.calls[c];
    && w.gateways[call.gateway].transaction.None? && w.gateways[call.gateway].repository.None?
    && tip < |w.commits| && (call.expected.None? || call.expected == Some(tip))
    && WorthCommitting(w.commits[tip].tree, call.mutate(w.commits[tip].tree))
  }

  /** Such a call can take its locks. */
  lemma CallTakesLocks(w: World, c: nat)
    requires Clear(w, c)
    ensures var call := w.calls[c];
            Leads(w, Put(w, c, call.(phase := Locked, started := |w.log|), Gateway(Some(c), Some(c), w.gateways[call.gateway].tracking)))
  {
    hide Leads, WorthCommitting;
    var call, gateway := w.calls[c], w.gateways[w.calls[c].gateway];
    LeadsNowhere(w);
    var w1 := Put(w, c, call.(phase := Queued), gateway.(transaction := Some(c)));
    LeadsOn(w, w, TakeTransactionLock(c), w1);
    LeadsOn(w, w1, TakeRepositoryLock(c), Put(w, c, call.(phase := Locked, started := |w.log|), Gateway(Some(c), Some(c), gateway.tracking)));
  }

  /** It can then fetch and read its base. */
  lemma CallReadsBase(w: World, c: nat)
    requires Clear(w, c)
    ensures var tip, n := w.log[|w.log| - 1].commit, |w.log|;
            Leads(w, Put(w, c, w.calls[c].(phase := Based(tip), started := n, fetched := Some(n), basis := n),
                         Gateway(Some(c), Some(c), Some(tip))))
  {
    hide Leads, WorthCommitting;
    var call, tip, n := w.calls[c], w.log[|w.log| - 1].commit, |w.log|;
    CallTakesLocks(w, c);
    var w2 := Put(w, c, call.(phase := Locked, started := n), Gateway(Some(c), Some(c), w.gateways[call.gateway].tracking));
    var fetched := call.(started := n, fetched := Some(n), basis := n);
    var locked := Gateway(Some(c), Some(c), Some(tip));
    var w3 := Put(w, c, fetched.(phase := Fetched), locked);
    LeadsOn(w, w2, Fetch(c), w3);
    var w4 := Put(w, c, fetched.(phase := Ensured), locked);
    LeadsOn(w, w3, FindBranch(c), w4);
    LeadsOn(w, w4, ReadBase(c), Put(w, c, fetched.(phase := Based(tip)), locked));
  }

  lemma NewCommitIsForward(commits: seq<Commit>, tip: nat, tree: Tree)
    requires tip < |commits|
    ensures Ancestor(commits + [Commit({tip}, tree)], tip, |commits|)
  {
    var more := commits + [Commit({tip}, tree)];
    assert tip in more[|commits|].parents && Ancestor(more, tip, tip);
  }

  /** A call that has read its base can commit its edit. */
  lemma CallCommits(start: World, w: World, c: nat, call: Call, gateway: Gateway, tip: nat, tree: Tree)
    requires IsCall(w, c) && call.gateway == w.calls[c].gateway && call.mutate == w.calls[c].mutate && tip < |w.commits|
    requires Applied(call.mutate, w.commits[tip].tree) == Some(tree)
    requires Leads(start, Put(w, c, call.(phase := Based(tip)), gateway))
    ensures Leads(start, Put(w.(commits := w.commits + [Commit({tip}, tree)]), c, call.(phase := Committed(tip, |w.commits|)), gateway))
  {
    hide Leads, Applied;
    var w1 := Put(w, c, call.(phase := Edited(tip, tree)), gateway);
    LeadsOn(start, Put(w, c, call.(phase := Based(tip)), gateway), Mutate(c), w1);
    var made := w.(commits := w.commits + [Commit({tip}, tree)]);
    LeadsOn(start, w1, CommitTree(c, |w.commits|), Put(made, c, call.(phase := Committed(tip, |w.commits|)), gateway));
  }

  /** A commit on top of the head can be pushed, and the server then moves the branch to it. */
  lemma CallPushes(start: World, w: World, c: nat, call: Call, gateway: Gateway, tip: nat, after: nat)
    requires IsCall(w, c) && call.gateway == w.calls[c].gateway && w.log != [] && w.log[|w.log| - 1].commit == tip
    requires tip < |w.commits| && after < |w.commits| && tip != after && Ancestor(w.commits, tip, after)
    requires Leads(start, Put(w, c, call.(phase := Committed(tip, after)), gateway))
    ensures var request := Request(Transaction(c), Some(tip), after);
            Leads(start, Put(w.(log := w.log + [Landing(after, Transaction(c))], sent := w.sent + {request} - {request}), c,
                             call.(phase := Pushing(tip, after)), gateway))
  {
    hide Leads, Ancestor;
    var request := Request(Transaction(c), Some(tip), after);
    var w1 := Put(w.(sent := w.sent + {request}), c, call.(phase := Pushing(tip, after)), gateway);
    LeadsOn(start, Put(w, c, call.(phase := Committed(tip, after)), gateway), Push(c), w1);
    var moved := w.(log := w.log + [Landing(after, Transaction(c))], sent := w.sent + {request} - {request});
    LeadsOn(start, w1, ServerAccepts(request), Put(moved, c, call.(phase := Pushing(tip, after)), gateway));
  }

  /** A call whose commit has become the head can report success, and gives its locks back. */
  lemma CallSucceeds(start: World, w: World, c: nat, call: Call, tip: nat, after: nat)
    requires IsCall(w, c) && call.gateway == w.calls[c].gateway && w.log != []
    requires w.log[|w.log| - 1] == Landing(after, Transaction(c))
    requires Leads(start, Put(w, c, call.(phase := Pushing(tip, after)), Gateway(Some(c), Some(c), Some(tip))))
    ensures Leads(start, Put(w, c, call.(phase := Succeeded(tip, after)), Gateway(None, None, Some(after))))
  {
    hide Leads;
    var w0 := Put(w, c, call.(phase := Pushing(tip, after)), Gateway(Some(c), Some(c), Some(tip)));
    assert w0.log[|w0.log| - 1].source == Transaction(c);
    var w1 := Put(w, c, call.(phase := Pushed(tip, after)), Gateway(Some(c), Some(c), Some(after)));
    LeadsOn(start, w0, PushReported(c), w1);
    LeadsOn(start, w1, Verify(c), Put(w, c, call.(phase := Succeeded(tip, after)), Gateway(None, None, Some(after))));
  }

  /** From any world in which nothing stands in the way of a call, it can go on to succeed: the
      branch then has a new head, a commit of the call's edit on top of the old one. */
  lemma TransactionsCanSucceed(w: World, c: nat)
    requires Clear(w, c)
    ensures exists w' :: Leads(w, w') && Landed(w, w', c)
  {
    hide Leads, WorthCommitting, Commits, Edits, Applied;
    var call, tip, n, after := w.calls[c], w.log[|w.log| - 1].commit, |w.log|, |w.commits|;
    CallReadsBase(w, c);
    AppliedMeans(call.mutate, w.commits[tip].tree);
    var tree := Applied(call.mutate, w.commits[tip].tree).value;
    var based := call.(phase := Based(tip), started := n, fetched := Some(n), basis := n);
    var locked := Gateway(Some(c), Some(c), Some(tip));
    CallCommits(w, w, c, based, locked, tip, tree);
    var made := w.(commits := w.commits + [Commit({tip}, tree)]);
    NewCommitIsForward(w.commits, tip, tree);
    hide Ancestor;
    CallPushes(w, made, c, based, locked, tip, after);
    var request := Request(Transaction(c), Some(tip), after);
    var moved := made.(log := w.log + [Landing(after, Transaction(c))], sent := w.sent + {request} - {request});
    CallSucceeds(w, moved, c, based, tip, after);
    var done := Put(moved, c, based.(phase := Succeeded(tip, after)), Gateway(None, None, Some(after)));
    assert Landed(w, done, c);
  }

  /** One new head: the call's commit on the old head, with the call a success. */
  ghost predicate Landed(w: World, w': World, c: nat) {
    && w.log != [] && c < |w.calls| && c < |w'.calls|
    && var tip, after := w.log[|w.log| - 1].commit, |w.commits|;
    && tip < |w.commits| && after < |w'.commits|
    && w'.log == w.log + [Landing(after, Transaction(c))] && w'.commits[after].parents == {tip}
    && Commits(w.calls[c].mutate, w.commits[tip].tree, w'.commits[after].tree)
    && w'.calls[c].phase == Succeeded(tip, after)
  }

  // -------------------------------------------------------------- what errors may leave behind

  const REFUSE: Mutator := _ => Refused

  /** A hub with one commit, one gateway and one call. */
  function Scene(log: seq<Landing>, sent: set<Request>, lock: Option<nat>, repository: Option<nat>, phase: Phase, fetched: Option<nat>): World {
    World([Commit({}, map[])], log, sent, [Gateway(lock, repository, None)], [Call(0, None, REFUSE, phase, 0, fetched, 0)])
  }

  /** A call that finds no branch, opens one and then fails. */
  function OpeningScene(i: nat): World {
    match i
    case 0 => Scene([], {}, None, None, Waiting, None)
    case 1 => Scene([], {}, Some(0), None, Queued, None)
    case 2 => Scene([], {}, Some(0), Some(0), Locked, None)
    case 3 => Scene([], {}, Some(0), Some(0), Fetched, Some(0))
    case 4 => Scene([], {Request(Opened(0), None, 0)}, Some(0), Some(0), Opening, Some(0))
    case 5 => Scene([Landing(0, Opened(0))], {}, Some(0), Some(0), Opening, Some(0))
    case _ => Scene([Landing(0, Opened(0))], {}, None, None, FailedEarly, Some(0))
  }

  function OpeningStep(i: nat): Step {
    match i
    case 0 => TakeTransactionLock(0)
    case 1 => TakeRepositoryLock(0)
    case 2 => Fetch(0)
    case 3 => OpenBranch(0, 0)
    case 4 => ServerAccepts(Request(Opened(0), None, 0))
    case _ => Fail(0)
  }

  lemma OpeningGoes(i: nat)
    requires i < 6
    ensures Goes(OpeningScene(i), OpeningScene(i + 1))
  {
    var w, w', step := OpeningScene(i), OpeningScene(i + 1), OpeningStep(i);
    assert Enabled(w, step);
    var a := After(w, step);
    assert a.commits == w'.commits && a.log == w'.log && a.sent == w'.sent;
    assert a.gateways == w'.gateways && a.calls == w'.calls;
  }

  /** A call can open the branch and then fail: an error before the push of its own commit
      does not mean that nothing changed. */
  lemma EarlyFailureMayOpenTheBranch()
    ensures exists ws: seq<World> ::
              Behaviour(ws) && ws[0].log == [] && ws[|ws| - 1] == OpeningScene(6)
    ensures OpeningScene(6).log == [Landing(0, Opened(0))] && OpeningScene(6).calls[0].phase.FailedEarly?
  {
    hide Goes;
    var ws := seq(7, i requires 0 <= i < 7 => OpeningScene(i));
    forall i | 0 < i < |ws|
      ensures Goes(ws[i - 1], ws[i])
    {
      OpeningGoes(i - 1);
    }
    assert Behaviour(ws) && ws[0].log == [] && ws[|ws| - 1] == OpeningScene(6);
  }
}
