/** Scrapes and commits of several threads under one lock, as interleaved steps: a
    scrape reads family by family, a commit performs its script action by action and
    rolls back when it fails. */
module ScrapeBoundary {
  import opened Util
  import opened SnapshotScript

  type FamilyId = nat

  type Board = Store<FamilyId>

  type Script = seq<Action<FamilyId>>

  /** What a thread is doing: a commit has its backup and what it performed so far, a
      scrape what it read and how often the lock had been released by commits before. */
  datatype Thread =
    | Idle
    | Committing(saved: Board, done: Script)
    | Scraping(read: Board, since: nat)

  /** A commit that ended: what it performed, whether it stands, and what it left. */
  datatype Release = Release(done: Script, ok: bool, board: Board)

  /** `scrapes` holds what completed scrapes read, with the releases before them. */
  datatype World = World(owner: Option<nat>, board: Board, threads: map<nat, Thread>,
                         releases: seq<Release>, scrapes: seq<(Board, nat)>)

  datatype Step =
    | BeginCommit(thread: nat)
    | Write(thread: nat, action: Action<FamilyId>)
    | Succeed(thread: nat)
    | Fail(thread: nat)
    | BeginScrape(thread: nat)
    | Read(thread: nat, family: FamilyId)
    | EndScrape(thread: nat)

  function ThreadOf(w: World, t: nat): Thread {
    if t in w.threads then w.threads[t] else Idle
  }

  /** The families of `replaced` are cleared before they are written. */
  predicate Proper(action: Action<FamilyId>, done: Script, replaced: set<FamilyId>) {
    action.On? && action.family in replaced && !action.change.Clear? ==> On(action.family, Clear) in done
  }

  /** The lock is taken only when free; every other step is taken by its holder. A
      commit may fail at any point. */
  predicate Enabled(w: World, step: Step, replaced: set<FamilyId>) {
    var me, mine := ThreadOf(w, step.thread), w.owner == Some(step.thread);
    match step
    case BeginCommit(_) => w.owner.None? && me.Idle?
    case BeginScrape(_) => w.owner.None? && me.Idle?
    case Write(_, action) =>
      mine && me.Committing? && Perform(w.board, action).Some? && Proper(action, me.done, replaced)
    case Succeed(_) => mine && me.Committing?
    case Fail(_) => mine && me.Committing?
    case Read(_, family) => mine && me.Scraping? && family in w.board
    case EndScrape(_) => mine && me.Scraping? && me.read.Keys == w.board.Keys
  }

  function Apply(w: World, step: Step, replaced: set<FamilyId>): World
    requires Enabled(w, step, replaced)
  {
    var t, me := step.thread, ThreadOf(w, step.thread);
    match step
    case BeginCommit(_) => w.(owner := Some(t), threads := w.threads[t := Committing(w.board, [])])
    case BeginScrape(_) => w.(owner := Some(t), threads := w.threads[t := Scraping(map[], |w.releases|)])
    case Write(_, action) =>
      w.(board := Perform(w.board, action).value, threads := w.threads[t := me.(done := me.done + [action])])
    case Succeed(_) => Released(w, t, Release(me.done, true, w.board))
    case Fail(_) => Released(w, t, Release(me.done, false, RolledBack(me.saved, me.done)))
    case Read(_, family) => w.(threads := w.threads[t := me.(read := me.read[family := w.board[family]])])
    case EndScrape(_) =>
      w.(owner := None, threads := w.threads[t := Idle], scrapes := w.scrapes + [(me.read, me.since)])
  }

  function Released(w: World, t: nat, release: Release): World {
    w.(owner := None, board := release.board, threads := w.threads[t := Idle], releases := w.releases + [release])
  }

  function Start(board: Board): World {
    World(None, board, map[], [Release([], true, board)], [])
  }

  predicate Run(ws: seq<World>, steps: seq<Step>, replaced: set<FamilyId>) {
    && |ws| == |steps| + 1
    && forall i | 0 <= i < |steps| ::
         Enabled(ws[i], steps[i], replaced) && ws[i + 1] == Apply(ws[i], steps[i], replaced)
  }

  // ---- what every step keeps --------------------------------------------------------

  predicate CleanFor(done: Script, replaced: set<FamilyId>) {
    forall f | f in replaced :: ClearedFirst(f, done)
  }

  /** What a commit that began at `before` left: its script's result, or the rollback. */
  predicate Follows(before: Board, release: Release, replaced: set<FamilyId>) {
    && SnapshotScript.Run(before, release.done).Some? && CleanFor(release.done, replaced)
    && release.board == if release.ok then SnapshotScript.Run(before, release.done).value
                        else RolledBack(before, release.done)
  }

  predicate History(releases: seq<Release>, replaced: set<FamilyId>) {
    && releases != [] && releases[0].ok
    && forall i | 0 < i < |releases| :: Follows(releases[i - 1].board, releases[i], replaced)
  }

  predicate OnlyHolderBusy(w: World) {
    forall t | t in w.threads && w.owner != Some(t) :: w.threads[t].Idle?
  }

  /** The board is the last one released, but for the commit that holds the lock. */
  predicate UpToDate(w: World, replaced: set<FamilyId>)
    requires w.releases != []
  {
    var last := w.releases[|w.releases| - 1].board;
    if w.owner.Some? && ThreadOf(w, w.owner.value).Committing?
    then
      var me := ThreadOf(w, w.owner.value);
      me.saved == last && SnapshotScript.Run(last, me.done) == Some(w.board) && CleanFor(me.done, replaced)
    else w.board == last
  }

  /** What an unfinished scrape has read is still on the board. */
  predicate ReadsLast(w: World) {
    w.owner.Some? && ThreadOf(w, w.owner.value).Scraping? ==>
      var me := ThreadOf(w, w.owner.value);
      me.since == |w.releases| && me.read.Keys <= w.board.Keys && forall f | f in me.read :: me.read[f] == w.board[f]
  }

  predicate Whole(w: World) {
    forall j | 0 <= j < |w.scrapes| ::
      0 < w.scrapes[j].1 <= |w.releases| && w.scrapes[j].0 == w.releases[w.scrapes[j].1 - 1].board
  }

  predicate Inv(w: World, replaced: set<FamilyId>) {
    History(w.releases, replaced) && OnlyHolderBusy(w) && UpToDate(w, replaced) && ReadsLast(w) && Whole(w)
  }

  lemma WriteStaysClean(done: Script, action: Action<FamilyId>, replaced: set<FamilyId>)
    requires CleanFor(done, replaced) && Proper(action, done, replaced)
    ensures CleanFor(done + [action], replaced)
  {
    forall f | f in replaced ensures ClearedFirst(f, done + [action]) {
      JoinClearedFirst(f, done, [action]);
    }
  }

  lemma StepKeeps(w: World, step: Step, replaced: set<FamilyId>)
    requires Inv(w, replaced) && Enabled(w, step, replaced)
    ensures Inv(Apply(w, step, replaced), replaced)
  {
    match step
    case Write(t, action) =>
      var me := ThreadOf(w, t);
      WriteStaysClean(me.done, action, replaced);
      RunMore(me.saved, me.done, w.board, action);
    case EndScrape(t) =>
      assert ThreadOf(w, t).read == w.board;
    case _ =>
  }

  lemma {:induction false} RunKeeps(ws: seq<World>, steps: seq<Step>, replaced: set<FamilyId>, board: Board, n: nat)
    requires Run(ws, steps, replaced) && ws[0] == Start(board) && n < |ws|
    ensures Inv(ws[n], replaced)
  {
    if n > 0 {
      RunKeeps(ws, steps, replaced, board, n - 1);
      StepKeeps(ws[n - 1], steps[n - 1], replaced);
    }
  }

  // ---- what a scrape sees -------------------------------------------------------------

  /** The last commit at or before release `n` that stands. */
  function LastCommit(releases: seq<Release>, n: nat): (k: nat)
    requires n < |releases| && releases[0].ok
    ensures k <= n && releases[k].ok && forall m | k < m <= n :: !releases[m].ok
  {
    if releases[n].ok then n else LastCommit(releases, n - 1)
  }

  /** A failed commit among the releases after `k`, up to `n`, wrote this value into the
      child that stood there when it began. */
  predicate LeftByFailed(releases: seq<Release>, k: nat, n: nat, f: FamilyId, labels: Labels, value: Value)
    requires n < |releases|
  {
    exists m, i | k < m <= n && 0 <= i < |releases[m].done| ::
      !releases[m].ok && Reaches(releases[m].done, i, f, labels) && releases[m].done[i].change.value == value
  }

  /** Family `f` at release `n`, against the last commit that stands. */
  predicate Since(releases: seq<Release>, k: nat, n: nat, f: FamilyId, replaced: set<FamilyId>)
    requires k <= n < |releases| && f in releases[k].board
  {
    && f in releases[n].board
    && var was, now := releases[k].board[f], releases[n].board[f];
       && now.shape == was.shape && now.samples.Keys == was.samples.Keys
       && (f in replaced || was.shape.labelnames == [] ==> now == was)
       && forall labels | labels in was.samples ::
            now.samples[labels] == was.samples[labels] || LeftByFailed(releases, k, n, f, labels, now.samples[labels])
  }

  lemma {:induction false} SinceCommit(releases: seq<Release>, n: nat, f: FamilyId, replaced: set<FamilyId>)
    requires History(releases, replaced) && n < |releases| && f in releases[LastCommit(releases, n)].board
    ensures Since(releases, LastCommit(releases, n), n, f, replaced)
  {
    if !releases[n].ok {
      var k := LastCommit(releases, n);
      SinceCommit(releases, n - 1, f, replaced);
      RollbackStep(releases, k, n, f, replaced);
    }
  }

  /** One more failed commit. */
  lemma RollbackStep(releases: seq<Release>, k: nat, n: nat, f: FamilyId, replaced: set<FamilyId>)
    requires History(releases, replaced) && k < n < |releases| && f in releases[k].board && !releases[n].ok
    requires Since(releases, k, n - 1, f, replaced)
    ensures Since(releases, k, n, f, replaced)
  {
    var before, done := releases[n - 1].board[f], releases[n].done;
    assert Follows(releases[n - 1].board, releases[n], replaced);
    var after := LeftSlot(before, f, done);
    assert releases[n].board[f] == after;
    RemainsIsLeftover(before.samples, f, done);
    if f in replaced {
      ClearedComesBack(before, f, done);
    }
    forall labels | labels in before.samples
      ensures after.samples[labels] == before.samples[labels]
              || LeftByFailed(releases, k, n, f, labels, after.samples[labels])
    {
      LeftoverIsLastWrite(before.samples[labels], f, labels, done);
    }
  }

  /** However commits, rollbacks and scrapes interleave, a completed scrape has read
      every family as one and the same release of the lock left it, the last before the
      scrape: a replaced family as the last commit that stands left it, and a family
      that is only written with the same labels, where a value is of that commit or was
      written by a failed one since. */
  lemma ScrapesAreWhole(ws: seq<World>, steps: seq<Step>, replaced: set<FamilyId>, board: Board, n: nat, j: nat)
    requires Run(ws, steps, replaced) && ws[0] == Start(board)
    requires n < |ws| && j < |ws[n].scrapes|
    ensures var (read, since) := ws[n].scrapes[j];
            var releases := ws[n].releases;
            && 0 < since <= |releases| && read == releases[since - 1].board && History(releases, replaced)
            && AsCommitted(releases, LastCommit(releases, since - 1), since - 1, replaced)
  {
    RunKeeps(ws, steps, replaced, board, n);
    var since, releases := ws[n].scrapes[j].1, ws[n].releases;
    var k := LastCommit(releases, since - 1);
    var last := releases[k].board;
    forall f | f in last ensures Since(releases, k, since - 1, f, replaced) {
      SinceCommit(releases, since - 1, f, replaced);
    }
  }

  /** Every family at release `n` is that of commit `k`, but for such values. */
  predicate AsCommitted(releases: seq<Release>, k: nat, n: nat, replaced: set<FamilyId>)
    requires k <= n < |releases|
  {
    var last := releases[k].board;
    forall f | f in last :: Since(releases, k, n, f, replaced)
  }
}
