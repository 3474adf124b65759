// meow/src/engine/graph.c: run_target without forking, target_out_of_date and newer.
module BuildGraph {
  import opened Graph

  // A dependency by the name of a target, or of nothing the recipe knows: a file.
  datatype Dep = Known(t: nat) | File(path: nat)

  datatype Time = Time(sec: int, nsec: int)

  // fatal has one entry a shell command: those before the build (tools, download,
  // unpacking, directories), those of the build itself from b0 up to b1, and those after
  // it; true where its failure ends the run.
  datatype Target = Target(
    when: bool, only: Option<seq<string>>, except: Option<seq<string>>,
    deps: seq<Dep>, phony: bool, inputs: seq<nat>, outputs: seq<nat>,
    fatal: seq<bool>, b0: nat, b1: nat)

  // The recipe, and what the world answers: the file times that target t meets when it is
  // examined, and the commands (t, k) that fail. Each is asked for at most once.
  datatype Recipe = Recipe(
    targets: seq<Target>, arch: Option<string>,
    times: map<(nat, nat), Time>, fails: set<(nat, nat)>)

  predicate WellFormed(r: Recipe) {
    forall t :: 0 <= t < |r.targets| ==>
      && r.targets[t].b0 <= r.targets[t].b1 <= |r.targets[t].fatal|
      && (forall d :: d in r.targets[t].deps && d.Known? ==> d.t < |r.targets|)
  }

  // The only and except lists.
  predicate ArchPasses(r: Recipe, t: nat)
    requires t < |r.targets|
  {
    && (r.targets[t].only.Some? ==> r.arch.Some? && r.arch.value in r.targets[t].only.value)
    && (r.targets[t].except.Some? ==> !(r.arch.Some? && r.arch.value in r.targets[t].except.value))
  }

  // ---- out of date ----------------------------------------------------------------------

  const EPOCH := Time(0, 0)

  predicate Later(a: Time, b: Time) {
    a.sec > b.sec || (a.sec == b.sec && a.nsec > b.nsec)
  }

  const BILLION := 1_000_000_000

  // It is the order of points in time: seconds first, then nanoseconds.
  lemma LaterInTime(a: Time, b: Time)
    requires 0 <= a.nsec < BILLION && 0 <= b.nsec < BILLION
    ensures Later(a, b) <==> a.sec * BILLION + a.nsec > b.sec * BILLION + b.nsec
  {
  }

  // Whatever the nanoseconds count, it is a total order in which the seconds decide.
  lemma LaterOrders(a: Time, b: Time, c: Time)
    ensures !Later(a, a) && (Later(a, b) || Later(b, a) || a == b)
    ensures Later(a, b) && Later(b, c) ==> Later(a, c)
    ensures a.sec != b.sec ==> (Later(a, b) <==> a.sec > b.sec)
    ensures a.sec == b.sec ==> (Later(a, b) <==> a.nsec > b.nsec)
  {
  }

  // What a target is made from: its inputs, its dependencies' outputs, its file dependencies.
  ghost predicate Prereq(r: Recipe, t: nat, p: nat)
    requires WellFormed(r) && t < |r.targets|
  {
    || p in r.targets[t].inputs
    || File(p) in r.targets[t].deps
    || exists d: nat :: Known(d) in r.targets[t].deps && p in r.targets[d].outputs
  }

  predicate Missing(r: Recipe, t: nat, p: nat) {
    (t, p) !in r.times
  }

  // Output o is older than a prerequisite, or than the epoch the search starts from.
  ghost predicate Stale(r: Recipe, t: nat, o: nat)
    requires WellFormed(r) && t < |r.targets|
  {
    !Missing(r, t, o) &&
    (Later(EPOCH, r.times[(t, o)]) ||
     exists p :: Prereq(r, t, p) && !Missing(r, t, p) && Later(r.times[(t, p)], r.times[(t, o)]))
  }

  ghost predicate OutOfDate(r: Recipe, t: nat)
    requires WellFormed(r) && t < |r.targets|
  {
    var T := r.targets[t];
    || T.phony
    || T.outputs == []
    || (exists p :: (Prereq(r, t, p) || p in T.outputs) && Missing(r, t, p))
    || (exists o :: o in T.outputs && Stale(r, t, o))
  }

  // newer
  function Newer(a: Time, latest: Time): Time {
    if Later(a, latest) then a else latest
  }

  // latest is the epoch or the time of a file looked at, and none looked at is later.
  ghost predicate Newest(r: Recipe, t: nat, seen: set<nat>, latest: Time) {
    && (forall p :: p in seen ==> !Missing(r, t, p) && !Later(r.times[(t, p)], latest))
    && !Later(EPOCH, latest)
    && (latest == EPOCH || exists p :: p in seen && !Missing(r, t, p) && r.times[(t, p)] == latest)
  }

  lemma NewestGrows(r: Recipe, t: nat, seen: set<nat>, latest: Time, p: nat)
    requires Newest(r, t, seen, latest) && !Missing(r, t, p)
    ensures Newest(r, t, seen + {p}, Newer(r.times[(t, p)], latest))
  {
    var now := Newer(r.times[(t, p)], latest);
    assert p in seen + {p};
    if now == latest && latest != EPOCH && r.times[(t, p)] != latest {
      var q :| q in seen && !Missing(r, t, q) && r.times[(t, q)] == latest;
      assert q in seen + {p};
    }
  }

  // The list of files is looked at from the front, stopping at the first missing one.
  method NewestOf(r: Recipe, t: nat, files: seq<nat>, ghost seen: set<nat>, start: Time)
    returns (latest: Time, missing: bool)
    requires Newest(r, t, seen, start)
    ensures missing <==> exists p :: p in files && Missing(r, t, p)
    ensures !missing ==> Newest(r, t, seen + (set p | p in files), latest)
  {
    latest, missing := start, false;
    var i := 0;
    ghost var now := seen;
    while i < |files|
      invariant 0 <= i <= |files|
      invariant now == seen + (set p | p in files[..i])
      invariant Newest(r, t, now, latest)
    {
      if Missing(r, t, files[i]) {
        missing := true;
        return;
      }
      NewestGrows(r, t, now, latest, files[i]);
      latest := Newer(r.times[(t, files[i])], latest);
      assert files[..i + 1] == files[..i] + [files[i]];
      now := now + {files[i]};
      i := i + 1;
    }
    assert files[..i] == files;
    forall p | p in files
      ensures !Missing(r, t, p)
    {
      assert p in now;
    }
  }

  // The files a dependency stands for.
  function FilesOf(r: Recipe, d: Dep): seq<nat> {
    match d
    case Known(u) => if u < |r.targets| then r.targets[u].outputs else []
    case File(p) => [p]
  }

  ghost function FilesOfAll(r: Recipe, ds: seq<Dep>): (s: set<nat>)
    ensures forall p :: p in s <==> exists d :: d in ds && p in FilesOf(r, d)
  {
    if ds == [] then {}
    else
      assert ds == [ds[0]] + ds[1..];
      (set p | p in FilesOf(r, ds[0])) + FilesOfAll(r, ds[1..])
  }

  lemma PrereqIs(r: Recipe, t: nat, p: nat)
    requires WellFormed(r) && t < |r.targets|
    ensures Prereq(r, t, p) <==> p in r.targets[t].inputs || p in FilesOfAll(r, r.targets[t].deps)
  {
    var T := r.targets[t];
    if p in FilesOfAll(r, T.deps) {
      var d :| d in T.deps && p in FilesOf(r, d);
      if d.File? {
        assert File(p) in T.deps;
      } else {
        assert Known(d.t) in T.deps;
      }
    }
    if File(p) in T.deps {
      assert p in FilesOf(r, File(p));
    }
    if exists d: nat :: Known(d) in T.deps && p in r.targets[d].outputs {
      var d: nat :| Known(d) in T.deps && p in r.targets[d].outputs;
      assert p in FilesOf(r, Known(d));
    }
  }

  lemma FilesUpTo(r: Recipe, ds: seq<Dep>, i: nat)
    requires i < |ds|
    ensures FilesOfAll(r, ds[..i + 1]) == FilesOfAll(r, ds[..i]) + set p | p in FilesOf(r, ds[i])
    ensures (set p | p in FilesOf(r, ds[i])) <= FilesOfAll(r, ds)
  {
    assert ds[i] in ds;
    assert ds[..i + 1] == ds[..i] + [ds[i]];
  }

  // The dependencies' files, dependency by dependency.
  method NewestOfDeps(r: Recipe, t: nat, ds: seq<Dep>, ghost seen: set<nat>, start: Time)
    returns (latest: Time, missing: bool)
    requires Newest(r, t, seen, start)
    ensures missing <==> exists p :: p in FilesOfAll(r, ds) && Missing(r, t, p)
    ensures !missing ==> Newest(r, t, seen + FilesOfAll(r, ds), latest)
  {
    latest, missing := start, false;
    var i := 0;
    ghost var now := seen;
    while i < |ds|
      invariant 0 <= i <= |ds|
      invariant now == seen + FilesOfAll(r, ds[..i])
      invariant Newest(r, t, now, latest)
    {
      var files := FilesOf(r, ds[i]);
      FilesUpTo(r, ds, i);
      latest, missing := NewestOf(r, t, files, now, latest);
      if missing {
        return;
      }
      now := now + (set p | p in files);
      i := i + 1;
    }
    assert ds[..i] == ds;
    forall p | p in FilesOfAll(r, ds)
      ensures !Missing(r, t, p)
    {
      assert p in now;
    }
  }

  // The oldest of a nonempty list of files, if none is missing.
  method OldestOf(r: Recipe, t: nat, files: seq<nat>) returns (oldest: Time, missing: bool)
    requires files != []
    ensures missing <==> exists o :: o in files && Missing(r, t, o)
    ensures !missing ==> forall o :: o in files ==> !Missing(r, t, o) && !Later(oldest, r.times[(t, o)])
    ensures !missing ==> exists o :: o in files && !Missing(r, t, o) && r.times[(t, o)] == oldest
  {
    oldest, missing := EPOCH, false;
    var i := 0;
    while i < |files|
      invariant 0 <= i <= |files|
      invariant forall k :: 0 <= k < i ==> !Missing(r, t, files[k]) && !Later(oldest, r.times[(t, files[k])])
      invariant i > 0 ==> exists k :: 0 <= k < i && !Missing(r, t, files[k]) && r.times[(t, files[k])] == oldest
    {
      var o := files[i];
      if Missing(r, t, o) {
        missing := true;
        return;
      }
      var m := r.times[(t, o)];
      if i == 0 || Later(oldest, m) {
        oldest := m;
      }
      i := i + 1;
    }
  }

  method TargetOutOfDate(r: Recipe, t: nat) returns (b: bool)
    requires WellFormed(r) && t < |r.targets|
    ensures b <==> OutOfDate(r, t)
  {
    hide Newest;
    hide Prereq;
    hide Stale;
    hide Missing;
    hide FilesOfAll;
    var T := r.targets[t];
    if T.phony || |T.outputs| == 0 {
      return true;
    }
    forall p
      ensures Prereq(r, t, p) <==> p in T.inputs || p in FilesOfAll(r, T.deps)
    {
      PrereqIs(r, t, p);
    }
    NewestOfNone(r, t);
    var newest, missing := NewestOf(r, t, T.inputs, {}, EPOCH);
    if missing {
      return true;
    }
    ghost var seen := {} + set p | p in T.inputs;
    newest, missing := NewestOfDeps(r, t, T.deps, seen, newest);
    if missing {
      return true;
    }
    seen := seen + FilesOfAll(r, T.deps);
    var oldest;
    oldest, missing := OldestOf(r, t, T.outputs);
    if missing {
      return true;
    }
    b := Later(newest, oldest);
    StaleIs(r, t, seen, newest, oldest);
  }

  // Comparing the two extremes decides for all pairs.
  lemma StaleIs(r: Recipe, t: nat, seen: set<nat>, newest: Time, oldest: Time)
    requires WellFormed(r) && t < |r.targets|
    requires !r.targets[t].phony && r.targets[t].outputs != []
    requires forall p :: Prereq(r, t, p) <==> p in seen
    requires Newest(r, t, seen, newest)
    requires forall o :: o in r.targets[t].outputs ==> !Missing(r, t, o) && !Later(oldest, r.times[(t, o)])
    requires exists o :: o in r.targets[t].outputs && !Missing(r, t, o) && r.times[(t, o)] == oldest
    ensures OutOfDate(r, t) <==> Later(newest, oldest)
  {
    if Later(newest, oldest) {
      var o :| o in r.targets[t].outputs && !Missing(r, t, o) && r.times[(t, o)] == oldest;
      if newest != EPOCH {
        var p :| p in seen && !Missing(r, t, p) && r.times[(t, p)] == newest;
        assert Prereq(r, t, p);
      }
      assert Stale(r, t, o);
    }
  }

  // ---- what a run does ------------------------------------------------------------------

  // Command k of t was started, or t was marked done.
  datatype Event = Ran(t: nat, k: nat) | Done(t: nat)

  // The commands that t runs if its turn comes and none fails.
  ghost predicate WillRun(r: Recipe, t: nat, k: nat)
    requires WellFormed(r)
  {
    && t < |r.targets| && k < |r.targets[t].fatal|
    && r.targets[t].when && ArchPasses(r, t)
    && (r.targets[t].b0 <= k < r.targets[t].b1 ==> OutOfDate(r, t))
  }

  // A command whose failure ends the run, and that fails.
  predicate Fatal(r: Recipe, t: nat, k: nat) {
    t < |r.targets| && k < |r.targets[t].fatal| && r.targets[t].fatal[k] && (t, k) in r.fails
  }

  ghost predicate Breaks(r: Recipe, t: nat)
    requires WellFormed(r)
  {
    exists k :: WillRun(r, t, k) && Fatal(r, t, k)
  }

  predicate DepOf(r: Recipe, t: nat, d: nat) {
    t < |r.targets| && r.targets[t].when && Known(d) in r.targets[t].deps
  }

  ghost predicate DepsDone(r: Recipe, t: nat, log: seq<Event>) {
    forall d :: DepOf(r, t, d) ==> Done(d) in log
  }

  // The commands of t before k have run and let the run go on.
  ghost predicate SoFar(r: Recipe, t: nat, k: nat, log: seq<Event>)
    requires WellFormed(r)
  {
    forall j :: 0 <= j < k && WillRun(r, t, j) ==> Ran(t, j) in log && !Fatal(r, t, j)
  }

  // What may follow a log.
  ghost predicate Allowed(r: Recipe, log: seq<Event>, e: Event)
    requires WellFormed(r)
  {
    && e.t < |r.targets|
    && e !in log
    && DepsDone(r, e.t, log)
    && (if e.Ran? then WillRun(r, e.t, e.k) && Done(e.t) !in log && SoFar(r, e.t, e.k, log)
        else SoFar(r, e.t, |r.targets[e.t].fatal|, log))
  }

  // Every event was allowed when it happened: a command runs at most once, in order, after
  // all known dependencies of its target are done, never after a fatal failure of its
  // target; a target is done once, after all its commands.
  ghost predicate LogOk(r: Recipe, log: seq<Event>)
    requires WellFormed(r)
  {
    forall i :: 0 <= i < |log| ==> Allowed(r, log[..i], log[i])
  }

  lemma LogGrows(r: Recipe, log: seq<Event>, e: Event)
    requires WellFormed(r) && LogOk(r, log) && Allowed(r, log, e)
    ensures LogOk(r, log + [e])
  {
    hide Allowed;
    var log' := log + [e];
    forall i | 0 <= i < |log'|
      ensures Allowed(r, log'[..i], log'[i])
    {
      assert log'[..i] == log[..i];
      if i == |log| {
        assert log[..i] == log;
      }
    }
  }

  // No event happens twice.
  lemma AtMostOnce(r: Recipe, log: seq<Event>, i: nat, j: nat)
    requires WellFormed(r) && LogOk(r, log) && i < j < |log|
    ensures log[i] != log[j]
  {
    assert Allowed(r, log[..j], log[j]);
    assert log[..j][i] == log[i];
  }

  // A command runs after its target's known dependencies are done.
  lemma AfterDeps(r: Recipe, log: seq<Event>, i: nat, d: nat) returns (j: nat)
    requires WellFormed(r) && LogOk(r, log) && i < |log| && DepOf(r, log[i].t, d)
    ensures j < i && log[j] == Done(d)
  {
    assert Allowed(r, log[..i], log[i]);
    j :| 0 <= j < i && log[..i][j] == Done(d);
  }

  // A target whose fatal command failed does nothing more and is never done.
  lemma StopsAtFailure(r: Recipe, log: seq<Event>, i: nat, j: nat)
    requires WellFormed(r) && LogOk(r, log) && i < j < |log|
    requires log[i].Ran? && Fatal(r, log[i].t, log[i].k)
    ensures log[j].t != log[i].t
  {
    hide WillRun;
    assert Allowed(r, log[..i], log[i]) && Allowed(r, log[..j], log[j]);
    assert WillRun(r, log[i].t, log[i].k);
    assert log[..i] <= log[..j];
    assert log[j] !in log[..i];
    AtMostOnce(r, log, i, j);
  }

  // ---- blocked targets ------------------------------------------------------------------

  ghost predicate IsWalk(r: Recipe, p: seq<nat>) {
    |p| > 0 && forall i :: 0 < i < |p| ==> DepOf(r, p[i - 1], p[i])
  }

  ghost predicate Needs(r: Recipe, a: nat, b: nat) {
    exists p :: IsWalk(r, p) && p[0] == a && p[|p| - 1] == b
  }

  ghost predicate OnCycle(r: Recipe, a: nat) {
    exists d :: DepOf(r, a, d) && Needs(r, d, a)
  }

  // t needs, through targets whose condition holds, one that is being visited, or one that
  // needs itself, or one whose commands end the run.
  ghost predicate Blocked(r: Recipe, t: nat, visiting: set<nat>)
    requires WellFormed(r)
  {
    exists u :: Needs(r, t, u) && Obstacle(r, u, visiting)
  }

  ghost predicate Obstacle(r: Recipe, u: nat, visiting: set<nat>)
    requires WellFormed(r)
  {
    u in visiting || OnCycle(r, u) || Breaks(r, u)
  }

  lemma NeedsSelf(r: Recipe, a: nat)
    ensures Needs(r, a, a)
  {
    assert IsWalk(r, [a]);
  }

  lemma NeedsStep(r: Recipe, a: nat, d: nat, b: nat)
    requires DepOf(r, a, d) && Needs(r, d, b)
    ensures Needs(r, a, b)
  {
    var p :| IsWalk(r, p) && p[0] == d && p[|p| - 1] == b;
    var q := [a] + p;
    assert IsWalk(r, q);
  }

  // A dependency that is blocked blocks the target that waits for it.
  lemma BlockedUp(r: Recipe, t: nat, d: nat, visiting: set<nat>)
    requires WellFormed(r) && DepOf(r, t, d) && Blocked(r, d, visiting + {t})
    ensures Blocked(r, t, visiting)
  {
    hide Breaks;
    hide OnCycle;
    var u :| Needs(r, d, u) && Obstacle(r, u, visiting + {t});
    if u == t {
      Cycle(r, t, d);
      NeedsSelf(r, t);
      assert Obstacle(r, t, visiting);
    } else {
      NeedsStep(r, t, d, u);
      assert Obstacle(r, u, visiting);
    }
  }

  // When t was done, or the log's end.
  ghost function DoneAt(log: seq<Event>, t: nat): (i: nat)
    ensures i <= |log|
    ensures i < |log| ==> log[i] == Done(t)
    ensures Done(t) in log ==> i < |log|
  {
    if log == [] || log[0] == Done(t) then 0 else
      assert log == [log[0]] + log[1..];
      1 + DoneAt(log[1..], t)
  }

  lemma {:induction false} DoneAtFirst(log: seq<Event>, t: nat, i: nat)
    requires i < |log| && log[i] == Done(t)
    ensures DoneAt(log, t) <= i
  {
    if log[0] != Done(t) {
      DoneAtFirst(log[1..], t, i - 1);
    }
  }

  lemma DepEarlier(r: Recipe, log: seq<Event>, t: nat, d: nat)
    requires WellFormed(r) && LogOk(r, log) && Done(t) in log && DepOf(r, t, d)
    ensures Done(d) in log && DoneAt(log, d) < DoneAt(log, t)
  {
    var i := DoneAt(log, t);
    assert Allowed(r, log[..i], log[i]);
    var j :| 0 <= j < i && log[..i][j] == Done(d);
    DoneAtFirst(log, d, j);
  }

  lemma {:induction false} WalkEarlier(r: Recipe, log: seq<Event>, p: seq<nat>)
    requires WellFormed(r) && LogOk(r, log) && IsWalk(r, p) && Done(p[0]) in log
    ensures Done(p[|p| - 1]) in log && DoneAt(log, p[|p| - 1]) <= DoneAt(log, p[0])
    decreases |p|
  {
    if |p| > 1 {
      DepEarlier(r, log, p[0], p[1]);
      WalkEarlier(r, log, p[1..]);
    }
  }

  lemma NeedsEarlier(r: Recipe, log: seq<Event>, a: nat, b: nat)
    requires WellFormed(r) && LogOk(r, log) && Done(a) in log && Needs(r, a, b)
    ensures Done(b) in log && DoneAt(log, b) <= DoneAt(log, a)
  {
    var p :| IsWalk(r, p) && p[0] == a && p[|p| - 1] == b;
    WalkEarlier(r, log, p);
  }

  lemma DoneUnbroken(r: Recipe, log: seq<Event>, u: nat)
    requires WellFormed(r) && LogOk(r, log) && Done(u) in log
    ensures !Breaks(r, u)
  {
    var i := DoneAt(log, u);
    assert Allowed(r, log[..i], log[i]);
  }

  lemma DoneOffCycle(r: Recipe, log: seq<Event>, u: nat)
    requires WellFormed(r) && LogOk(r, log) && Done(u) in log
    ensures !OnCycle(r, u)
  {
    forall d
      ensures !(DepOf(r, u, d) && Needs(r, d, u))
    {
      if DepOf(r, u, d) && Needs(r, d, u) {
        DepEarlier(r, log, u, d);
        NeedsEarlier(r, log, d, u);
      }
    }
  }

  // Nothing in the way of a target that is done: the marks order the targets.
  lemma DoneIsFree(r: Recipe, log: seq<Event>, t: nat, visiting: set<nat>)
    requires WellFormed(r) && LogOk(r, log) && Done(t) in log
    requires forall u :: u in visiting ==> Done(u) !in log
    ensures !Blocked(r, t, visiting)
  {
    forall u
      ensures !(Needs(r, t, u) && Obstacle(r, u, visiting))
    {
      if Needs(r, t, u) {
        NeedsEarlier(r, log, t, u);
        DoneUnbroken(r, log, u);
        DoneOffCycle(r, log, u);
      }
    }
  }

  // ---- the walk -------------------------------------------------------------------------

  // The marks and the log agree.
  ghost predicate Inv(r: Recipe, visiting: set<nat>, done: set<nat>, log: seq<Event>) {
    && WellFormed(r)
    && LogOk(r, log)
    && (forall t :: t in done <==> Done(t) in log)
    && (forall t :: t in visiting || t in done ==> t < |r.targets|)
    && visiting !! done
    && (forall e :: e in log && e.Ran? ==> e.t in visiting || e.t in done)
  }

  // The command to run next for t, and those after it, have not run.
  ghost predicate Ready(r: Recipe, visiting: set<nat>, done: set<nat>, log: seq<Event>, t: nat, k: nat) {
    && Inv(r, visiting, done, log)
    && t in visiting
    && DepsDone(r, t, log)
    && SoFar(r, t, k, log)
    && (forall j :: j >= k ==> Ran(t, j) !in log)
  }

  lemma RanNext(r: Recipe, visiting: set<nat>, done: set<nat>, log: seq<Event>, t: nat, k: nat)
    requires Ready(r, visiting, done, log, t, k) && WillRun(r, t, k)
    ensures Inv(r, visiting, done, log + [Ran(t, k)])
    ensures !Fatal(r, t, k) ==> Ready(r, visiting, done, log + [Ran(t, k)], t, k + 1)
  {
    hide WillRun;
    hide Fatal;
    hide LogOk;
    LogGrows(r, log, Ran(t, k));
  }

  lemma Finished(r: Recipe, visiting: set<nat>, done: set<nat>, log: seq<Event>, t: nat)
    requires t < |r.targets| && Ready(r, visiting, done, log, t, |r.targets[t].fatal|)
    ensures Inv(r, visiting - {t}, done + {t}, log + [Done(t)])
  {
    hide WillRun;
    hide LogOk;
    LogGrows(r, log, Done(t));
  }

  lemma Skipped(r: Recipe, visiting: set<nat>, done: set<nat>, log: seq<Event>, t: nat)
    requires Inv(r, visiting, done, log)
    requires t < |r.targets| && t !in visiting && t !in done && !r.targets[t].when
    ensures Inv(r, visiting, done + {t}, log + [Done(t)])
  {
    hide LogOk;
    LogGrows(r, log, Done(t));
  }

  // The state in which t, newly marked as visited, waits for its dependencies.
  ghost predicate Waiting(r: Recipe, visiting: set<nat>, done: set<nat>, log: seq<Event>, t: nat) {
    && Inv(r, visiting, done, log)
    && t in visiting
    && (forall j :: Ran(t, j) !in log)
  }

  lemma Entered(r: Recipe, visiting: set<nat>, done: set<nat>, log: seq<Event>, t: nat)
    requires Inv(r, visiting, done, log)
    requires t < |r.targets| && t !in visiting && t !in done
    ensures Waiting(r, visiting + {t}, done, log, t)
  {
    hide LogOk;
  }

  lemma WaitingStays(r: Recipe, visiting: set<nat>, done: set<nat>, log: seq<Event>, t: nat,
                     done': set<nat>, log': seq<Event>)
    requires Waiting(r, visiting, done, log, t) && Inv(r, visiting, done', log')
    requires forall e :: e in log' && e !in log ==> e.t !in visiting
    ensures Waiting(r, visiting, done', log', t)
  {
    hide Inv;
  }

  lemma NowReady(r: Recipe, visiting: set<nat>, done: set<nat>, log: seq<Event>, t: nat)
    requires Waiting(r, visiting, done, log, t)
    requires forall d :: DepOf(r, t, d) ==> d in done
    ensures Ready(r, visiting, done, log, t, 0)
  {
    hide LogOk;
  }

  // Commands that are not to run are passed over.
  lemma PassOver(r: Recipe, visiting: set<nat>, done: set<nat>, log: seq<Event>, t: nat, lo: nat, hi: nat)
    requires Ready(r, visiting, done, log, t, lo) && lo <= hi
    requires forall k: nat :: lo <= k < hi ==> !WillRun(r, t, k)
    ensures Ready(r, visiting, done, log, t, hi)
  {
    hide WillRun;
    hide LogOk;
  }

  lemma WhatRuns(r: Recipe, t: nat)
    requires WellFormed(r) && t < |r.targets|
    ensures r.targets[t].b0 <= r.targets[t].b1 <= |r.targets[t].fatal|
    ensures !ArchPasses(r, t) ==> forall k: nat :: k < |r.targets[t].fatal| ==> !WillRun(r, t, k)
    ensures r.targets[t].when && ArchPasses(r, t) ==>
      forall k: nat :: k < |r.targets[t].fatal| ==>
        (WillRun(r, t, k) <==> (r.targets[t].b0 <= k < r.targets[t].b1 ==> OutOfDate(r, t)))
  {
    hide OutOfDate;
    hide ArchPasses;
  }

  lemma FreeWhenDone(r: Recipe, visiting: set<nat>, done: set<nat>, log: seq<Event>, t: nat)
    requires Inv(r, visiting, done, log) && t in done
    ensures !Blocked(r, t, visiting)
  {
    hide Blocked;
    DoneIsFree(r, log, t, visiting);
  }

  lemma BlockedBySelf(r: Recipe, t: nat, visiting: set<nat>)
    requires WellFormed(r) && (t in visiting || Breaks(r, t))
    ensures Blocked(r, t, visiting)
  {
    NeedsSelf(r, t);
    assert Obstacle(r, t, visiting);
  }

  ghost function Upto(n: nat): (s: set<nat>)
    ensures forall t: nat :: t in s <==> t < n
  {
    if n == 0 then {} else Upto(n - 1) + {n - 1}
  }

  // The targets still to be entered.
  ghost function Left(r: Recipe, visiting: set<nat>, done: set<nat>): set<nat> {
    Upto(|r.targets|) - visiting - done
  }

  lemma LeftLess(r: Recipe, visiting: set<nat>, done: set<nat>, t: nat)
    requires t < |r.targets| && t !in visiting && t !in done
    ensures Left(r, visiting + {t}, done) < Left(r, visiting, done)
  {
    assert t in Left(r, visiting, done);
  }

  class Builder {
    const recipe: Recipe
    // The targets whose visiting mark is set, and those whose done mark is.
    var visiting: set<nat>
    var done: set<nat>
    var log: seq<Event>

    constructor (recipe: Recipe)
      requires WellFormed(recipe)
      ensures this.recipe == recipe && visiting == {} && done == {} && log == []
      ensures Inv(recipe, visiting, done, log)
    {
      this.recipe := recipe;
      visiting, done, log := {}, {}, [];
    }

    // The known dependencies not yet done, each once.
    method Uniques(t: nat) returns (us: seq<nat>)
      requires WellFormed(recipe) && t < |recipe.targets|
      ensures forall u :: u in us <==> Known(u) in recipe.targets[t].deps && u !in done
      ensures forall i, j :: 0 <= i < j < |us| ==> us[i] != us[j]
    {
      us := [];
      var deps := recipe.targets[t].deps;
      var i := 0;
      while i < |deps|
        invariant 0 <= i <= |deps|
        invariant forall u :: u in us <==> Known(u) in deps[..i] && u !in done
        invariant forall i, j :: 0 <= i < j < |us| ==> us[i] != us[j]
      {
        assert deps[..i + 1] == deps[..i] + [deps[i]];
        if deps[i].Known? && deps[i].t !in done && deps[i].t !in us {
          us := us + [deps[i].t];
        }
        i := i + 1;
      }
      assert deps[..i] == deps;
    }

    // The commands of t from lo up to hi; false where a fatal one fails.
    method RunCommands(t: nat, lo: nat, hi: nat) returns (ok: bool)
      requires t < |recipe.targets| && lo <= hi <= |recipe.targets[t].fatal|
      requires Ready(recipe, visiting, done, log, t, lo)
      requires forall k: nat :: lo <= k < hi ==> WillRun(recipe, t, k)
      modifies `log
      ensures Inv(recipe, visiting, done, log) && old(log) <= log
      ensures forall e :: e in log && e !in old(log) ==> e.t == t
      ensures ok ==> Ready(recipe, visiting, done, log, t, hi)
      ensures !ok ==> Breaks(recipe, t)
    {
      hide Ready;
      hide Inv;
      hide WillRun;
      var k := lo;
      ReadyInv(recipe, visiting, done, log, t, lo);
      while k < hi
        invariant lo <= k <= hi
        invariant Ready(recipe, visiting, done, log, t, k) && old(log) <= log
        invariant forall e :: e in log && e !in old(log) ==> e.t == t
        invariant Inv(recipe, visiting, done, log)
      {
        RanNext(recipe, visiting, done, log, t, k);
        log := log + [Ran(t, k)];
        if (t, k) in recipe.fails && recipe.targets[t].fatal[k] {
          assert Fatal(recipe, t, k);
          return false;
        }
        k := k + 1;
      }
      return true;
    }

    // run_target, with parallel_jobs at one; false for -1.
    method RunTarget(target: Option<nat>) returns (ok: bool)
      requires Inv(recipe, visiting, done, log)
      requires target.Some? ==> target.value < |recipe.targets|
      modifies this
      ensures Inv(recipe, visiting, done, log)
      ensures old(log) <= log && old(done) <= done && old(visiting) <= visiting
      ensures forall e :: e in log && e !in old(log) ==> e.t !in old(visiting)
      ensures target.None? ==> !ok && log == old(log)
      ensures target.Some? ==> (ok <==> !Blocked(recipe, target.value, old(visiting)))
      ensures target.Some? && target.value in old(visiting) ==> !ok && log == old(log)
      ensures ok ==> target.value in done && visiting == old(visiting)
      ensures !ok && target.Some? ==> target.value in visiting
      decreases Left(recipe, visiting, done), 0
    {
      hide *;
      if target.None? {
        return false;
      }
      var t := target.value;
      InvParts(recipe, visiting, done, log);
      if t in visiting {
        BlockedBySelf(recipe, t, visiting);
        return false;
      }
      if t in done {
        FreeWhenDone(recipe, visiting, done, log, t);
        return true;
      }
      var T := recipe.targets[t];
      if !T.when {
        Skipped(recipe, visiting, done, log, t);
        done := done + {t};
        log := log + [Done(t)];
        FreeWhenDone(recipe, visiting, done, log, t);
        return true;
      }
      Entered(recipe, visiting, done, log, t);
      LeftLess(recipe, visiting, done, t);
      visiting := visiting + {t};
      ok := RunDeps(t);
      if !ok {
        return;
      }
      ok := RunOwn(t);
      if !ok {
        BlockedBySelf(recipe, t, old(visiting));
        return;
      }
      visiting, done := visiting - {t}, done + {t};
      log := log + [Done(t)];
      FreeWhenDone(recipe, visiting, done, log, t);
    }

    // The serial part of run_target: the dependencies in turn, up to the first failure.
    method RunDeps(t: nat) returns (ok: bool)
      requires Waiting(recipe, visiting, done, log, t)
      requires WellFormed(recipe) && t < |recipe.targets| && recipe.targets[t].when
      modifies this
      ensures Inv(recipe, visiting, done, log)
      ensures old(log) <= log && old(done) <= done && old(visiting) <= visiting
      ensures forall e :: e in log && e !in old(log) ==> e.t !in old(visiting)
      ensures ok ==> visiting == old(visiting) && Ready(recipe, visiting, done, log, t, 0)
      ensures !ok ==> Blocked(recipe, t, old(visiting) - {t})
      decreases Left(recipe, visiting, done), 1
    {
      hide *;
      DepIs(recipe, t);
      WaitingParts(recipe, visiting, done, log, t);
      var us := Uniques(t);
      var i := 0;
      while i < |us|
        invariant 0 <= i <= |us|
        invariant Waiting(recipe, visiting, done, log, t) && Inv(recipe, visiting, done, log)
        invariant visiting == old(visiting) && old(done) <= done && old(log) <= log
        invariant forall e :: e in log && e !in old(log) ==> e.t !in old(visiting)
        invariant forall j :: 0 <= j < i ==> us[j] in done
      {
        ghost var done0, log0 := done, log;
        assert us[i] in us;
        LeftShrinks(recipe, visiting, old(done), done);
        var sub := RunTarget(Some(us[i]));
        if !sub {
          assert old(visiting) == old(visiting) - {t} + {t};
          BlockedUp(recipe, t, us[i], old(visiting) - {t});
          return false;
        }
        WaitingStays(recipe, visiting, done0, log0, t, done, log);
        i := i + 1;
      }
      NowReady(recipe, visiting, done, log, t);
      return true;
    }

    // The rest of run_target: what t itself does, once its dependencies are done.
    method RunOwn(t: nat) returns (ok: bool)
      requires t < |recipe.targets| && WellFormed(recipe) && recipe.targets[t].when
      requires Ready(recipe, visiting, done, log, t, 0)
      modifies `log
      ensures old(log) <= log
      ensures forall e :: e in log && e !in old(log) ==> e.t == t
      ensures Inv(recipe, visiting, done, log)
      ensures ok ==> Inv(recipe, visiting - {t}, done + {t}, log + [Done(t)])
      ensures !ok ==> Breaks(recipe, t)
    {
      hide *;
      WhatRuns(recipe, t);
      var T := recipe.targets[t];
      ReadyInv(recipe, visiting, done, log, t, 0);
      if !ArchPasses(recipe, t) {
        PassOver(recipe, visiting, done, log, t, 0, |T.fatal|);
        Finished(recipe, visiting, done, log, t);
        return true;
      }
      ok := RunCommands(t, 0, T.b0);
      if !ok {
        return;
      }
      var build := TargetOutOfDate(recipe, t);
      if build {
        ok := RunCommands(t, T.b0, T.b1);
        if !ok {
          return;
        }
      } else {
        PassOver(recipe, visiting, done, log, t, T.b0, T.b1);
      }
      ok := RunCommands(t, T.b1, |T.fatal|);
      if !ok {
        return;
      }
      Finished(recipe, visiting, done, log, t);
    }
  }

  // One phony target with one build command, which fails and is fatal.
  const FAILING: Recipe := Recipe(
    [Target(true, None, None, [], true, [], [], [true], 0, 1)], None, map[], {(0, 0)})

  lemma FailingBreaks()
    ensures WellFormed(FAILING) && Breaks(FAILING, 0)
  {
    assert OutOfDate(FAILING, 0);
    assert WillRun(FAILING, 0, 0) && Fatal(FAILING, 0, 0);
  }

  // A failed target stays marked: asked for again it fails without running anything.
  method FailsAgain() returns (first: bool, second: bool, log1: seq<Event>, log2: seq<Event>)
    ensures !first && !second && log2 == log1
  {
    hide *;
    FailingBreaks();
    var b := new Builder(FAILING);
    HasOne();
    BlockedBySelf(FAILING, 0, b.visiting);
    first := b.RunTarget(Some(0));
    log1 := b.log;
    second := b.RunTarget(Some(0));
    log2 := b.log;
  }

  lemma HasOne()
    ensures |FAILING.targets| == 1
  {
  }

  // ---- facts that unfold at once ----------------------------------------------------------

  lemma NewestOfNone(r: Recipe, t: nat)
    ensures Newest(r, t, {}, EPOCH)
  {
  }

  lemma Cycle(r: Recipe, t: nat, d: nat)
    requires DepOf(r, t, d) && Needs(r, d, t)
    ensures OnCycle(r, t)
  {
  }

  lemma WaitingParts(r: Recipe, visiting: set<nat>, done: set<nat>, log: seq<Event>, t: nat)
    requires Waiting(r, visiting, done, log, t)
    ensures Inv(r, visiting, done, log) && t in visiting
  {
  }

  lemma InvParts(r: Recipe, visiting: set<nat>, done: set<nat>, log: seq<Event>)
    requires Inv(r, visiting, done, log)
    ensures WellFormed(r) && visiting !! done
    ensures forall t :: t in done <==> Done(t) in log
    ensures forall t :: t in visiting || t in done ==> t < |r.targets|
  {
  }

  lemma ReadyInv(r: Recipe, visiting: set<nat>, done: set<nat>, log: seq<Event>, t: nat, k: nat)
    requires Ready(r, visiting, done, log, t, k)
    ensures Inv(r, visiting, done, log)
  {
  }

  lemma DepIs(r: Recipe, t: nat)
    requires WellFormed(r) && t < |r.targets| && r.targets[t].when
    ensures forall d: nat :: DepOf(r, t, d) <==> Known(d) in r.targets[t].deps
    ensures forall d: nat :: DepOf(r, t, d) ==> d < |r.targets|
  {
  }

  lemma LeftShrinks(r: Recipe, visiting: set<nat>, done: set<nat>, done': set<nat>)
    requires done <= done'
    ensures Left(r, visiting, done') <= Left(r, visiting, done)
  {
  }
}
