/** db/migrate.py: the runner. Every booting process applies, under one lock and in one transaction,
    the files of its own migrations directory that are not recorded yet. */
module Migrate {
  import opened Wrappers
  import opened MigrationFiles

  /** What running one file's SQL makes of a schema; None when it raises. */
  type Exec<!S> = (S, string) -> Option<S>

  function Replay<S>(exec: Exec<S>, schema: S, files: seq<File>): Option<S> {
    if files == [] then Some(schema)
    else match Replay(exec, schema, files[..|files| - 1])
      case None => None
      case Some(s) => exec(s, files[|files| - 1].text)
  }

  predicate IsRecorded(log: seq<File>, name: string) {
    exists f :: f in log && f.name == name
  }

  /** The files that no log entry names, in order. */
  function Missing(files: seq<File>, log: seq<File>): seq<File> {
    if files == [] then []
    else (if IsRecorded(log, files[0].name) then [] else [files[0]]) + Missing(files[1..], log)
  }

  function Names(files: seq<File>): seq<string> {
    seq(|files|, i requires 0 <= i < |files| => files[i].name)
  }

  predicate DistinctNames(files: seq<File>) {
    forall i, j | 0 <= i < j < |files| :: files[i].name != files[j].name
  }

  lemma {:induction false} ReplayConcat<S>(exec: Exec<S>, schema: S, a: seq<File>, b: seq<File>)
    requires Replay(exec, schema, a).Some?
    ensures Replay(exec, schema, a + b) == Replay(exec, Replay(exec, schema, a).value, b)
  {
    if b == [] {
      assert a + b == a;
    } else {
      assert (a + b)[..|a + b| - 1] == a + b[..|b| - 1];
      ReplayConcat(exec, schema, a, b[..|b| - 1]);
    }
  }

  lemma ReplayOne<S>(exec: Exec<S>, schema: S, files: seq<File>, f: File)
    requires Replay(exec, schema, files).Some?
    ensures Replay(exec, schema, files + [f]) == exec(Replay(exec, schema, files).value, f.text)
  {
    assert (files + [f])[..|files|] == files;
  }

  lemma {:induction false} ReplayStops<S>(exec: Exec<S>, schema: S, a: seq<File>, b: seq<File>)
    requires Replay(exec, schema, a).None?
    ensures Replay(exec, schema, a + b).None?
  {
    if b == [] {
      assert a + b == a;
    } else {
      assert (a + b)[..|a + b| - 1] == a + b[..|b| - 1];
      ReplayStops(exec, schema, a, b[..|b| - 1]);
    }
  }

  lemma MissingStep(files: seq<File>, log: seq<File>, i: nat)
    requires i < |files|
    ensures Missing(files[i..], log) ==
            (if IsRecorded(log, files[i].name) then [] else [files[i]]) + Missing(files[i + 1..], log)
  {
    assert files[i..][1..] == files[i + 1..];
  }

  lemma MissingNone(log: seq<File>)
    ensures Missing([], log) == []
  {
  }

  lemma ReplayNone<S>(exec: Exec<S>, schema: S)
    ensures Replay(exec, schema, []) == Some(schema)
  {
  }

  /** Missing holds exactly the unrecorded files. */
  lemma {:induction false} MissingHas(files: seq<File>, log: seq<File>)
    ensures forall f :: f in Missing(files, log) <==> f in files && !IsRecorded(log, f.name)
  {
    hide IsRecorded;
    if files != [] {
      MissingHas(files[1..], log);
      assert files == [files[0]] + files[1..];
    }
  }

  /** Each as often as it stands, and in that order. */
  lemma {:induction false} MissingKeepsDistinct(files: seq<File>, log: seq<File>)
    requires DistinctNames(files)
    ensures DistinctNames(Missing(files, log))
  {
    hide IsRecorded;
    if files != [] {
      var rest, missing := files[1..], Missing(files[1..], log);
      MissingKeepsDistinct(rest, log);
      MissingHas(rest, log);
      forall i | 0 <= i < |missing| ensures missing[i].name != files[0].name {
        assert missing[i] in rest;
      }
    }
  }

  lemma {:induction false} MissingKeepsOrder(files: seq<File>, log: seq<File>)
    requires Ascending(files)
    ensures Ascending(Missing(files, log))
  {
    hide IsRecorded, Number;
    if files != [] {
      var rest, missing := files[1..], Missing(files[1..], log);
      MissingKeepsOrder(rest, log);
      MissingHas(rest, log);
      forall i | 0 <= i < |missing| ensures Number(files[0]) <= Number(missing[i]) {
        assert missing[i] in rest;
      }
    }
  }

  // ---- one batch ----

  /** What is committed: the schema, and the recorded files in order, with the text that was run. */
  datatype Committed<S> = Committed(schema: S, log: seq<File>)

  /** A whole boot as one step; what it commits, or None if it raises. */
  function Batch<S>(exec: Exec<S>, schema: S, log: seq<File>, listing: seq<File>): Option<Committed<S>> {
    match Discovered(listing)
    case Err(_) => None
    case Ok(files) =>
      match Replay(exec, schema, Missing(files, log))
      case None => None
      case Some(s) => Some(Committed(s, log + Missing(files, log)))
  }

  datatype MigrationError = BadName(name: string) | FailedOn(name: string)

  class Database<S> {
    var schema: S
    var recorded: seq<File>

    constructor (schema: S)
      ensures this.schema == schema && recorded == []
    {
      this.schema, this.recorded := schema, [];
    }

    /** All or nothing: either every missing file has run, in ascending number, and is recorded, or
        schema and record are as they were. */
    method RunPendingMigrations(listing: seq<File>, exec: Exec<S>) returns (r: Result<seq<string>, MigrationError>)
      requires DistinctNames(listing)
      modifies this
      ensures match Batch(exec, old(schema), old(recorded), listing)
              case Some(Committed(s, log)) =>
                && schema == s && recorded == log && |old(recorded)| <= |recorded|
                && r == Ok(Names(recorded[|old(recorded)|..]))
              case None => r.Err? && schema == old(schema) && recorded == old(recorded)
      ensures r.Err? && r.error.BadName? <==> Discovered(listing).Err?
    {
      hide Missing, Replay, Discovered, Numbered, Ascending, DistinctNames, IsRecorded;
      var schema', recorded' := schema, recorded;
      var discovered := DiscoverMigrations(listing);
      if discovered.Err? {
        return Err(BadName(discovered.error));
      }
      var files := discovered.value;
      var newlyApplied: seq<File> := [];
      ReplayNone(exec, schema);
      assert files[0..] == files;
      for i := 0 to |files|
        invariant Missing(files, recorded') == newlyApplied + Missing(files[i..], recorded')
        invariant Replay(exec, schema', newlyApplied) == Some(schema)
        invariant recorded == recorded' + newlyApplied
        invariant recorded' == old(recorded) && schema' == old(schema)
      {
        var file := files[i];
        MissingStep(files, recorded', i);
        if !IsRecorded(recorded', file.name) {
          ReplayOne(exec, schema', newlyApplied, file);
          ghost var rest := Missing(files[i + 1..], recorded');
          assert newlyApplied + ([file] + rest) == newlyApplied + [file] + rest;
          var next := exec(schema, file.text);
          if next.None? {
            ReplayStops(exec, schema', newlyApplied + [file], rest);
            schema, recorded := schema', recorded';
            return Err(FailedOn(file.name));
          }
          schema, recorded := next.value, recorded + [file];
          newlyApplied := newlyApplied + [file];
        }
      }
      MissingNone(recorded');
      assert files[|files|..] == [];
      assert Missing(files, recorded') == newlyApplied;
      assert recorded[|recorded'|..] == newlyApplied;
      return Ok(Names(newlyApplied));
    }
  }

  // ---- booting processes ----

  type Pid = nat

  /** A process between its transactions, in line for the lock, holding it, or part way through its
      files on a schema that nobody else sees. */
  datatype Phase<S> =
    | Idle
    | Waiting(listing: seq<File>)
    | Holding(listing: seq<File>)
    | Running(listing: seq<File>, todo: seq<File>, done: seq<File>, working: S)

  /** What is committed, who holds the lock, and where each process stands. */
  datatype State<S> = State(schema: S, log: seq<File>, holder: Option<Pid>, phases: map<Pid, Phase<S>>)

  /** Rollback is a statement that raises, a name that breaks the convention, a crash or a lost
      connection: at any moment, and it lets go of the lock. */
  datatype Event =
    | Begin(pid: Pid, listing: seq<File>)
    | AcquireLock(pid: Pid)
    | ReadApplied(pid: Pid)
    | ApplyNext(pid: Pid)
    | Commit(pid: Pid)
    | Rollback(pid: Pid)

  function PhaseOf<S>(s: State<S>, pid: Pid): Phase<S> {
    if pid in s.phases then s.phases[pid] else Idle
  }

  predicate Enabled<S>(exec: Exec<S>, s: State<S>, e: Event) {
    var phase := PhaseOf(s, e.pid);
    match e
    case Begin(_, listing) => phase.Idle? && DistinctNames(listing)
    case AcquireLock(_) => phase.Waiting? && s.holder.None?
    case ReadApplied(_) => phase.Holding? && Discovered(phase.listing).Ok?
    case ApplyNext(_) => phase.Running? && phase.todo != [] && exec(phase.working, phase.todo[0].text).Some?
    case Commit(_) => phase.Running? && phase.todo == []
    case Rollback(_) => !phase.Idle?
  }

  function Apply<S>(exec: Exec<S>, s: State<S>, e: Event): State<S>
    requires Enabled(exec, s, e)
  {
    var phase := PhaseOf(s, e.pid);
    match e
    case Begin(pid, listing) => s.(phases := s.phases[pid := Waiting(listing)])
    case AcquireLock(pid) => s.(phases := s.phases[pid := Holding(phase.listing)], holder := Some(pid))
    case ReadApplied(pid) =>
      var todo := Missing(Discovered(phase.listing).value, s.log);
      s.(phases := s.phases[pid := Running(phase.listing, todo, [], s.schema)])
    case ApplyNext(pid) =>
      s.(phases := s.phases[pid := Running(phase.listing, phase.todo[1..], phase.done + [phase.todo[0]],
                                           exec(phase.working, phase.todo[0].text).value)])
    case Commit(pid) => State(phase.working, s.log + phase.done, None, s.phases[pid := Idle])
    case Rollback(pid) =>
      s.(phases := s.phases[pid := Idle], holder := if s.holder == Some(pid) then None else s.holder)
  }

  ghost predicate IsRun<S>(exec: Exec<S>, s: State<S>, events: seq<Event>)
    decreases |events|
  {
    events == [] || (Enabled(exec, s, events[0]) && IsRun(exec, Apply(exec, s, events[0]), events[1..]))
  }

  ghost function After<S>(exec: Exec<S>, s: State<S>, events: seq<Event>): State<S>
    requires IsRun(exec, s, events)
    decreases |events|
  {
    if events == [] then s else After(exec, Apply(exec, s, events[0]), events[1..])
  }

  // ---- what every step keeps ----

  /** Only the holder of the lock is past it, and its private schema is the committed one with the
      files it has done. */
  ghost predicate Valid<S>(exec: Exec<S>, s: State<S>) {
    && (s.holder.Some? ==> s.holder.value in s.phases)
    && forall pid | pid in s.phases ::
      match s.phases[pid]
      case Idle => s.holder != Some(pid)
      case Waiting(listing) => s.holder != Some(pid) && DistinctNames(listing)
      case Holding(listing) => s.holder == Some(pid) && DistinctNames(listing)
      case Running(listing, todo, done, working) =>
        && s.holder == Some(pid) && DistinctNames(listing)
        && Discovered(listing).Ok? && done + todo == Missing(Discovered(listing).value, s.log)
        && Replay(exec, s.schema, done) == Some(working)
  }

  lemma StepKeepsValid<S>(exec: Exec<S>, s: State<S>, e: Event)
    requires Valid(exec, s) && Enabled(exec, s, e)
    ensures Valid(exec, Apply(exec, s, e))
  {
    hide Missing, Discovered, DistinctNames;
    if e.ApplyNext? {
      var phase := s.phases[e.pid];
      ReplayOne(exec, s.schema, phase.done, phase.todo[0]);
      assert phase.done + phase.todo == phase.done + [phase.todo[0]] + phase.todo[1..];
    } else if e.ReadApplied? {
      ReplayNone(exec, s.schema);
      var missing := Missing(Discovered(s.phases[e.pid].listing).value, s.log);
      assert [] + missing == missing;
    }
  }

  /** A commit is that process's whole batch on what was committed before; no other step changes what
      is committed. */
  lemma OnlyCommitsChange<S>(exec: Exec<S>, s: State<S>, e: Event)
    requires Valid(exec, s) && Enabled(exec, s, e)
    ensures var next := Apply(exec, s, e);
            if e.Commit? then
              Batch(exec, s.schema, s.log, s.phases[e.pid].listing) == Some(Committed(next.schema, next.log))
            else next.schema == s.schema && next.log == s.log
  {
    if e.Commit? {
      var phase := s.phases[e.pid];
      assert PhaseOf(s, e.pid) == phase && phase.todo == [];
      assert phase.done + phase.todo == phase.done;
      assert phase.done == Missing(Discovered(phase.listing).value, s.log);
    }
  }

  /** The listings of the processes that commit, in the order in which they do. */
  ghost function Commits<S>(exec: Exec<S>, s: State<S>, events: seq<Event>): seq<seq<File>>
    requires IsRun(exec, s, events)
    decreases |events|
  {
    if events == [] then []
    else
      (if events[0].Commit? then [PhaseOf(s, events[0].pid).listing] else []) +
      Commits(exec, Apply(exec, s, events[0]), events[1..])
  }

  function Serial<S>(exec: Exec<S>, schema: S, log: seq<File>, listings: seq<seq<File>>): Option<Committed<S>>
    decreases |listings|
  {
    if listings == [] then Some(Committed(schema, log))
    else match Batch(exec, schema, log, listings[0])
      case None => None
      case Some(Committed(s, l)) => Serial(exec, s, l, listings[1..])
  }

  /** Whatever the interleaving, the failures and the crashes, what is committed is what the boots
      that commit, run whole and one after the other in commit order, make of it. */
  lemma {:induction false} RunIsSerial<S>(exec: Exec<S>, s: State<S>, events: seq<Event>)
    requires IsRun(exec, s, events) && Valid(exec, s)
    ensures Serial(exec, s.schema, s.log, Commits(exec, s, events))
            == Some(Committed(After(exec, s, events).schema, After(exec, s, events).log))
    decreases |events|
  {
    if events != [] {
      hide Batch, Valid, Enabled;
      var e, next := events[0], Apply(exec, s, events[0]);
      StepKeepsValid(exec, s, e);
      OnlyCommitsChange(exec, s, e);
      RunIsSerial(exec, next, events[1..]);
      var rest := Commits(exec, next, events[1..]);
      if e.Commit? {
        assert Commits(exec, s, events) == [s.phases[e.pid].listing] + rest;
        assert Commits(exec, s, events)[1..] == rest;
      } else {
        assert Commits(exec, s, events) == rest;
      }
    }
  }

  // ---- what a committed state is ----

  ghost predicate Consistent<S>(exec: Exec<S>, initial: S, schema: S, log: seq<File>) {
    Replay(exec, initial, log) == Some(schema) && DistinctNames(log)
  }

  lemma BatchKeepsConsistent<S>(exec: Exec<S>, initial: S, schema: S, log: seq<File>, listing: seq<File>)
    requires Consistent(exec, initial, schema, log) && DistinctNames(listing)
    requires Batch(exec, schema, log, listing).Some?
    ensures var Committed(s, l) := Batch(exec, schema, log, listing).value;
            && Consistent(exec, initial, s, l)
            && |log| <= |l| && l[..|log|] == log
            && (forall f :: f in l[|log|..] <==> f in listing && !IsRecorded(log, f.name))
            && Ascending(l[|log|..])
            && forall f | f in listing :: IsRecorded(l, f.name)
  {
    var files := Discovered(listing).value;
    DiscoveryOrders(listing);
    var added := Missing(files, log);
    SortedNames(listing);
    MissingHas(files, log);
    MissingKeepsDistinct(files, log);
    MissingKeepsOrder(files, log);
    SameFiles(files, listing);
    ReplayConcat(exec, initial, log, added);
    hide Missing, Discovered, Replay, Ascending;
    assert (log + added)[|log|..] == added;
    forall i, j | 0 <= i < j < |log + added| ensures (log + added)[i].name != (log + added)[j].name {
      if i < |log| <= j {
        assert log[i] in log && added[j - |log|] in added;
      }
    }
    forall f | f in listing ensures IsRecorded(log + added, f.name) {
      if IsRecorded(log, f.name) {
        var g :| g in log && g.name == f.name;
        assert g in log + added;
      } else {
        assert f in log + added;
      }
    }
  }

  lemma {:induction false} InsertedNames(s: seq<File>, x: File)
    requires DistinctNames(s + [x])
    ensures DistinctNames(Insert(s, x)) && forall f :: f in Insert(s, x) <==> f in s + [x]
  {
    hide Number;
    if s != [] && Number(s[|s| - 1]) > Number(x) {
      var front, last := s[..|s| - 1], s[|s| - 1];
      assert s == front + [last];
      forall i | 0 <= i < |front| ensures front[i].name != x.name && front[i].name != last.name && last.name != x.name {
        assert (s + [x])[i] == front[i] && (s + [x])[|s| - 1] == last && (s + [x])[|s|] == x;
      }
      assert (s + [x])[|s| - 1] == last && (s + [x])[|s|] == x;
      forall i, j | 0 <= i < j < |front| ensures front[i].name != front[j].name {
        assert (s + [x])[i] == front[i] && (s + [x])[j] == front[j];
      }
      InsertedNames(front, x);
      assert forall i | 0 <= i < |Insert(front, x)| :: Insert(front, x)[i] in front + [x];
    }
  }

  lemma {:induction false} SortedNamesOf(s: seq<File>)
    requires DistinctNames(s)
    ensures DistinctNames(SortByNumber(s)) && forall f :: f in SortByNumber(s) <==> f in s
  {
    hide Insert;
    if s != [] {
      var front, last := s[..|s| - 1], s[|s| - 1];
      assert s == front + [last];
      SortedNamesOf(front);
      var sorted := SortByNumber(front);
      assert forall i | 0 <= i < |sorted| :: sorted[i] in front;
      InsertedNames(sorted, last);
    }
  }

  lemma SortedNames(listing: seq<File>)
    requires DistinctNames(listing) && Discovered(listing).Ok?
    ensures DistinctNames(Discovered(listing).value)
  {
    SortedNamesOf(listing);
  }

  /** In every state the processes reach, the committed schema is the recorded files run in record
      order, and no file is recorded twice. */
  lemma {:induction false} EveryCommittedState<S>(exec: Exec<S>, initial: S, s: State<S>, events: seq<Event>)
    requires IsRun(exec, s, events) && Valid(exec, s) && Consistent(exec, initial, s.schema, s.log)
    ensures Consistent(exec, initial, After(exec, s, events).schema, After(exec, s, events).log)
    decreases |events|
  {
    if events != [] {
      hide Batch, Consistent;
      var e := events[0];
      StepKeepsValid(exec, s, e);
      OnlyCommitsChange(exec, s, e);
      if e.Commit? {
        BatchKeepsConsistent(exec, initial, s.schema, s.log, s.phases[e.pid].listing);
      }
      EveryCommittedState(exec, initial, Apply(exec, s, e), events[1..]);
    }
  }

  /** From an empty database, over every interleaving. */
  lemma SchemaIsItsRecord<S>(exec: Exec<S>, initial: S, events: seq<Event>)
    requires IsRun(exec, State(initial, [], None, map[]), events)
    ensures var s := After(exec, State(initial, [], None, map[]), events);
            Replay(exec, initial, s.log) == Some(s.schema) && DistinctNames(s.log)
  {
    EveryCommittedState(exec, initial, State(initial, [], None, map[]), events);
  }

  lemma {:induction false} RunKeepsValid<S>(exec: Exec<S>, s: State<S>, events: seq<Event>)
    requires IsRun(exec, s, events) && Valid(exec, s)
    ensures Valid(exec, After(exec, s, events))
    decreases |events|
  {
    if events != [] {
      hide Valid, Enabled, Apply;
      StepKeepsValid(exec, s, events[0]);
      RunKeepsValid(exec, Apply(exec, s, events[0]), events[1..]);
    }
  }

  /** In every state the processes reach: a commit adds exactly the files of that process that were
      missing, in ascending number, behind what was recorded; any other step, a rollback among them,
      adds nothing. */
  lemma CommitAddsMissing<S>(exec: Exec<S>, initial: S, events: seq<Event>, e: Event)
    requires IsRun(exec, State(initial, [], None, map[]), events)
    requires Enabled(exec, After(exec, State(initial, [], None, map[]), events), e)
    ensures var s := After(exec, State(initial, [], None, map[]), events);
            var next := Apply(exec, s, e);
            if e.Commit? then
              && |s.log| <= |next.log| && next.log[..|s.log|] == s.log
              && (forall f :: f in next.log[|s.log|..] <==>
                 f in PhaseOf(s, e.pid).listing && !IsRecorded(s.log, f.name))
              && Ascending(next.log[|s.log|..]) && DistinctNames(next.log)
            else next.schema == s.schema && next.log == s.log
  {
    var first := State(initial, [], None, map[]);
    assert Valid(exec, first) && Consistent(exec, initial, first.schema, first.log);
    RunKeepsValid(exec, first, events);
    EveryCommittedState(exec, initial, first, events);
    StepAddsMissing(exec, initial, After(exec, first, events), e);
  }

  lemma StepAddsMissing<S>(exec: Exec<S>, initial: S, s: State<S>, e: Event)
    requires Valid(exec, s) && Enabled(exec, s, e) && Consistent(exec, initial, s.schema, s.log)
    ensures var next := Apply(exec, s, e);
            if e.Commit? then
              && |s.log| <= |next.log| && next.log[..|s.log|] == s.log
              && (forall f :: f in next.log[|s.log|..] <==>
                 f in PhaseOf(s, e.pid).listing && !IsRecorded(s.log, f.name))
              && Ascending(next.log[|s.log|..]) && DistinctNames(next.log)
            else next.schema == s.schema && next.log == s.log
  {
    OnlyCommitsChange(exec, s, e);
    if e.Commit? {
      BatchKeepsConsistent(exec, initial, s.schema, s.log, s.phases[e.pid].listing);
    }
  }

  lemma {:induction false} NoneMissing(files: seq<File>, log: seq<File>)
    requires forall f | f in files :: IsRecorded(log, f.name)
    ensures Missing(files, log) == []
  {
    if files != [] {
      assert files == [files[0]] + files[1..];
      NoneMissing(files[1..], log);
    }
  }

  /** Booting again on the same files changes nothing. */
  lemma SecondBootAppliesNothing<S>(exec: Exec<S>, initial: S, schema: S, log: seq<File>, listing: seq<File>)
    requires Consistent(exec, initial, schema, log) && DistinctNames(listing)
    requires Batch(exec, schema, log, listing).Some?
    ensures var Committed(s, l) := Batch(exec, schema, log, listing).value;
            Batch(exec, s, l, listing) == Some(Committed(s, l))
  {
    BatchKeepsConsistent(exec, initial, schema, log, listing);
    DiscoveryOrders(listing);
    var files, after := Discovered(listing).value, Batch(exec, schema, log, listing).value;
    SameFiles(files, listing);
    NoneMissing(files, after.log);
    assert after.log + [] == after.log;
  }
}
