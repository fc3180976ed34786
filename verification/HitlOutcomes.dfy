/** How the runs of the approval protocol end: what the status of an incident says of its run. */
module HitlOutcomes {
  import opened Wrappers
  import opened Incidents
  import opened HitlRuns

  // ---- the last word ----

  /** The row that a step writes a status to, and which, read off the step and where its invocation is. */
  function Said(s: State, e: Event): Option<(Id, Status)>
    requires Enabled(s, e)
  {
    match e
    case Insert(i, _, _, _) =>
      if s.runs[i].at.incident in s.db.incidents then None else Some((s.runs[i].at.incident, Pending))
    case InsertFailed(_, newId) => Some((newId, Failed))
    case Approve(id, choice) => Some((id, if choice == Hold then Held else Executing))
    case Finish(i) => Some((s.runs[i].at.incident, if s.runs[i].at.held then Held else Executed))
    case RaiseInResume(i) => Some((s.runs[i].thread, Failed))
    case Close(id, status) => Some((id, status))
    case _ => None
  }

  /** What the last step of the run that says anything of this row says. */
  ghost function LastSaid(s: State, events: seq<Event>, id: Id, status: Option<Status>): Option<Status>
    requires IsRun(s, events)
    decreases |events|
  {
    if events == [] then status
    else
      var said := Said(s, events[0]);
      LastSaid(Apply(s, events[0]), events[1..], id,
               if said.Some? && said.value.0 == id && (status.Some? || events[0].Insert? || events[0].InsertFailed?)
               then Some(said.value.1) else status)
  }

  function StatusOf(s: State, id: Id): Option<Status> {
    if id in s.db.incidents then Some(s.db.incidents[id].status) else None
  }

  lemma StepSays(s: State, e: Event, id: Id)
    requires Enabled(s, e)
    ensures var said := Said(s, e);
            StatusOf(Apply(s, e), id) ==
            if said.Some? && said.value.0 == id && (StatusOf(s, id).Some? || e.Insert? || e.InsertFailed?)
            then Some(said.value.1) else StatusOf(s, id)
  {
    hide Checked, Loaded;
  }

  /** Over every run: an incident has the status that the last step to say anything of it says: pending
      or failed when it is inserted; held or executing when it is approved; executed or held, as the tools
      report, when a run of it finishes; failed when a resume of it raises; what a close names. */
  lemma {:induction false} LastWordStands(s: State, events: seq<Event>, id: Id)
    requires IsRun(s, events)
    ensures StatusOf(After(s, events), id) == LastSaid(s, events, id, StatusOf(s, id))
    decreases |events|
  {
    if events != [] {
      hide Enabled, Apply, Said, StatusOf;
      StepSays(s, events[0], id);
      LastWordStands(Apply(s, events[0]), events[1..], id);
    }
  }

  // ---- an approved run ----

  /** Nobody closes the incident, and no resume of it raises. */
  ghost predicate Undisturbed(s: State, events: seq<Event>, t: Id)
    requires IsRun(s, events)
    decreases |events|
  {
    events == [] || (CalmStep(s, events[0], t) && Undisturbed(Apply(s, events[0]), events[1..], t))
  }

  predicate CalmStep(s: State, e: Event, t: Id)
    requires Enabled(s, e)
  {
    && !(e.Close? && e.id == t)
    && !(e.RaiseInResume? && s.runs[e.i].thread == t)
  }

  /** The incident is approved at most once. */
  predicate ApprovedOnce(s: State, t: Id) {
    forall j, k | 0 <= j < k < |s.approved| :: !(s.approved[j].0 == t && s.approved[k].0 == t)
  }

  predicate Unapproved(s: State, t: Id) {
    forall k | 0 <= k < |s.approved| :: s.approved[k].0 != t
  }

  /** The status of a sound run's incident, told from its approval and its checkpoint. */
  function ToldStatus(s: State, t: Id, choice: Choice): Status
    requires t in s.threads
  {
    if s.threads[t].next == End then (if s.threads[t].held then Held else Executed)
    else if choice == Hold then Held else Executing
  }

  ghost predicate Told(s: State, t: Id) {
    && (t in s.db.incidents && t in s.threads && Unapproved(s, t) ==> s.db.incidents[t].status == Pending)
    && (forall k | 0 <= k < |s.approved| && s.approved[k].0 == t ::
          t in s.db.incidents && t in s.threads && s.db.incidents[t].status == ToldStatus(s, t, s.approved[k].1))
  }

  /** The one resume of the thread stands where the checkpoint says. */
  ghost predicate InStepWith(s: State, t: Id) {
    forall i | 0 <= i < |s.runs| && s.runs[i].thread == t && s.runs[i].resumed.Some? ::
      && t in s.threads && s.threads[t].next == s.runs[i].at.next
      && (s.runs[i].at.next in {Complete, End} ==> s.threads[t].held == s.runs[i].at.held)
  }

  lemma OneResume(s: State, t: Id, i: nat, j: nat)
    requires RunsOk(s) && PairsOk(s) && ApprovedOnce(s, t) && i < |s.runs| && j < |s.runs|
    requires s.runs[i].thread == s.runs[j].thread == t && s.runs[i].resumed.Some? && s.runs[j].resumed.Some?
    ensures i == j
  {
    assert RunOk(s, s.runs[i]) && RunOk(s, s.runs[j]);
    var a, b := if i < j then i else j, if i < j then j else i;
    hide RunsOk, PairsOk, FailingOk, SoundOk;
  }

  /** Whoever saves a checkpoint of a resumed thread is its resume. */
  lemma SaverIsResume(s: State, e: Event, i: nat)
    requires Enabled(s, e) && Saves(e) && RunsOk(s) && i < |s.runs| && s.runs[i].thread == s.runs[e.i].thread
    requires s.runs[i].resumed.Some? && s.runs[e.i].resumed.None?
    ensures Apply(s, e).threads == s.threads && e.Interrupt?
  {
    assert RunOk(s, s.runs[i]) && RunOk(s, s.runs[e.i]);
    hide RunsOk, IsApproved, Checked, Loaded;
  }

  lemma SavedStands(s: State, e: Event)
    requires Enabled(s, e) && Saves(e)
    ensures var n, t := Apply(s, e), s.runs[e.i].thread;
            && e.i < |n.runs| && n.runs[e.i].thread == t && n.runs[e.i].resumed == s.runs[e.i].resumed
            && (s.runs[e.i].resumed.Some? ==> t in n.threads && n.threads[t] == n.runs[e.i].at)
            && (forall j | 0 <= j < |s.runs| && j != e.i :: j < |n.runs| && n.runs[j] == s.runs[j])
            && |n.runs| == |s.runs|
            && n.approved == s.approved
            && (forall u | u in s.threads && u != t :: u in n.threads && n.threads[u] == s.threads[u])
  {
    hide Checked, Loaded;
  }

  lemma SaveKeepsInStepWith(s: State, e: Event, t: Id)
    requires Enabled(s, e) && Saves(e) && RunsOk(s) && PairsOk(s) && ApprovedOnce(s, t) && InStepWith(s, t)
    ensures InStepWith(Apply(s, e), t)
  {
    hide Enabled, Apply, RunsOk, PairsOk, ApprovedOnce;
    SavedStands(s, e);
    var n := Apply(s, e);
    forall i | 0 <= i < |n.runs| && n.runs[i].thread == t && n.runs[i].resumed.Some?
      ensures t in n.threads && n.threads[t].next == n.runs[i].at.next
      ensures n.runs[i].at.next in {Complete, End} ==> n.threads[t].held == n.runs[i].at.held
    {
      if i != e.i && s.runs[e.i].thread == t {
        if s.runs[e.i].resumed.Some? {
          OneResume(s, t, i, e.i);
        } else {
          SaverIsResume(s, e, i);
        }
      }
    }
  }

  /** The other steps leave checkpoints alone but for new threads, and an invocation's place but for what
      it learns from the tools. */
  lemma OthersStand(s: State, e: Event)
    requires Enabled(s, e) && !Saves(e) && !e.Resume?
    ensures var n := Apply(s, e);
            && (forall u | u in s.threads :: u in n.threads && n.threads[u] == s.threads[u])
            && |s.runs| <= |n.runs| && s.approved <= n.approved
            && (forall j | 0 <= j < |s.runs| ::
                  && n.runs[j].thread == s.runs[j].thread && n.runs[j].resumed == s.runs[j].resumed
                  && n.runs[j].at.next == s.runs[j].at.next
                  && (n.runs[j].at.next in {Complete, End} ==> n.runs[j].at.held == s.runs[j].at.held))
            && forall j | |s.runs| <= j < |n.runs| :: n.runs[j].resumed.None?
  {
    hide Checked, Loaded;
  }

  lemma ResumeStands(s: State, e: Event, t: Id)
    requires Enabled(s, e) && e.Resume? && Valid(s) && ApprovedOnce(s, t) && InStepWith(s, t)
    ensures InStepWith(Apply(s, e), t)
  {
    CheckpointIsThere(s, e.k);
    forall i | 0 <= i < |s.runs| && s.runs[i].thread == t && s.runs[i].resumed.Some? ensures s.approved[e.k].0 != t {
      assert RunOk(s, s.runs[i]);
    }
    hide Valid, ThreadsOk, RowsOk, RunsOk, PairsOk, NoticesOk, UsageOk, ApprovalsOk, Checked;
  }

  lemma StepKeepsInStepWith(s: State, e: Event, t: Id)
    requires Enabled(s, e) && Valid(s) && ApprovedOnce(s, t) && InStepWith(s, t)
    ensures InStepWith(Apply(s, e), t)
  {
    hide Enabled, Apply, ApprovedOnce;
    if Saves(e) {
      SaveKeepsInStepWith(s, e, t);
    } else if e.Resume? {
      ResumeStands(s, e, t);
    } else {
      OthersStand(s, e);
    }
    hide Valid;
  }

  /** Of an incident under a thread's id, besides what is ruled out, an approval and the last step of a
      resume of that thread say something. */
  lemma WhoSpeaks(s: State, e: Event, t: Id)
    requires Enabled(s, e) && Valid(s) && CalmStep(s, e, t) && t in s.threads && t in s.db.incidents
    requires Said(s, e).Some? && Said(s, e).value.0 == t
    ensures || (e.Approve? && e.id == t)
            || (e.Finish? && s.runs[e.i].thread == t && s.runs[e.i].resumed.Some? && s.runs[e.i].at.incident == t)
  {
    assert RowOk(s, t);
    if e.Finish? {
      assert RunOk(s, s.runs[e.i]);
    }
    hide RunsOk, RowsOk, PairsOk, ThreadsOk, UsageOk, NoticesOk, ApprovalsOk, IsApproved, Checked, Loaded;
  }

  /** A checkpoint of a thread past a diagnosis that succeeded changes only when a resume saves it. */
  lemma SaverOfSound(s: State, e: Event, t: Id)
    requires Enabled(s, e) && RunsOk(s) && Saves(e) && Sound(s, t) && s.runs[e.i].thread == t
    ensures s.runs[e.i].resumed.Some? || Apply(s, e).threads == s.threads
  {
    assert RunOk(s, s.runs[e.i]);
    hide RunsOk, IsApproved, Checked, Loaded;
  }

  lemma ApprovedIsSound(s: State, t: Id, k: nat)
    requires ApprovalsOk(s) && k < |s.approved| && s.approved[k].0 == t
    ensures Sound(s, t) && t in s.db.incidents
  {
    assert s.approved[k] in s.approved;
  }

  /** Where a sound thread is past the gate, it was approved. */
  lemma PastGateIsApproved(s: State, t: Id)
    requires ThreadsOk(s) && Sound(s, t) && Unapproved(s, t)
    ensures !PastGate(s.threads[t].next)
  {
    assert ThreadOk(s, t);
  }

  lemma ApproveTells(s: State, e: Event, t: Id)
    requires Enabled(s, e) && e.Approve? && e.id == t && Valid(s) && ApprovedOnce(Apply(s, e), t)
    ensures Told(Apply(s, e), t)
  {
    var n := Apply(s, e);
    assert n.approved == s.approved + [(t, e.choice)] && n.threads == s.threads;
    assert (t, e.choice) in s.checked;
    forall k | 0 <= k < |s.approved| ensures s.approved[k].0 != t {
      assert n.approved[k] == s.approved[k] && n.approved[|s.approved|].0 == t;
    }
    PastGateIsApproved(s, t);
    assert Sound(s, (t, e.choice).0) && t in s.db.incidents;
    assert n.db.incidents[t].status == StatusAfter(e.choice) && s.threads[t].next != End;
    assert n.approved[|s.approved|] == (t, e.choice);
    hide ThreadsOk, RowsOk, RunsOk, PairsOk, NoticesOk, UsageOk, Checked, Loaded, Enabled, Apply;
  }

  lemma FinishSets(s: State, e: Event, t: Id)
    requires Enabled(s, e) && e.Finish? && s.runs[e.i].thread == t && s.runs[e.i].at.incident == t
    requires t in s.db.incidents && t in s.threads
    ensures var n := Apply(s, e);
            && t in n.threads && n.threads[t].next == End && n.threads[t].held == s.runs[e.i].at.held
            && t in n.db.incidents && n.db.incidents[t].status == (if s.runs[e.i].at.held then Held else Executed)
            && n.approved == s.approved
  {
  }

  lemma FinishTells(s: State, e: Event, t: Id)
    requires Enabled(s, e) && e.Finish? && s.runs[e.i].thread == t && s.runs[e.i].at.incident == t
    requires t in s.db.incidents && t in s.threads && RunsOk(s) && s.runs[e.i].resumed.Some?
    ensures Told(Apply(s, e), t)
  {
    FinishSets(s, e, t);
    assert RunOk(s, s.runs[e.i]);
    assert s.approved[s.runs[e.i].resumed.value.approval].0 == t;
    hide Enabled, Apply, RunsOk, FailingOk, SoundOk;
  }

  /** An id that is no thread's stays without approval. */
  lemma ForeignTells(s: State, e: Event, t: Id)
    requires Enabled(s, e) && Valid(s) && t in s.db.incidents && t !in s.threads
    ensures Told(Apply(s, e), t)
  {
    var n := Apply(s, e);
    NoThreadOfItsId(s, e, t);
    StepKeepsApprovals(s, e);
    if k :| 0 <= k < |n.approved| && n.approved[k].0 == t {
      ApprovedIsSound(n, t, k);
    }
    hide Valid, Enabled, Apply;
  }

  lemma ApprovalStays(s: State, e: Event)
    requires Enabled(s, e)
    ensures |s.approved| <= |Apply(s, e).approved|
    ensures forall k | 0 <= k < |s.approved| :: Apply(s, e).approved[k] == s.approved[k]
  {
    hide Checked, Loaded;
  }

  lemma NewApprovals(s: State, e: Event, t: Id)
    requires Enabled(s, e) && !(Said(s, e).Some? && Said(s, e).value.0 == t)
    ensures forall k | |s.approved| <= k < |Apply(s, e).approved| :: Apply(s, e).approved[k].0 != t
  {
    hide Checked, Loaded;
  }

  /** What is known of t besides what a step says of it. */
  lemma QuietStepTells(s: State, e: Event, t: Id)
    requires Enabled(s, e) && Valid(s) && InStepWith(s, t) && Told(s, t) && t in s.db.incidents && t in s.threads
    requires !(Said(s, e).Some? && Said(s, e).value.0 == t)
    ensures Told(Apply(s, e), t)
  {
    hide Enabled, Apply, Said, ThreadsOk, RowsOk, RunsOk, PairsOk, NoticesOk, UsageOk, ApprovalsOk, Sound;
    StepSays(s, e, t);
    ApprovalStays(s, e);
    NewApprovals(s, e, t);
    OtherThreadsStay(s, e, t);
    if Saves(e) && s.runs[e.i].thread == t {
      EndIsLast(s, e);
      FinishSays(s, e, t);
      SoundRow(s, t);
      SaverOfSound(s, e, t);
    }
  }

  lemma SoundRow(s: State, t: Id)
    requires RowsOk(s) && t in s.db.incidents && t in s.threads
    ensures Sound(s, t)
  {
    assert RowOk(s, t);
  }

  lemma FinishSays(s: State, e: Event, t: Id)
    requires Enabled(s, e) && Valid(s) && Saves(e) && s.runs[e.i].thread == t && t in s.db.incidents && t in s.threads
    requires !(Said(s, e).Some? && Said(s, e).value.0 == t)
    ensures !e.Finish?
  {
    SoundRow(s, t);
    assert RunOk(s, s.runs[e.i]);
    hide Valid, RowsOk, RunsOk, PairsOk, ThreadsOk, UsageOk, NoticesOk, ApprovalsOk;
  }

  /** A row under a thread's id that was not there before. */
  lemma FreshTells(s: State, e: Event, t: Id)
    requires Enabled(s, e) && Valid(s) && t !in s.db.incidents
    ensures Told(Apply(s, e), t)
  {
    var n := Apply(s, e);
    StepSays(s, e, t);
    if k :| 0 <= k < |s.approved| && s.approved[k].0 == t {
      ApprovedIsSound(s, t, k);
    }
    NewApprovalHasRow(s, e, t);
    if t in n.db.incidents {
      NewRow(s, e, t);
    }
    hide Valid, Checked, Loaded, ThreadsOk, RowsOk, RunsOk, PairsOk, UsageOk, NoticesOk, ApprovalsOk;
  }

  lemma NewApprovalHasRow(s: State, e: Event, t: Id)
    requires Enabled(s, e) && Valid(s) && t !in s.db.incidents
    ensures Unapproved(s, t) ==> Unapproved(Apply(s, e), t)
  {
    hide ThreadsOk, RowsOk, RunsOk, PairsOk, UsageOk, NoticesOk, Checked, Loaded;
  }

  lemma StepKeepsTold(s: State, e: Event, t: Id)
    requires Enabled(s, e) && Valid(s) && InStepWith(s, t) && Told(s, t) && CalmStep(s, e, t)
    requires ApprovedOnce(Apply(s, e), t)
    ensures Told(Apply(s, e), t)
  {
    hide Enabled, Apply, InStepWith, Told, CalmStep, ApprovedOnce;
    if t !in s.db.incidents {
      FreshTells(s, e, t);
    } else if t !in s.threads {
      ForeignTells(s, e, t);
    } else if Said(s, e).Some? && Said(s, e).value.0 == t {
      WhoSpeaks(s, e, t);
      if e.Approve? {
        ApproveTells(s, e, t);
      } else {
        FinishTells(s, e, t);
      }
    } else {
      QuietStepTells(s, e, t);
    }
    hide Valid;
  }

  lemma FewerApprovals(s: State, events: seq<Event>, t: Id)
    requires IsRun(s, events) && RunsOk(s) && ApprovedOnce(After(s, events), t)
    ensures ApprovedOnce(s, t)
  {
    ApprovalsStay(s, events);
    var n := After(s, events);
    forall j, k | 0 <= j < k < |s.approved| ensures !(s.approved[j].0 == t && s.approved[k].0 == t) {
      assert n.approved[j] == s.approved[j] && n.approved[k] == s.approved[k];
    }
  }

  lemma {:induction false} ApprovalsStay(s: State, events: seq<Event>)
    requires IsRun(s, events)
    ensures |s.approved| <= |After(s, events).approved|
    ensures forall k | 0 <= k < |s.approved| :: After(s, events).approved[k] == s.approved[k]
    decreases |events|
  {
    if events != [] {
      hide Enabled, Apply;
      ApprovalStays(s, events[0]);
      ApprovalsStay(Apply(s, events[0]), events[1..]);
    }
  }

  lemma {:induction false} RunKeepsTold(s: State, events: seq<Event>, t: Id)
    requires IsRun(s, events) && Valid(s) && InStepWith(s, t) && Told(s, t) && Undisturbed(s, events, t)
    requires ApprovedOnce(After(s, events), t)
    ensures Valid(After(s, events)) && Told(After(s, events), t)
    decreases |events|
  {
    if events != [] {
      var next := Apply(s, events[0]);
      assert RunsOk(s);
      StepKeepsValid(s, events[0]);
      assert RunsOk(next);
      hide Enabled, Apply, InStepWith, Told, CalmStep, ApprovedOnce, Valid, RunsOk;
      FewerApprovals(next, events[1..], t);
      FewerApprovals(s, events, t);
      StepKeepsInStepWith(s, events[0], t);
      StepKeepsTold(s, events[0], t);
      RunKeepsTold(next, events[1..], t);
    }
  }

  /** Over every run in which the incident of a sound run is approved at most once, nobody closes it and no
      resume of it raises: it is pending until it is approved; then held or executing, as was chosen, until
      its run is at its end; and then executed, or held exactly if the tools reported that they held it. */
  lemma ApprovedRunTells(events: seq<Event>, t: Id)
    requires IsRun(EMPTY, events) && Undisturbed(EMPTY, events, t) && ApprovedOnce(After(EMPTY, events), t)
    requires t in After(EMPTY, events).threads && t in After(EMPTY, events).db.incidents
    ensures var s := After(EMPTY, events);
            var status := s.db.incidents[t].status;
            && (s.threads[t].next == End ==> status == if s.threads[t].held then Held else Executed)
            && (s.threads[t].next != End && Unapproved(s, t) ==> status == Pending)
            && forall k | s.threads[t].next != End && 0 <= k < |s.approved| && s.approved[k].0 == t ::
                 status == if s.approved[k].1 == Hold then Held else Executing
  {
    assert Valid(EMPTY) && InStepWith(EMPTY, t) && Told(EMPTY, t);
    RunKeepsTold(EMPTY, events, t);
    var s := After(EMPTY, events);
    SoundRow(s, t);
    if Unapproved(s, t) {
      PastGateIsApproved(s, t);
    }
    hide IsRun, After, Undisturbed, Valid;
  }

  // ---- what has been done at the end ----

  ghost predicate ToolsCalled(s: State, t: Id) {
    exists i :: 0 <= i < |s.runs| && s.runs[i].thread == t && s.runs[i].executed.Some?
  }

  /** A sound run behind its execute node has called the tools. */
  ghost predicate CalledOk(s: State) {
    && (forall t | t in s.threads && !s.threads[t].error && s.threads[t].next in {Complete, End} :: ToolsCalled(s, t))
    && (forall i | 0 <= i < |s.runs| && !s.runs[i].at.error && s.runs[i].at.next in {Complete, End} ::
          ToolsCalled(s, s.runs[i].thread))
  }

  lemma CallsStay(s: State, e: Event, t: Id)
    requires Enabled(s, e) && ToolsCalled(s, t)
    ensures ToolsCalled(Apply(s, e), t)
  {
    var i :| 0 <= i < |s.runs| && s.runs[i].thread == t && s.runs[i].executed.Some?;
    CallStays(s, e, i);
  }

  lemma CallStays(s: State, e: Event, i: nat)
    requires Enabled(s, e) && i < |s.runs| && s.runs[i].executed.Some?
    ensures i < |Apply(s, e).runs|
    ensures Apply(s, e).runs[i].thread == s.runs[i].thread && Apply(s, e).runs[i].executed.Some?
  {
    hide Checked, Loaded;
  }

  /** What gets behind the execute node has called the tools itself or was there before. */
  lemma BehindExecute(s: State, e: Event)
    requires Enabled(s, e) && RunsOk(s)
    ensures forall i | 0 <= i < |Apply(s, e).runs| && !Apply(s, e).runs[i].at.error
                       && Apply(s, e).runs[i].at.next in {Complete, End} ::
              var t := Apply(s, e).runs[i].thread;
              || (i < |s.runs| && s.runs[i].thread == t && !s.runs[i].at.error && s.runs[i].at.next in {Complete, End})
              || (i < |s.runs| && s.runs[i].thread == t && s.runs[i].executed.Some?)
              || (t in s.threads && !s.threads[t].error && s.threads[t].next in {Complete, End})
  {
    if e.LeaveExecute? || e.SkipOption? {
      assert RunOk(s, s.runs[e.i]);
    }
    hide RunsOk, Checked;
  }

  lemma SavedBehindExecute(s: State, e: Event, t: Id)
    requires Enabled(s, e) && RunsOk(s) && t in Apply(s, e).threads
    requires !Apply(s, e).threads[t].error && Apply(s, e).threads[t].next in {Complete, End}
    ensures || (t in s.threads && !s.threads[t].error && s.threads[t].next in {Complete, End})
            || exists i :: 0 <= i < |Apply(s, e).runs| && Apply(s, e).runs[i].thread == t
                           && !Apply(s, e).runs[i].at.error && Apply(s, e).runs[i].at.next in {Complete, End}
  {
    SavedThreads(s, e, t);
    if Saves(e) {
      SavedStands(s, e);
    }
    hide Checked, Loaded, RunsOk;
  }

  lemma StepKeepsCalled(s: State, e: Event)
    requires Enabled(s, e) && RunsOk(s) && CalledOk(s)
    ensures CalledOk(Apply(s, e))
  {
    hide Enabled, Apply, RunsOk;
    var n := Apply(s, e);
    BehindExecute(s, e);
    forall i | 0 <= i < |n.runs| && !n.runs[i].at.error && n.runs[i].at.next in {Complete, End}
      ensures ToolsCalled(n, n.runs[i].thread)
    {
      assert ToolsCalled(s, n.runs[i].thread);
      CallsStay(s, e, n.runs[i].thread);
    }
    forall t | t in n.threads && !n.threads[t].error && n.threads[t].next in {Complete, End} ensures ToolsCalled(n, t) {
      SavedBehindExecute(s, e, t);
      if t in s.threads && !s.threads[t].error && s.threads[t].next in {Complete, End} {
        CallsStay(s, e, t);
      }
    }
  }

  lemma {:induction false} RunKeepsCalled(s: State, events: seq<Event>)
    requires IsRun(s, events) && Valid(s) && CalledOk(s)
    ensures Valid(After(s, events)) && CalledOk(After(s, events))
    decreases |events|
  {
    if events != [] {
      StepKeepsCalled(s, events[0]);
      StepKeepsValid(s, events[0]);
      hide Valid, Enabled, Apply, CalledOk;
      RunKeepsCalled(Apply(s, events[0]), events[1..]);
    }
  }

  /** Over every run: a sound run that is behind its execute node has called the tools. */
  lemma EndedRunCalledTheTools(events: seq<Event>, t: Id)
    requires IsRun(EMPTY, events) && t in After(EMPTY, events).threads
    requires !After(EMPTY, events).threads[t].error && After(EMPTY, events).threads[t].next in {Complete, End}
    ensures ToolsCalled(After(EMPTY, events), t)
  {
    RunKeepsCalled(EMPTY, events);
  }

  /** A run that is approved and executed, from start to end. */
  lemma ApprovedRunEndsExecuted() returns (events: seq<Event>)
    ensures IsRun(EMPTY, events)
    ensures var s := After(EMPTY, events);
            0 in s.threads && s.threads[0].next == End && 0 in s.db.incidents && s.db.incidents[0].status == Executed
  {
    hide IsRun, After;
    var s: State;
    events, s := PausedRun();
    assert Reached(events, s);
    hide Reached;
    events, s := Then(events, s, Check(0, Pick(7)));
    events, s := Then(events, s, Approve(0, Pick(7)));
    events, s := Then(events, s, Resume(0));
    events, s := ResumedToEnd(events, s);
    ReachedMeans(events, s);
  }

  lemma ResumedToEnd(before: seq<Event>, first: State) returns (events: seq<Event>, s: State)
    requires Reached(before, first) && |first.runs| == 2 && 0 in first.threads && 0 in first.db.incidents
    requires first.runs[1] == Invocation(
        0, Some(Resumption(0, Pick(7), Gate)), Checkpoint(Gate, false, 0, None, false), Entered, true, None)
    ensures Reached(events, s) && 0 in s.threads && s.threads[0].next == End
    ensures 0 in s.db.incidents && s.db.incidents[0].status == Executed
  {
    hide Reached;
    events, s := Then(before, first, Insert(1, first.db.incidents[0].severity, [7], 100));
    events, s := Then(events, s, Record(1));
    events, s := Then(events, s, Interrupt(1));
    events, s := Then(events, s, CallOption(1, false));
    events, s := Then(events, s, LeaveExecute(1));
    events, s := Then(events, s, Finish(1));
  }
}
