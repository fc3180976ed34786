/** job_queue/worker.py: a consumer that deletes a message once it is dealt with, and backs off while
    there is nothing to do. */
module Worker {
  import opened Wrappers

  type JobType = string

  /** What json.loads makes of a message's body. */
  datatype Body = Absent | Unparseable | NotAnObject | Job(jobType: Option<JobType>)

  /** A received message; how its handler would end, and whether the queue takes its deletion. */
  datatype Message = Message(receipt: nat, body: Body, succeeds: bool, deletable: bool)

  /** Done and Dropped messages are deleted, Left ones stay for redelivery, and a Raised one ends the
      poll with an exception. */
  datatype Fate = Done | Dropped | Left | Raised

  function FateOf(m: Message, handlers: set<JobType>): Fate {
    match m.body
    case Absent => if m.deletable then Dropped else Raised
    case Unparseable => if m.deletable then Dropped else Raised
    case NotAnObject => Raised
    case Job(job) =>
      if job.None? || job.value !in handlers || !m.succeeds then Left
      else if m.deletable then Done else Raised
  }

  /** How many messages are dealt with before one raises. */
  function Reach(batch: seq<Message>, handlers: set<JobType>): (n: nat)
    ensures n <= |batch| && (forall i | 0 <= i < n :: !FateOf(batch[i], handlers).Raised?)
    ensures n < |batch| ==> FateOf(batch[n], handlers).Raised?
  {
    if batch == [] || FateOf(batch[0], handlers).Raised? then 0 else 1 + Reach(batch[1..], handlers)
  }

  /** The receipts deleted, in order. */
  function Deletions(batch: seq<Message>, handlers: set<JobType>): seq<nat> {
    if batch == [] then []
    else Deletions(batch[..|batch| - 1], handlers) +
         var m := batch[|batch| - 1]; if FateOf(m, handlers) in {Done, Dropped} then [m.receipt] else []
  }

  function Successes(batch: seq<Message>, handlers: set<JobType>): nat {
    if batch == [] then 0
    else Successes(batch[..|batch| - 1], handlers) + if FateOf(batch[|batch| - 1], handlers).Done? then 1 else 0
  }

  /** What poll_once returns, None if it raises. */
  function Polled(batch: seq<Message>, handlers: set<JobType>): Option<nat> {
    if Reach(batch, handlers) < |batch| then None else Some(Successes(batch, handlers))
  }

  // ---- backoff ----

  function Min(a: real, b: real): real {
    if a <= b then a else b
  }

  /** x times two to the k. */
  function Doubled(x: real, k: nat): real {
    if k == 0 then x else Doubled(x, k - 1) * 2.0
  }

  /** How many polls in a row, up to the last, processed nothing. */
  function IdleStreak(counts: seq<nat>): nat {
    if counts == [] || counts[|counts| - 1] > 0 then 0 else 1 + IdleStreak(counts[..|counts| - 1])
  }

  function BackoffFor(streak: nat, min: real, max: real): real {
    if streak == 0 then min else Min(Doubled(min, streak), max)
  }

  lemma {:induction false} NextBackoff(streak: nat, min: real, max: real)
    requires max >= 0.0
    ensures BackoffFor(streak + 1, min, max) == Min(BackoffFor(streak, min, max) * 2.0, max)
  {
    assert Doubled(min, streak + 1) == Doubled(min, streak) * 2.0;
  }

  /** What a whole run of polls comes to: how many successes each made, and whether the last one raised. */
  function Counts(batches: seq<seq<Message>>, handlers: set<JobType>): seq<nat> {
    if batches == [] then []
    else match Polled(batches[0], handlers)
      case None => []
      case Some(n) => [n] + Counts(batches[1..], handlers)
  }

  /** All receipts deleted, up to the poll that raises and in it. */
  function AllDeletions(batches: seq<seq<Message>>, handlers: set<JobType>): seq<nat> {
    if batches == [] then []
    else Deletions(batches[0][..Reach(batches[0], handlers)], handlers) +
         if Polled(batches[0], handlers).None? then [] else AllDeletions(batches[1..], handlers)
  }

  /** One sleep for every poll that processes nothing, as long as the backoff then is. */
  function SleepsFor(counts: seq<nat>, min: real, max: real): seq<real> {
    if counts == [] then []
    else SleepsFor(counts[..|counts| - 1], min, max) +
         if counts[|counts| - 1] > 0 then [] else [BackoffFor(IdleStreak(counts[..|counts| - 1]), min, max)]
  }

  class SQSWorker {
    const minBackoff: real
    const maxBackoff: real
    var handlers: set<JobType>
    var backoff: real
    /** Receipts deleted from the queue, and the backoff at each sleep. */
    var deleted: seq<nat>
    var sleeps: seq<real>

    constructor (handlers: set<JobType>, minBackoff: real, maxBackoff: real)
      ensures this.minBackoff == minBackoff && this.maxBackoff == maxBackoff && backoff == minBackoff
      ensures this.handlers == handlers && deleted == [] && sleeps == []
    {
      this.minBackoff, this.maxBackoff := minBackoff, maxBackoff;
      this.handlers, backoff, deleted, sleeps := handlers, minBackoff, [], [];
    }

    /** None if it raises; else whether the message was processed. */
    method ProcessMessage(m: Message) returns (r: Option<bool>)
      modifies this`deleted
      ensures deleted == old(deleted) + if FateOf(m, handlers) in {Done, Dropped} then [m.receipt] else []
      ensures r == match FateOf(m, handlers)
                   case Raised => None
                   case fate => Some(fate.Done?)
    {
      match m.body {
        case NotAnObject =>
          return None;
        case Job(job) =>
          if job.None? || job.value !in handlers || !m.succeeds {
            return Some(false);
          }
        case _ =>
      }
      if !m.deletable {
        return None;
      }
      deleted := deleted + [m.receipt];
      return Some(m.body.Job?);
    }

    method PollOnce(batch: seq<Message>) returns (r: Option<nat>)
      modifies this`deleted
      ensures r == Polled(batch, handlers)
      ensures deleted == old(deleted) + Deletions(batch[..Reach(batch, handlers)], handlers)
    {
      var processed := 0;
      ghost var reach := Reach(batch, handlers);
      assert batch[..0] == [];
      for i := 0 to |batch|
        invariant i <= reach && processed == Successes(batch[..i], handlers)
        invariant deleted == old(deleted) + Deletions(batch[..i], handlers)
      {
        assert batch[..i + 1][..i] == batch[..i];
        var ok := ProcessMessage(batch[i]);
        if ok.None? {
          return None;
        }
        if ok.value {
          processed := processed + 1;
        }
      }
      assert batch[..|batch|] == batch;
      return Some(processed);
    }

    /** Polls these batches as they come; raised if a poll raised, which ends the run. */
    method RunForever(batches: seq<seq<Message>>) returns (raised: bool)
      requires backoff == minBackoff && maxBackoff >= 0.0
      modifies this`deleted, this`backoff, this`sleeps
      ensures raised <==> |Counts(batches, handlers)| < |batches|
      ensures deleted == old(deleted) + AllDeletions(batches, handlers)
      ensures backoff == BackoffFor(IdleStreak(Counts(batches, handlers)), minBackoff, maxBackoff)
      ensures sleeps == old(sleeps) + SleepsFor(Counts(batches, handlers), minBackoff, maxBackoff)
    {
      hide BackoffFor, IdleStreak, SleepsFor, Deletions, Reach, Polled, Counts, AllDeletions, Min;
      ghost var counts: seq<nat> := [];
      ghost var gone: seq<nat> := [];
      NoPolls(handlers, minBackoff, maxBackoff);
      assert batches[0..] == batches;
      for i := 0 to |batches|
        invariant |counts| == i && Counts(batches, handlers) == counts + Counts(batches[i..], handlers)
        invariant deleted == old(deleted) + gone
                  && AllDeletions(batches, handlers) == gone + AllDeletions(batches[i..], handlers)
        invariant backoff == BackoffFor(IdleStreak(counts), minBackoff, maxBackoff)
        invariant sleeps == old(sleeps) + SleepsFor(counts, minBackoff, maxBackoff)
      {
        ghost var done := Deletions(batches[i][..Reach(batches[i], handlers)], handlers);
        var processed := PollOnce(batches[i]);
        NextPoll(batches, handlers, i, counts, gone);
        gone := gone + done;
        if processed.None? {
          return true;
        }
        NextCount(counts, processed.value, minBackoff, maxBackoff);
        counts := counts + [processed.value];
        if processed.value > 0 {
          backoff := minBackoff;
        } else {
          sleeps := sleeps + [backoff];
          backoff := Min(backoff * 2.0, maxBackoff);
        }
      }
      assert batches[|batches|..] == [] && counts + [] == counts && gone + [] == gone;
      return false;
    }
  }

  lemma NoPolls(handlers: set<JobType>, min: real, max: real)
    ensures Counts([], handlers) == [] && AllDeletions([], handlers) == [] && SleepsFor([], min, max) == []
    ensures BackoffFor(IdleStreak([]), min, max) == min
  {
  }

  lemma NextPoll(batches: seq<seq<Message>>, handlers: set<JobType>, i: nat, counts: seq<nat>, gone: seq<nat>)
    requires i < |batches|
    ensures var done := Deletions(batches[i][..Reach(batches[i], handlers)], handlers);
            match Polled(batches[i], handlers)
            case None =>
              counts + Counts(batches[i..], handlers) == counts
                && gone + AllDeletions(batches[i..], handlers) == gone + done
            case Some(n) =>
              && counts + Counts(batches[i..], handlers) == counts + [n] + Counts(batches[i + 1..], handlers)
              && gone + AllDeletions(batches[i..], handlers) == gone + done + AllDeletions(batches[i + 1..], handlers)
  {
    hide Deletions, Reach, Polled;
    assert batches[i..][1..] == batches[i + 1..];
  }

  lemma NextCount(counts: seq<nat>, n: nat, min: real, max: real)
    requires max >= 0.0
    ensures BackoffFor(IdleStreak(counts + [n]), min, max) ==
            if n > 0 then min else Min(BackoffFor(IdleStreak(counts), min, max) * 2.0, max)
    ensures SleepsFor(counts + [n], min, max) ==
            SleepsFor(counts, min, max) + if n > 0 then [] else [BackoffFor(IdleStreak(counts), min, max)]
  {
    assert (counts + [n])[..|counts|] == counts;
    NextBackoff(IdleStreak(counts), min, max);
    hide Doubled, Min;
  }

  // ---- what a poll promises ----

  lemma {:induction false} DeletionsAre(batch: seq<Message>, handlers: set<JobType>)
    ensures forall r :: r in Deletions(batch, handlers) <==>
                          exists i :: 0 <= i < |batch| && batch[i].receipt == r
                            && FateOf(batch[i], handlers) in {Done, Dropped}
  {
    if batch != [] {
      var front, last := batch[..|batch| - 1], batch[|batch| - 1];
      DeletionsAre(front, handlers);
      assert forall i | 0 <= i < |front| :: front[i] == batch[i];
      forall r ensures r in Deletions(batch, handlers) <==>
                         exists i :: 0 <= i < |batch| && batch[i].receipt == r
                           && FateOf(batch[i], handlers) in {Done, Dropped}
      {
        if i :| 0 <= i < |batch| && batch[i].receipt == r && FateOf(batch[i], handlers) in {Done, Dropped} {
          if i < |front| {
            assert front[i].receipt == r;
          }
        }
      }
    }
  }

  /** Its handler returned normally, or its body is missing or no JSON. */
  predicate EarnsDeletion(m: Message, handlers: set<JobType>) {
    || m.body.Absent?
    || m.body.Unparseable?
    || (m.body.Job? && m.body.jobType.Some? && m.body.jobType.value in handlers && m.succeeds)
  }

  /** Its body is JSON but no object, or the queue refuses the deletion it has earned. */
  predicate Raises(m: Message, handlers: set<JobType>) {
    m.body.NotAnObject? || (EarnsDeletion(m, handlers) && !m.deletable)
  }

  lemma FatesAre(m: Message, handlers: set<JobType>)
    ensures FateOf(m, handlers).Raised? <==> Raises(m, handlers)
    ensures FateOf(m, handlers) in {Done, Dropped} <==> EarnsDeletion(m, handlers) && !Raises(m, handlers)
  {
  }

  /** If receipts are distinct, a poll deletes a message exactly when the message has earned it and
      neither it nor any message ahead of it raises. */
  lemma DeletedExactlyWhen(batch: seq<Message>, handlers: set<JobType>, i: nat)
    requires i < |batch| && forall j, k | 0 <= j < k < |batch| :: batch[j].receipt != batch[k].receipt
    ensures batch[i].receipt in Deletions(batch[..Reach(batch, handlers)], handlers) <==>
              EarnsDeletion(batch[i], handlers) && forall j | 0 <= j <= i :: !Raises(batch[j], handlers)
  {
    hide Deletions, Reach, FateOf, Raises, EarnsDeletion;
    var n := Reach(batch, handlers);
    forall j | 0 <= j < |batch| ensures FateOf(batch[j], handlers).Raised? <==> Raises(batch[j], handlers) {
      FatesAre(batch[j], handlers);
    }
    DeletionsAre(batch[..n], handlers);
    FatesAre(batch[i], handlers);
    if batch[i].receipt in Deletions(batch[..n], handlers) {
      var j :| 0 <= j < n && batch[..n][j].receipt == batch[i].receipt
        && FateOf(batch[..n][j], handlers) in {Done, Dropped};
      assert j == i;
    }
    if i < n {
      assert batch[..n][i] == batch[i];
    }
  }

  /** A body that is JSON but no object ends the poll: the job behind it, which would succeed, is not run. */
  lemma NotAnObjectEndsPoll()
    ensures var batch := [Message(1, NotAnObject, true, true), Message(2, Job(Some("job")), true, true)];
            Polled(batch, {"job"}) == None && Deletions(batch[..Reach(batch, {"job"})], {"job"}) == []
            && EarnsDeletion(batch[1], {"job"})
  {
    var batch := [Message(1, NotAnObject, true, true), Message(2, Job(Some("job")), true, true)];
    assert Reach(batch, {"job"}) == 0;
    assert batch[..0] == [];
  }

  lemma {:induction false} Concatenated(a: seq<Message>, b: seq<Message>, handlers: set<JobType>)
    ensures Deletions(a + b, handlers) == Deletions(a, handlers) + Deletions(b, handlers)
    ensures Successes(a + b, handlers) == Successes(a, handlers) + Successes(b, handlers)
  {
    if b == [] {
      assert a + b == a;
    } else {
      Concatenated(a, b[..|b| - 1], handlers);
      assert (a + b)[..|a + b| - 1] == a + b[..|b| - 1];
    }
  }

  lemma {:induction false} ReachPast(a: seq<Message>, m: Message, b: seq<Message>, handlers: set<JobType>)
    requires !FateOf(m, handlers).Raised?
    ensures Reach(a + [m] + b, handlers) == Reach(a + b, handlers) + if Reach(a + b, handlers) >= |a| then 1 else 0
  {
    if a == [] {
      assert a + [m] + b == [m] + b && a + b == b && ([m] + b)[1..] == b;
    } else {
      assert (a + [m] + b)[1..] == a[1..] + [m] + b && (a + b)[1..] == a[1..] + b;
      ReachPast(a[1..], m, b, handlers);
    }
  }

  lemma LeftCountsNothing(m: Message, handlers: set<JobType>)
    requires FateOf(m, handlers).Left?
    ensures Deletions([m], handlers) == [] && Successes([m], handlers) == 0
  {
    assert [m][..0] == [];
  }

  lemma LeavesDeletions(a: seq<Message>, m: Message, b: seq<Message>, handlers: set<JobType>)
    requires FateOf(m, handlers).Left?
    ensures Deletions(a + [m] + b, handlers) == Deletions(a + b, handlers)
    ensures Successes(a + [m] + b, handlers) == Successes(a + b, handlers)
  {
    hide Deletions, Successes, FateOf;
    LeftCountsNothing(m, handlers);
    Concatenated(a + [m], b, handlers);
    Concatenated(a, [m], handlers);
    Concatenated(a, b, handlers);
  }

  /** A message whose handler fails, or that has none, changes nothing for the others: the poll returns
      and deletes what it would without it. */
  lemma FailureIsIsolated(a: seq<Message>, m: Message, b: seq<Message>, handlers: set<JobType>)
    requires FateOf(m, handlers).Left?
    ensures Polled(a + [m] + b, handlers) == Polled(a + b, handlers)
    ensures Deletions((a + [m] + b)[..Reach(a + [m] + b, handlers)], handlers) ==
            Deletions((a + b)[..Reach(a + b, handlers)], handlers)
  {
    hide Deletions, Successes, FateOf;
    ReachPast(a, m, b, handlers);
    LeavesDeletions(a, m, b, handlers);
    var n := Reach(a + b, handlers);
    hide Reach;
    if n >= |a| {
      assert (a + b)[..n] == a + b[..n - |a|];
      assert (a + [m] + b)[..n + 1] == a + [m] + b[..n - |a|];
      LeavesDeletions(a, m, b[..n - |a|], handlers);
    } else {
      assert (a + b)[..n] == (a + [m] + b)[..n];
    }
  }

  // ---- what the backoff comes to ----

  lemma {:induction false} StreakAtEnd(counts: seq<nat>, k: nat)
    requires k <= |counts| && forall i | |counts| - k <= i < |counts| :: counts[i] == 0
    requires k < |counts| ==> counts[|counts| - k - 1] > 0
    ensures IdleStreak(counts) == k
  {
    if k > 0 {
      StreakAtEnd(counts[..|counts| - 1], k - 1);
    }
  }

  lemma {:induction false} DoublingGrows(x: real, k: nat)
    requires x >= 0.0
    ensures Doubled(x, k) >= x
  {
    if k > 0 {
      DoublingGrows(x, k - 1);
    }
  }

  /** After polls of which the last k, and no more, processed nothing, the backoff is the smaller of min
      times two to the k and max; any success brings it back to min. */
  lemma BackoffAfterIdling(counts: seq<nat>, k: nat, min: real, max: real)
    requires k <= |counts| && forall i | |counts| - k <= i < |counts| :: counts[i] == 0
    requires k < |counts| ==> counts[|counts| - k - 1] > 0
    requires 0.0 <= min <= max
    ensures BackoffFor(IdleStreak(counts), min, max) == Min(Doubled(min, k), max)
    ensures min <= BackoffFor(IdleStreak(counts), min, max) <= max
  {
    StreakAtEnd(counts, k);
    DoublingGrows(min, k);
  }

  // ---- when the backoff resets ----

  lemma {:induction false} CountsOfAll(batches: seq<seq<Message>>, handlers: set<JobType>)
    requires |Counts(batches, handlers)| == |batches| && batches != []
    ensures var last := batches[|batches| - 1];
            Counts(batches, handlers)[|batches| - 1] == Successes(last, handlers) && Reach(last, handlers) == |last|
  {
    hide Successes, Reach;
    if |batches| > 1 {
      CountsOfAll(batches[1..], handlers);
    }
  }

  /** The backoff is documented to return to its minimum the moment a message arrives. After polls that
      do not raise, the last of which received something, it is at its minimum exactly when a message
      of that poll was processed, or minimum and maximum are the same. */
  lemma ArrivalResetsExactlyWhen(batches: seq<seq<Message>>, handlers: set<JobType>, min: real, max: real)
    requires 0.0 < min <= max && batches != [] && batches[|batches| - 1] != []
    requires |Counts(batches, handlers)| == |batches|
    ensures BackoffFor(IdleStreak(Counts(batches, handlers)), min, max) == min <==>
              min == max || exists m :: m in batches[|batches| - 1] && FateOf(m, handlers).Done?
  {
    var counts, last := Counts(batches, handlers), batches[|batches| - 1];
    CountsOfAll(batches, handlers);
    SuccessesAre(last, handlers);
    hide Counts, Successes, Reach, FateOf;
    var streak := IdleStreak(counts);
    assert streak == 0 <==> counts[|counts| - 1] > 0;
    if streak > 0 {
      DoublingGrows(min, streak - 1);
      assert Doubled(min, streak) == Doubled(min, streak - 1) * 2.0 > min;
    }
  }

  lemma {:induction false} SuccessesAre(batch: seq<Message>, handlers: set<JobType>)
    ensures Successes(batch, handlers) > 0 <==> exists m :: m in batch && FateOf(m, handlers).Done?
  {
    hide FateOf;
    if batch != [] {
      var front, last := batch[..|batch| - 1], batch[|batch| - 1];
      assert batch == front + [last];
      SuccessesAre(front, handlers);
    }
  }

  /** A message that arrives and has no handler: the backoff doubles. */
  lemma ArrivalDoublesBackoff(min: real, max: real)
    requires 0.0 < min && 2.0 * min <= max
    ensures var batches := [[Message(1, Job(None), true, true)]];
            Counts(batches, {}) == [0] && BackoffFor(IdleStreak(Counts(batches, {})), min, max) == 2.0 * min
  {
    var m := Message(1, Job(None), true, true);
    LeftCountsNothing(m, {});
    assert Reach([m][1..], {}) == 0;
    assert Reach([m], {}) == 1;
    assert [[m]][1..] == [];
    assert Counts([[m]], {}) == [0];
    assert [0][..0] == [];
    assert IdleStreak([0]) == 1 && Doubled(min, 1) == 2.0 * min;
  }

  function DoneIn(batch: seq<Message>, handlers: set<JobType>): set<nat> {
    set i | 0 <= i < |batch| && FateOf(batch[i], handlers).Done?
  }

  /** A poll that does not raise returns how many messages were handled. */
  lemma {:induction false} SuccessesCount(batch: seq<Message>, handlers: set<JobType>)
    ensures Successes(batch, handlers) == |DoneIn(batch, handlers)|
  {
    hide FateOf;
    if batch != [] {
      var n := |batch| - 1;
      SuccessesCount(batch[..n], handlers);
      assert DoneIn(batch, handlers) ==
             DoneIn(batch[..n], handlers) + if FateOf(batch[n], handlers).Done? then {n} else {};
    }
  }
}
