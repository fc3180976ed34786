/** core/checkpointer_lock.py: one lock around every operation of the shared checkpoint saver. The
    operations take many statements on one connection; behind the lock each is as good as one. */
module CheckpointerLock {
  import opened Wrappers

  datatype Row = Row(thread: nat, id: nat, value: int)

  /** The saver's tables, rows in the order in which they came. */
  datatype Store = Store(checkpoints: seq<Row>, writes: seq<Row>)

  datatype Query = Query(thread: Option<nat>, id: Option<nat>, before: Option<nat>, limit: Option<nat>)

  datatype Op =
    | Get(thread: nat, id: Option<nat>)
    | Put(row: Row)
    | PutWrites(rows: seq<Row>)
    | DeleteThread(thread: nat)
    | List(query: Query)

  // ---- an operation in one piece ----

  /** A row takes the place of the one with its key. */
  function Upsert(rows: seq<Row>, row: Row): seq<Row> {
    if rows == [] then [row]
    else if rows[0].thread == row.thread && rows[0].id == row.id then [row] + rows[1..]
    else [rows[0]] + Upsert(rows[1..], row)
  }

  function Upserts(rows: seq<Row>, more: seq<Row>): seq<Row> {
    if more == [] then rows else Upsert(Upserts(rows, more[..|more| - 1]), more[|more| - 1])
  }

  function Without(rows: seq<Row>, thread: nat): seq<Row> {
    if rows == [] then []
    else (if rows[0].thread == thread then [] else [rows[0]]) + Without(rows[1..], thread)
  }

  predicate Matches(row: Row, query: Query) {
    && (query.thread.Some? ==> row.thread == query.thread.value)
    && (query.id.Some? ==> row.id == query.id.value)
    && (query.before.Some? ==> row.id < query.before.value)
  }

  /** Newest first. */
  function Matching(rows: seq<Row>, query: Query): seq<Row> {
    if rows == [] then []
    else (if Matches(rows[|rows| - 1], query) then [rows[|rows| - 1]] else []) + Matching(rows[..|rows| - 1], query)
  }

  function Listing(store: Store, query: Query): seq<Row> {
    var rows := Matching(store.checkpoints, query);
    if query.limit.Some? && query.limit.value < |rows| then rows[..query.limit.value] else rows
  }

  function AfterOp(store: Store, op: Op): Store {
    match op
    case Put(row) => store.(checkpoints := Upsert(store.checkpoints, row))
    case PutWrites(rows) => store.(writes := Upserts(store.writes, rows))
    case DeleteThread(thread) => Store(Without(store.checkpoints, thread), Without(store.writes, thread))
    case _ => store
  }

  function Answer(store: Store, op: Op): seq<Row> {
    match op
    case Get(thread, id) => Listing(store, Query(Some(thread), id, None, Some(1)))
    case List(query) => Listing(store, query)
    case _ => []
  }

  // ---- an operation statement by statement ----

  /** Whether an operation that has made k statements has nothing left to do on the store as it is. */
  predicate IsOver(store: Store, op: Op, k: nat) {
    match op
    case Get(_, _) => k >= 1
    case Put(_) => k >= 1
    case PutWrites(rows) => k >= |rows|
    case DeleteThread(_) => k >= 2
    case List(query) => k >= |Listing(store, query)|
  }

  /** The next statement: what it does to the store as it is. */
  function StoreAfter(store: Store, op: Op, k: nat): Store
    requires !IsOver(store, op, k)
  {
    match op
    case Put(row) => store.(checkpoints := Upsert(store.checkpoints, row))
    case PutWrites(rows) => store.(writes := Upsert(store.writes, rows[k]))
    case DeleteThread(thread) =>
      if k == 0 then store.(checkpoints := Without(store.checkpoints, thread))
      else store.(writes := Without(store.writes, thread))
    case _ => store
  }

  /** And the rows it fetches from there; the cursor of a listing moves one row at a time. */
  function Fetched(store: Store, op: Op, k: nat): seq<Row>
    requires !IsOver(store, op, k)
  {
    match op
    case Get(_, _) => Answer(store, op)
    case List(query) => [Listing(store, query)[k]]
    case _ => []
  }

  /** The saver behind its lock, one caller at a time. */
  class LockedSaver {
    var checkpoints: seq<Row>
    var writes: seq<Row>
    var locked: bool

    constructor ()
      ensures View() == Store([], []) && !locked
    {
      checkpoints, writes, locked := [], [], false;
    }

    function View(): Store
      reads this
    {
      Store(checkpoints, writes)
    }

    /** The newest checkpoint of the thread, or the one with this id. */
    method AGet(thread: nat, id: Option<nat>) returns (row: Option<Row>)
      requires !locked
      modifies this`locked
      ensures !locked && row == if Answer(View(), Get(thread, id)) == [] then None
              else Some(Answer(View(), Get(thread, id))[0])
      ensures row.Some? ==>
                row.value in checkpoints && row.value.thread == thread && (id.Some? ==> row.value.id == id.value)
      ensures row.None? ==> forall r | r in checkpoints && r.thread == thread :: id.Some? && r.id != id.value
    {
      locked := true;
      var query := Query(Some(thread), id, None, Some(1));
      MatchingRows(checkpoints, query);
      var rows := Matching(checkpoints, query);
      assert rows == [] ==> forall r | r in checkpoints :: r !in rows;
      row := if rows == [] then None else Some(rows[0]);
      locked := false;
    }

    method APut(row: Row)
      requires !locked
      modifies this
      ensures !locked && View() == AfterOp(old(View()), Put(row))
    {
      locked := true;
      checkpoints := Upsert(checkpoints, row);
      locked := false;
    }

    method APutWrites(rows: seq<Row>)
      requires !locked
      modifies this
      ensures !locked && View() == AfterOp(old(View()), PutWrites(rows))
    {
      locked := true;
      assert rows[..0] == [];
      for i := 0 to |rows|
        invariant locked && checkpoints == old(checkpoints) && writes == Upserts(old(writes), rows[..i])
      {
        assert rows[..i + 1][..i] == rows[..i];
        writes := Upsert(writes, rows[i]);
      }
      assert rows[..|rows|] == rows;
      locked := false;
    }

    method ADeleteThread(thread: nat)
      requires !locked
      modifies this
      ensures !locked && View() == AfterOp(old(View()), DeleteThread(thread))
      ensures forall row | row in checkpoints || row in writes :: row.thread != thread
    {
      locked := true;
      WithoutHas(checkpoints, thread);
      checkpoints := Without(checkpoints, thread);
      WithoutHas(writes, thread);
      writes := Without(writes, thread);
      locked := false;
    }

    /** The consumer may stop early, after so many items. */
    method AList(query: Query, stopAfter: Option<nat>) returns (items: seq<Row>)
      requires !locked
      modifies this`locked
      ensures !locked
      ensures items == if stopAfter.Some? && stopAfter.value < |Listing(View(), query)|
                       then Listing(View(), query)[..stopAfter.value]
                       else Listing(View(), query)
    {
      locked := true;
      items := [];
      var rows := Listing(View(), query);
      while |items| < |rows| && (stopAfter.None? || |items| < stopAfter.value)
        invariant locked && |items| <= |rows| && items == rows[..|items|]
        invariant stopAfter.Some? ==> |items| <= stopAfter.value
        decreases |rows| - |items|
      {
        items := items + [rows[|items|]];
      }
      locked := false;
    }
  }

  lemma {:induction false} WithoutHas(rows: seq<Row>, thread: nat)
    ensures forall row :: row in Without(rows, thread) <==> row in rows && row.thread != thread
  {
    if rows != [] {
      WithoutHas(rows[1..], thread);
      assert rows == [rows[0]] + rows[1..];
    }
  }

  lemma {:induction false} MatchingRows(rows: seq<Row>, query: Query)
    ensures forall row :: row in Matching(rows, query) <==> row in rows && Matches(row, query)
  {
    if rows != [] {
      MatchingRows(rows[..|rows| - 1], query);
      assert rows == rows[..|rows| - 1] + [rows[|rows| - 1]];
    }
  }

  // ---- any number of callers ----

  /** A call is in line, at its statements behind the lock, or over: when it took the lock as a position
      in the order of all that did, how many statements it has made, and the rows it has got so far;
      closed says that its consumer left before the end. */
  datatype Progress =
    | Waiting
    | Inside(at: nat, k: nat, items: seq<Row>)
    | Over(at: nat, items: seq<Row>, closed: bool)

  /** A call and how many operations had taken the lock when it was made. */
  datatype Call = Call(op: Op, made: nat, progress: Progress)

  /** The store, the call that holds the lock, all calls, and the operations in lock order. */
  datatype State = State(store: Store, holder: Option<nat>, calls: seq<Call>, order: seq<Op>)

  datatype Event =
    | Invoke(op: Op)
    | Acquire(i: nat)
    | Statement(i: nat)
    | Release(i: nat)
    | Close(i: nat)

  predicate IsInside(s: State, i: nat) {
    i < |s.calls| && s.calls[i].progress.Inside?
  }

  predicate Enabled(s: State, e: Event) {
    match e
    case Invoke(_) => true
    case Acquire(i) => i < |s.calls| && s.calls[i].progress.Waiting? && s.holder.None?
    case Statement(i) => IsInside(s, i) && !IsOver(s.store, s.calls[i].op, s.calls[i].progress.k)
    case Release(i) => IsInside(s, i) && IsOver(s.store, s.calls[i].op, s.calls[i].progress.k)
    case Close(i) => IsInside(s, i) && s.calls[i].op.List?
  }

  function With(s: State, i: nat, progress: Progress): State
    requires i < |s.calls|
  {
    s.(calls := s.calls[i := s.calls[i].(progress := progress)])
  }

  function Apply(s: State, e: Event): State
    requires Enabled(s, e)
  {
    match e
    case Invoke(op) => s.(calls := s.calls + [Call(op, |s.order|, Waiting)])
    case Acquire(i) => With(s, i, Inside(|s.order|, 0, [])).(holder := Some(i), order := s.order + [s.calls[i].op])
    case Statement(i) =>
      var Inside(at, k, items) := s.calls[i].progress;
      With(s, i, Inside(at, k + 1, items + Fetched(s.store, s.calls[i].op, k)))
        .(store := StoreAfter(s.store, s.calls[i].op, k))
    case Release(i) => With(s, i, Over(s.calls[i].progress.at, s.calls[i].progress.items, false)).(holder := None)
    case Close(i) => With(s, i, Over(s.calls[i].progress.at, s.calls[i].progress.items, true)).(holder := None)
  }

  ghost predicate IsRun(s: State, events: seq<Event>)
    decreases |events|
  {
    events == [] || (Enabled(s, events[0]) && IsRun(Apply(s, events[0]), events[1..]))
  }

  ghost function After(s: State, events: seq<Event>): State
    requires IsRun(s, events)
    decreases |events|
  {
    if events == [] then s else After(Apply(s, events[0]), events[1..])
  }

  // ---- as one after the other ----

  /** The store after these operations, each in one piece. */
  function Replay(store: Store, ops: seq<Op>): Store {
    if ops == [] then store else AfterOp(Replay(store, ops[..|ops| - 1]), ops[|ops| - 1])
  }

  /** The store part way through an operation that began on this one. */
  predicate PartWay(start: Store, op: Op, k: nat, now: Store, items: seq<Row>) {
    match op
    case Get(_, _) => now == start && k <= 1 && items == if k == 0 then [] else Answer(start, op)
    case Put(_) => k <= 1 && items == [] && now == if k == 0 then start else AfterOp(start, op)
    case PutWrites(rows) => k <= |rows| && items == [] && now == start.(writes := Upserts(start.writes, rows[..k]))
    case DeleteThread(thread) =>
      && k <= 2 && items == []
      && now == if k == 0 then start
                else if k == 1 then start.(checkpoints := Without(start.checkpoints, thread))
                else AfterOp(start, op)
    case List(query) => now == start && k <= |Listing(start, query)| && items == Listing(start, query)[..k]
  }

  lemma PartWayBegins(start: Store, op: Op)
    ensures PartWay(start, op, 0, start, [])
  {
  }

  lemma PartWayGoesOn(start: Store, op: Op, k: nat, now: Store, items: seq<Row>)
    requires PartWay(start, op, k, now, items) && !IsOver(now, op, k)
    ensures PartWay(start, op, k + 1, StoreAfter(now, op, k), items + Fetched(now, op, k))
  {
    hide Matching, Upsert, Without;
    if op.PutWrites? {
      assert op.rows[..k + 1][..k] == op.rows[..k];
    }
  }

  lemma PartWayEnds(start: Store, op: Op, k: nat, now: Store, items: seq<Row>)
    requires PartWay(start, op, k, now, items) && IsOver(now, op, k)
    ensures now == AfterOp(start, op) && items == Answer(start, op)
  {
    hide Matching, Upsert, Without, Upserts;
    if op.PutWrites? {
      assert op.rows[..k] == op.rows;
    }
  }

  /** The call has its place in the lock order, not before those that had taken the lock when it was
      made, and got what it gets there, or the first of it if its consumer left. */
  ghost predicate InItsPlace(first: Store, s: State, i: nat)
    requires i < |s.calls| && s.calls[i].progress.Over?
  {
    var Over(at, items, closed) := s.calls[i].progress;
    var op := s.calls[i].op;
    && s.calls[i].made <= at < |s.order| && s.order[at] == op
    && (if closed then op.List? && items <= Answer(Replay(first, s.order[..at]), op)
        else items == Answer(Replay(first, s.order[..at]), op))
  }

  ghost predicate CallOk(first: Store, s: State, i: nat)
    requires i < |s.calls|
  {
    var call := s.calls[i];
    match call.progress
    case Waiting => call.made <= |s.order| && s.holder != Some(i)
    case Inside(at, k, items) =>
      && s.holder == Some(i) && call.made <= at && at + 1 == |s.order| && s.order[at] == call.op
      && PartWay(Replay(first, s.order[..at]), call.op, k, s.store, items)
    case Over(_, _, _) => s.holder != Some(i) && InItsPlace(first, s, i)
  }

  ghost predicate Valid(first: Store, s: State) {
    && (s.holder.Some? ==> s.holder.value < |s.calls| && s.calls[s.holder.value].progress.Inside?)
    && (s.holder.None? ==> s.store == Replay(first, s.order))
    && forall i | 0 <= i < |s.calls| :: CallOk(first, s, i)
  }

  lemma ReplayOne(first: Store, order: seq<Op>, op: Op)
    ensures Replay(first, order + [op]) == AfterOp(Replay(first, order), op)
  {
    assert (order + [op])[..|order|] == order;
  }

  lemma CallSurvives(first: Store, s: State, n: State, i: nat)
    requires i < |s.calls| && CallOk(first, s, i) && i < |n.calls| && n.calls[i] == s.calls[i]
             && !s.calls[i].progress.Inside?
    requires n.holder != Some(i) && |s.order| <= |n.order| && n.order[..|s.order|] == s.order
    ensures CallOk(first, n, i)
  {
    if s.calls[i].progress.Over? {
      var at := s.calls[i].progress.at;
      assert n.order[at] == n.order[..|s.order|][at];
      assert n.order[..at] == n.order[..|s.order|][..at];
    }
    hide Replay, Answer;
  }

  lemma MovingCallOk(first: Store, s: State, e: Event)
    requires Enabled(s, e) && Valid(first, s) && !e.Invoke?
    ensures CallOk(first, Apply(s, e), e.i)
    ensures Apply(s, e).holder.None? ==> Apply(s, e).store == Replay(first, Apply(s, e).order)
  {
    hide Replay, Answer, PartWay, StoreAfter, Fetched, IsOver, AfterOp;
    assert CallOk(first, s, e.i);
    match e {
      case Acquire(i) =>
        assert (s.order + [s.calls[i].op])[..|s.order|] == s.order;
        PartWayBegins(s.store, s.calls[i].op);
      case Statement(i) =>
        var Inside(at, k, items) := s.calls[i].progress;
        PartWayGoesOn(Replay(first, s.order[..at]), s.calls[i].op, k, s.store, items);
      case Release(i) =>
        var Inside(at, k, items) := s.calls[i].progress;
        PartWayEnds(Replay(first, s.order[..at]), s.calls[i].op, k, s.store, items);
        ReplayOne(first, s.order[..at], s.calls[i].op);
        assert s.order == s.order[..at] + [s.calls[i].op];
      case Close(i) =>
        var Inside(at, k, items) := s.calls[i].progress;
        ListingLeft(Replay(first, s.order[..at]), s.calls[i].op, k, s.store, items);
        ReplayOne(first, s.order[..at], s.calls[i].op);
        assert s.order == s.order[..at] + [s.calls[i].op];
    }
  }

  lemma ListingLeft(start: Store, op: Op, k: nat, now: Store, items: seq<Row>)
    requires PartWay(start, op, k, now, items) && op.List?
    ensures now == start == AfterOp(start, op) && items <= Answer(start, op)
  {
  }

  lemma StepKeepsValid(first: Store, s: State, e: Event)
    requires Enabled(s, e) && Valid(first, s)
    ensures Valid(first, Apply(s, e))
  {
    hide Replay, Answer, PartWay, StoreAfter, Fetched, IsOver, AfterOp;
    var n := Apply(s, e);
    if !e.Invoke? {
      assert CallOk(first, s, e.i);
      MovingCallOk(first, s, e);
    }
    assert n.order[..|s.order|] == s.order;
    forall i | 0 <= i < |n.calls| ensures CallOk(first, n, i) {
      if i < |s.calls| && (e.Invoke? || i != e.i) {
        assert CallOk(first, s, i);
        if !s.calls[i].progress.Inside? {
          CallSurvives(first, s, n, i);
        } else {
          assert e.Invoke? && n.order == s.order;
        }
      }
    }
  }

  lemma {:induction false} RunKeepsValid(first: Store, s: State, events: seq<Event>)
    requires IsRun(s, events) && Valid(first, s)
    ensures Valid(first, After(s, events))
    decreases |events|
  {
    if events != [] {
      hide Valid, Enabled, Apply;
      StepKeepsValid(first, s, events[0]);
      RunKeepsValid(first, Apply(s, events[0]), events[1..]);
    }
  }

  /** Whatever the interleaving: at most one operation is inside at a time; when none is, the store is
      what the operations make of it one after the other in lock order; and what a call that is over
      got is what it gets there, at its place in that order, which is behind every operation that had
      taken the lock before the call was made. A listing got exactly the rows the store held when it
      took the lock, or the first of them if its consumer left early. */
  lemma AsIfOneByOne(first: Store, events: seq<Event>)
    requires IsRun(State(first, None, [], []), events)
    ensures var s := After(State(first, None, [], []), events);
            && (forall i, j | IsInside(s, i) && IsInside(s, j) :: i == j)
            && ((forall i :: !IsInside(s, i)) ==> s.store == Replay(first, s.order))
            && forall i | 0 <= i < |s.calls| && s.calls[i].progress.Over? ::
                 InItsPlace(first, s, i)
  {
    RunKeepsValid(first, State(first, None, [], []), events);
    var s := After(State(first, None, [], []), events);
    hide IsRun, After, Replay, Answer, PartWay;
    forall i | 0 <= i < |s.calls| ensures CallOk(first, s, i) && (IsInside(s, i) ==> s.holder == Some(i)) {
      assert CallOk(first, s, i);
    }
    forall i | 0 <= i < |s.calls| && s.calls[i].progress.Over? ensures InItsPlace(first, s, i) {
      assert CallOk(first, s, i);
    }
    if s.holder.Some? {
      assert IsInside(s, s.holder.value);
    }
  }

  /** Two calls that are over took the lock at different places, and the one made after the other was
      over took it later. */
  lemma {:induction false} OrderIsStrict(first: Store, s: State, events: seq<Event>, i: nat)
    requires IsRun(s, events) && Valid(first, s) && i < |s.calls| && s.calls[i].progress.Over?
    ensures var n := After(s, events);
            && i < |n.calls| && n.calls[i] == s.calls[i]
            && forall j | |s.calls| <= j < |n.calls| && n.calls[j].progress.Over? ::
                 n.calls[j].progress.at > n.calls[i].progress.at
    decreases |events|
  {
    hide IsRun, After, Replay, Answer, PartWay;
    RunKeepsValid(first, s, events);
    assert CallOk(first, s, i);
    MadeLater(first, s, events, i, |s.calls|, |s.order|);
    var n := After(s, events);
    forall j | |s.calls| <= j < |n.calls| && n.calls[j].progress.Over?
      ensures n.calls[j].progress.at > s.calls[i].progress.at
    {
      assert CallOk(first, n, j);
    }
  }

  lemma {:induction false} MadeLater(first: Store, s: State, events: seq<Event>, i: nat, calls: nat, ops: nat)
    requires IsRun(s, events) && Valid(first, s) && i < calls <= |s.calls| && s.calls[i].progress.Over?
    requires ops <= |s.order| && forall j | calls <= j < |s.calls| :: s.calls[j].made >= ops
    ensures var n := After(s, events);
            calls <= |n.calls| && n.calls[i] == s.calls[i] && forall j | calls <= j < |n.calls| ::
              n.calls[j].made >= ops
    decreases |events|
  {
    if events != [] {
      StepKeepsValid(first, s, events[0]);
      hide Valid;
      MadeLater(first, Apply(s, events[0]), events[1..], i, calls, ops);
    }
  }

  // ---- what the operations mean ----

  /** The listed rows are all those that match, the one that came last first. */
  lemma {:induction false} NewestFirst(rows: seq<Row>, query: Query) returns (places: seq<nat>)
    ensures var listed := Matching(rows, query);
            && |places| == |listed|
            && (forall k | 0 <= k < |listed| :: places[k] < |rows| && listed[k] == rows[places[k]])
            && (forall j, k | 0 <= j < k < |places| :: places[j] > places[k])
            && forall i | 0 <= i < |rows| && Matches(rows[i], query) :: i in places
  {
    hide Matches;
    if rows == [] {
      places := [];
    } else {
      var n := |rows| - 1;
      var rest := NewestFirst(rows[..n], query);
      places := (if Matches(rows[n], query) then [n] else []) + rest;
      forall i | 0 <= i < |rows| && Matches(rows[i], query) ensures i in places {
        assert i < n ==> rows[..n][i] == rows[i] && i in rest;
      }
    }
  }

  predicate SameKey(a: Row, b: Row) {
    a.thread == b.thread && a.id == b.id
  }

  predicate DistinctKeys(rows: seq<Row>) {
    forall i, j | 0 <= i < j < |rows| :: !SameKey(rows[i], rows[j])
  }

  /** Behind an upsert the row is there, in place of the one with its key, and the others are as before. */
  lemma {:induction false} UpsertIs(rows: seq<Row>, row: Row)
    requires DistinctKeys(rows)
    ensures var after := Upsert(rows, row);
            && DistinctKeys(after) && (forall r :: r in after <==> r == row || (r in rows && !SameKey(r, row)))
            && |after| == |rows| + (if exists r :: r in rows && SameKey(r, row) then 0 else 1)
  {
    if rows != [] {
      assert rows == [rows[0]] + rows[1..];
      if SameKey(rows[0], row) {
        forall r | r in rows[1..] ensures !SameKey(r, row) {
          var i :| 0 <= i < |rows[1..]| && rows[1..][i] == r;
          assert rows[i + 1] == r;
        }
      } else {
        UpsertIs(rows[1..], row);
        var after := Upsert(rows[1..], row);
        forall i | 0 <= i < |after| ensures !SameKey(rows[0], after[i]) {
          assert after[i] in after;
          if after[i] in rows[1..] {
            var j :| 0 <= j < |rows[1..]| && rows[1..][j] == after[i];
            assert rows[j + 1] == after[i];
          }
        }
      }
    }
  }
}
