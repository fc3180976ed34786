/** core/token_budget.py and core/execution_semaphore.py: the monthly budget that runs check before
    they spend, and the slots that bound how many runs are between the two. Costs are exact numbers. */
module TokenBudget {
  import opened Wrappers

  type Id = nat

  /** A workspace: its budget, what it has spent this month, and how many usage rows there were when the
      month began. */
  datatype Account = Account(budget: real, spend: real, since: nat)

  datatype Usage = Usage(workspace: Id, tokens: nat, cost: real)

  datatype Books = Books(accounts: map<Id, Account>, usage: seq<Usage>)

  datatype BudgetError = WorkspaceNotFound | BudgetExceeded(budget: real, spent: real)

  function Cost(tokens: nat, rate: real): real {
    tokens as real * rate
  }

  function Recorded(b: Books, id: Id, tokens: nat, cost: real): Books
    requires id in b.accounts
  {
    Books(b.accounts[id := b.accounts[id].(spend := b.accounts[id].spend + cost)], b.usage + [Usage(id, tokens, cost)])
  }

  function Reset(b: Books, id: Id): Books {
    if id in b.accounts then b.(accounts := b.accounts[id := b.accounts[id].(spend := 0.0, since := |b.usage|)]) else b
  }

  predicate Affords(b: Books, id: Id, estimate: real) {
    id in b.accounts && b.accounts[id].spend + estimate <= b.accounts[id].budget
  }

  /** What these usage rows cost this workspace. */
  function CostOf(usage: seq<Usage>, id: Id): real {
    if usage == [] then 0.0
    else CostOf(usage[..|usage| - 1], id) + if usage[|usage| - 1].workspace == id then usage[|usage| - 1].cost else 0.0
  }

  /** The spend is the cost of the usage rows since the last reset. */
  predicate Balanced(b: Books) {
    forall id | id in b.accounts ::
      b.accounts[id].since <= |b.usage| && b.accounts[id].spend == CostOf(b.usage[b.accounts[id].since..], id)
  }

  class TokenBudgetGuard {
    var accounts: map<Id, Account>
    var usage: seq<Usage>

    function View(): Books
      reads this
    {
      Books(accounts, usage)
    }

    constructor (accounts: map<Id, Account>)
      requires forall id | id in accounts :: accounts[id].spend == 0.0 && accounts[id].since == 0
      ensures View() == Books(accounts, []) && Balanced(View())
    {
      this.accounts, usage := accounts, [];
    }

    method AssertBudgetAvailable(id: Id, estimatedTokens: nat, rate: real) returns (r: Result<(), BudgetError>)
      ensures r.Ok? <==>
                id in accounts && accounts[id].spend + estimatedTokens as real * rate <= accounts[id].budget
      ensures r.Err? ==> r.error == if id !in accounts then WorkspaceNotFound
                                    else BudgetExceeded(accounts[id].budget, accounts[id].spend)
    {
      if id !in accounts {
        return Err(WorkspaceNotFound);
      }
      var account := accounts[id];
      if account.spend + Cost(estimatedTokens, rate) > account.budget {
        return Err(BudgetExceeded(account.budget, account.spend));
      }
      return Ok(());
    }

    /** The usage row and the spend in one transaction: an unknown workspace leaves both alone. */
    method RecordUsage(id: Id, tokens: nat, rate: real) returns (r: Result<real, BudgetError>)
      modifies this
      ensures if id in old(accounts) then
              r == Ok(tokens as real * rate) && View() == Recorded(old(View()), id, tokens, r.value)
              else r == Err(WorkspaceNotFound) && View() == old(View())
      ensures id in old(accounts) ==>
                && usage == old(usage) + [Usage(id, tokens, tokens as real * rate)]
                && accounts[id].spend == old(accounts)[id].spend + tokens as real * rate
      ensures old(Balanced(View())) ==> Balanced(View())
    {
      if id !in accounts {
        return Err(WorkspaceNotFound);
      }
      var cost := Cost(tokens, rate);
      RecordingBalances(View(), id, tokens, cost);
      usage := usage + [Usage(id, tokens, cost)];
      accounts := accounts[id := accounts[id].(spend := accounts[id].spend + cost)];
      return Ok(cost);
    }

    method ResetMonthlySpend(id: Id)
      modifies this`accounts
      ensures View() == Reset(old(View()), id)
      ensures id in old(accounts) ==>
                accounts == old(accounts)[id := old(accounts)[id].(spend := 0.0, since := |usage|)]
      ensures old(Balanced(View())) ==> Balanced(View())
    {
      if id in accounts {
        accounts := accounts[id := accounts[id].(spend := 0.0, since := |usage|)];
      }
    }
  }

  lemma CostOfOneMore(usage: seq<Usage>, since: nat, u: Usage, id: Id)
    requires since <= |usage|
    ensures CostOf((usage + [u])[since..], id) == CostOf(usage[since..], id) + if u.workspace == id then u.cost else 0.0
  {
    var rows := (usage + [u])[since..];
    assert rows == usage[since..] + [u];
    assert rows[..|rows| - 1] == usage[since..];
  }

  lemma RecordingBalances(b: Books, id: Id, tokens: nat, cost: real)
    requires id in b.accounts
    ensures Balanced(b) ==> Balanced(Recorded(b, id, tokens, cost))
  {
    hide CostOf;
    forall w | w in b.accounts && Balanced(b)
      ensures CostOf((b.usage + [Usage(id, tokens, cost)])[b.accounts[w].since..], w) ==
              CostOf(b.usage[b.accounts[w].since..], w) + if w == id then cost else 0.0
    {
      CostOfOneMore(b.usage, b.accounts[w].since, Usage(id, tokens, cost), w);
    }
  }

  // ---- the slots of one process ----

  class Semaphore {
    const capacity: nat
    var free: nat

    ghost predicate Valid()
      reads this
    {
      free <= capacity
    }

    constructor (capacity: nat)
      ensures Valid() && this.capacity == free == capacity
    {
      this.capacity, free := capacity, capacity;
    }

    /** False when every slot is taken, and the run must wait. */
    method Acquire() returns (got: bool)
      requires Valid()
      modifies this
      ensures Valid() && got == (old(free) > 0) && free == old(free) - (if got then 1 else 0)
    {
      got := free > 0;
      if got {
        free := free - 1;
      }
    }

    method Release()
      requires Valid() && free < capacity
      modifies this
      ensures Valid() && free == old(free) + 1
    {
      free := free + 1;
    }
  }

  class App {
    const poolMaxSize: nat
    var semaphore: Semaphore?

    constructor (poolMaxSize: nat)
      ensures this.poolMaxSize == poolMaxSize && semaphore == null
    {
      this.poolMaxSize, semaphore := poolMaxSize, null;
    }

    /** One semaphore for the life of the process, as large as the connection pool. */
    method GetOrCreateSemaphore() returns (s: Semaphore)
      modifies this`semaphore
      ensures semaphore == s
      ensures old(semaphore) != null ==> s == old(semaphore)
      ensures old(semaphore) == null ==> fresh(s) && s.Valid() && s.free == s.capacity == poolMaxSize
    {
      if semaphore != null {
        return semaphore;
      }
      s := new Semaphore(poolMaxSize);
      semaphore := s;
    }
  }

  // ---- runs of all processes ----

  datatype Phase = Entered | Checked | Spent

  /** A run in its slot: its process, its workspace, and whether it has passed the check and recorded. */
  datatype Run = Run(process: nat, workspace: Id, phase: Phase)

  /** The books, the free slots of each process, the runs in flight, and for each workspace how many
      recordings without a check of their own there were since its last passed check or reset. */
  datatype State = State(books: Books, free: seq<nat>, running: seq<Run>, unchecked: map<Id, nat>)

  /** Resumed runs record again, in no slot and after no check: RecordUnchecked. */
  datatype Event =
    | Enter(process: nat, workspace: Id)
    | Check(run: nat, estimate: real)
    | Record(run: nat, tokens: nat, cost: real)
    | Leave(run: nat)
    | RecordUnchecked(workspace: Id, tokens: nat, cost: real)
    | StartMonth(workspace: Id)

  /** No recording costs more than the given amount. */
  predicate Enabled(s: State, most: real, e: Event) {
    match e
    case Enter(process, workspace) => process < |s.free| && s.free[process] > 0 && workspace in s.books.accounts
    case Check(run, estimate) =>
      run < |s.running| && s.running[run].phase.Entered? && estimate >= 0.0
        && Affords(s.books, s.running[run].workspace, estimate)
    case Record(run, _, cost) =>
      run < |s.running| && s.running[run].phase.Checked? && s.running[run].workspace in s.books.accounts
        && 0.0 <= cost <= most
    case Leave(run) => run < |s.running| && s.running[run].process < |s.free|
    case RecordUnchecked(workspace, _, cost) => workspace in s.books.accounts && 0.0 <= cost <= most
    case StartMonth(_) => true
  }

  function UncheckedOf(s: State, id: Id): nat {
    if id in s.unchecked then s.unchecked[id] else 0
  }

  function Apply(s: State, most: real, e: Event): State
    requires Enabled(s, most, e)
  {
    match e
    case Enter(process, workspace) =>
      s.(free := s.free[process := s.free[process] - 1], running := s.running + [Run(process, workspace, Entered)])
    case Check(run, _) =>
      s.(running := s.running[run := s.running[run].(phase := Checked)],
        unchecked := s.unchecked[s.running[run].workspace := 0])
    case Record(run, tokens, cost) =>
      s.(books := Recorded(s.books, s.running[run].workspace, tokens, cost),
        running := s.running[run := s.running[run].(phase := Spent)])
    case Leave(run) =>
      var process := s.running[run].process;
      s.(free := s.free[process := s.free[process] + 1], running := s.running[..run] + s.running[run + 1..])
    case RecordUnchecked(workspace, tokens, cost) =>
      s.(books := Recorded(s.books, workspace, tokens, cost),
        unchecked := s.unchecked[workspace := UncheckedOf(s, workspace) + 1])
    case StartMonth(workspace) => s.(books := Reset(s.books, workspace), unchecked := s.unchecked[workspace := 0])
  }

  ghost predicate IsRun(s: State, most: real, events: seq<Event>)
    decreases |events|
  {
    events == [] || (Enabled(s, most, events[0]) && IsRun(Apply(s, most, events[0]), most, events[1..]))
  }

  ghost function After(s: State, most: real, events: seq<Event>): State
    requires IsRun(s, most, events)
    decreases |events|
  {
    if events == [] then s else After(Apply(s, most, events[0]), most, events[1..])
  }

  // ---- how many runs there are ----

  function Of(running: seq<Run>, process: nat): nat {
    if running == [] then 0
    else Of(running[..|running| - 1], process) + if running[|running| - 1].process == process then 1 else 0
  }

  /** The runs of a workspace between check and record. */
  function Open(running: seq<Run>, id: Id): nat {
    if running == [] then 0
    else Open(running[..|running| - 1], id) +
         if running[|running| - 1].workspace == id && running[|running| - 1].phase.Checked? then 1 else 0
  }

  function Sum(s: seq<nat>): nat {
    if s == [] then 0 else Sum(s[..|s| - 1]) + s[|s| - 1]
  }

  lemma {:induction false} OpenConcat(a: seq<Run>, b: seq<Run>, id: Id)
    ensures Open(a + b, id) == Open(a, id) + Open(b, id)
  {
    if b == [] {
      assert a + b == a;
    } else {
      OpenConcat(a, b[..|b| - 1], id);
      assert (a + b)[..|a + b| - 1] == a + b[..|b| - 1];
    }
  }

  lemma {:induction false} OfConcat(a: seq<Run>, b: seq<Run>, process: nat)
    ensures Of(a + b, process) == Of(a, process) + Of(b, process)
  {
    if b == [] {
      assert a + b == a;
    } else {
      OfConcat(a, b[..|b| - 1], process);
      assert (a + b)[..|a + b| - 1] == a + b[..|b| - 1];
    }
  }

  lemma One(run: Run, id: Id, process: nat)
    ensures Open([run], id) == if run.workspace == id && run.phase.Checked? then 1 else 0
    ensures Of([run], process) == if run.process == process then 1 else 0
  {
    assert [run][..0] == [];
  }

  /** What replacing one run changes. */
  lemma Replaced(running: seq<Run>, i: nat, run: Run, id: Id, process: nat)
    requires i < |running|
    ensures Open(running[i := run], id) == Open(running, id) - Open([running[i]], id) + Open([run], id)
    ensures Of(running[i := run], process) == Of(running, process) - Of([running[i]], process) + Of([run], process)
    ensures Open(running[..i] + running[i + 1..], id) == Open(running, id) - Open([running[i]], id)
    ensures Of(running[..i] + running[i + 1..], process) == Of(running, process) - Of([running[i]], process)
  {
    hide Open, Of;
    var a, b := running[..i], running[i + 1..];
    assert running == a + ([running[i]] + b) && running[i := run] == a + ([run] + b);
    OpenConcat(a, [running[i]] + b, id);
    OpenConcat([running[i]], b, id);
    OpenConcat(a, [run] + b, id);
    OpenConcat([run], b, id);
    OpenConcat(a, b, id);
    OfConcat(a, [running[i]] + b, process);
    OfConcat([running[i]], b, process);
    OfConcat(a, [run] + b, process);
    OfConcat([run], b, process);
    OfConcat(a, b, process);
  }

  lemma {:induction false} OpenAtMost(running: seq<Run>, id: Id)
    ensures Open(running, id) <= |running|
  {
    if running != [] {
      OpenAtMost(running[..|running| - 1], id);
    }
  }

  /** Slots taken, process by process, are as many as there are runs. */
  ghost predicate SlotsHold(s: State, capacity: seq<nat>) {
    && |s.free| == |capacity| && (forall i | 0 <= i < |s.running| :: s.running[i].process < |capacity|)
    && forall p | 0 <= p < |capacity| :: s.free[p] + Of(s.running, p) == capacity[p]
  }

  /** The runs of the first n processes. */
  function FirstOnes(running: seq<Run>, n: nat): nat {
    if n == 0 then 0 else FirstOnes(running, n - 1) + Of(running, n - 1)
  }

  lemma {:induction false} OneMoreRun(running: seq<Run>, n: nat)
    requires running != []
    ensures FirstOnes(running, n) ==
            FirstOnes(running[..|running| - 1], n) + if running[|running| - 1].process < n then 1 else 0
  {
    if n > 0 {
      OneMoreRun(running, n - 1);
    }
  }

  lemma {:induction false} EveryRunHasAProcess(running: seq<Run>, n: nat)
    requires forall i | 0 <= i < |running| :: running[i].process < n
    ensures FirstOnes(running, n) == |running|
  {
    if running != [] {
      OneMoreRun(running, n);
      EveryRunHasAProcess(running[..|running| - 1], n);
    } else {
      NobodyRuns(running, n);
    }
  }

  lemma {:induction false} NobodyRuns(running: seq<Run>, n: nat)
    requires running == []
    ensures FirstOnes(running, n) == 0
  {
    if n > 0 {
      NobodyRuns(running, n - 1);
    }
  }

  lemma {:induction false} RunsFitSlots(s: State, capacity: seq<nat>, n: nat)
    requires SlotsHold(s, capacity) && n <= |capacity|
    ensures FirstOnes(s.running, n) <= Sum(capacity[..n])
  {
    if n > 0 {
      RunsFitSlots(s, capacity, n - 1);
      assert capacity[..n][..n - 1] == capacity[..n - 1];
    }
  }

  /** Never more runs in flight, over all processes, than there are slots. */
  lemma RunsAtMostSlots(s: State, capacity: seq<nat>)
    requires SlotsHold(s, capacity)
    ensures |s.running| <= Sum(capacity)
  {
    EveryRunHasAProcess(s.running, |capacity|);
    RunsFitSlots(s, capacity, |capacity|);
    assert capacity[..|capacity|] == capacity;
  }

  lemma EnterKeepsSlots(s: State, most: real, e: Event, capacity: seq<nat>)
    requires Enabled(s, most, e) && e.Enter? && SlotsHold(s, capacity)
    ensures SlotsHold(Apply(s, most, e), capacity)
  {
    hide Of;
    forall p | 0 <= p < |capacity| ensures Apply(s, most, e).free[p] + Of(Apply(s, most, e).running, p) == capacity[p] {
      OfConcat(s.running, [Run(e.process, e.workspace, Entered)], p);
      One(Run(e.process, e.workspace, Entered), 0, p);
    }
  }

  lemma LeaveKeepsSlots(s: State, most: real, e: Event, capacity: seq<nat>)
    requires Enabled(s, most, e) && e.Leave? && SlotsHold(s, capacity)
    ensures SlotsHold(Apply(s, most, e), capacity)
  {
    hide Of;
    forall p | 0 <= p < |capacity| ensures Apply(s, most, e).free[p] + Of(Apply(s, most, e).running, p) == capacity[p] {
      Replaced(s.running, e.run, s.running[e.run], 0, p);
      One(s.running[e.run], 0, p);
    }
  }

  lemma OtherStepKeepsSlots(s: State, most: real, e: Event, capacity: seq<nat>)
    requires Enabled(s, most, e) && !e.Enter? && !e.Leave? && SlotsHold(s, capacity)
    ensures SlotsHold(Apply(s, most, e), capacity)
  {
    var n := Apply(s, most, e);
    if e.Check? || e.Record? {
      hide Of, Enabled, Affords, Recorded;
      forall p | 0 <= p < |capacity| ensures Of(n.running, p) == Of(s.running, p) {
        Replaced(s.running, e.run, n.running[e.run], 0, p);
        One(s.running[e.run], 0, p);
        One(n.running[e.run], 0, p);
      }
    }
  }

  lemma StepKeepsSlots(s: State, most: real, e: Event, capacity: seq<nat>)
    requires Enabled(s, most, e) && SlotsHold(s, capacity)
    ensures SlotsHold(Apply(s, most, e), capacity)
  {
    hide Enabled, Apply, SlotsHold;
    if e.Enter? {
      EnterKeepsSlots(s, most, e, capacity);
    } else if e.Leave? {
      LeaveKeepsSlots(s, most, e, capacity);
    } else {
      OtherStepKeepsSlots(s, most, e, capacity);
    }
  }

  // ---- the bound ----

  /** The spend, with everything that runs past their check may still record. */
  ghost predicate WithinReach(s: State, most: real, slots: nat, id: Id) {
    id in s.books.accounts ==>
      s.books.accounts[id].spend + most * Open(s.running, id) as real
      <= s.books.accounts[id].budget + most * (slots + UncheckedOf(s, id)) as real
  }

  /** How many runs of each workspace are open after a step. */
  lemma OpenAfter(s: State, most: real, e: Event, id: Id)
    requires Enabled(s, most, e)
    ensures var change := if e.Check? && s.running[e.run].workspace == id then 1
                          else if e.Record? && s.running[e.run].workspace == id then -1
                          else if e.Leave? && s.running[e.run].workspace == id
                            && s.running[e.run].phase.Checked? then -1 else 0;
            Open(Apply(s, most, e).running, id) == Open(s.running, id) + change
  {
    var n := Apply(s, most, e);
    hide Open, Recorded, Reset, Affords;
    match e {
      case Enter(process, workspace) =>
        OpenConcat(s.running, [Run(process, workspace, Entered)], id);
        One(Run(process, workspace, Entered), id, 0);
      case Leave(run) =>
        Replaced(s.running, run, s.running[run], id, 0);
        One(s.running[run], id, 0);
      case Check(run, _) =>
        Replaced(s.running, run, n.running[run], id, 0);
        One(s.running[run], id, 0);
        One(n.running[run], id, 0);
      case Record(run, _, _) =>
        Replaced(s.running, run, n.running[run], id, 0);
        One(s.running[run], id, 0);
        One(n.running[run], id, 0);
      case _ =>
    }
  }

  lemma Scaled(most: real, a: int, b: int)
    requires most >= 0.0
    ensures most * (a + b) as real == most * a as real + most * b as real
    ensures a <= b ==> most * a as real <= most * b as real
  {
  }

  /** Within reach, in numbers. */
  predicate Reaches(account: Account, most: real, open: nat, slots: nat, unchecked: nat) {
    account.spend + most * open as real <= account.budget + most * (slots + unchecked) as real
  }

  lemma PassedCheckReaches(account: Account, most: real, open: nat, slots: nat)
    requires account.spend <= account.budget && open <= slots && most >= 0.0
    ensures Reaches(account, most, open, slots, 0)
  {
    Scaled(most, open, slots);
  }

  lemma RecordReaches(account: Account, most: real, open: nat, slots: nat, unchecked: nat, cost: real)
    requires Reaches(account, most, open + 1, slots, unchecked) && cost <= most
    ensures Reaches(account.(spend := account.spend + cost), most, open, slots, unchecked)
  {
    assert most * (open + 1) as real == most * open as real + most;
  }

  lemma UncheckedReaches(account: Account, most: real, open: nat, slots: nat, unchecked: nat, cost: real)
    requires Reaches(account, most, open, slots, unchecked) && cost <= most
    ensures Reaches(account.(spend := account.spend + cost), most, open, slots, unchecked + 1)
  {
    assert most * (slots + unchecked + 1) as real == most * (slots + unchecked) as real + most;
  }

  lemma FewerReach(account: Account, most: real, open: nat, slots: nat, unchecked: nat)
    requires Reaches(account, most, open + 1, slots, unchecked) && most >= 0.0
    ensures Reaches(account, most, open, slots, unchecked)
  {
    Scaled(most, open, open + 1);
  }

  lemma StepStaysWithinReach(s: State, most: real, e: Event, capacity: seq<nat>, id: Id)
    requires Enabled(s, most, e) && SlotsHold(s, capacity) && most >= 0.0
    requires WithinReach(s, most, Sum(capacity), id)
    requires id in s.books.accounts ==> s.books.accounts[id].budget >= 0.0
    ensures WithinReach(Apply(s, most, e), most, Sum(capacity), id)
    ensures id in Apply(s, most, e).books.accounts ==>
              id in s.books.accounts && Apply(s, most, e).books.accounts[id].budget == s.books.accounts[id].budget
  {
    hide Open, SlotsHold, Sum, Reaches, WithinReach, Affords;
    if id !in s.books.accounts {
      NoAccount(Apply(s, most, e), most, Sum(capacity), id);
    } else {
      var n, slots, account := Apply(s, most, e), Sum(capacity), s.books.accounts[id];
      StepKeepsSlots(s, most, e, capacity);
      RunsAtMostSlots(n, capacity);
      OpenAtMost(n.running, id);
      OpenAfter(s, most, e, id);
      var before, open := Open(s.running, id), Open(n.running, id);
      ReachesMeans(s, most, slots, id);
      ReachesMeans(n, most, slots, id);
      match e {
        case Check(run, _) =>
          if s.running[run].workspace == id {
            CheckAffords(s, most, e);
            PassedCheckReaches(account, most, open, slots);
          }
        case Record(run, _, cost) =>
          if s.running[run].workspace == id {
            RecordReaches(account, most, open, slots, UncheckedOf(s, id), cost);
          }
        case Leave(run) =>
          if open < before {
            FewerReach(account, most, open, slots, UncheckedOf(s, id));
          }
        case RecordUnchecked(workspace, _, cost) =>
          if workspace == id {
            UncheckedReaches(account, most, open, slots, UncheckedOf(s, id), cost);
          }
        case StartMonth(workspace) =>
          if workspace == id {
            PassedCheckReaches(account.(spend := 0.0, since := |s.books.usage|), most, open, slots);
          }
        case Enter(_, _) =>
      }
    }
  }

  lemma NoAccount(s: State, most: real, slots: nat, id: Id)
    requires id !in s.books.accounts
    ensures WithinReach(s, most, slots, id)
  {
  }

  lemma CheckAffords(s: State, most: real, e: Event)
    requires Enabled(s, most, e) && e.Check?
    ensures var w := s.running[e.run].workspace;
            w in s.books.accounts
            && s.books.accounts[w].spend <= s.books.accounts[w].budget
  {
  }

  lemma WithinReachBounds(s: State, most: real, slots: nat, id: Id)
    requires id in s.books.accounts && WithinReach(s, most, slots, id) && most >= 0.0
    ensures s.books.accounts[id].spend <= s.books.accounts[id].budget + most * (slots + UncheckedOf(s, id)) as real
  {
    Scaled(most, 0, Open(s.running, id));
  }

  lemma ReachesMeans(s: State, most: real, slots: nat, id: Id)
    requires id in s.books.accounts
    ensures WithinReach(s, most, slots, id) <==>
            Reaches(s.books.accounts[id], most, Open(s.running, id), slots, UncheckedOf(s, id))
  {
  }

  lemma {:induction false} RunStaysWithinReach(s: State, most: real, events: seq<Event>, capacity: seq<nat>)
    requires IsRun(s, most, events) && SlotsHold(s, capacity) && most >= 0.0
    requires forall id | id in s.books.accounts :: s.books.accounts[id].budget >= 0.0
    requires Balanced(s.books) && forall id :: WithinReach(s, most, Sum(capacity), id)
    ensures var n := After(s, most, events);
            && SlotsHold(n, capacity) && Balanced(n.books) && (forall id :: WithinReach(n, most, Sum(capacity), id))
            && forall id | id in n.books.accounts ::
               id in s.books.accounts && n.books.accounts[id].budget == s.books.accounts[id].budget
    decreases |events|
  {
    if events != [] {
      var e, next := events[0], Apply(s, most, events[0]);
      hide WithinReach, SlotsHold, Balanced, Apply, Enabled, Sum;
      forall id ensures WithinReach(next, most, Sum(capacity), id)
        ensures id in next.books.accounts ==>
                  id in s.books.accounts && next.books.accounts[id].budget == s.books.accounts[id].budget
      {
        StepStaysWithinReach(s, most, e, capacity, id);
      }
      StepKeepsSlots(s, most, e, capacity);
      StepBalances(s, most, e);
      RunStaysWithinReach(next, most, events[1..], capacity);
    }
  }

  lemma StepBalances(s: State, most: real, e: Event)
    requires Enabled(s, most, e) && Balanced(s.books)
    ensures Balanced(Apply(s, most, e).books)
  {
    match e {
      case Record(run, tokens, cost) => RecordingBalances(s.books, s.running[run].workspace, tokens, cost);
      case RecordUnchecked(workspace, tokens, cost) => RecordingBalances(s.books, workspace, tokens, cost);
      case _ =>
    }
  }

  /** In any interleaving of the runs of any number of processes: the spend is what the usage rows since
      the last reset add up to; and if no recording costs more than a given amount, it exceeds the budget
      by no more than that amount for each slot and each recording that followed no check, counted since
      the last check that passed. */
  lemma SpendIsBounded(s: State, most: real, capacity: seq<nat>, events: seq<Event>, id: Id)
    requires s == State(s.books, capacity, [], map[]) && Balanced(s.books) && id in s.books.accounts && most >= 0.0
    requires forall w | w in s.books.accounts ::
             s.books.accounts[w].budget >= 0.0 && s.books.accounts[w].spend <= s.books.accounts[w].budget
    requires IsRun(s, most, events) && id in After(s, most, events).books.accounts
    ensures var n := After(s, most, events);
            var account := n.books.accounts[id];
            && |n.running| <= Sum(capacity)
            && account.since <= |n.books.usage| && account.spend == CostOf(n.books.usage[account.since..], id)
            && account.spend <= s.books.accounts[id].budget + most * (Sum(capacity) + UncheckedOf(n, id)) as real
  {
    hide IsRun, After, Open, Sum, SlotsHold, WithinReach;
    StartsWithinReach(s, most, capacity);
    RunStaysWithinReach(s, most, events, capacity);
    var n := After(s, most, events);
    RunsAtMostSlots(n, capacity);
    WithinReachBounds(n, most, Sum(capacity), id);
  }

  lemma StartsWithinReach(s: State, most: real, capacity: seq<nat>)
    requires s == State(s.books, capacity, [], map[]) && most >= 0.0
    requires forall w | w in s.books.accounts :: s.books.accounts[w].spend <= s.books.accounts[w].budget
    ensures SlotsHold(s, capacity) && forall w :: WithinReach(s, most, Sum(capacity), w)
  {
    forall w ensures WithinReach(s, most, Sum(capacity), w) {
      if w in s.books.accounts {
        ReachesMeans(s, most, Sum(capacity), w);
        PassedCheckReaches(s.books.accounts[w], most, 0, Sum(capacity));
      }
    }
  }

  // ---- what the column keeps ----

  /** Costs in hundred-millionths of a dollar: every price per token is a whole number of them. */
  const UNITS_PER_CENT: nat := 1_000_000
  const UNITS_PER_MILLIONTH: nat := 100

  /** What NUMERIC rounding, half up, to so many units leaves of a cost. */
  function Rounded(cost: nat, units: nat): nat
    requires units > 0
  {
    (cost + units / 2) / units
  }

  /** The cost in the usage row: NUMERIC(10,6). */
  function RowCost(cost: nat): nat {
    Rounded(cost, UNITS_PER_MILLIONTH) * UNITS_PER_MILLIONTH
  }

  /** The spend column, in cents, after these costs were added one by one: NUMERIC(10,2) rounds each sum. */
  function StoredSpend(costs: seq<nat>): nat {
    if costs == [] then 0
    else Rounded(StoredSpend(costs[..|costs| - 1]) * UNITS_PER_CENT + costs[|costs| - 1], UNITS_PER_CENT)
  }

  /** What the usage rows add up to, in units. */
  function UsageTotal(costs: seq<nat>): nat {
    if costs == [] then 0 else UsageTotal(costs[..|costs| - 1]) + RowCost(costs[|costs| - 1])
  }

  predicate AlwaysExact(costs: seq<nat>) {
    forall n | 0 <= n <= |costs| :: StoredSpend(costs[..n]) * UNITS_PER_CENT == UsageTotal(costs[..n])
  }

  predicate WholeCents(costs: seq<nat>) {
    forall i | 0 <= i < |costs| :: RowCost(costs[i]) % UNITS_PER_CENT == 0
  }

  lemma CentsFallOut(cents: nat, cost: nat)
    ensures Rounded(cents * UNITS_PER_CENT + cost, UNITS_PER_CENT) == cents + Rounded(cost, UNITS_PER_CENT)
  {
  }

  /** A cost rounds to the same amount in millionths and in cents exactly when its row is whole cents. */
  lemma RoundsAlike(cost: nat)
    ensures Rounded(cost, UNITS_PER_CENT) * UNITS_PER_CENT == RowCost(cost) <==> RowCost(cost) % UNITS_PER_CENT == 0
  {
  }

  lemma OneMoreCost(costs: seq<nat>, n: nat)
    requires n < |costs|
    ensures StoredSpend(costs[..n + 1]) == StoredSpend(costs[..n]) + Rounded(costs[n], UNITS_PER_CENT)
    ensures UsageTotal(costs[..n + 1]) == UsageTotal(costs[..n]) + RowCost(costs[n])
  {
    hide Rounded, RowCost;
    assert costs[..n + 1][..n] == costs[..n];
    CentsFallOut(StoredSpend(costs[..n]), costs[n]);
  }

  lemma {:induction false} WholeCentsAdd(costs: seq<nat>, n: nat)
    requires n <= |costs| && WholeCents(costs)
    ensures StoredSpend(costs[..n]) * UNITS_PER_CENT == UsageTotal(costs[..n])
  {
    if n > 0 {
      WholeCentsAdd(costs, n - 1);
      OneMoreCost(costs, n - 1);
      RoundsAlike(costs[n - 1]);
      hide Rounded, RowCost, StoredSpend, UsageTotal;
    } else {
      assert costs[..0] == [];
    }
  }

  /** The stored spend stays equal to the sum of the usage rows exactly when every row is a whole
      number of cents. */
  lemma StoredSpendIsExactExactlyWhen(costs: seq<nat>)
    ensures AlwaysExact(costs) <==> WholeCents(costs)
  {
    hide Rounded, RowCost, StoredSpend, UsageTotal;
    if AlwaysExact(costs) {
      forall i | 0 <= i < |costs| ensures RowCost(costs[i]) % UNITS_PER_CENT == 0 {
        OneMoreCost(costs, i);
        RoundsAlike(costs[i]);
        assert StoredSpend(costs[..i + 1]) * UNITS_PER_CENT == UsageTotal(costs[..i + 1]);
        assert StoredSpend(costs[..i]) * UNITS_PER_CENT == UsageTotal(costs[..i]);
      }
    }
    if WholeCents(costs) {
      forall n | 0 <= n <= |costs| ensures StoredSpend(costs[..n]) * UNITS_PER_CENT == UsageTotal(costs[..n]) {
        WholeCentsAdd(costs, n);
      }
    }
  }

  /** Any number of runs that cost less than half a cent each leaves the spend at nothing. */
  lemma {:induction false} SmallCostsVanish(costs: seq<nat>)
    requires forall i | 0 <= i < |costs| :: costs[i] < UNITS_PER_CENT / 2
    ensures StoredSpend(costs) == 0
  {
    if costs != [] {
      SmallCostsVanish(costs[..|costs| - 1]);
    }
  }

  /** One run for a tenth of a cent: its row says so, the column does not. */
  lemma SpendFallsBehind()
    ensures UsageTotal([100_000]) == 100_000 && StoredSpend([100_000]) == 0
  {
    assert [100_000][..0] == [];
    SmallCostsVanish([100_000]);
  }

  // ---- what that does to the budget ----

  /** One run after the other, each checked against the column before it is recorded. */
  predicate ChecksPass(costs: seq<nat>, budget: nat, estimate: nat) {
    forall n | 0 <= n < |costs| :: StoredSpend(costs[..n]) * UNITS_PER_CENT + estimate <= budget
  }

  /** The cost shows in its row only if it also shows in the column. */
  predicate Noticed(cost: nat) {
    cost >= UNITS_PER_CENT / 2 || RowCost(cost) == 0
  }

  lemma NoticedRow(cost: nat)
    requires Noticed(cost)
    ensures 2 * RowCost(cost) <= 3 * (Rounded(cost, UNITS_PER_CENT) * UNITS_PER_CENT)
  {
  }

  lemma {:induction false} NoticedRows(costs: seq<nat>)
    requires forall i | 0 <= i < |costs| :: Noticed(costs[i])
    ensures 2 * UsageTotal(costs) <= 3 * (StoredSpend(costs) * UNITS_PER_CENT)
  {
    if costs != [] {
      var n := |costs| - 1;
      NoticedRows(costs[..n]);
      OneMoreCost(costs, n);
      NoticedRow(costs[n]);
      assert costs[..n + 1] == costs;
      hide Rounded, RowCost, StoredSpend, UsageTotal, Noticed;
    }
  }

  lemma NoticedSpendIsBounded(costs: seq<nat>, budget: nat, estimate: nat, most: nat)
    requires ChecksPass(costs, budget, estimate) && forall i | 0 <= i < |costs| :: Noticed(costs[i]) && costs[i] <= most
    ensures UsageTotal(costs) <= 2 * budget + most + UNITS_PER_MILLIONTH
  {
    if costs != [] {
      var n := |costs| - 1;
      OneMoreCost(costs, n);
      assert costs[..n + 1] == costs && RowCost(costs[n]) <= most + UNITS_PER_MILLIONTH;
      hide Rounded, RowCost, StoredSpend, UsageTotal, Noticed;
      NoticedRows(costs[..n]);
    }
  }

  /** Rows of whole cents overrun the budget by no more than the last of them. */
  lemma WholeCentsKeepBudget(costs: seq<nat>, budget: nat, estimate: nat)
    requires ChecksPass(costs, budget, estimate) && WholeCents(costs) && costs != []
    ensures UsageTotal(costs) + estimate <= budget + RowCost(costs[|costs| - 1])
  {
    hide Rounded, RowCost, StoredSpend, UsageTotal;
    var n := |costs| - 1;
    OneMoreCost(costs, n);
    WholeCentsAdd(costs, n);
    assert costs[..n + 1] == costs;
  }

  function Repeated(cost: nat, n: nat): seq<nat> {
    seq(n, _ => cost)
  }

  lemma {:induction false} RepeatedTotal(cost: nat, n: nat)
    ensures UsageTotal(Repeated(cost, n)) == n * RowCost(cost)
  {
    hide RowCost;
    if n > 0 {
      RepeatedTotal(cost, n - 1);
      assert Repeated(cost, n)[..n - 1] == Repeated(cost, n - 1);
    }
  }

  /** Runs that each cost less than half a cent, but something, pass every check and overrun the budget
      by any amount. */
  lemma UnnoticedSpend(cost: nat, budget: nat, estimate: nat, amount: nat) returns (costs: seq<nat>)
    requires !Noticed(cost) && estimate <= budget
    ensures ChecksPass(costs, budget, estimate) && UsageTotal(costs) > budget + amount
    ensures forall i | 0 <= i < |costs| :: costs[i] == cost
  {
    var n := budget + amount + 1;
    costs := Repeated(cost, n);
    RepeatedTotal(cost, n);
    AtLeastAsMany(n, RowCost(cost));
    forall k | 0 <= k < |costs| ensures StoredSpend(costs[..k]) == 0 {
      SmallCostsVanish(costs[..k]);
    }
    hide RowCost, StoredSpend, UsageTotal;
  }

  lemma AtLeastAsMany(n: nat, x: nat)
    requires x > 0
    ensures n * x >= n
  {
  }

  predicate AllAllowed(costs: seq<nat>, allowed: nat -> bool) {
    forall i | 0 <= i < |costs| :: allowed(costs[i])
  }

  /** Runs at allowed costs that all pass their checks overrun the budget by no more than this. */
  ghost predicate OverrunsAtMost(allowed: nat -> bool, budget: nat, estimate: nat, bound: nat) {
    forall costs | ChecksPass(costs, budget, estimate) && AllAllowed(costs, allowed) ::
      UsageTotal(costs) <= budget + bound
  }

  /** The overrun is bounded exactly when no allowed cost shows in its row but not in the column. */
  lemma OverrunIsBoundedExactlyWhen(allowed: nat -> bool, most: nat, budget: nat, estimate: nat)
    requires estimate <= budget && forall c: nat | allowed(c) :: c <= most
    ensures (exists bound: nat :: OverrunsAtMost(allowed, budget, estimate, bound))
            <==> forall c: nat | allowed(c) :: Noticed(c)
  {
    hide ChecksPass, Noticed, UsageTotal;
    if c: nat :| allowed(c) && !Noticed(c) {
      forall bound: nat ensures !OverrunsAtMost(allowed, budget, estimate, bound) {
        var costs := UnnoticedSpend(c, budget, estimate, bound);
        assert AllAllowed(costs, allowed);
      }
    } else {
      forall costs | ChecksPass(costs, budget, estimate) && AllAllowed(costs, allowed)
        ensures UsageTotal(costs) <= budget + (budget + most + UNITS_PER_MILLIONTH)
      {
        NoticedSpendIsBounded(costs, budget, estimate, most);
      }
      assert OverrunsAtMost(allowed, budget, estimate, budget + most + UNITS_PER_MILLIONTH);
    }
  }
}
