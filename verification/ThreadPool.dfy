/** The thread pool as labelled steps of its workers, of any number of clients that enqueue
    tasks, and of the destructor, which sets the stop flag without taking the mutex. */
module ThreadPools {
  import opened Common

  type Task = nat
  type ClientId = nat

  /** `Waiting` is outside the mutex, `Woken` inside it with the wait condition fulfilled. */
  datatype Worker = Waiting | Woken | Running(task: Task) | Exited

  /** A client inside `enqueue`: before and after its look at the stop flag. */
  datatype Client = Outside | Entered(task: Task) | Admitted(task: Task)

  datatype Thread = WorkerThread(w: nat) | ClientThread(c: ClientId)

  datatype State = State(
    workers: seq<Worker>,
    clients: map<ClientId, Client>,
    mutex: Option<Thread>,
    stop: bool,
    tasks: seq<Task>,
    accepted: seq<Task>,   // history: tasks in the order they were accepted
    taken: seq<Task>,      // history: tasks in the order workers took them
    executed: seq<Task>)   // history: tasks in the order they returned

  datatype Label =
    | Enter(c: ClientId, task: Task)
    | CheckStop(c: ClientId)
    | Emplace(c: ClientId)
    | Wake(w: nat)
    | Take(w: nat)
    | Return(w: nat)
    | SetStop

  function Init(workers: nat, clients: set<ClientId>): State {
    State(seq(workers, _ => Waiting), map c | c in clients :: Outside, None, false, [], [], [], [])
  }

  predicate Enabled(s: State, l: Label) {
    match l
    case Enter(c, _) => c in s.clients && s.clients[c] == Outside && s.mutex == None
    case CheckStop(c) => c in s.clients && s.clients[c].Entered?
    case Emplace(c) => c in s.clients && s.clients[c].Admitted?
    case Wake(w) => w < |s.workers| && s.workers[w] == Waiting && s.mutex == None && (s.stop || s.tasks != [])
    case Take(w) => w < |s.workers| && s.workers[w] == Woken
    case Return(w) => w < |s.workers| && s.workers[w].Running?
    case SetStop => true
  }

  function Step(s: State, l: Label): State
    requires Enabled(s, l)
  {
    match l
    case Enter(c, t) => s.(clients := s.clients[c := Entered(t)], mutex := Some(ClientThread(c)))
    case CheckStop(c) =>
      if s.stop then s.(clients := s.clients[c := Outside], mutex := None)
      else s.(clients := s.clients[c := Admitted(s.clients[c].task)])
    case Emplace(c) =>
      s.(clients := s.clients[c := Outside], mutex := None,
         tasks := s.tasks + [s.clients[c].task], accepted := s.accepted + [s.clients[c].task])
    case Wake(w) => s.(workers := s.workers[w := Woken], mutex := Some(WorkerThread(w)))
    case Take(w) =>
      if s.stop && s.tasks == [] then s.(workers := s.workers[w := Exited], mutex := None)
      else if s.tasks == [] then s.(workers := s.workers[w := Waiting], mutex := None)
      else
        s.(workers := s.workers[w := Running(s.tasks[0])], mutex := None,
           tasks := s.tasks[1..], taken := s.taken + [s.tasks[0]])
    case Return(w) => s.(workers := s.workers[w := Waiting], executed := s.executed + [s.workers[w].task])
    case SetStop => s.(stop := true)
  }

  /** How many workers are executing the task. */
  function InHand(workers: seq<Worker>, t: Task): nat {
    if workers == [] then 0
    else InHand(workers[..|workers| - 1], t) + if workers[|workers| - 1] == Running(t) then 1 else 0
  }

  lemma {:induction false} InHandUpdate(workers: seq<Worker>, i: nat, w: Worker, t: Task)
    requires i < |workers|
    ensures InHand(workers[i := w], t) + (if workers[i] == Running(t) then 1 else 0)
      == InHand(workers, t) + (if w == Running(t) then 1 else 0)
    decreases |workers|
  {
    var n := |workers| - 1;
    if i == n {
      assert workers[i := w][..n] == workers[..n];
    } else {
      InHandUpdate(workers[..n], i, w, t);
      assert workers[i := w][..n] == workers[..n][i := w];
    }
  }

  lemma {:induction false} NobodyBusy(workers: seq<Worker>, t: Task)
    requires forall i | 0 <= i < |workers| :: !workers[i].Running?
    ensures InHand(workers, t) == 0
    decreases |workers|
  {
    if workers != [] {
      NobodyBusy(workers[..|workers| - 1], t);
    }
  }

  // ---------------------------------------------------------------- the invariant

  predicate MutexOk(s: State) {
    && (forall w: nat | w < |s.workers| :: s.workers[w] == Woken <==> s.mutex == Some(WorkerThread(w)))
    && (forall c | c in s.clients :: s.clients[c] != Outside <==> s.mutex == Some(ClientThread(c)))
  }

  /** A worker only exits when nothing is left and nothing can come any more. */
  predicate ExitOk(s: State) {
    (exists w: nat :: w < |s.workers| && s.workers[w] == Exited) ==>
      && s.stop && s.tasks == []
      && forall c | c in s.clients :: !s.clients[c].Admitted?
  }

  predicate Fifo(s: State) {
    s.accepted == s.taken + s.tasks
  }

  /** A task is taken as often as it is in hand or executed. */
  predicate Conserved(s: State, t: Task) {
    multiset(s.taken)[t] == InHand(s.workers, t) + multiset(s.executed)[t]
  }

  predicate WokenOk(s: State) {
    forall w: nat | w < |s.workers| && s.workers[w] == Woken :: s.stop || s.tasks != []
  }

  ghost predicate Inv(s: State) {
    MutexOk(s) && ExitOk(s) && Fifo(s) && WokenOk(s) && forall t :: Conserved(s, t)
  }

  lemma InitInv(workers: nat, clients: set<ClientId>)
    ensures Inv(Init(workers, clients))
  {
    var s := Init(workers, clients);
    forall t ensures Conserved(s, t) {
      NobodyBusy(s.workers, t);
    }
  }

  lemma StepMutex(s: State, l: Label)
    requires MutexOk(s) && Enabled(s, l)
    ensures MutexOk(Step(s, l))
  {
  }

  lemma StepWoken(s: State, l: Label)
    requires MutexOk(s) && WokenOk(s) && Enabled(s, l)
    ensures WokenOk(Step(s, l))
  {
  }

  lemma StepExit(s: State, l: Label)
    requires MutexOk(s) && ExitOk(s) && Enabled(s, l)
    ensures ExitOk(Step(s, l))
  {
  }

  lemma StepFifo(s: State, l: Label)
    requires Fifo(s) && Enabled(s, l)
    ensures Fifo(Step(s, l))
  {
  }

  lemma StepConserved(s: State, l: Label, t: Task)
    requires Conserved(s, t) && Enabled(s, l)
    ensures Conserved(Step(s, l), t)
  {
    if l.Wake? || l.Take? || l.Return? {
      InHandUpdate(s.workers, l.w, Step(s, l).workers[l.w], t);
    }
  }

  lemma StepInv(s: State, l: Label)
    requires Inv(s) && Enabled(s, l)
    ensures Inv(Step(s, l))
  {
    StepMutex(s, l);
    StepWoken(s, l);
    StepExit(s, l);
    StepFifo(s, l);
    forall t ensures Conserved(Step(s, l), t) {
      StepConserved(s, l, t);
    }
  }

  // ---------------------------------------------------------------- whole runs

  ghost predicate CanRun(s: State, labels: seq<Label>)
    decreases labels
  {
    labels == [] || (Enabled(s, labels[0]) && CanRun(Step(s, labels[0]), labels[1..]))
  }

  ghost function Run(s: State, labels: seq<Label>): State
    requires CanRun(s, labels)
    decreases labels
  {
    if labels == [] then s else Run(Step(s, labels[0]), labels[1..])
  }

  lemma {:induction false} RunInv(s: State, labels: seq<Label>)
    requires Inv(s) && CanRun(s, labels)
    ensures Inv(Run(s, labels)) && |Run(s, labels).workers| == |s.workers|
    decreases labels
  {
    if labels != [] {
      StepInv(s, labels[0]);
      RunInv(Step(s, labels[0]), labels[1..]);
    }
  }

  /** At every moment an accepted task is queued, in a worker's hand or executed, exactly once,
      and tasks are taken in the order in which they were accepted. */
  lemma TasksAreConserved(workers: nat, clients: set<ClientId>, labels: seq<Label>, t: Task)
    requires CanRun(Init(workers, clients), labels)
    ensures var s := Run(Init(workers, clients), labels);
      && multiset(s.accepted)[t] == multiset(s.tasks)[t] + InHand(s.workers, t) + multiset(s.executed)[t]
      && s.taken <= s.accepted && s.accepted[|s.taken|..] == s.tasks
  {
    InitInv(workers, clients);
    RunInv(Init(workers, clients), labels);
    assert Conserved(Run(Init(workers, clients), labels), t);
  }

  /** Once a worker has exited, no task is accepted any more. */
  lemma {:induction false} NothingAcceptedAfterExit(s: State, labels: seq<Label>, w: nat)
    requires Inv(s) && CanRun(s, labels) && w < |s.workers| && s.workers[w] == Exited
    ensures Run(s, labels).accepted == s.accepted
    decreases labels
  {
    if labels != [] {
      var s' := Step(s, labels[0]);
      StepInv(s, labels[0]);
      assert s'.workers[w] == Exited;
      NothingAcceptedAfterExit(s', labels[1..], w);
    }
  }

  /** With at least one worker: when all workers have exited, every accepted task has been
      executed exactly once. */
  lemma AllExitedMeansAllExecuted(workers: nat, clients: set<ClientId>, labels: seq<Label>)
    requires workers > 0 && CanRun(Init(workers, clients), labels)
    requires var s := Run(Init(workers, clients), labels);
      forall w: nat | w < |s.workers| :: s.workers[w] == Exited
    ensures var s := Run(Init(workers, clients), labels);
      s.tasks == [] && multiset(s.accepted) == multiset(s.executed)
  {
    InitInv(workers, clients);
    RunInv(Init(workers, clients), labels);
    var s := Run(Init(workers, clients), labels);
    assert s.workers[0] == Exited;
    assert s.taken + [] == s.taken;
    forall t ensures multiset(s.accepted)[t] == multiset(s.executed)[t] {
      NobodyBusy(s.workers, t);
      assert Conserved(s, t);
    }
  }

  /** Without workers (`hardware_concurrency` may return 0) an accepted task is dropped. */
  lemma WithoutWorkersTasksAreDropped(t: Task) returns (labels: seq<Label>)
    ensures CanRun(Init(0, {0}), labels)
    ensures var s := Run(Init(0, {0}), labels); s.stop && s.accepted == [t] && s.executed == []
  {
    labels := [Enter(0, t), CheckStop(0), Emplace(0), SetStop];
    var s0 := Init(0, {0});
    var s1 := Step(s0, labels[0]);
    var s2 := Step(s1, labels[1]);
    var s3 := Step(s2, labels[2]);
    RunCons(s3, labels[3..]);
    RunCons(s2, labels[2..]);
    RunCons(s1, labels[1..]);
    RunCons(s0, labels);
  }

  lemma RunCons(s: State, labels: seq<Label>)
    requires labels != [] && Enabled(s, labels[0]) && CanRun(Step(s, labels[0]), labels[1..])
    ensures CanRun(s, labels) && Run(s, labels) == Run(Step(s, labels[0]), labels[1..])
  {
  }
}
