/**
 The fork-join evaluator as a machine of communicating processes. A state is the table of
 all processes ever forked (the pid is the index); an event lets one process take one step:
 enter a call, fork, fail to fork, wait for one child, read one pipe, write its answer, exit,
 or crash. A schedule is any sequence of enabled events.
 */
module ForkJoin {
  import opened Prelude
  import opened Automata

  /** A call of the evaluator: the state it is at and its position in the word. */
  datatype Task = Task(state: int, depth: nat)

  /** What one evaluation never changes. `guarded` selects the variant of the collection
      loop that skips branches without an opened pipe; the code as written has it false. */
  datatype Params = Params(m: Automaton, w: string, workloadLimit: int, forkLimit: int, guarded: bool)
  {
    function Branches(t: Task): seq<int> {
      if t.depth < |w| then m.Successors(t.state, w[t.depth]) else []
    }

    /** The value that decides a node on its own: acceptance for an existential state,
        rejection for a universal one. */
    function Decisive(t: Task): bool {
      m.Existential(t.state)
    }

    ghost predicate Value(t: Task) {
      Accepts(m, w, t.state, t.depth)
    }

    function BranchTask(t: Task, i: nat): Task {
      if i < |Branches(t)| then Task(Branches(t)[i], t.depth + 1) else t
    }
  }

  datatype Branch = Pending | Opened(pid: nat) | ForkFailed

  /** Where an activation of the node evaluator is. */
  datatype Phase =
    | Forking(i: nat)                  // about to fork branch i
    | Fallback(i: nat)                 // the fork of branch i failed: computing it here
    | Origin                           // computing branch 0 here
    | Joining(local: bool, ok: bool)   // waiting for all children; `ok` is the status so far
    | Collecting(i: nat)               // about to read the pipe of branch i

  datatype Frame = Frame(task: Task, forks: int, branches: seq<Branch>, phase: Phase, workload: int)

  datatype Stack = Empty | Push(top: Frame, rest: Stack)

  function Height(s: Stack): nat {
    if s.Empty? then 0 else 1 + Height(s.rest)
  }

  datatype Control =
    | Call(task: Task, load: int, forks: int)   // entering the recursive evaluator
    | Return(value: bool, load: int)            // leaving it
    | InNode                                    // in the topmost node activation
    | Reported                                  // the answer is in the pipe
    | Answered(value: bool)                     // the root's call has returned
    | Exited(normal: bool)

  /** `home` is the place of the branch this process evaluates: the height of the parent's
      activation and the branch number. `pipe` is what is unread in the pipe to the parent. */
  datatype Process = Process(
    parent: nat, home: (nat, nat), task: Task,
    stack: Stack, control: Control, pipe: seq<bool>, reaped: bool)

  /** `stray` records that some collection loop has read a pipe that was never opened. */
  datatype State = State(procs: seq<Process>, stray: bool)

  datatype Event =
    | Enter(k: nat)
    | Fork(k: nat, success: bool)
    | Originate(k: nat)
    | Resume(k: nat)
    | Reap(k: nat, child: nat)
    | WaitError(k: nat)
    | Joined(k: nat)
    | Collect(k: nat)
    | StrayRead(k: nat, answer: bool)
    | Report(k: nat)
    | Answer(k: nat)
    | Exit(k: nat)
    | Crash(k: nat)

  function NewProcess(parent: nat, home: (nat, nat), task: Task, load: int, forks: int): Process {
    Process(parent, home, task, Empty, Call(task, load, forks), [], false)
  }

  /** The worker calls the evaluator on the initial state with workload 1 and no forks. */
  function Init(P: Params): State {
    State([NewProcess(0, (0, 0), Task(P.m.initial, 0), 1, 0)], false)
  }

  predicate Waiting(s: Stack) {
    s.Push? ==> s.top.phase.Fallback? || s.top.phase.Origin?
  }

  predicate AtNode(p: Process) {
    p.control.InNode? && p.stack.Push?
  }

  predicate Alive(p: Process) {
    !p.control.Exited?
  }

  predicate IsChild(procs: seq<Process>, k: nat, c: int) {
    0 < c < |procs| && procs[c].parent == k
  }

  ghost predicate AllReaped(procs: seq<Process>, k: nat) {
    forall c :: IsChild(procs, k, c) ==> procs[c].reaped
  }

  /** Leaving the topmost node activation with value `v`. */
  function Leave(p: Process, v: bool): Process
    requires p.stack.Push?
  {
    p.(stack := p.stack.rest, control := Return(v, p.stack.top.workload))
  }

  function InPhase(p: Process, phase: Phase): Process
    requires p.stack.Push?
  {
    p.(stack := Push(p.stack.top.(phase := phase), p.stack.rest), control := InNode)
  }

  /** The next step of the collection loop after reading answer `a` for branch `i`. */
  function AfterAnswer(P: Params, p: Process, i: nat, a: bool): Process
    requires p.stack.Push?
  {
    if a == P.Decisive(p.stack.top.task) then Leave(p, a) else InPhase(p, Collecting(i + 1))
  }

  // ----- what each event does to the process that performs it

  ghost function Entered(P: Params, p: Process): Process
    requires p.control.Call?
  {
    var t, load, forks := p.control.task, p.control.load + 1, p.control.forks;
    if t.depth >= |P.w| then
      p.(control := Return(t.state in P.m.final, load))
    else if load < P.workloadLimit || forks > P.forkLimit then
      p.(control := Return(P.Value(t), load))
    else if |P.Branches(t)| == 0 then
      p.(control := Return(!P.Decisive(t), load))
    else
      p.(stack := Push(Frame(t, forks, seq(|P.Branches(t)|, _ => Pending), Forking(1), load), p.stack),
         control := InNode)
  }

  function ChildForks(f: Frame): int {
    f.forks + |f.branches| - 1
  }

  function WithBranch(f: Frame, i: nat, b: Branch, phase: Phase): Frame
    requires i < |f.branches|
  {
    f.(branches := f.branches[i := b], phase := phase)
  }

  ghost predicate Enabled(P: Params, s: State, e: Event) {
    e.k < |s.procs| &&
    var p := s.procs[e.k];
    match e
    case Enter(_) => p.control.Call?
    case Fork(_, _) => AtNode(p) && p.stack.top.phase.Forking? && p.stack.top.phase.i < |p.stack.top.branches|
    case Originate(_) => AtNode(p) && p.stack.top.phase.Forking? && p.stack.top.phase.i >= |p.stack.top.branches|
    case Resume(_) => p.control.Return? && p.stack.Push?
    case Reap(k, c) =>
      && AtNode(p) && p.stack.top.phase.Joining?
      && IsChild(s.procs, k, c) && c != k && s.procs[c].control.Exited? && !s.procs[c].reaped
    case WaitError(_) => AtNode(p) && p.stack.top.phase.Joining?
    case Joined(k) => AtNode(p) && p.stack.top.phase.Joining? && AllReaped(s.procs, k)
    case Collect(k) =>
      AtNode(p) && p.stack.top.phase.Collecting? &&
      var i := p.stack.top.phase.i;
      i < |p.stack.top.branches| ==>
        (match p.stack.top.branches[i]
         case Opened(c) => c < |s.procs| && c != k && s.procs[c].pipe != []   // an empty pipe blocks
         case ForkFailed => P.guarded
         case Pending => false)
    case StrayRead(_, _) =>
      && AtNode(p) && p.stack.top.phase.Collecting? && !P.guarded
      && p.stack.top.phase.i < |p.stack.top.branches| && p.stack.top.branches[p.stack.top.phase.i].ForkFailed?
    case Report(k) => p.control.Return? && p.stack.Empty? && k != 0
    case Answer(k) => p.control.Return? && p.stack.Empty? && k == 0
    case Exit(_) => p.control.Reported?
    case Crash(_) => Alive(p)
  }

  ghost function Next(P: Params, s: State, e: Event): State
    requires Enabled(P, s, e)
  {
    var p := s.procs[e.k];
    match e
    case Enter(k) => s.(procs := s.procs[k := Entered(P, p)])
    case Fork(k, success) =>
      var f := p.stack.top;
      var i := f.phase.i;
      if success then
        var parent := p.(stack := Push(WithBranch(f, i, Opened(|s.procs|), Forking(i + 1)), p.stack.rest));
        var child := NewProcess(k, (Height(p.stack.rest), i), P.BranchTask(f.task, i), 0, ChildForks(f));
        s.(procs := s.procs[k := parent] + [child])
      else
        s.(procs := s.procs[k := p.(
          stack := Push(WithBranch(f, i, ForkFailed, Fallback(i)), p.stack.rest),
          control := Call(P.BranchTask(f.task, i), 0, ChildForks(f)))])
    case Originate(k) =>
      var f := p.stack.top;
      s.(procs := s.procs[k := InPhase(p, Origin).(
        control := Call(P.BranchTask(f.task, 0), f.workload, ChildForks(f)))])
    case Resume(k) =>
      var f := p.stack.top;
      s.(procs := s.procs[k :=
        if f.phase.Fallback? && p.control.value != P.Decisive(f.task) then
          InPhase(p, Forking(f.phase.i + 1))
        else if f.phase.Fallback? then
          InPhase(p, Joining(p.control.value, true))
        else
          InPhase(p, Joining(p.control.value, true)).(
            stack := Push(f.(phase := Joining(p.control.value, true), workload := p.control.load), p.stack.rest))])
    case Reap(k, c) =>
      var f := p.stack.top;
      s.(procs := s.procs[c := s.procs[c].(reaped := true)]
                         [k := InPhase(p, Joining(f.phase.local, f.phase.ok && s.procs[c].control.normal))])
    case WaitError(k) =>
      s.(procs := s.procs[k := InPhase(p, Joining(p.stack.top.phase.local, false))])
    case Joined(k) =>
      var f := p.stack.top;
      s.(procs := s.procs[k :=
        if !f.phase.ok then p.(control := Exited(false))
        else if f.phase.local == P.Decisive(f.task) then Leave(p, f.phase.local)
        else InPhase(p, Collecting(1))])
    case Collect(k) =>
      var f := p.stack.top;
      var i := f.phase.i;
      if i >= |f.branches| then
        s.(procs := s.procs[k := Leave(p, !P.Decisive(f.task))])
      else if f.branches[i].ForkFailed? then
        s.(procs := s.procs[k := InPhase(p, Collecting(i + 1))])
      else
        var c := f.branches[i].pid;
        var a := s.procs[c].pipe[0];
        s.(procs := s.procs[c := s.procs[c].(pipe := s.procs[c].pipe[1..])]
                           [k := AfterAnswer(P, p, i, a)])
    case StrayRead(k, a) =>
      State(s.procs[k := AfterAnswer(P, p, p.stack.top.phase.i, a)], true)
    case Report(k) => s.(procs := s.procs[k := p.(pipe := p.pipe + [p.control.value], control := Reported)])
    case Answer(k) => s.(procs := s.procs[k := p.(control := Answered(p.control.value))])
    case Exit(k) => s.(procs := s.procs[k := p.(control := Exited(true))])
    case Crash(k) => s.(procs := s.procs[k := p.(control := Exited(false))])
  }

  /** The states a schedule passes through, if each of its events is enabled in turn. */
  ghost predicate Runs(P: Params, s: State, schedule: seq<Event>, t: State)
    decreases |schedule|
  {
    if schedule == [] then t == s
    else Enabled(P, s, schedule[0]) && Runs(P, Next(P, s, schedule[0]), schedule[1..], t)
  }
}
