/**
 The headless control server as a protocol: HTTP mutations, the goroutines they
 spawn, the driver's machine table, the monitor and shutdown, interleaved at their
 critical sections and driver calls. The driver's outcomes are choices of the run.
 */
module HeadlessServer {
  import opened Wrappers

  type VmId = nat
  type TaskId = nat
  type RequestId = nat

  /* ------------------------------------------------------------------ */
  /* State.                                                               */
  /* ------------------------------------------------------------------ */

  datatype OpState = Queued | Running | Succeeded | Failed | Cancelled {
    predicate Terminal() { Succeeded? || Failed? || Cancelled? }
  }

  datatype VmState = Starting | VmRunning | Stopping | Stopped | VmFailed

  datatype Glass = GlassStarting | GlassOpen | GlassClosed | GlassFailed

  /**
   A virtual machine record. `starter` boots it; the end of `done` closes the
   channel that a stop request waits on.
   */
  datatype Vm = Vm(state: VmState, owns: bool, active: Option<TaskId>, glass: Option<Glass>,
                   starter: TaskId, done: TaskId)

  datatype Kind = Start | Stop(awaits: TaskId) | GlassSpawn | Pull

  /** Where a task's goroutine is; driver calls lie between two positions. */
  datatype Pc =
    | Spawned
    | Booting(registered: bool)  // inside driver.Start
    | Booted
    | CleaningUp                 // inside driver.Stop after a failed boot
    | BootFailed(released: bool)
    | Waiting                    // a stop waits for another task to end
    | Halting                    // inside driver.Stop
    | Halted(stopped: bool)
    | Showing                    // inside driver.Glass
    | Shown(clean: bool)
    | Pulling
    | Pulled(fetched: bool)
    | Ending                     // last critical section left
    | Closed                     // done channel closed
    | Over                       // off the wait group

  /** An accepted operation together with the goroutine that carries it out. */
  datatype Task = Task(kind: Kind, vm: VmId, state: OpState, finishes: nat, pc: Pc)

  datatype ShutdownPc =
    | Entered | WaitingJobs | JobsDone | Draining(ids: set<VmId>) | Drained | Leaving(ok: bool) | Left(ok: bool)

  datatype Server = Server(
    tasks: map<TaskId, Task>,
    vms: map<VmId, Vm>,
    machines: set<VmId>,
    closing: bool,
    gate: Option<RequestId>,
    shutdowns: map<RequestId, ShutdownPc>)

  const INITIAL := Server(map[], map[], {}, false, None, map[])

  /* ------------------------------------------------------------------ */
  /* Steps.                                                               */
  /* ------------------------------------------------------------------ */

  datatype Action =
    | AcceptStart(t: TaskId, v: VmId)
    | AcceptStop(t: TaskId, v: VmId)
    | AcceptGlass(t: TaskId, v: VmId)
    | AcceptPull(t: TaskId)
    | Begin(t: TaskId)
    | RegisterMachine(t: TaskId)
    | StartReturns(t: TaskId, ok: bool)
    | CleanupReturns(t: TaskId, ok: bool)
    | StartFinishes(t: TaskId, cancelled: bool)
    | StopGoesOn(t: TaskId)
    | StopGivesUp(t: TaskId)
    | StopReturns(t: TaskId, ok: bool)
    | StopFinishes(t: TaskId, cancelled: bool)
    | GlassReady(t: TaskId)
    | GlassReturns(t: TaskId, ok: bool)
    | GlassFinishes(t: TaskId, cancelled: bool)
    | PullReturns(t: TaskId, ok: bool)
    | PullFinishes(t: TaskId, cancelled: bool)
    | CloseDone(t: TaskId)
    | LeaveWaitGroup(t: TaskId)
    | MonitorSeesExit(v: VmId)
    | ShutdownEnters(r: RequestId)
    | ShutdownCloses(r: RequestId)
    | ShutdownTimesOut(r: RequestId)
    | ShutdownJobsEnd(r: RequestId)
    | ShutdownListsMachines(r: RequestId)
    | ShutdownStops(r: RequestId, v: VmId, ok: bool)
    | ShutdownDrained(r: RequestId, ok: bool)
    | ShutdownRecords(r: RequestId)
    | ShutdownLeaves(r: RequestId)

  /** `finish`: the operation becomes terminal, with an error or without. */
  function Finish(t: Task, ok: bool, cancelled: bool): Task {
    t.(state := if ok then Succeeded else if cancelled then Cancelled else Failed, finishes := t.finishes + 1)
  }

  predicate NoneOwns(s: Server) {
    forall v :: v in s.vms ==> !s.vms[v].owns
  }

  predicate AllOver(s: Server) {
    forall t :: t in s.tasks ==> s.tasks[t].pc == Over
  }

  /** HTTP mutations, each one critical section that refuses once the server is closing. */
  function Accept(s: Server, a: Action): Option<Server> {
    if s.closing || !(a.AcceptStart? || a.AcceptStop? || a.AcceptGlass? || a.AcceptPull?) || a.t in s.tasks then None
    else
      match a
      case AcceptStart(t, v) =>
        if v in s.vms || !NoneOwns(s) then None
        else Some(s.(tasks := s.tasks[t := Task(Start, v, Queued, 0, Spawned)],
                     vms := s.vms[v := Vm(Starting, true, Some(t), None, t, t)]))
      case AcceptStop(t, v) =>
        if v !in s.vms || s.vms[v].state == Stopping then None
        else Some(s.(tasks := s.tasks[t := Task(Stop(s.vms[v].done), v, Queued, 0, Spawned)],
                     vms := s.vms[v := s.vms[v].(state := Stopping, active := Some(t))]))
      case AcceptGlass(t, v) =>
        if v !in s.vms || s.vms[v].state != VmRunning || s.vms[v].active != None
           || s.vms[v].glass == Some(GlassOpen) || s.vms[v].glass == Some(GlassStarting) then None
        else Some(s.(tasks := s.tasks[t := Task(GlassSpawn, v, Queued, 0, Spawned)],
                     vms := s.vms[v := s.vms[v].(active := Some(t), glass := Some(GlassStarting), done := t)]))
      case AcceptPull(t) =>
        Some(s.(tasks := s.tasks[t := Task(Pull, 0, Queued, 0, Spawned)]))
  }

  function FirstPc(kind: Kind): Pc {
    match kind
    case Start => Booting(false)
    case Stop(_) => Waiting
    case GlassSpawn => Showing
    case Pull => Pulling
  }

  function WithTask(s: Server, t: TaskId, task: Task): Server {
    s.(tasks := s.tasks[t := task])
  }

  function AtPc(s: Server, t: TaskId, pc: Pc): Server
    requires t in s.tasks
  {
    WithTask(s, t, s.tasks[t].(pc := pc))
  }

  /** The boot task's last critical section. */
  function FinishStart(s: Server, t: TaskId, ok: bool, released: bool, cancelled: bool): Server
    requires t in s.tasks && s.tasks[t].vm in s.vms
  {
    var v := s.tasks[t].vm;
    var vm := s.vms[v];
    var vm' :=
      if vm.state != Starting then vm
      else if ok then vm.(state := VmRunning, active := None)
      else vm.(state := VmFailed, owns := !released, active := None);
    WithTask(s.(vms := s.vms[v := vm']), t, Finish(s.tasks[t], ok, cancelled).(pc := Ending))
  }

  /** The stop task's last critical section. */
  function FinishStop(s: Server, t: TaskId, ok: bool, cancelled: bool): Server
    requires t in s.tasks && s.tasks[t].vm in s.vms
  {
    var v := s.tasks[t].vm;
    var vm' := s.vms[v].(active := None, state := if ok then Stopped else VmFailed, owns := !ok);
    WithTask(s.(vms := s.vms[v := vm']), t, Finish(s.tasks[t], ok, cancelled).(pc := Ending))
  }

  /** The first complete frame: the operation succeeds and the window counts as open. */
  function PresentFrame(s: Server, t: TaskId): Server
    requires t in s.tasks && s.tasks[t].vm in s.vms
  {
    if s.tasks[t].state != Running then s
    else
      var v := s.tasks[t].vm;
      WithTask(s.(vms := s.vms[v := s.vms[v].(glass := Some(GlassOpen), active := None)]),
               t, Finish(s.tasks[t], true, false))
  }

  /** The window task's last critical section. */
  function FinishGlass(s: Server, t: TaskId, clean: bool, cancelled: bool): Server
    requires t in s.tasks && s.tasks[t].vm in s.vms
  {
    var v := s.tasks[t].vm;
    var vm := s.vms[v];
    var active' := if vm.active == Some(t) then None else vm.active;
    if s.tasks[t].state == Running then
      WithTask(s.(vms := s.vms[v := vm.(glass := Some(GlassFailed), active := active')]),
               t, Finish(s.tasks[t], false, cancelled).(pc := Ending))
    else
      WithTask(s.(vms := s.vms[v := vm.(glass := Some(if clean then GlassClosed else GlassFailed), active := active')]),
               t, s.tasks[t].(pc := Ending))
  }

  /** Steps of a spawned goroutine. */
  function Work(s: Server, a: Action): Option<Server> {
    if !HasTask(a) || a.t !in s.tasks then None
    else
      var t := a.t;
      var task := s.tasks[t];
      if !task.kind.Pull? && task.vm !in s.vms then None
      else
        match a
        case Begin(_) =>
          if task.pc != Spawned then None
          else Some(WithTask(s, t, task.(state := Running, pc := FirstPc(task.kind))))
        case RegisterMachine(_) =>
          if task.pc != Booting(false) then None
          else Some(AtPc(s.(machines := s.machines + {task.vm}), t, Booting(true)))
        case StartReturns(_, ok) =>
          if !task.pc.Booting? || (ok && !task.pc.registered) then None
          else Some(AtPc(s, t, if ok then Booted else CleaningUp))
        case CleanupReturns(_, ok) =>
          if task.pc != CleaningUp then None
          else Some(AtPc(if ok then s.(machines := s.machines - {task.vm}) else s, t, BootFailed(ok)))
        case StartFinishes(_, cancelled) =>
          if task.pc == Booted && task.kind.Start? then Some(FinishStart(s, t, true, false, cancelled))
          else if task.pc.BootFailed? && task.kind.Start? then Some(FinishStart(s, t, false, task.pc.released, cancelled))
          else None
        case StopGoesOn(_) =>
          if !task.kind.Stop? || task.pc != Waiting || task.kind.awaits !in s.tasks
             || !(s.tasks[task.kind.awaits].pc == Closed || s.tasks[task.kind.awaits].pc == Over) then None
          else Some(AtPc(s, t, Halting))
        case StopGivesUp(_) =>
          if task.pc != Waiting then None else Some(AtPc(s, t, Halted(false)))
        case StopReturns(_, ok) =>
          if task.pc != Halting then None
          else Some(AtPc(if ok then s.(machines := s.machines - {task.vm}) else s, t, Halted(ok)))
        case StopFinishes(_, cancelled) =>
          if !task.pc.Halted? || !task.kind.Stop? then None
          else Some(FinishStop(s, t, task.pc.stopped, cancelled))
        case GlassReady(_) =>
          if task.pc != Showing || !task.kind.GlassSpawn? then None else Some(PresentFrame(s, t))
        case GlassReturns(_, ok) =>
          if task.pc != Showing then None else Some(AtPc(s, t, Shown(ok)))
        case GlassFinishes(_, cancelled) =>
          if !task.pc.Shown? || !task.kind.GlassSpawn? then None else Some(FinishGlass(s, t, task.pc.clean, cancelled))
        case PullReturns(_, ok) =>
          if task.pc != Pulling then None else Some(AtPc(s, t, Pulled(ok)))
        case PullFinishes(_, cancelled) =>
          if !task.pc.Pulled? then None
          else Some(WithTask(s, t, Finish(task, task.pc.fetched, cancelled).(pc := Ending)))
        case CloseDone(_) =>
          if task.pc != Ending then None else Some(AtPc(s, t, Closed))
        case LeaveWaitGroup(_) =>
          if task.pc != Closed then None else Some(AtPc(s, t, Over))
        case _ => None
  }

  predicate HasTask(a: Action) {
    !(a.MonitorSeesExit? || HasRequest(a))
  }

  predicate HasRequest(a: Action) {
    || a.ShutdownEnters? || a.ShutdownCloses? || a.ShutdownTimesOut? || a.ShutdownJobsEnd?
    || a.ShutdownListsMachines? || a.ShutdownStops? || a.ShutdownDrained? || a.ShutdownRecords? || a.ShutdownLeaves?
  }

  function WithShutdown(s: Server, r: RequestId, pc: ShutdownPc): Server {
    s.(shutdowns := s.shutdowns[r := pc])
  }

  function StoppedVm(vm: Vm): Vm {
    vm.(state := Stopped, owns := false, active := None, glass := if vm.glass == None then None else Some(GlassClosed))
  }

  function AllStopped(vms: map<VmId, Vm>): (r: map<VmId, Vm>)
    ensures r.Keys == vms.Keys && forall v :: v in vms ==> r[v] == StoppedVm(vms[v])
  {
    map v | v in vms :: StoppedVm(vms[v])
  }

  /** Steps of a shutdown request. */
  function Shutdown(s: Server, a: Action): Option<Server> {
    if !HasRequest(a) then None
    else if a.ShutdownEnters? then
      if s.gate != None || a.r in s.shutdowns then None
      else Some(WithShutdown(s, a.r, Entered).(gate := Some(a.r)))
    else if a.r !in s.shutdowns then None
    else
      var pc := s.shutdowns[a.r];
      match a
      case ShutdownCloses(r) =>
        if pc != Entered then None else Some(WithShutdown(s.(closing := true), r, WaitingJobs))
      case ShutdownTimesOut(r) =>
        if pc != WaitingJobs then None else Some(WithShutdown(s, r, Leaving(false)))
      case ShutdownJobsEnd(r) =>
        if pc != WaitingJobs || !AllOver(s) then None else Some(WithShutdown(s, r, JobsDone))
      case ShutdownListsMachines(r) =>
        if pc != JobsDone then None else Some(WithShutdown(s, r, Draining(s.machines)))
      case ShutdownStops(r, v, ok) =>
        if !pc.Draining? || v !in pc.ids then None
        else if !ok then Some(WithShutdown(s, r, Leaving(false)))
        else Some(WithShutdown(s.(machines := s.machines - {v}), r, Draining(pc.ids - {v})))
      case ShutdownDrained(r, ok) =>
        if !pc.Draining? || pc.ids != {} then None
        else Some(WithShutdown(s, r, if ok then Drained else Leaving(false)))
      case ShutdownRecords(r) =>
        if pc != Drained then None
        else Some(WithShutdown(s.(vms := AllStopped(s.vms)), r, Leaving(true)))
      case ShutdownLeaves(r) =>
        if !pc.Leaving? then None else Some(WithShutdown(s, r, Left(pc.ok)).(gate := None))
      case _ => None
  }

  /** The monitor's critical section for a machine whose guest has exited. */
  function Monitor(s: Server, a: Action): Option<Server> {
    if !a.MonitorSeesExit? || a.v !in s.vms then None
    else if s.vms[a.v].state != VmRunning then Some(s)
    else Some(s.(vms := s.vms[a.v := s.vms[a.v].(state := VmFailed)]))
  }

  function Step(s: Server, a: Action): Option<Server> {
    if a.AcceptStart? || a.AcceptStop? || a.AcceptGlass? || a.AcceptPull? then Accept(s, a)
    else if a.MonitorSeesExit? then Monitor(s, a)
    else if HasRequest(a) then Shutdown(s, a)
    else Work(s, a)
  }

  /** The state after a run, or None when a step was not possible where the run takes it. */
  function Run(actions: seq<Action>): Option<Server> {
    if actions == [] then Some(INITIAL)
    else
      match Run(actions[..|actions| - 1])
      case None => None
      case Some(s) => Step(s, actions[|actions| - 1])
  }
}
