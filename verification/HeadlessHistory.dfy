/**
 What the history of a server says about it: the record of every VM, the outcome of every
 operation and the machines that run, read off the sequence of events alone. In every run the
 server is in the state that its history tells.
 */
module HeadlessHistory {
  import opened Wrappers
  import opened HeadlessServer

  /* ------------------------------------------------------------------ */
  /* Reading a history.                                                   */
  /* ------------------------------------------------------------------ */

  /** The event is part of the history. */
  predicate Has(h: seq<Action>, a: Action) { a in h }

  datatype Record = Record(state: VmState, owns: bool, active: Option<TaskId>, glass: Option<Glass>)

  /** The record of a VM after the events of `h`. */
  function Life(h: seq<Action>, v: VmId): Option<Record> {
    if h == [] then None
    else
      var before, a := h[..|h| - 1], h[|h| - 1];
      var r := Life(before, v);
      if a.AcceptStart? && a.v == v then Some(Record(Starting, true, Some(a.t), None))
      else if r.None? then None
      else Some(Changed(before, v, r.value, a))
  }

  /** The record after one more event. */
  function Changed(before: seq<Action>, v: VmId, r: Record, a: Action): Record {
    match a
    case AcceptStop(t, w) => if w == v then r.(state := Stopping, active := Some(t)) else r
    case AcceptGlass(t, w) => if w == v then r.(active := Some(t), glass := Some(GlassStarting)) else r
    case StartFinishes(t, _) =>
      if !Has(before, AcceptStart(t, v)) || r.state != Starting then r
      else if Has(before, StartReturns(t, true)) then r.(state := VmRunning, active := None)
      else r.(state := VmFailed, owns := !Has(before, CleanupReturns(t, true)), active := None)
    case StopFinishes(t, _) =>
      if !Has(before, AcceptStop(t, v)) then r
      else if Has(before, StopReturns(t, true)) then r.(state := Stopped, owns := false, active := None)
      else r.(state := VmFailed, owns := true, active := None)
    case GlassReady(t) =>
      if !Has(before, AcceptGlass(t, v)) || Has(before, GlassReady(t)) then r
      else r.(glass := Some(GlassOpen), active := None)
    case GlassFinishes(t, _) =>
      if !Has(before, AcceptGlass(t, v)) then r
      else
        var clean := Has(before, GlassReady(t)) && Has(before, GlassReturns(t, true));
        r.(glass := Some(if clean then GlassClosed else GlassFailed), active := if r.active == Some(t) then None else r.active)
    case MonitorSeesExit(w) => if w == v && r.state == VmRunning then r.(state := VmFailed) else r
    case ShutdownRecords(_) => Record(Stopped, false, None, if r.glass == None then None else Some(GlassClosed))
    case _ => r
  }

  /** Whether the machine of a VM runs. */
  predicate Up(h: seq<Action>, v: VmId) {
    h != [] && UpAfter(h[..|h| - 1], v, Up(h[..|h| - 1], v), h[|h| - 1])
  }

  predicate UpAfter(before: seq<Action>, v: VmId, up: bool, a: Action) {
    match a
    case RegisterMachine(t) => Has(before, AcceptStart(t, v)) || up
    case CleanupReturns(t, ok) => !(ok && Has(before, AcceptStart(t, v))) && up
    case StopReturns(t, ok) => !(ok && Has(before, AcceptStop(t, v))) && up
    case ShutdownStops(_, w, ok) => !(ok && w == v) && up
    case _ => up
  }

  predicate Accepts(a: Action) { a.AcceptStart? || a.AcceptStop? || a.AcceptGlass? || a.AcceptPull? }

  function Outcome(ok: bool, cancelled: bool): OpState { if ok then Succeeded else if cancelled then Cancelled else Failed }

  /** Where the operation `t` stands. */
  function Progress(h: seq<Action>, t: TaskId): Option<OpState> {
    if h == [] then None
    else
      var before, a := h[..|h| - 1], h[|h| - 1];
      if HasTask(a) && a.t == t then Progressed(before, t, Progress(before, t), a) else Progress(before, t)
  }

  /** The same after an event of its own. */
  function Progressed(before: seq<Action>, t: TaskId, state: Option<OpState>, a: Action): Option<OpState> {
    match a
    case AcceptStart(_, _) => Some(Queued)
    case AcceptStop(_, _) => Some(Queued)
    case AcceptGlass(_, _) => Some(Queued)
    case AcceptPull(_) => Some(Queued)
    case Begin(_) => Some(Running)
    case StartFinishes(_, cancelled) => Some(Outcome(Has(before, StartReturns(t, true)), cancelled))
    case StopFinishes(_, cancelled) => Some(Outcome(Has(before, StopReturns(t, true)), cancelled))
    case PullFinishes(_, cancelled) => Some(Outcome(Has(before, PullReturns(t, true)), cancelled))
    case GlassReady(_) => Some(Succeeded)
    case GlassFinishes(_, cancelled) => if Has(before, GlassReady(t)) then Some(Succeeded) else Some(Outcome(false, cancelled))
    case _ => state
  }

  /** The server has been told to shut down. */
  predicate Closing(h: seq<Action>) {
    exists i :: 0 <= i < |h| && h[i].ShutdownCloses?
  }

  /* ------------------------------------------------------------------ */
  /* What a goroutine's place says about the past.                        */
  /* ------------------------------------------------------------------ */

  predicate KindTold(task: Task, t: TaskId, h: seq<Action>) {
    match task.kind
    case Start => Has(h, AcceptStart(t, task.vm))
    case Stop(_) => Has(h, AcceptStop(t, task.vm))
    case GlassSpawn => Has(h, AcceptGlass(t, task.vm))
    case Pull => Has(h, AcceptPull(t))
  }

  predicate PcTold(task: Task, t: TaskId, h: seq<Action>) {
    match task.pc
    case Spawned => !Heard(h, t)
    case Booting(_) => !Has(h, StartReturns(t, true)) && !Has(h, CleanupReturns(t, true))
    case Booted => Has(h, StartReturns(t, true))
    case CleaningUp => !Has(h, StartReturns(t, true)) && !Has(h, CleanupReturns(t, true))
    case BootFailed(released) => !Has(h, StartReturns(t, true)) && (released <==> Has(h, CleanupReturns(t, true)))
    case Waiting => !Has(h, StopReturns(t, true))
    case Halting => !Has(h, StopReturns(t, true))
    case Halted(stopped) => stopped <==> Has(h, StopReturns(t, true))
    case Showing => !Has(h, GlassReturns(t, true)) && (task.state == Running <==> !Has(h, GlassReady(t)))
    case Shown(clean) => (clean <==> Has(h, GlassReturns(t, true))) && (task.state == Running <==> !Has(h, GlassReady(t)))
    case Pulling => !Has(h, PullReturns(t, true))
    case Pulled(fetched) => fetched <==> Has(h, PullReturns(t, true))
    case _ => true
  }

  /** The driver has said something to `t`. */
  predicate Heard(h: seq<Action>, t: TaskId) {
    || Has(h, StartReturns(t, true)) || Has(h, CleanupReturns(t, true)) || Has(h, StopReturns(t, true))
    || Has(h, GlassReturns(t, true)) || Has(h, GlassReady(t)) || Has(h, PullReturns(t, true))
  }

  /** Only one kind of request made `t`, and for one VM. */
  ghost predicate OnceTold(task: Task, t: TaskId, h: seq<Action>) {
    && (forall v :: Has(h, AcceptStart(t, v)) ==> task.kind.Start? && v == task.vm)
    && (forall v :: Has(h, AcceptStop(t, v)) ==> task.kind.Stop? && v == task.vm)
    && (forall v :: Has(h, AcceptGlass(t, v)) ==> task.kind.GlassSpawn? && v == task.vm)
  }

  ghost predicate TaskTold(task: Task, t: TaskId, h: seq<Action>) {
    && KindTold(task, t, h) && OnceTold(task, t, h) && PcTold(task, t, h)
    && (task.pc == Spawned ==> task.state == Queued)
    && Progress(h, t) == Some(task.state)
    && (task.pc.Showing? || task.pc.Shown? ==> task.kind.GlassSpawn? && (task.state == Running || task.state == Succeeded))
    && PcKind(task)
  }

  predicate PcKind(task: Task) {
    && (task.pc.Booting? || task.pc == Booted || task.pc == CleaningUp || task.pc.BootFailed? ==> task.kind.Start?)
    && (task.pc == Waiting || task.pc == Halting || task.pc.Halted? ==> task.kind.Stop?)
    && (task.pc == Pulling || task.pc.Pulled? ==> task.kind.Pull?)
  }

  /** Nothing has happened under this number. */
  predicate Unused(h: seq<Action>, t: TaskId) {
    forall i :: 0 <= i < |h| ==> !(HasTask(h[i]) && h[i].t == t)
  }

  ghost predicate TasksTold(s: Server, h: seq<Action>) {
    forall t {:trigger Unused(h, t)} {:trigger t in s.tasks} ::
      if t in s.tasks then TaskTold(s.tasks[t], t, h) else Unused(h, t) && Progress(h, t) == None
  }

  function RecordOf(vm: Vm): Record { Record(vm.state, vm.owns, vm.active, vm.glass) }

  predicate VmTold(s: Server, h: seq<Action>, v: VmId) {
    if v in s.vms then Life(h, v) == Some(RecordOf(s.vms[v])) else Life(h, v) == None
  }

  ghost predicate VmsTold(s: Server, h: seq<Action>) {
    forall v :: VmTold(s, h, v)
  }

  ghost predicate MachinesTold(s: Server, h: seq<Action>) {
    forall v :: v in s.machines <==> Up(h, v)
  }

  /** The server is in the state that its history tells. */
  ghost predicate Told(s: Server, h: seq<Action>) {
    TasksTold(s, h) && VmsTold(s, h) && MachinesTold(s, h) && (s.closing <==> Closing(h))
  }

  /* ------------------------------------------------------------------ */
  /* One more event.                                                      */
  /* ------------------------------------------------------------------ */

  lemma Front(h: seq<Action>, a: Action)
    ensures (h + [a])[..|h|] == h
  {
  }

  lemma ProgressMore(h: seq<Action>, a: Action, t: TaskId)
    ensures Progress(h + [a], t) == if HasTask(a) && a.t == t then Progressed(h, t, Progress(h, t), a) else Progress(h, t)
  {
    hide Progressed, HasTask;
    Front(h, a);
  }

  /** An event of others says nothing new about `t`. */
  lemma TaskStays(task: Task, t: TaskId, h: seq<Action>, a: Action)
    requires TaskTold(task, t, h) && (HasTask(a) ==> a.t != t)
    ensures TaskTold(task, t, h + [a])
  {
    hide Has, Progress;
    ProgressMore(h, a, t);
    Members(h, a);
  }

  lemma UnusedStays(h: seq<Action>, a: Action, t: TaskId)
    requires Unused(h, t) && Progress(h, t) == None && (HasTask(a) ==> a.t != t)
    ensures Unused(h + [a], t) && Progress(h + [a], t) == None
  {
    Front(h, a);
  }

  lemma ClosingMore(h: seq<Action>, a: Action)
    ensures Closing(h + [a]) <==> Closing(h) || a.ShutdownCloses?
  {
    if Closing(h) {
      var i :| 0 <= i < |h| && h[i].ShutdownCloses?;
      assert (h + [a])[i].ShutdownCloses?;
    }
    if a.ShutdownCloses? {
      assert (h + [a])[|h|].ShutdownCloses?;
    }
  }

  lemma UnusedNot(h: seq<Action>, t: TaskId, b: Action)
    requires Unused(h, t) && HasTask(b) && b.t == t
    ensures !Has(h, b)
  {
  }

  /** After one more event. */
  lemma Members(h: seq<Action>, a: Action)
    ensures forall b :: Has(h + [a], b) <==> Has(h, b) || b == a
  {
  }

  /** The goroutine a request makes. */
  lemma AcceptTask(s: Server, s': Server, h: seq<Action>, a: Action)
    requires TasksTold(s, h) && Accepts(a) && Accept(s, a) == Some(s')
    ensures a.t !in s.tasks && a.t in s'.tasks && TaskTold(s'.tasks[a.t], a.t, h + [a])
    ensures s'.tasks == s.tasks[a.t := s'.tasks[a.t]]
  {
    var t := a.t;
    assert Unused(h, t);
    hide TasksTold, TaskTold, NoneOwns;
    NewTask(s'.tasks[t], t, h, a);
  }

  lemma NewTask(task: Task, t: TaskId, h: seq<Action>, a: Action)
    requires Unused(h, t) && task.pc == Spawned && task.state == Queued
    requires match a
             case AcceptStart(u, v) => u == t && task.kind.Start? && task.vm == v
             case AcceptStop(u, v) => u == t && task.kind.Stop? && task.vm == v
             case AcceptGlass(u, v) => u == t && task.kind.GlassSpawn? && task.vm == v
             case AcceptPull(u) => u == t && task.kind.Pull?
             case _ => false
    ensures TaskTold(task, t, h + [a])
  {
    hide Unused, Has, Progress;
    ProgressMore(h, a, t);
    Members(h, a);
    forall b | HasTask(b) && b.t == t
      ensures !Has(h, b)
    {
      UnusedNot(h, t, b);
    }
  }

  /** Kind and VM of a task do not change, so what made it does not either. */
  lemma OnceStays(task: Task, task': Task, t: TaskId, h: seq<Action>, a: Action)
    requires KindTold(task, t, h) && OnceTold(task, t, h) && !Accepts(a) && task'.kind == task.kind && task'.vm == task.vm
    ensures KindTold(task', t, h + [a]) && OnceTold(task', t, h + [a])
  {
    hide Has;
    Members(h, a);
  }

  /** What one step of its own leaves of a task. */
  function Next(task: Task, a: Action): Task {
    match a
    case Begin(_) => task.(state := Running, pc := FirstPc(task.kind))
    case RegisterMachine(_) => task.(pc := Booting(true))
    case StartReturns(_, ok) => task.(pc := if ok then Booted else CleaningUp)
    case CleanupReturns(_, ok) => task.(pc := BootFailed(ok))
    case StartFinishes(_, cancelled) => Finish(task, task.pc == Booted, cancelled).(pc := Ending)
    case StopGoesOn(_) => task.(pc := Halting)
    case StopGivesUp(_) => task.(pc := Halted(false))
    case StopReturns(_, ok) => task.(pc := Halted(ok))
    case StopFinishes(_, cancelled) => if task.pc.Halted? then Finish(task, task.pc.stopped, cancelled).(pc := Ending) else task
    case GlassReady(_) => if task.state == Running then Finish(task, true, false) else task
    case GlassReturns(_, ok) => task.(pc := Shown(ok))
    case GlassFinishes(_, cancelled) =>
      (if task.state == Running then Finish(task, false, cancelled) else task).(pc := Ending)
    case PullReturns(_, ok) => task.(pc := Pulled(ok))
    case PullFinishes(_, cancelled) => if task.pc.Pulled? then Finish(task, task.pc.fetched, cancelled).(pc := Ending) else task
    case CloseDone(_) => task.(pc := Closed)
    case LeaveWaitGroup(_) => task.(pc := Over)
    case _ => task
  }

  /** Where a task has to be for a step. */
  predicate Ready(task: Task, a: Action) {
    match a
    case Begin(_) => task.pc == Spawned
    case RegisterMachine(_) => task.pc == Booting(false)
    case StartReturns(_, ok) => task.pc.Booting?
    case CleanupReturns(_, _) => task.pc == CleaningUp
    case StartFinishes(_, _) => task.kind.Start? && (task.pc == Booted || task.pc.BootFailed?)
    case StopGoesOn(_) => task.pc == Waiting
    case StopGivesUp(_) => task.pc == Waiting
    case StopReturns(_, _) => task.pc == Halting
    case StopFinishes(_, _) => task.kind.Stop? && task.pc.Halted?
    case GlassReady(_) => task.kind.GlassSpawn? && task.pc == Showing
    case GlassReturns(_, _) => task.pc == Showing
    case GlassFinishes(_, _) => task.kind.GlassSpawn? && task.pc.Shown?
    case PullReturns(_, _) => task.pc == Pulling
    case PullFinishes(_, _) => task.pc.Pulled?
    case CloseDone(_) => task.pc == Ending
    case LeaveWaitGroup(_) => task.pc == Closed
    case _ => false
  }

  lemma WorkIs(s: Server, s': Server, a: Action)
    requires !Accepts(a) && Work(s, a) == Some(s')
    ensures HasTask(a) && a.t in s.tasks && Ready(s.tasks[a.t], a) && s'.tasks == s.tasks[a.t := Next(s.tasks[a.t], a)]
  {
  }

  lemma NextTold(task: Task, t: TaskId, h: seq<Action>, a: Action)
    requires TaskTold(task, t, h) && !Accepts(a) && HasTask(a) && a.t == t && Ready(task, a)
    ensures TaskTold(Next(task, a), t, h + [a])
  {
    hide OnceTold, KindTold, Has, Progress;
    OnceStays(task, Next(task, a), t, h, a);
    ProgressMore(h, a, t);
    Members(h, a);
  }

  /** Where a step of its own leaves a goroutine. */
  lemma WorkTask(s: Server, s': Server, h: seq<Action>, a: Action)
    requires TasksTold(s, h) && !Accepts(a) && Work(s, a) == Some(s')
    ensures TasksTold(s', h + [a])
  {
    WorkIs(s, s', a);
    hide Work, Next, TaskTold, Unused, Ready;
    forall t
      ensures if t in s'.tasks then TaskTold(s'.tasks[t], t, h + [a]) else Unused(h + [a], t) && Progress(h + [a], t) == None
    {
      TaskSees(s, h, t);
      if t == a.t {
        NextTold(s.tasks[t], t, h, a);
      } else if t in s.tasks {
        TaskStays(s.tasks[t], t, h, a);
      } else {
        UnusedStays(h, a, t);
      }
    }
  }

  lemma TaskSees(s: Server, h: seq<Action>, t: TaskId)
    requires TasksTold(s, h)
    ensures if t in s.tasks then TaskTold(s.tasks[t], t, h) else Unused(h, t) && Progress(h, t) == None
  {
  }

  lemma AcceptTasks(s: Server, s': Server, h: seq<Action>, a: Action)
    requires TasksTold(s, h) && Accepts(a) && Accept(s, a) == Some(s')
    ensures TasksTold(s', h + [a])
  {
    AcceptTask(s, s', h, a);
    hide Accept, TaskTold, Unused;
    forall t
      ensures if t in s'.tasks then TaskTold(s'.tasks[t], t, h + [a]) else Unused(h + [a], t) && Progress(h + [a], t) == None
    {
      TaskSees(s, h, t);
      if t != a.t {
        if t in s.tasks {
          TaskStays(s.tasks[t], t, h, a);
        } else {
          UnusedStays(h, a, t);
        }
      }
    }
  }

  /** Events that are not of a goroutine leave all of them where they are. */
  lemma OthersTasks(s: Server, s': Server, h: seq<Action>, a: Action)
    requires TasksTold(s, h) && !HasTask(a) && s'.tasks == s.tasks
    ensures TasksTold(s', h + [a])
  {
    hide TaskTold, Unused;
    forall t
      ensures if t in s'.tasks then TaskTold(s'.tasks[t], t, h + [a]) else Unused(h + [a], t) && Progress(h + [a], t) == None
    {
      TaskSees(s, h, t);
      if t in s.tasks {
        TaskStays(s.tasks[t], t, h, a);
      } else {
        UnusedStays(h, a, t);
      }
    }
  }

  /* ------------------------------------------------------------------ */
  /* VMs and machines after one more event.                               */
  /* ------------------------------------------------------------------ */

  lemma LifeMore(h: seq<Action>, a: Action, v: VmId)
    ensures Life(h + [a], v) == if a.AcceptStart? && a.v == v then Some(Record(Starting, true, Some(a.t), None))
                                else if Life(h, v).None? then None
                                else Some(Changed(h, v, Life(h, v).value, a))
    ensures Up(h + [a], v) <==> UpAfter(h, v, Up(h, v), a)
  {
    hide Changed, UpAfter;
    Front(h, a);
  }

  /** What the step did to VM `v` and its machine is what the event says. */
  ghost predicate VmFollows(s: Server, s': Server, h: seq<Action>, a: Action, v: VmId) {
    && (v in s'.vms <==> v in s.vms || (a.AcceptStart? && a.v == v))
    && (v in s'.vms ==>
          RecordOf(s'.vms[v]) == if a.AcceptStart? && a.v == v then Record(Starting, true, Some(a.t), None)
                                 else Changed(h, v, RecordOf(s.vms[v]), a))
    && (v in s'.machines <==> UpAfter(h, v, v in s.machines, a))
  }

  lemma AcceptFollows(s: Server, s': Server, h: seq<Action>, a: Action, v: VmId)
    requires Accepts(a) && Accept(s, a) == Some(s')
    ensures VmFollows(s, s', h, a, v)
  {
    hide NoneOwns, Has;
  }

  lemma MonitorFollows(s: Server, s': Server, h: seq<Action>, a: Action, v: VmId)
    requires Monitor(s, a) == Some(s')
    ensures VmFollows(s, s', h, a, v)
  {
    hide Has;
  }

  lemma ShutdownFollows(s: Server, s': Server, h: seq<Action>, a: Action, v: VmId)
    requires Shutdown(s, a) == Some(s')
    ensures VmFollows(s, s', h, a, v) && s'.tasks == s.tasks && (s'.closing <==> s.closing || a.ShutdownCloses?)
  {
    hide Has, AllOver;
  }

  /** The VM of the goroutine that takes the step, as the history names it. */
  lemma WorkFollows(s: Server, s': Server, h: seq<Action>, a: Action, v: VmId)
    requires TasksTold(s, h) && !Accepts(a) && Work(s, a) == Some(s')
    ensures VmFollows(s, s', h, a, v) && s'.closing == s.closing
  {
    hide Has, Work, Unused, Progress, Heard, VmFollows, TaskTold, Next, Ready;
    WorkIs(s, s', a);
    WorkCloses(s, s', a);
    TaskSees(s, h, a.t);
    if v == s.tasks[a.t].vm {
      OwnFollows(s, s', h, a);
    } else {
      OtherFollows(s, s', h, a, v);
    }
  }

  lemma WorkCloses(s: Server, s': Server, a: Action)
    requires Work(s, a) == Some(s')
    ensures s'.closing == s.closing
  {
    hide Finish;
  }

  lemma OtherFollows(s: Server, s': Server, h: seq<Action>, a: Action, v: VmId)
    requires !Accepts(a) && Work(s, a) == Some(s') && a.t in s.tasks && TaskTold(s.tasks[a.t], a.t, h) && v != s.tasks[a.t].vm
    ensures VmFollows(s, s', h, a, v)
  {
    hide Has, PcTold, Progress;
  }

  lemma OwnFollows(s: Server, s': Server, h: seq<Action>, a: Action)
    requires !Accepts(a) && Work(s, a) == Some(s') && a.t in s.tasks && TaskTold(s.tasks[a.t], a.t, h)
    ensures VmFollows(s, s', h, a, s.tasks[a.t].vm)
  {
    hide Has, Progress;
  }

  lemma StepFollows(s: Server, s': Server, h: seq<Action>, a: Action)
    requires TasksTold(s, h) && Step(s, a) == Some(s')
    ensures TasksTold(s', h + [a]) && (s'.closing <==> s.closing || a.ShutdownCloses?)
    ensures forall v :: VmFollows(s, s', h, a, v)
  {
    hide Accept, Work, Shutdown, Monitor, TasksTold, VmFollows;
    if Accepts(a) {
      AcceptTasks(s, s', h, a);
      AcceptOpen(s, s', a);
      forall v {
        AcceptFollows(s, s', h, a, v);
      }
    } else if a.MonitorSeesExit? {
      MonitorTasks(s, s', a);
      OthersTasks(s, s', h, a);
      forall v {
        MonitorFollows(s, s', h, a, v);
      }
    } else if HasRequest(a) {
      ShutdownFollows(s, s', h, a, 0);
      OthersTasks(s, s', h, a);
      forall v {
        ShutdownFollows(s, s', h, a, v);
      }
    } else {
      WorkFollows(s, s', h, a, 0);
      WorkTask(s, s', h, a);
      forall v {
        WorkFollows(s, s', h, a, v);
      }
    }
  }

  lemma AcceptOpen(s: Server, s': Server, a: Action)
    requires Accept(s, a) == Some(s')
    ensures s'.closing == s.closing
  {
    hide NoneOwns;
  }

  lemma MonitorTasks(s: Server, s': Server, a: Action)
    requires Monitor(s, a) == Some(s')
    ensures s'.tasks == s.tasks && s'.closing == s.closing
  {
  }

  lemma VmsStay(s: Server, s': Server, h: seq<Action>, a: Action)
    requires VmsTold(s, h) && MachinesTold(s, h) && forall v :: VmFollows(s, s', h, a, v)
    ensures VmsTold(s', h + [a]) && MachinesTold(s', h + [a])
  {
    hide Life, Up, Changed, UpAfter;
    forall v
      ensures VmTold(s', h + [a], v) && (v in s'.machines <==> Up(h + [a], v))
    {
      LifeMore(h, a, v);
      assert VmFollows(s, s', h, a, v) && VmTold(s, h, v);
    }
  }

  /** In every run the server is in the state that its history tells. */
  lemma {:induction false} HistoryTells(h: seq<Action>)
    requires Run(h).Some?
    ensures Told(Run(h).value, h)
  {
    hide TasksTold, VmsTold, MachinesTold, Step, VmFollows;
    if h == [] {
      NothingTold();
    } else {
      var before, a := h[..|h| - 1], h[|h| - 1];
      assert h == before + [a];
      HistoryTells(before);
      var s, s' := Run(before).value, Run(h).value;
      StepFollows(s, s', before, a);
      VmsStay(s, s', before, a);
      ClosingMore(before, a);
    }
  }

  lemma NothingTold()
    ensures Told(INITIAL, [])
  {
  }
}
