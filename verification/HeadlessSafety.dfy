/** What every interleaving of the headless control server keeps. */
module HeadlessSafety {
  import opened Wrappers
  import opened HeadlessServer

  /* ------------------------------------------------------------------ */
  /* The invariant.                                                       */
  /* ------------------------------------------------------------------ */

  predicate Done(pc: Pc) { pc == Ending || pc == Closed || pc == Over }

  /** Positions a task of each kind can be at. */
  predicate PcFits(kind: Kind, pc: Pc) {
    || pc == Spawned || Done(pc)
    || (kind.Start? && (pc.Booting? || pc == Booted || pc == CleaningUp || pc.BootFailed?))
    || (kind.Stop? && (pc == Waiting || pc == Halting || pc.Halted?))
    || (kind.GlassSpawn? && (pc == Showing || pc.Shown?))
    || (kind.Pull? && (pc == Pulling || pc.Pulled?))
  }

  /** An operation is finished once, and exactly when it is terminal. */
  predicate StateFits(t: Task) {
    && t.finishes == (if t.state.Terminal() then 1 else 0)
    && (t.pc == Spawned <==> t.state == Queued)
    && (Done(t.pc) ==> t.state.Terminal())
    && (!Done(t.pc) && t.pc != Spawned && t.state != Running ==> t.kind.GlassSpawn?)
  }

  predicate TaskOk(t: Task) { PcFits(t.kind, t.pc) && StateFits(t) }

  predicate TasksOk(s: Server) { forall t :: t in s.tasks ==> TaskOk(s.tasks[t]) }

  /** Tasks and machines belong to known VMs, and a VM has one boot task. */
  predicate Linked(s: Server) {
    && (forall t :: t in s.tasks && !s.tasks[t].kind.Pull? ==> s.tasks[t].vm in s.vms)
    && (forall t :: t in s.tasks && s.tasks[t].kind.Start? ==> s.vms[s.tasks[t].vm].starter == t)
    && (forall v :: v in s.vms ==> s.vms[v].starter in s.tasks
                                   && s.tasks[s.vms[v].starter].kind.Start? && s.tasks[s.vms[v].starter].vm == v)
    && s.machines <= s.vms.Keys
  }

  /** The boot task has left its last critical section. */
  predicate Settled(s: Server, v: VmId)
    requires v in s.vms
  {
    s.vms[v].starter in s.tasks && Done(s.tasks[s.vms[v].starter].pc)
  }

  /** The VM may still get a machine, or has one. */
  predicate Claims(s: Server, v: VmId)
    requires v in s.vms
  {
    !Settled(s, v) || v in s.machines
  }

  /** A boot task that has not registered its machine, or has released it, has none. */
  predicate BootFits(pc: Pc, hasMachine: bool) {
    hasMachine ==> pc != Spawned && pc != Booting(false) && pc != BootFailed(true)
  }

  /** A channel a stop may wait on: the boot task's, or that of a window opened after boot. */
  predicate Awaitable(s: Server, v: VmId, d: TaskId)
    requires v in s.vms
  {
    d in s.tasks && (d == s.vms[v].starter || (s.tasks[d].kind.GlassSpawn? && s.tasks[d].vm == v && Settled(s, v)))
  }

  predicate VmOk(s: Server, v: VmId)
    requires v in s.vms
  {
    var vm := s.vms[v];
    && (Claims(s, v) ==> vm.owns)
    && (vm.state == VmRunning ==> Settled(s, v))
    && (vm.state == Starting ==> !Settled(s, v))
    && Awaitable(s, v, vm.done)
    && (vm.starter in s.tasks ==> BootFits(s.tasks[vm.starter].pc, v in s.machines))
  }

  predicate VmsOk(s: Server) { forall v :: v in s.vms ==> VmOk(s, v) }

  /** A stop calls the driver only after boot is over; once it succeeded the machine is gone. */
  predicate StopOk(s: Server, t: TaskId)
    requires t in s.tasks
  {
    var task := s.tasks[t];
    task.kind.Stop? ==>
      && task.vm in s.vms && Awaitable(s, task.vm, task.kind.awaits)
      && (task.pc == Halting || task.pc == Halted(true) ==> Settled(s, task.vm))
      && (task.pc == Halted(true) ==> task.vm !in s.machines)
  }

  predicate StopsOk(s: Server) { forall t :: t in s.tasks ==> StopOk(s, t) }

  /** At most one VM claims resources. */
  predicate Alone(s: Server) {
    forall v, w :: v in s.vms && w in s.vms && Claims(s, v) && Claims(s, w) ==> v == w
  }

  /** How far a shutdown has got, and what that guarantees. */
  predicate ShutdownOk(s: Server, pc: ShutdownPc) {
    && (!pc.Entered? && !pc.Leaving? && !pc.Left? ==> s.closing)
    && (pc.JobsDone? || pc.Draining? || pc.Drained? ==> AllOver(s))
    && (pc.Draining? ==> s.machines <= pc.ids)
    && (pc.Drained? ==> s.machines == {})
    && ((pc.Leaving? || pc.Left?) && pc.ok ==> Quiet(s))
  }

  predicate ShutdownsOk(s: Server) { forall r :: r in s.shutdowns ==> ShutdownOk(s, s.shutdowns[r]) }

  /** Everything is stopped: nothing runs, nothing is owned, nothing can start. */
  predicate Quiet(s: Server) {
    && s.closing && s.machines == {} && AllOver(s)
    && (forall v :: v in s.vms ==> s.vms[v].state == Stopped && !s.vms[v].owns && s.vms[v].active == None)
  }

  predicate Inv(s: Server) {
    TasksOk(s) && Linked(s) && VmsOk(s) && StopsOk(s) && Alone(s) && ShutdownsOk(s)
  }

  /* ------------------------------------------------------------------ */
  /* A step of one task, on its own VM.                                   */
  /* ------------------------------------------------------------------ */

  /** Task `t`, VM `v` and the machine of `v` change; nothing else does. */
  ghost predicate OnlyTouches(s: Server, s': Server, t: TaskId, v: VmId) {
    && s'.tasks.Keys == s.tasks.Keys && t in s.tasks
    && s'.vms.Keys == s.vms.Keys && v in s.vms
    && (forall u :: u in s.tasks && u != t ==> s'.tasks[u] == s.tasks[u])
    && (forall w :: w in s.vms && w != v ==> s'.vms[w] == s.vms[w])
    && (forall w :: w != v ==> (w in s'.machines <==> w in s.machines))
    && s'.closing == s.closing && s'.shutdowns == s.shutdowns
  }

  /** What such a step has to show about its goroutine and the VM it touches. */
  ghost predicate LocallyOk(s: Server, s': Server, t: TaskId, v: VmId)
    requires OnlyTouches(s, s', t, v)
  {
    var task, task' := s.tasks[t], s'.tasks[t];
    var vm, vm' := s.vms[v], s'.vms[v];
    && task.vm == v && !task.kind.Pull? && task.pc != Over && vm.starter in s.tasks
    && task'.kind == task.kind && task'.vm == task.vm && TaskOk(task')
    && (Done(task.pc) ==> Done(task'.pc))
    && vm'.starter == vm.starter && vm'.done == vm.done
    && (Claims(s', v) ==> Claims(s, v) && vm'.owns)
    && (vm'.state == VmRunning ==> Settled(s', v))
    && (vm'.state == Starting ==> !Settled(s', v))
    && BootFits(s'.tasks[vm.starter].pc, v in s'.machines)
    && (v in s'.machines && v !in s.machines ==> !Settled(s, v))
    && (task.kind.Stop? && (task'.pc == Halting || task'.pc == Halted(true)) ==> Settled(s, v))
    && (task.kind.Stop? && task'.pc == Halted(true) ==> v !in s'.machines)
  }

  lemma TouchTasks(s: Server, s': Server, t: TaskId, v: VmId)
    requires Inv(s) && OnlyTouches(s, s', t, v) && LocallyOk(s, s', t, v)
    ensures TasksOk(s') && Linked(s')
  {
    hide VmsOk, StopsOk, Alone, ShutdownsOk, PcFits, StateFits, Claims, BootFits;
    forall w | w in s'.machines ensures w in s'.vms {
      assert w != v ==> w in s.machines;
    }
  }

  /** A boot task that was over stays over, for every VM. */
  lemma TouchSettled(s: Server, s': Server, t: TaskId, v: VmId, w: VmId)
    requires Inv(s) && OnlyTouches(s, s', t, v) && LocallyOk(s, s', t, v) && w in s.vms
    ensures Settled(s, w) ==> Settled(s', w)
    ensures w != v ==> (Settled(s', w) <==> Settled(s, w)) && (Claims(s', w) <==> Claims(s, w))
    ensures s'.vms[w].starter == s.vms[w].starter && s'.vms[w].done == s.vms[w].done
  {
    hide VmsOk, StopsOk, Alone, ShutdownsOk, TasksOk, TaskOk, BootFits;
    if w != v {
      assert s.tasks[s.vms[w].starter].vm == w;
      assert s.vms[w].starter != t;
    }
  }

  lemma TouchVm(s: Server, s': Server, t: TaskId, v: VmId, w: VmId)
    requires Inv(s) && OnlyTouches(s, s', t, v) && LocallyOk(s, s', t, v) && w in s.vms
    ensures VmOk(s', w)
  {
    hide StopsOk, Alone, ShutdownsOk, TasksOk, TaskOk;
    assert VmOk(s, w);
    TouchSettled(s, s', t, v, w);
    if w != v {
      assert s.tasks[s.vms[w].starter].vm == w;
    }
  }

  lemma TouchStop(s: Server, s': Server, t: TaskId, v: VmId, u: TaskId)
    requires Inv(s) && OnlyTouches(s, s', t, v) && LocallyOk(s, s', t, v) && u in s.tasks
    ensures StopOk(s', u)
  {
    hide VmsOk, Alone, ShutdownsOk, TasksOk, TaskOk, Linked, BootFits;
    assert StopOk(s, u);
    if s.tasks[u].kind.Stop? {
      assert s.tasks[u].vm in s.vms;
      TouchSettled(s, s', t, v, s.tasks[u].vm);
    }
  }

  lemma TouchAlone(s: Server, s': Server, t: TaskId, v: VmId)
    requires Inv(s) && OnlyTouches(s, s', t, v) && LocallyOk(s, s', t, v)
    ensures Alone(s')
  {
    hide VmsOk, StopsOk, ShutdownsOk, TasksOk, TaskOk, Linked, BootFits, Settled;
    forall w | w in s.vms ensures Claims(s', w) ==> Claims(s, w) {
      TouchSettled(s, s', t, v, w);
    }
  }

  lemma TouchShutdowns(s: Server, s': Server, t: TaskId, v: VmId)
    requires Inv(s) && OnlyTouches(s, s', t, v) && LocallyOk(s, s', t, v)
    ensures ShutdownsOk(s')
  {
    hide VmsOk, StopsOk, Alone, TasksOk, TaskOk, Linked, BootFits, Settled;
    assert !AllOver(s);
    forall r | r in s.shutdowns ensures ShutdownOk(s', s.shutdowns[r]) {
      assert ShutdownOk(s, s.shutdowns[r]);
    }
  }

  lemma TouchKeeps(s: Server, s': Server, t: TaskId, v: VmId)
    requires Inv(s) && OnlyTouches(s, s', t, v) && LocallyOk(s, s', t, v)
    ensures Inv(s')
  {
    hide VmOk, StopOk, Alone, TasksOk, Linked, ShutdownsOk, LocallyOk;
    TouchTasks(s, s', t, v);
    forall w | w in s'.vms ensures VmOk(s', w) {
      TouchVm(s, s', t, v, w);
    }
    forall u | u in s'.tasks ensures StopOk(s', u) {
      TouchStop(s, s', t, v, u);
    }
    TouchAlone(s, s', t, v);
    TouchShutdowns(s, s', t, v);
  }

  /** What the invariant says about one task and its VM. */
  lemma LocalFacts(s: Server, t: TaskId)
    requires Inv(s) && t in s.tasks && !s.tasks[t].kind.Pull?
    ensures var v := s.tasks[t].vm;
            && TaskOk(s.tasks[t]) && v in s.vms && VmOk(s, v) && StopOk(s, t)
            && s.vms[v].starter in s.tasks && s.tasks[s.vms[v].starter].kind.Start?
            && TaskOk(s.tasks[s.vms[v].starter])
            && (s.tasks[t].kind.Start? <==> s.vms[v].starter == t)
  {
    hide Alone, ShutdownsOk, Claims, Settled, PcFits, StateFits;
    assert VmOk(s, s.tasks[t].vm) && StopOk(s, t);
  }

  lemma BeginKeeps(s: Server, a: Action)
    requires Inv(s) && a.Begin? && Work(s, a).Some? && !s.tasks[a.t].kind.Pull?
    ensures Inv(Work(s, a).value)
  {
    hide Inv;
    LocalFacts(s, a.t);
    TouchKeeps(s, Work(s, a).value, a.t, s.tasks[a.t].vm);
  }

  lemma RegisterKeeps(s: Server, a: Action)
    requires Inv(s) && a.RegisterMachine? && Work(s, a).Some? && !s.tasks[a.t].kind.Pull?
    ensures Inv(Work(s, a).value)
  {
    hide Inv;
    LocalFacts(s, a.t);
    TouchKeeps(s, Work(s, a).value, a.t, s.tasks[a.t].vm);
  }

  lemma StartReturnsKeeps(s: Server, a: Action)
    requires Inv(s) && a.StartReturns? && Work(s, a).Some? && !s.tasks[a.t].kind.Pull?
    ensures Inv(Work(s, a).value)
  {
    hide Inv;
    LocalFacts(s, a.t);
    TouchKeeps(s, Work(s, a).value, a.t, s.tasks[a.t].vm);
  }

  lemma CleanupKeeps(s: Server, a: Action)
    requires Inv(s) && a.CleanupReturns? && Work(s, a).Some? && !s.tasks[a.t].kind.Pull?
    ensures Inv(Work(s, a).value)
  {
    hide Inv;
    LocalFacts(s, a.t);
    TouchKeeps(s, Work(s, a).value, a.t, s.tasks[a.t].vm);
  }

  lemma StartFinishesKeeps(s: Server, a: Action)
    requires Inv(s) && a.StartFinishes? && Work(s, a).Some? && !s.tasks[a.t].kind.Pull?
    ensures Inv(Work(s, a).value)
  {
    hide Inv, Awaitable, LocallyOk;
    LocalFacts(s, a.t);
    StartFinishesLocally(s, a);
    TouchKeeps(s, Work(s, a).value, a.t, s.tasks[a.t].vm);
  }

  lemma StartFinishesLocally(s: Server, a: Action)
    requires a.StartFinishes? && Work(s, a).Some? && !s.tasks[a.t].kind.Pull?
    requires var t := a.t; var v := s.tasks[t].vm;
             TaskOk(s.tasks[t]) && v in s.vms && VmOk(s, v) && s.vms[v].starter == t
    requires OnlyTouches(s, Work(s, a).value, a.t, s.tasks[a.t].vm)
    ensures LocallyOk(s, Work(s, a).value, a.t, s.tasks[a.t].vm)
  {
    hide Awaitable, OnlyTouches;
  }

  lemma StopGoesOnKeeps(s: Server, a: Action)
    requires Inv(s) && a.StopGoesOn? && Work(s, a).Some? && !s.tasks[a.t].kind.Pull?
    ensures Inv(Work(s, a).value)
  {
    hide Inv;
    LocalFacts(s, a.t);
    assert s.tasks[a.t].kind.awaits in s.tasks;
    TouchKeeps(s, Work(s, a).value, a.t, s.tasks[a.t].vm);
  }

  lemma StopGivesUpKeeps(s: Server, a: Action)
    requires Inv(s) && a.StopGivesUp? && Work(s, a).Some? && !s.tasks[a.t].kind.Pull?
    ensures Inv(Work(s, a).value)
  {
    hide Inv;
    LocalFacts(s, a.t);
    TouchKeeps(s, Work(s, a).value, a.t, s.tasks[a.t].vm);
  }

  lemma StopReturnsKeeps(s: Server, a: Action)
    requires Inv(s) && a.StopReturns? && Work(s, a).Some? && !s.tasks[a.t].kind.Pull?
    ensures Inv(Work(s, a).value)
  {
    hide Inv;
    LocalFacts(s, a.t);
    TouchKeeps(s, Work(s, a).value, a.t, s.tasks[a.t].vm);
  }

  lemma StopFinishesKeeps(s: Server, a: Action)
    requires Inv(s) && a.StopFinishes? && Work(s, a).Some? && !s.tasks[a.t].kind.Pull?
    ensures Inv(Work(s, a).value)
  {
    hide Inv;
    LocalFacts(s, a.t);
    TouchKeeps(s, Work(s, a).value, a.t, s.tasks[a.t].vm);
  }

  lemma GlassReadyKeeps(s: Server, a: Action)
    requires Inv(s) && a.GlassReady? && Work(s, a).Some? && !s.tasks[a.t].kind.Pull?
    ensures Inv(Work(s, a).value)
  {
    hide Inv;
    LocalFacts(s, a.t);
    TouchKeeps(s, Work(s, a).value, a.t, s.tasks[a.t].vm);
  }

  lemma GlassReturnsKeeps(s: Server, a: Action)
    requires Inv(s) && a.GlassReturns? && Work(s, a).Some? && !s.tasks[a.t].kind.Pull?
    ensures Inv(Work(s, a).value)
  {
    hide Inv;
    LocalFacts(s, a.t);
    TouchKeeps(s, Work(s, a).value, a.t, s.tasks[a.t].vm);
  }

  lemma GlassFinishesKeeps(s: Server, a: Action)
    requires Inv(s) && a.GlassFinishes? && Work(s, a).Some? && !s.tasks[a.t].kind.Pull?
    ensures Inv(Work(s, a).value)
  {
    hide Inv, Awaitable;
    LocalFacts(s, a.t);
    TouchKeeps(s, Work(s, a).value, a.t, s.tasks[a.t].vm);
  }

  lemma CloseDoneKeeps(s: Server, a: Action)
    requires Inv(s) && a.CloseDone? && Work(s, a).Some? && !s.tasks[a.t].kind.Pull?
    ensures Inv(Work(s, a).value)
  {
    hide Inv;
    LocalFacts(s, a.t);
    TouchKeeps(s, Work(s, a).value, a.t, s.tasks[a.t].vm);
  }

  lemma LeaveKeeps(s: Server, a: Action)
    requires Inv(s) && a.LeaveWaitGroup? && Work(s, a).Some? && !s.tasks[a.t].kind.Pull?
    ensures Inv(Work(s, a).value)
  {
    hide Inv;
    LocalFacts(s, a.t);
    TouchKeeps(s, Work(s, a).value, a.t, s.tasks[a.t].vm);
  }

  /* ------------------------------------------------------------------ */
  /* A new task, accepted while the server is open.                       */
  /* ------------------------------------------------------------------ */

  /** Task `t` is new and VM `v` new or changed; nothing else changes. */
  ghost predicate OnlyAdds(s: Server, s': Server, t: TaskId, v: VmId) {
    && t !in s.tasks && s'.tasks.Keys == s.tasks.Keys + {t}
    && s'.vms.Keys == s.vms.Keys + {v}
    && (forall u :: u in s.tasks ==> s'.tasks[u] == s.tasks[u])
    && (forall w :: w in s.vms && w != v ==> s'.vms[w] == s.vms[w])
    && s'.machines == s.machines && s'.shutdowns == s.shutdowns && !s.closing && !s'.closing
  }

  ghost predicate AddsOk(s: Server, s': Server, t: TaskId, v: VmId)
    requires OnlyAdds(s, s', t, v)
  {
    var task := s'.tasks[t];
    && task.vm == v && task.pc == Spawned && TaskOk(task) && !task.kind.Pull?
    && VmOk(s', v) && StopOk(s', t)
    && (if task.kind.Start? then v !in s.vms && s'.vms[v].starter == t && NoneOwns(s)
        else v in s.vms && s'.vms[v].starter == s.vms[v].starter)
  }

  lemma AddTasks(s: Server, s': Server, t: TaskId, v: VmId)
    requires Inv(s) && OnlyAdds(s, s', t, v) && AddsOk(s, s', t, v)
    ensures TasksOk(s') && Linked(s') && ShutdownsOk(s')
  {
    hide VmsOk, StopsOk, Alone, PcFits, StateFits, VmOk, StopOk, NoneOwns;
    forall r | r in s.shutdowns ensures ShutdownOk(s', s.shutdowns[r]) {
      assert ShutdownOk(s, s.shutdowns[r]);
    }
  }

  lemma AddSettled(s: Server, s': Server, t: TaskId, v: VmId, w: VmId)
    requires Inv(s) && OnlyAdds(s, s', t, v) && AddsOk(s, s', t, v) && w in s.vms
    ensures s'.vms[w].starter == s.vms[w].starter
    ensures Settled(s', w) <==> Settled(s, w)
    ensures Claims(s', w) <==> Claims(s, w)
  {
    hide VmsOk, StopsOk, Alone, ShutdownsOk, TasksOk, TaskOk, BootFits, VmOk, StopOk, NoneOwns;
  }

  lemma AddVm(s: Server, s': Server, t: TaskId, v: VmId, w: VmId)
    requires Inv(s) && OnlyAdds(s, s', t, v) && AddsOk(s, s', t, v) && w in s'.vms
    ensures VmOk(s', w)
  {
    hide StopsOk, Alone, ShutdownsOk, TasksOk, TaskOk, StopOk, NoneOwns;
    if w != v {
      assert VmOk(s, w);
      AddSettled(s, s', t, v, w);
    }
  }

  lemma AddStop(s: Server, s': Server, t: TaskId, v: VmId, u: TaskId)
    requires Inv(s) && OnlyAdds(s, s', t, v) && AddsOk(s, s', t, v) && u in s'.tasks
    ensures StopOk(s', u)
  {
    hide VmsOk, VmOk, Alone, ShutdownsOk, TasksOk, TaskOk, BootFits, NoneOwns;
    if u != t {
      assert StopOk(s, u);
      if s.tasks[u].kind.Stop? {
        AddSettled(s, s', t, v, s.tasks[u].vm);
      }
    }
  }

  lemma AddAlone(s: Server, s': Server, t: TaskId, v: VmId)
    requires Inv(s) && OnlyAdds(s, s', t, v) && AddsOk(s, s', t, v)
    ensures Alone(s')
  {
    hide StopsOk, ShutdownsOk, TasksOk, TaskOk, StopOk, Linked, BootFits, Settled, Awaitable;
    forall w | w in s.vms ensures Claims(s', w) <==> Claims(s, w) {
      AddSettled(s, s', t, v, w);
    }
    if v !in s.vms {
      forall w | w in s.vms ensures !Claims(s', w) {
        assert VmOk(s, w);
      }
    }
  }

  lemma AddKeeps(s: Server, s': Server, t: TaskId, v: VmId)
    requires Inv(s) && OnlyAdds(s, s', t, v) && AddsOk(s, s', t, v)
    ensures Inv(s')
  {
    hide VmOk, StopOk, Alone, TasksOk, Linked, ShutdownsOk, AddsOk, OnlyAdds;
    AddTasks(s, s', t, v);
    forall w | w in s'.vms ensures VmOk(s', w) {
      AddVm(s, s', t, v, w);
    }
    forall u | u in s'.tasks ensures StopOk(s', u) {
      AddStop(s, s', t, v, u);
    }
    AddAlone(s, s', t, v);
  }

  lemma AcceptStartKeeps(s: Server, a: Action)
    requires Inv(s) && a.AcceptStart? && Accept(s, a).Some?
    ensures Inv(Accept(s, a).value)
  {
    hide Inv, NoneOwns;
    assert s.machines <= s.vms.Keys by { MachinesKnown(s); }
    AddKeeps(s, Accept(s, a).value, a.t, a.v);
  }

  lemma MachinesKnown(s: Server)
    requires Inv(s)
    ensures s.machines <= s.vms.Keys
  {
  }

  /** What the invariant says about one VM. */
  lemma VmFacts(s: Server, v: VmId)
    requires Inv(s) && v in s.vms
    ensures VmOk(s, v) && s.vms[v].starter in s.tasks && s.vms[v].done in s.tasks
  {
  }

  lemma AcceptStopKeeps(s: Server, a: Action)
    requires Inv(s) && a.AcceptStop? && Accept(s, a).Some?
    ensures Inv(Accept(s, a).value)
  {
    hide Inv, NoneOwns;
    VmFacts(s, a.v);
    AddKeeps(s, Accept(s, a).value, a.t, a.v);
  }

  lemma AcceptGlassKeeps(s: Server, a: Action)
    requires Inv(s) && a.AcceptGlass? && Accept(s, a).Some?
    ensures Inv(Accept(s, a).value)
  {
    hide Inv, NoneOwns;
    VmFacts(s, a.v);
    AddKeeps(s, Accept(s, a).value, a.t, a.v);
  }

  /* ------------------------------------------------------------------ */
  /* Steps that leave the VMs' tasks alone.                               */
  /* ------------------------------------------------------------------ */

  /** Only a pull task changes, or appears while the server is open. */
  ghost predicate OnlyPulls(s: Server, s': Server, t: TaskId) {
    && s'.tasks.Keys == s.tasks.Keys + {t} && s'.tasks[t].kind.Pull? && TaskOk(s'.tasks[t])
    && (forall u :: u in s.tasks && u != t ==> s'.tasks[u] == s.tasks[u])
    && s'.vms == s.vms && s'.machines == s.machines && s'.shutdowns == s.shutdowns && s'.closing == s.closing
    && (if t in s.tasks then s.tasks[t].kind.Pull? && s.tasks[t].pc != Over else !s.closing)
  }

  lemma PullSettled(s: Server, s': Server, t: TaskId, v: VmId)
    requires Inv(s) && OnlyPulls(s, s', t) && v in s.vms
    ensures (Settled(s', v) <==> Settled(s, v)) && (Claims(s', v) <==> Claims(s, v))
    ensures forall d :: Awaitable(s, v, d) ==> Awaitable(s', v, d)
  {
    hide VmsOk, StopsOk, Alone, ShutdownsOk, TasksOk, TaskOk;
  }

  lemma PullVms(s: Server, s': Server, t: TaskId)
    requires Inv(s) && OnlyPulls(s, s', t)
    ensures VmsOk(s') && StopsOk(s') && Alone(s')
  {
    hide ShutdownsOk, TasksOk, TaskOk, Settled, Awaitable, BootFits;
    forall v | v in s.vms
      ensures VmOk(s', v) && (Claims(s', v) <==> Claims(s, v))
    {
      assert VmOk(s, v);
      PullSettled(s, s', t, v);
    }
    forall u | u in s'.tasks ensures StopOk(s', u) {
      if u != t {
        assert StopOk(s, u);
        if s.tasks[u].kind.Stop? {
          PullSettled(s, s', t, s.tasks[u].vm);
        }
      }
    }
  }

  lemma PullKeeps(s: Server, s': Server, t: TaskId)
    requires Inv(s) && OnlyPulls(s, s', t)
    ensures Inv(s')
  {
    hide VmsOk, StopsOk, Alone, TasksOk, Linked, ShutdownsOk, OnlyPulls;
    PullVms(s, s', t);
    PullTasks(s, s', t);
    PullShutdowns(s, s', t);
  }

  lemma PullTasks(s: Server, s': Server, t: TaskId)
    requires Inv(s) && OnlyPulls(s, s', t)
    ensures TasksOk(s') && Linked(s')
  {
    hide VmsOk, StopsOk, Alone, PcFits, StateFits, ShutdownsOk;
  }

  lemma PullShutdowns(s: Server, s': Server, t: TaskId)
    requires Inv(s) && OnlyPulls(s, s', t)
    ensures ShutdownsOk(s')
  {
    hide VmsOk, StopsOk, Alone, PcFits, StateFits, Linked;
    forall r | r in s.shutdowns ensures ShutdownOk(s', s.shutdowns[r]) {
      assert ShutdownOk(s, s.shutdowns[r]);
      assert t in s.tasks ==> !AllOver(s);
    }
  }

  lemma PullFacts(s: Server, t: TaskId)
    requires Inv(s) && t in s.tasks
    ensures TaskOk(s.tasks[t])
  {
  }

  lemma PullWorkKeeps(s: Server, a: Action)
    requires Inv(s) && Work(s, a).Some? && s.tasks[a.t].kind.Pull?
    ensures Inv(Work(s, a).value)
  {
    hide Inv;
    PullFacts(s, a.t);
    PullKeeps(s, Work(s, a).value, a.t);
  }

  lemma AcceptPullKeeps(s: Server, a: Action)
    requires Inv(s) && a.AcceptPull? && Accept(s, a).Some?
    ensures Inv(Accept(s, a).value)
  {
    hide Inv;
    PullKeeps(s, Accept(s, a).value, a.t);
  }

  /** Same tasks, same boot tasks, no more machines: settled and claiming VMs carry over. */
  ghost predicate SameTasks(s: Server, s': Server) {
    && s'.tasks == s.tasks && s'.vms.Keys == s.vms.Keys && s'.machines <= s.machines
    && (forall v :: v in s.vms ==> s'.vms[v].starter == s.vms[v].starter && s'.vms[v].done == s.vms[v].done)
  }

  /** What a step with the same tasks has to show about each VM record. */
  ghost predicate RecordOk(s: Server, s': Server, v: VmId)
    requires v in s.vms && v in s'.vms
  {
    var vm' := s'.vms[v];
    && (Claims(s', v) ==> vm'.owns)
    && (vm'.state == VmRunning || vm'.state == Starting ==> vm'.state == s.vms[v].state)
  }

  lemma SameTasksKeeps(s: Server, s': Server)
    requires Inv(s) && SameTasks(s, s') && (forall v :: v in s.vms ==> RecordOk(s, s', v))
    ensures TasksOk(s') && Linked(s') && VmsOk(s') && StopsOk(s') && Alone(s')
  {
    hide ShutdownsOk, PcFits, StateFits;
    forall v | v in s.vms
      ensures VmOk(s', v) && (Claims(s', v) ==> Claims(s, v))
    {
      assert VmOk(s, v) && RecordOk(s, s', v);
    }
    forall u | u in s'.tasks ensures StopOk(s', u) {
      assert StopOk(s, u);
    }
  }

  lemma MonitorKeeps(s: Server, a: Action)
    requires Inv(s) && Monitor(s, a).Some?
    ensures Inv(Monitor(s, a).value)
  {
    hide TasksOk, Linked, VmsOk, StopsOk, Alone, RecordOk, SameTasks;
    var s' := Monitor(s, a).value;
    MonitorRecords(s, a);
    SameTasksKeeps(s, s');
    forall r | r in s.shutdowns ensures ShutdownOk(s', s.shutdowns[r]) {
      assert ShutdownOk(s, s.shutdowns[r]);
    }
  }

  lemma MonitorRecords(s: Server, a: Action)
    requires Inv(s) && Monitor(s, a).Some?
    ensures SameTasks(s, Monitor(s, a).value)
    ensures forall v :: v in s.vms ==> RecordOk(s, Monitor(s, a).value, v)
  {
    hide TasksOk, Linked, StopsOk, Alone, ShutdownsOk, Awaitable, BootFits;
    forall v | v in s.vms ensures RecordOk(s, Monitor(s, a).value, v) {
      assert VmOk(s, v);
    }
  }

  lemma ShutdownRecordsOk(s: Server, a: Action)
    requires Inv(s) && Shutdown(s, a).Some?
    ensures SameTasks(s, Shutdown(s, a).value)
    ensures forall v :: v in s.vms ==> RecordOk(s, Shutdown(s, a).value, v)
  {
    hide TasksOk, Linked, StopsOk, Alone, Awaitable, BootFits;
    var s' := Shutdown(s, a).value;
    forall v | v in s.vms ensures RecordOk(s, s', v) {
      assert VmOk(s, v);
      if a.ShutdownRecords? {
        assert ShutdownOk(s, s.shutdowns[a.r]);
        AllSettled(s, v);
      }
    }
  }

  /** Once every task is over, no VM is waiting for its boot. */
  lemma AllSettled(s: Server, v: VmId)
    requires Inv(s) && AllOver(s) && v in s.vms
    ensures Settled(s, v)
  {
    hide TasksOk, VmsOk, StopsOk, Alone, ShutdownsOk;
  }

  lemma ShutdownPcOk(s: Server, a: Action, r: RequestId)
    requires Inv(s) && Shutdown(s, a).Some? && r in Shutdown(s, a).value.shutdowns
    ensures ShutdownOk(Shutdown(s, a).value, Shutdown(s, a).value.shutdowns[r])
  {
    hide TasksOk, VmsOk, Linked, StopsOk, Alone;
    if r in s.shutdowns {
      assert ShutdownOk(s, s.shutdowns[r]);
    }
    if a.r in s.shutdowns {
      assert ShutdownOk(s, s.shutdowns[a.r]);
    }
  }

  lemma ShutdownKeeps(s: Server, a: Action)
    requires Inv(s) && Shutdown(s, a).Some?
    ensures Inv(Shutdown(s, a).value)
  {
    var s' := Shutdown(s, a).value;
    ShutdownRecordsOk(s, a);
    SameTasksKeeps(s, s');
    hide TasksOk, Linked, VmsOk, StopsOk, Alone, ShutdownOk;
    forall r | r in s'.shutdowns ensures ShutdownOk(s', s'.shutdowns[r]) {
      ShutdownPcOk(s, a, r);
    }
  }

  /* ------------------------------------------------------------------ */
  /* Every run.                                                           */
  /* ------------------------------------------------------------------ */

  lemma WorkKeeps(s: Server, a: Action)
    requires Inv(s) && Work(s, a).Some? && !s.tasks[a.t].kind.Pull?
    ensures Inv(Work(s, a).value)
  {
    hide Inv, Work;
    WorkKinds(s, a);
    WorkNeedsTask(s, a);
    match a
    case Begin(_) => BeginKeeps(s, a);
    case RegisterMachine(_) => RegisterKeeps(s, a);
    case StartReturns(_, _) => StartReturnsKeeps(s, a);
    case CleanupReturns(_, _) => CleanupKeeps(s, a);
    case StartFinishes(_, _) => StartFinishesKeeps(s, a);
    case StopGoesOn(_) => StopGoesOnKeeps(s, a);
    case StopGivesUp(_) => StopGivesUpKeeps(s, a);
    case StopReturns(_, _) => StopReturnsKeeps(s, a);
    case StopFinishes(_, _) => StopFinishesKeeps(s, a);
    case GlassReady(_) => GlassReadyKeeps(s, a);
    case GlassReturns(_, _) => GlassReturnsKeeps(s, a);
    case GlassFinishes(_, _) => GlassFinishesKeeps(s, a);
    case CloseDone(_) => CloseDoneKeeps(s, a);
    case LeaveWaitGroup(_) => LeaveKeeps(s, a);
    case _ => assert false;
  }

  /** A VM task has no pull steps, and accepting a request is not a goroutine step. */
  lemma WorkKinds(s: Server, a: Action)
    requires Inv(s) && Work(s, a).Some? && !s.tasks[a.t].kind.Pull?
    ensures !(a.PullReturns? || a.PullFinishes? || a.AcceptStart? || a.AcceptStop? || a.AcceptGlass? || a.AcceptPull?)
  {
    hide Inv;
    PullFacts(s, a.t);
  }

  /** Every step of every goroutine, request, monitor and shutdown keeps the invariant. */
  lemma StepKeeps(s: Server, a: Action)
    requires Inv(s) && Step(s, a).Some?
    ensures Inv(Step(s, a).value)
  {
    hide Inv, Work, Accept, Shutdown, Monitor;
    if a.AcceptStart? {
      AcceptStartKeeps(s, a);
    } else if a.AcceptStop? {
      AcceptStopKeeps(s, a);
    } else if a.AcceptGlass? {
      AcceptGlassKeeps(s, a);
    } else if a.AcceptPull? {
      AcceptPullKeeps(s, a);
    } else if a.MonitorSeesExit? {
      MonitorKeeps(s, a);
    } else if HasRequest(a) {
      ShutdownKeeps(s, a);
    } else {
      WorkNeedsTask(s, a);
      if s.tasks[a.t].kind.Pull? {
        PullWorkKeeps(s, a);
      } else {
        WorkKeeps(s, a);
      }
    }
  }

  lemma WorkNeedsTask(s: Server, a: Action)
    requires Work(s, a).Some?
    ensures HasTask(a) && a.t in s.tasks
  {
  }

  lemma {:induction false} RunKeeps(actions: seq<Action>)
    requires Run(actions).Some?
    ensures Inv(Run(actions).value)
  {
    if actions != [] {
      var n := |actions| - 1;
      hide Inv, Step;
      RunKeeps(actions[..n]);
      StepKeeps(Run(actions[..n]).value, actions[n]);
    }
  }

  /** The VM has a `Start` call in progress or a machine in the driver's table. */
  ghost predicate Live(s: Server, v: VmId) {
    v in s.machines || exists t :: t in s.tasks && s.tasks[t].vm == v && s.tasks[t].pc.Booting?
  }

  lemma LiveClaims(s: Server, v: VmId)
    requires Inv(s) && Live(s, v)
    ensures v in s.vms && Claims(s, v) && s.vms[v].owns
  {
    hide StopsOk, Alone, ShutdownsOk, StateFits;
    if v !in s.machines {
      var t :| t in s.tasks && s.tasks[t].vm == v && s.tasks[t].pc.Booting?;
      assert TaskOk(s.tasks[t]);
    }
    assert VmOk(s, v);
  }

  /**
   In every interleaving, whatever fails or times out, at most one VM is being
   booted or has a machine, and it is marked as owning resources.
   */
  lemma AtMostOneLive(actions: seq<Action>, v: VmId, w: VmId)
    requires Run(actions).Some? && Live(Run(actions).value, v) && Live(Run(actions).value, w)
    ensures v == w && v in Run(actions).value.vms && Run(actions).value.vms[v].owns
  {
    RunKeeps(actions);
    var s := Run(actions).value;
    LiveClaims(s, v);
    LiveClaims(s, w);
  }

  /* ------------------------------------------------------------------ */
  /* Operations.                                                          */
  /* ------------------------------------------------------------------ */

  /** The moves an operation's state may make in one step. */
  predicate Moves(from: Task, to: Task) {
    && (|| (from.state == to.state && from.finishes == to.finishes)
        || (from.state == Queued && to.state == Running && to.finishes == from.finishes)
        || (from.state == Running && to.state.Terminal() && to.finishes == from.finishes + 1))
    && to.kind == from.kind && to.vm == from.vm
  }

  lemma WorkMoves(s: Server, a: Action, t: TaskId)
    requires Inv(s) && Work(s, a).Some? && t in s.tasks
    ensures t in Work(s, a).value.tasks && Moves(s.tasks[t], Work(s, a).value.tasks[t])
  {
    hide Inv;
    PullFacts(s, a.t);
    hide WithShutdown;
    if t != a.t {
      WorkElsewhere(s, a, t);
    }
  }

  lemma WorkElsewhere(s: Server, a: Action, t: TaskId)
    requires Work(s, a).Some? && t in s.tasks && t != a.t
    ensures t in Work(s, a).value.tasks && Work(s, a).value.tasks[t] == s.tasks[t]
  {
    hide Finish;
  }

  /** One step moves each operation along queued, running, terminal, or not at all. */
  lemma StepMoves(s: Server, a: Action, t: TaskId)
    requires Inv(s) && Step(s, a).Some? && t in s.tasks
    ensures t in Step(s, a).value.tasks && Moves(s.tasks[t], Step(s, a).value.tasks[t])
  {
    hide Inv, Work;
    if Step(s, a) == Work(s, a) {
      WorkMoves(s, a, t);
    }
  }

  /** In every run an operation is finished at most once, and exactly when it is terminal. */
  lemma FinishedOnce(actions: seq<Action>, t: TaskId)
    requires Run(actions).Some? && t in Run(actions).value.tasks
    ensures var task := Run(actions).value.tasks[t]; task.finishes == if task.state.Terminal() then 1 else 0
  {
    RunKeeps(actions);
    PullFacts(Run(actions).value, t);
  }

  /** A terminal operation never changes state again. */
  lemma {:induction false} TerminalForever(actions: seq<Action>, n: nat, t: TaskId)
    requires n <= |actions| && Run(actions).Some?
    requires Run(actions[..n]).Some? && t in Run(actions[..n]).value.tasks
    requires Run(actions[..n]).value.tasks[t].state.Terminal()
    ensures t in Run(actions).value.tasks
    ensures Run(actions).value.tasks[t].state == Run(actions[..n]).value.tasks[t].state
    ensures Run(actions).value.tasks[t].finishes == Run(actions[..n]).value.tasks[t].finishes
    decreases |actions|
  {
    hide Inv, Step;
    if n == |actions| {
      assert actions[..n] == actions;
    } else {
      var m := |actions| - 1;
      assert actions[..m][..n] == actions[..n];
      TerminalForever(actions[..m], n, t);
      RunKeeps(actions[..m]);
      StepMoves(Run(actions[..m]).value, actions[m], t);
    }
  }

  /* ------------------------------------------------------------------ */
  /* Shutdown.                                                            */
  /* ------------------------------------------------------------------ */

  /** A shutdown request has returned, or is about to return, success. */
  predicate ShutDown(s: Server, r: RequestId) {
    r in s.shutdowns && (s.shutdowns[r] == Leaving(true) || s.shutdowns[r] == Left(true))
  }

  lemma ShutDownStays(s: Server, a: Action, r: RequestId)
    requires ShutDown(s, r) && Step(s, a).Some?
    ensures ShutDown(Step(s, a).value, r)
  {
    hide Work, Accept, Shutdown;
    if a.MonitorSeesExit? {
    } else if HasRequest(a) {
      RequestLeavesShutDown(s, a, r);
    } else if a.AcceptStart? || a.AcceptStop? || a.AcceptGlass? || a.AcceptPull? {
      AcceptLeavesShutdowns(s, a);
    } else {
      WorkLeavesShutdowns(s, a);
    }
  }

  lemma RequestLeavesShutDown(s: Server, a: Action, r: RequestId)
    requires ShutDown(s, r) && HasRequest(a) && Shutdown(s, a).Some?
    ensures ShutDown(Shutdown(s, a).value, r)
  {
  }

  lemma AcceptLeavesShutdowns(s: Server, a: Action)
    requires Accept(s, a).Some?
    ensures Accept(s, a).value.shutdowns == s.shutdowns
  {
  }

  lemma WorkLeavesShutdowns(s: Server, a: Action)
    requires Work(s, a).Some?
    ensures Work(s, a).value.shutdowns == s.shutdowns
  {
    hide Finish, FirstPc;
  }

  lemma {:induction false} ShutDownRemains(actions: seq<Action>, n: nat, r: RequestId)
    requires n <= |actions| && Run(actions).Some? && Run(actions[..n]).Some? && ShutDown(Run(actions[..n]).value, r)
    ensures ShutDown(Run(actions).value, r)
    decreases |actions|
  {
    hide Step, ShutDown;
    if n == |actions| {
      assert actions[..n] == actions;
    } else {
      var m := |actions| - 1;
      assert actions[..m][..n] == actions[..n];
      ShutDownRemains(actions[..m], n, r);
      ShutDownStays(Run(actions[..m]).value, actions[m], r);
    }
  }

  /**
   From the moment a shutdown succeeds, in every later state: every operation is
   terminal, every VM is stopped without owner flag or active operation, and no
   machine is left.
   */
  lemma ShutdownIsFinal(actions: seq<Action>, n: nat, r: RequestId)
    requires n <= |actions| && Run(actions).Some? && Run(actions[..n]).Some? && ShutDown(Run(actions[..n]).value, r)
    ensures var s := Run(actions).value;
            Quiet(s) && forall t :: t in s.tasks ==> s.tasks[t].state.Terminal()
  {
    hide Step, ShutDown, Inv, Quiet;
    RunKeeps(actions);
    ShutDownRemains(actions, n, r);
    QuietMeans(Run(actions).value, r);
  }

  lemma QuietMeans(s: Server, r: RequestId)
    requires Inv(s) && ShutDown(s, r)
    ensures Quiet(s) && forall t :: t in s.tasks ==> s.tasks[t].state.Terminal()
  {
    hide Linked, VmsOk, StopsOk, Alone;
    assert ShutdownOk(s, s.shutdowns[r]);
    forall t | t in s.tasks ensures s.tasks[t].state.Terminal() {
      assert TaskOk(s.tasks[t]);
    }
  }
}
