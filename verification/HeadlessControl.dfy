/**
 The server's critical sections and driver calls as methods that change its tables, and the goroutines
 that go through them while others interfere. A task is an operation with its goroutine: `pc` is where
 the goroutine is, with its local variables.
 */
module HeadlessControl {
  import opened Wrappers
  import opened HeadlessServer
  import opened HeadlessSafety
  import opened HeadlessPlay

  /** The steps of a shutdown up to its list of machines. */
  predicate Awaits(a: Action) {
    a.ShutdownEnters? || a.ShutdownCloses? || a.ShutdownTimesOut? || a.ShutdownJobsEnd? || a.ShutdownListsMachines?
  }

  class Control {
    var tasks: map<TaskId, Task>
    var vms: map<VmId, Vm>
    var machines: set<VmId>
    var closing: bool
    var gate: Option<RequestId>
    var shutdowns: map<RequestId, ShutdownPc>

    ghost function View(): Server
      reads this
    {
      Server(tasks, vms, machines, closing, gate, shutdowns)
    }

    constructor ()
      ensures View() == INITIAL
    {
      tasks, vms, machines, closing, gate, shutdowns := map[], map[], {}, false, None, map[];
    }

    /** The step was possible and taken, or it was refused and nothing changed. */
    twostate predicate Took(a: Action, done: bool)
      reads this
    {
      var r := Step(old(View()), a);
      done == r.Some? && View() == if done then r.value else old(View())
    }

    /* ---------------------------------------------------------------- */
    /* Requests.                                                          */
    /* ---------------------------------------------------------------- */

    method SomeoneOwns() returns (owned: bool)
      ensures owned == !NoneOwns(View())
    {
      var left := vms.Keys;
      while left != {}
        invariant left <= vms.Keys && forall v :: v in vms && v !in left ==> !vms[v].owns
        decreases |left|
      {
        var v :| v in left;
        if vms[v].owns {
          return true;
        }
        left := left - {v};
      }
      return false;
    }

    /** A new queued operation under a fresh number. */
    method Accept(t: TaskId, kind: Kind, v: VmId)
      requires t !in tasks
      modifies this`tasks
      ensures tasks == old(tasks)[t := Task(kind, v, Queued, 0, Spawned)]
    {
      tasks := tasks[t := Task(kind, v, Queued, 0, Spawned)];
    }

    method StartVm(t: TaskId, v: VmId) returns (accepted: bool)
      requires t !in tasks && v !in vms
      modifies this`tasks, this`vms
      ensures Took(AcceptStart(t, v), accepted)
    {
      if closing {
        return false;
      }
      var owned := SomeoneOwns();
      if owned {
        return false;
      }
      Accept(t, Start, v);
      vms := vms[v := Vm(Starting, true, Some(t), None, t, t)];
      return true;
    }

    method StopVm(t: TaskId, v: VmId) returns (accepted: bool)
      requires t !in tasks
      modifies this`tasks, this`vms
      ensures Took(AcceptStop(t, v), accepted)
    {
      if closing || v !in vms || vms[v].state == Stopping {
        return false;
      }
      Accept(t, Stop(vms[v].done), v);
      vms := vms[v := vms[v].(state := Stopping, active := Some(t))];
      return true;
    }

    method SpawnGlass(t: TaskId, v: VmId) returns (accepted: bool)
      requires t !in tasks
      modifies this`tasks, this`vms
      ensures Took(AcceptGlass(t, v), accepted)
    {
      if closing || v !in vms || vms[v].state != VmRunning || vms[v].active != None {
        return false;
      }
      if vms[v].glass == Some(GlassOpen) || vms[v].glass == Some(GlassStarting) {
        return false;
      }
      Accept(t, GlassSpawn, v);
      vms := vms[v := vms[v].(active := Some(t), glass := Some(GlassStarting), done := t)];
      return true;
    }

    method PullImage(t: TaskId) returns (accepted: bool)
      requires t !in tasks
      modifies this`tasks
      ensures Took(AcceptPull(t), accepted)
    {
      if closing {
        return false;
      }
      Accept(t, Pull, 0);
      return true;
    }

    /* ---------------------------------------------------------------- */
    /* Ends of operations.                                                */
    /* ---------------------------------------------------------------- */

    method FinishTask(t: TaskId, ok: bool, cancelled: bool, pc: Pc)
      requires t in tasks
      modifies this`tasks
      ensures tasks == old(tasks)[t := Finish(old(tasks)[t], ok, cancelled).(pc := pc)]
    {
      var state := Succeeded;
      if !ok {
        state := Failed;
        if cancelled {
          state := Cancelled;
        }
      }
      tasks := tasks[t := tasks[t].(state := state, finishes := tasks[t].finishes + 1, pc := pc)];
    }

    /** The goroutine goes on to its next position. */
    method Move(t: TaskId, pc: Pc)
      requires t in tasks
      modifies this`tasks
      ensures tasks == old(tasks)[t := old(tasks)[t].(pc := pc)]
    {
      tasks := tasks[t := tasks[t].(pc := pc)];
    }

    method MarkRunning(t: TaskId)
      requires t in tasks
      modifies this`tasks
      ensures tasks == old(tasks)[t := old(tasks)[t].(state := Running, pc := FirstPc(old(tasks)[t].kind))]
    {
      tasks := tasks[t := tasks[t].(state := Running, pc := FirstPc(tasks[t].kind))];
    }

    method EndStart(t: TaskId, cancelled: bool)
      requires t in tasks && tasks[t].kind.Start? && tasks[t].vm in vms && (tasks[t].pc == Booted || tasks[t].pc.BootFailed?)
      modifies this`tasks, this`vms
      ensures Took(StartFinishes(t, cancelled), true)
    {
      var ok := tasks[t].pc == Booted;
      var v := tasks[t].vm;
      var vm := vms[v];
      if vm.state == Starting {
        vm := vm.(state := VmRunning);
        if !ok {
          vm := vm.(owns := !tasks[t].pc.released, state := VmFailed);
        }
        vm := vm.(active := None);
      }
      vms := vms[v := vm];
      FinishTask(t, ok, cancelled, Ending);
    }

    method EndStop(t: TaskId, cancelled: bool)
      requires t in tasks && tasks[t].kind.Stop? && tasks[t].vm in vms && tasks[t].pc.Halted?
      modifies this`tasks, this`vms
      ensures Took(StopFinishes(t, cancelled), true)
    {
      var ok := tasks[t].pc.stopped;
      var v := tasks[t].vm;
      var vm := vms[v].(active := None, state := Stopped, owns := !ok);
      if !ok {
        vm := vm.(state := VmFailed);
      }
      vms := vms[v := vm];
      FinishTask(t, ok, cancelled, Ending);
    }

    /** The callback for a complete frame. */
    method FramePresented(t: TaskId)
      requires t in tasks && tasks[t].kind.GlassSpawn? && tasks[t].vm in vms && tasks[t].pc == Showing
      modifies this`tasks, this`vms
      ensures Took(GlassReady(t), true)
    {
      if tasks[t].state == Running {
        var v := tasks[t].vm;
        vms := vms[v := vms[v].(glass := Some(GlassOpen), active := None)];
        FinishTask(t, true, false, Showing);
      }
    }

    method EndGlass(t: TaskId, cancelled: bool)
      requires t in tasks && tasks[t].kind.GlassSpawn? && tasks[t].vm in vms && tasks[t].pc.Shown?
      modifies this`tasks, this`vms
      ensures Took(GlassFinishes(t, cancelled), true)
    {
      var clean := tasks[t].pc.clean;
      var v := tasks[t].vm;
      var vm := vms[v];
      if tasks[t].state == Running {
        FinishTask(t, false, cancelled, Ending);
        vm := vm.(glass := Some(GlassFailed));
      } else {
        tasks := tasks[t := tasks[t].(pc := Ending)];
        vm := vm.(glass := Some(GlassClosed));
        if !clean {
          vm := vm.(glass := Some(GlassFailed));
        }
      }
      if vm.active == Some(t) {
        vm := vm.(active := None);
      }
      vms := vms[v := vm];
    }

    /* ---------------------------------------------------------------- */
    /* The monitor and shutdown.                                          */
    /* ---------------------------------------------------------------- */

    method GuestExited(v: VmId)
      requires v in vms
      modifies this`vms
      ensures Took(MonitorSeesExit(v), true)
    {
      if vms[v].state == VmRunning {
        vms := vms[v := vms[v].(state := VmFailed)];
      }
    }

    method Close(r: RequestId)
      requires r in shutdowns && shutdowns[r] == Entered
      modifies this`closing, this`shutdowns
      ensures Took(ShutdownCloses(r), true)
    {
      closing := true;
      shutdowns := shutdowns[r := WaitingJobs];
    }

    /** Every machine is recorded as stopped, one after the other. */
    method StopAll()
      modifies this`vms
      ensures vms == AllStopped(old(vms))
    {
      var left := vms.Keys;
      while left != {}
        invariant left <= vms.Keys == old(vms).Keys
        invariant forall v :: v in vms ==> vms[v] == if v in left then old(vms)[v] else StoppedVm(old(vms)[v])
        decreases |left|
      {
        var v :| v in left;
        var vm := vms[v].(state := Stopped, owns := false, active := None);
        if vm.glass != None {
          vm := vm.(glass := Some(GlassClosed));
        }
        vms := vms[v := vm];
        left := left - {v};
      }
    }

    method RecordStopped(r: RequestId)
      requires r in shutdowns && shutdowns[r] == Drained
      modifies this`vms, this`shutdowns
      ensures Took(ShutdownRecords(r), true)
    {
      hide AllStopped;
      StopAll();
      shutdowns := shutdowns[r := Leaving(true)];
    }

    /* ---------------------------------------------------------------- */
    /* Any step, in any order.                                            */
    /* ---------------------------------------------------------------- */

    method Request(a: Action) returns (done: bool)
      requires a.AcceptStart? || a.AcceptStop? || a.AcceptGlass? || a.AcceptPull?
      modifies this`tasks, this`vms
      ensures Took(a, done)
    {
      if a.t in tasks {
        return false;
      }
      match a
      case AcceptStart(t, v) =>
        if v in vms {
          return false;
        }
        done := StartVm(t, v);
      case AcceptStop(t, v) => done := StopVm(t, v);
      case AcceptGlass(t, v) => done := SpawnGlass(t, v);
      case AcceptPull(t) => done := PullImage(t);
    }

    /** The goroutine's operation is known, and so is its VM. */
    predicate Known(t: TaskId)
      reads this
    {
      t in tasks && (tasks[t].kind.Pull? || tasks[t].vm in vms)
    }

    /** The boot goroutine between its critical sections; `machines` is the driver's table. */
    method Boots(a: Action) returns (done: bool)
      requires a.Begin? || a.RegisterMachine? || a.StartReturns? || a.CleanupReturns?
      modifies this`tasks, this`machines
      ensures Took(a, done)
    {
      hide FinishStart, FinishStop, FinishGlass, PresentFrame, Finish;
      if !Known(a.t) {
        return false;
      }
      var task := tasks[a.t];
      done := true;
      match a
      case Begin(t) =>
        if task.pc != Spawned {
          return false;
        }
        MarkRunning(t);
      case RegisterMachine(t) =>
        if task.pc != Booting(false) {
          return false;
        }
        machines := machines + {task.vm};
        Move(t, Booting(true));
      case StartReturns(t, ok) =>
        if !task.pc.Booting? || (ok && !task.pc.registered) {
          return false;
        }
        Move(t, if ok then Booted else CleaningUp);
      case CleanupReturns(t, ok) =>
        if task.pc != CleaningUp {
          return false;
        }
        if ok {
          machines := machines - {task.vm};
        }
        Move(t, BootFailed(ok));
    }

    /** The stop goroutine between its critical sections. */
    method Halts(a: Action) returns (done: bool)
      requires a.StopGoesOn? || a.StopGivesUp? || a.StopReturns?
      modifies this`tasks, this`machines
      ensures Took(a, done)
    {
      hide FinishStart, FinishStop, FinishGlass, PresentFrame, Finish;
      if !Known(a.t) {
        return false;
      }
      var task := tasks[a.t];
      done := true;
      match a
      case StopGoesOn(t) =>
        if !task.kind.Stop? || task.pc != Waiting || task.kind.awaits !in tasks {
          return false;
        }
        var awaited := tasks[task.kind.awaits].pc;
        if awaited != Closed && awaited != Over {
          return false;
        }
        Move(t, Halting);
      case StopGivesUp(t) =>
        if task.pc != Waiting {
          return false;
        }
        Move(t, Halted(false));
      case StopReturns(t, ok) =>
        if task.pc != Halting {
          return false;
        }
        if ok {
          machines := machines - {task.vm};
        }
        Move(t, Halted(ok));
    }

    /** Returns of the other driver calls, and the end of a goroutine. */
    method Ends(a: Action) returns (done: bool)
      requires a.GlassReturns? || a.PullReturns? || a.CloseDone? || a.LeaveWaitGroup?
      modifies this`tasks
      ensures Took(a, done)
    {
      hide FinishStart, FinishStop, FinishGlass, PresentFrame, Finish;
      if !Known(a.t) {
        return false;
      }
      var pc := tasks[a.t].pc;
      done := true;
      match a
      case GlassReturns(t, ok) =>
        if pc != Showing {
          return false;
        }
        Move(t, Shown(ok));
      case PullReturns(t, ok) =>
        if pc != Pulling {
          return false;
        }
        Move(t, Pulled(ok));
      case CloseDone(t) =>
        if pc != Ending {
          return false;
        }
        Move(t, Closed);
      case LeaveWaitGroup(t) =>
        if pc != Closed {
          return false;
        }
        Move(t, Over);
    }

    /** The last critical section of a goroutine, or a frame. */
    method Conclude(a: Action) returns (done: bool)
      requires a.StartFinishes? || a.StopFinishes? || a.GlassReady? || a.GlassFinishes? || a.PullFinishes?
      modifies this`tasks, this`vms
      ensures Took(a, done)
    {
      hide FinishStart, FinishStop, FinishGlass, PresentFrame;
      if !Known(a.t) {
        return false;
      }
      var task := tasks[a.t];
      done := true;
      match a
      case StartFinishes(t, cancelled) =>
        if !task.kind.Start? || (task.pc != Booted && !task.pc.BootFailed?) {
          return false;
        }
        EndStart(t, cancelled);
      case StopFinishes(t, cancelled) =>
        if !task.kind.Stop? || !task.pc.Halted? {
          return false;
        }
        EndStop(t, cancelled);
      case GlassReady(t) =>
        if !task.kind.GlassSpawn? || task.pc != Showing {
          return false;
        }
        FramePresented(t);
      case GlassFinishes(t, cancelled) =>
        if !task.kind.GlassSpawn? || !task.pc.Shown? {
          return false;
        }
        EndGlass(t, cancelled);
      case PullFinishes(t, cancelled) =>
        if !task.pc.Pulled? {
          return false;
        }
        FinishTask(t, task.pc.fetched, cancelled, Ending);
    }

    /** Whether every goroutine is off the wait group. */
    method JobsOver() returns (over: bool)
      ensures over == AllOver(View())
    {
      var left := tasks.Keys;
      while left != {}
        invariant left <= tasks.Keys && forall t :: t in tasks && t !in left ==> tasks[t].pc == Over
        decreases |left|
      {
        var t :| t in left;
        if tasks[t].pc != Over {
          return false;
        }
        left := left - {t};
      }
      return true;
    }

    /** A step of a shutdown request. */
    method Closes(a: Action) returns (done: bool)
      requires HasRequest(a)
      modifies this`vms, this`machines, this`closing, this`gate, this`shutdowns
      ensures Took(a, done)
    {
      hide Step;
      if Awaits(a) {
        done := Await(a);
      } else {
        done := Empty(a);
      }
    }

    /** Up to the list of machines to be stopped. */
    method Await(a: Action) returns (done: bool)
      requires Awaits(a)
      modifies this`closing, this`gate, this`shutdowns
      ensures Took(a, done)
    {
      hide AllStopped, AllOver;
      done := true;
      if a.ShutdownEnters? {
        if gate != None || a.r in shutdowns {
          return false;
        }
        gate, shutdowns := Some(a.r), shutdowns[a.r := Entered];
        return;
      }
      if a.r !in shutdowns {
        return false;
      }
      var pc := shutdowns[a.r];
      match a
      case ShutdownCloses(r) =>
        if pc != Entered {
          return false;
        }
        Close(r);
      case ShutdownTimesOut(r) =>
        if pc != WaitingJobs {
          return false;
        }
        shutdowns := shutdowns[r := Leaving(false)];
      case ShutdownJobsEnd(r) =>
        var over := JobsOver();
        if pc != WaitingJobs || !over {
          return false;
        }
        shutdowns := shutdowns[r := JobsDone];
      case ShutdownListsMachines(r) =>
        if pc != JobsDone {
          return false;
        }
        shutdowns := shutdowns[r := Draining(machines)];
    }

    /** The machines listed are stopped, and what is left is recorded. */
    method Empty(a: Action) returns (done: bool)
      requires HasRequest(a) && !Awaits(a)
      modifies this`vms, this`machines, this`gate, this`shutdowns
      ensures Took(a, done)
    {
      hide AllStopped, AllOver;
      done := true;
      if a.r !in shutdowns {
        return false;
      }
      var pc := shutdowns[a.r];
      match a
      case ShutdownStops(r, v, ok) =>
        if !pc.Draining? || v !in pc.ids {
          return false;
        }
        if ok {
          machines, shutdowns := machines - {v}, shutdowns[r := Draining(pc.ids - {v})];
        } else {
          shutdowns := shutdowns[r := Leaving(false)];
        }
      case ShutdownDrained(r, ok) =>
        if !pc.Draining? || pc.ids != {} {
          return false;
        }
        shutdowns := shutdowns[r := if ok then Drained else Leaving(false)];
      case ShutdownRecords(r) =>
        if pc != Drained {
          return false;
        }
        RecordStopped(r);
      case ShutdownLeaves(r) =>
        if !pc.Leaving? {
          return false;
        }
        gate, shutdowns := None, shutdowns[r := Left(pc.ok)];
    }

    ghost predicate Valid()
      reads this
    {
      Inv(View())
    }

    /** Any step of any request, goroutine, driver call, monitor or shutdown. */
    method Perform(a: Action) returns (done: bool)
      requires Valid()
      modifies this
      ensures Took(a, done) && Valid()
    {
      hide Inv, Step;
      if Step(View(), a).Some? {
        StepKeeps(View(), a);
      }
      if a.AcceptStart? || a.AcceptStop? || a.AcceptGlass? || a.AcceptPull? {
        done := Request(a);
      } else if a.MonitorSeesExit? {
        done := Sees(a);
      } else if HasRequest(a) {
        done := Closes(a);
      } else if a.Begin? || a.RegisterMachine? || a.StartReturns? || a.CleanupReturns? {
        done := Boots(a);
      } else if a.StopGoesOn? || a.StopGivesUp? || a.StopReturns? {
        done := Halts(a);
      } else if a.GlassReturns? || a.PullReturns? || a.CloseDone? || a.LeaveWaitGroup? {
        done := Ends(a);
      } else {
        done := Conclude(a);
      }
    }

    method Sees(a: Action) returns (done: bool)
      requires a.MonitorSeesExit?
      modifies this`vms
      ensures Took(a, done)
    {
      if a.v !in vms {
        return false;
      }
      GuestExited(a.v);
      return true;
    }

    /** Whatever others do, one step after the other; what is not possible is passed over. */
    method Interfere(actions: seq<Action>)
      requires Valid()
      modifies this
      ensures View() == Play(old(View()), actions) && Valid()
    {
      hide Inv, Step;
      var i := 0;
      assert actions[0..] == actions;
      while i < |actions|
        invariant i <= |actions| && Valid() && Play(View(), actions[i..]) == Play(old(View()), actions)
      {
        assert actions[i..][0] == actions[i] && actions[i..][1..] == actions[i + 1..];
        var done := Perform(actions[i]);
        i := i + 1;
      }
      assert actions[i..] == [];
    }
  }
}
