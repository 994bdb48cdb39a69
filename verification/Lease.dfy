/** The accelerator lease: flock ownership by open file description, delegated descriptors, and the probing verifier,
    as a state machine over every interleaving of any number of processes. */
module Lease {
  import opened Wrappers

  type Process = nat
  /** An open file description; several processes may hold descriptors for one. */
  type Ofd = nat

  /** Where a process is. A wrapper opens its own stream, or verifies an inherited descriptor through a probe, and only
      then runs its child. `Plain` is any other program; `Finished` is a wrapper past its last use of the lease. */
  datatype Pc =
    | Plain
    | Begin(inherited: Option<Ofd>)
    | Opened(own: Ofd)
    | Checked(lease: Ofd)
    | Probing(lease: Ofd, probe: Ofd)
    | ProbeLocked(lease: Ofd, probe: Ofd)
    | ProbeBusy(lease: Ofd, probe: Ofd)
    | ClosingProbe(probe: Ofd)
    | Accepted(lease: Ofd, probe: Ofd)
    | Held(lease: Ofd)
    | Running(lease: Ofd, child: Process)
    | Finished
    | Exited
  {
    /** The description whose ownership the process relies on. */
    function Claims(): Option<Ofd> {
      match this
      case Accepted(o, _) => Some(o)
      case Held(o) => Some(o)
      case Running(o, _) => Some(o)
      case _ => None
    }

    function Probe(): Option<Ofd> {
      match this
      case Probing(_, pr) => Some(pr)
      case ProbeLocked(_, pr) => Some(pr)
      case ProbeBusy(_, pr) => Some(pr)
      case ClosingProbe(pr) => Some(pr)
      case Accepted(_, pr) => Some(pr)
      case _ => None
    }

    /** The descriptor being verified or used. */
    function Lease(): Option<Ofd> {
      match this
      case Begin(inherited) => inherited
      case Opened(o) => Some(o)
      case Checked(o) => Some(o)
      case Probing(o, _) => Some(o)
      case ProbeLocked(o, _) => Some(o)
      case ProbeBusy(o, _) => Some(o)
      case Accepted(o, _) => Some(o)
      case Held(o) => Some(o)
      case Running(o, _) => Some(o)
      case _ => None
    }
  }

  /** `isLock[o]` tells whether description `o` is for the lock file; `refs` are the open descriptors. */
  datatype System = System(owner: Option<Ofd>, isLock: map<Ofd, bool>, refs: set<(Process, Ofd)>, pc: map<Process, Pc>)

  datatype Step =
    | StartPlain(p: Process)
    | PlainOpen(p: Process, o: Ofd, lockFile: bool)
    | PlainLock(p: Process, o: Ofd)
    | PlainUnlock(p: Process, o: Ofd)
    | Close(p: Process, o: Ofd)
    | StartWrapper(p: Process, parent: Process, inherited: Option<Ofd>)
    | StatCheck(p: Process)
    | OpenOwn(p: Process, o: Ofd)
    | LockOwn(p: Process)
    | OpenProbe(p: Process, o: Ofd)
    | LockProbe(p: Process)
    | UnlockProbe(p: Process)
    | Relock(p: Process)
    | CloseProbe(p: Process)
    | Abort(p: Process)
    | RunChild(p: Process, child: Process, share: bool, nested: bool)
    | ChildDone(p: Process)
    | Exit(p: Process)

  // ---- Kernel operations ----

  /** `flock(LOCK_EX | LOCK_NB)` succeeds on a free lock and on the description that already owns it. */
  predicate CanLock(s: System, o: Ofd) {
    s.owner.None? || s.owner.value == o
  }

  predicate Claimed(s: System, o: Ofd) {
    exists q :: q in s.pc && s.pc[q].Claims() == Some(o)
  }

  /** Closing descriptors releases the lock once no descriptor for the owning description is left. */
  function Drop(s: System, gone: set<(Process, Ofd)>): System {
    var refs := s.refs - gone;
    s.(refs := refs,
       owner := if s.owner.Some? && exists r :: r in refs && r.1 == s.owner.value then s.owner else None)
  }

  function Open(s: System, p: Process, o: Ofd, lockFile: bool): System {
    s.(isLock := s.isLock[o := lockFile], refs := s.refs + {(p, o)})
  }

  function Goto(s: System, p: Process, pc: Pc): System {
    s.(pc := s.pc[p := pc])
  }

  // ---- The steps ----

  predicate Enabled(s: System, t: Step) {
    match t
    case StartPlain(p) => p !in s.pc
    case PlainOpen(p, o, _) => p in s.pc && s.pc[p].Plain? && o !in s.isLock
    case PlainLock(p, o) => p in s.pc && s.pc[p].Plain? && (p, o) in s.refs && o in s.isLock
    // A program may unlock any description it holds, except one that a wrapper is relying on.
    case PlainUnlock(p, o) => p in s.pc && s.pc[p].Plain? && (p, o) in s.refs && !Claimed(s, o)
    case Close(p, o) => p in s.pc && (s.pc[p].Plain? || s.pc[p].Finished?) && (p, o) in s.refs
    case StartWrapper(p, parent, inherited) =>
      p !in s.pc && parent in s.pc && s.pc[parent].Plain? && (inherited.Some? ==> (parent, inherited.value) in s.refs)
    case StatCheck(p) => p in s.pc && s.pc[p].Begin? && s.pc[p].inherited.Some? && s.pc[p].inherited.value in s.isLock
    case OpenOwn(p, o) => p in s.pc && s.pc[p] == Begin(None) && o !in s.isLock
    case LockOwn(p) => p in s.pc && s.pc[p].Opened?
    case OpenProbe(p, o) => p in s.pc && s.pc[p].Checked? && o !in s.isLock
    case LockProbe(p) => p in s.pc && s.pc[p].Probing?
    case UnlockProbe(p) => p in s.pc && s.pc[p].ProbeLocked?
    case Relock(p) => p in s.pc && s.pc[p].ProbeBusy?
    case CloseProbe(p) => p in s.pc && (s.pc[p].ClosingProbe? || s.pc[p].Accepted?)
    case Abort(p) => p in s.pc && s.pc[p].Held?
    case RunChild(p, c, _, _) => p in s.pc && s.pc[p].Held? && c !in s.pc
    case ChildDone(p) => p in s.pc && s.pc[p].Running? && s.pc[p].child in s.pc && s.pc[s.pc[p].child].Exited?
    // A wrapper waits for its child, so only a running one cannot exit; any other process may stop anywhere.
    case Exit(p) => p in s.pc && !s.pc[p].Running? && !s.pc[p].Exited?
  }

  function Do(s: System, t: Step): System
    requires Enabled(s, t)
  {
    match t
    case StartPlain(p) => Goto(s, p, Plain)
    case PlainOpen(p, o, lockFile) => Open(s, p, o, lockFile)
    case PlainLock(p, o) => if s.isLock[o] && CanLock(s, o) then s.(owner := Some(o)) else s
    case PlainUnlock(p, o) => if s.owner == Some(o) then s.(owner := None) else s
    case Close(p, o) => Drop(s, {(p, o)})
    case StartWrapper(p, _, inherited) =>
      Goto(if inherited.Some? then s.(refs := s.refs + {(p, inherited.value)}) else s, p, Begin(inherited))
    case StatCheck(p) =>
      var d := s.pc[p].inherited.value;
      Goto(s, p, if s.isLock[d] then Checked(d) else Finished)
    case OpenOwn(p, o) => Goto(Open(s, p, o, true), p, Opened(o))
    case LockOwn(p) =>
      var o := s.pc[p].own;
      if CanLock(s, o) then Goto(s.(owner := Some(o)), p, Held(o)) else Goto(s, p, Finished)
    case OpenProbe(p, o) => Goto(Open(s, p, o, true), p, Probing(s.pc[p].lease, o))
    case LockProbe(p) =>
      var Probing(d, pr) := s.pc[p];
      if CanLock(s, pr) then Goto(s.(owner := Some(pr)), p, ProbeLocked(d, pr)) else Goto(s, p, ProbeBusy(d, pr))
    case UnlockProbe(p) =>
      var pr := s.pc[p].probe;
      Goto(if s.owner == Some(pr) then s.(owner := None) else s, p, ClosingProbe(pr))
    case Relock(p) =>
      var ProbeBusy(d, pr) := s.pc[p];
      if CanLock(s, d) then Goto(s.(owner := Some(d)), p, Accepted(d, pr)) else Goto(s, p, ClosingProbe(pr))
    case CloseProbe(p) =>
      var pr := s.pc[p].probe;
      Goto(Drop(s, {(p, pr)}), p, if s.pc[p].Accepted? then Held(s.pc[p].lease) else Finished)
    case Abort(p) => Goto(s, p, Finished)
    case RunChild(p, c, share, nested) =>
      var o := s.pc[p].lease;
      var shared := if share then s.(refs := s.refs + {(c, o)}) else s;
      var childPc := if nested then Begin(if share then Some(o) else None) else Plain;
      Goto(Goto(shared, p, Running(o, c)), c, childPc)
    case ChildDone(p) => Goto(s, p, Finished)
    case Exit(p) => Goto(Drop(s, set r | r in s.refs && r.0 == p), p, Exited)
  }

  const INITIAL := System(None, map[], {}, map[])

  // ---- The invariant ----

  /** A process at `pc` holds a descriptor for the lease it verifies or uses; its probe is private to it and is not its
      lease; and if it claims the lease, the claimed description owns the lock now. */
  ghost predicate Good(s: System, p: Process, pc: Pc) {
    && (pc.Lease().Some? ==> (p, pc.Lease().value) in s.refs)
    && (pc.Probe().Some? ==> Private(s, p, pc.Probe().value) && pc.Lease() != pc.Probe())
    && (pc.Claims().Some? ==> s.owner == pc.Claims())
  }

  ghost predicate Private(s: System, p: Process, pr: Ofd) {
    (p, pr) in s.refs && forall r :: r in s.refs && r.1 == pr ==> r.0 == p
  }

  ghost predicate Referenced(s: System, o: Ofd) {
    exists r :: r in s.refs && r.1 == o
  }

  ghost predicate Inv(s: System) {
    && (forall r :: r in s.refs ==> r.1 in s.isLock)
    && (s.owner.Some? ==> Referenced(s, s.owner.value))
    && (forall p :: p in s.pc ==> Good(s, p, s.pc[p]))
  }

  lemma InitialInv()
    ensures Inv(INITIAL)
  {
  }

  // What each kernel operation keeps.

  lemma GotoKeeps(s: System, p: Process, pc: Pc)
    requires Inv(s) && Good(s, p, pc)
    ensures Inv(Goto(s, p, pc))
  {
  }

  /** A new description is in nobody's way. */
  lemma OpenKeeps(s: System, p: Process, o: Ofd, lockFile: bool)
    requires Inv(s) && o !in s.isLock
    ensures Inv(Open(s, p, o, lockFile)) && Private(Open(s, p, o, lockFile), p, o)
  {
  }

  /** Delegating a descriptor of a process that is not probing with it never exposes a probe. */
  lemma DelegateKeeps(s: System, from: Process, to: Process, o: Ofd)
    requires Inv(s) && from in s.pc && (from, o) in s.refs && s.pc[from].Probe() != Some(o)
    ensures Inv(s.(refs := s.refs + {(to, o)}))
  {
  }

  lemma LockKeeps(s: System, o: Ofd)
    requires Inv(s) && CanLock(s, o) && Referenced(s, o)
    ensures Inv(s.(owner := Some(o)))
  {
  }

  /** Unlocking a description nobody relies on takes the lock from no claimant. */
  lemma ReleaseKeeps(s: System, o: Ofd)
    requires Inv(s) && s.owner == Some(o) && !Claimed(s, o)
    ensures Inv(s.(owner := None))
  {
    forall q | q in s.pc
      ensures Good(s.(owner := None), q, s.pc[q])
    {
      assert Good(s, q, s.pc[q]);
    }
  }

  /** Unlocking a probe cannot take the lock from a claimant: no claimant holds a descriptor for a private probe. */
  lemma UnlockKeeps(s: System, p: Process, pr: Ofd)
    requires Inv(s) && p in s.pc && s.pc[p].Probe() == Some(pr) && s.owner == Some(pr)
    ensures Inv(s.(owner := None))
  {
    assert Good(s, p, s.pc[p]);
    forall q | q in s.pc
      ensures s.pc[q].Claims() != Some(pr)
    {
      assert Good(s, q, s.pc[q]);
      assert (q, pr).1 == pr;
    }
    ReleaseKeeps(s, pr);
  }

  /** Closing descriptors of a process that neither uses nor probes with them never takes the lock from a claimant,
      since a claimant keeps its own descriptor open. */
  lemma DropKeeps(s: System, gone: set<(Process, Ofd)>, p: Process)
    requires Inv(s) && p in s.pc && forall r :: r in gone ==> r.0 == p
    requires s.pc[p].Lease().Some? ==> (p, s.pc[p].Lease().value) !in gone
    requires s.pc[p].Probe().Some? ==> (p, s.pc[p].Probe().value) !in gone
    ensures Inv(Drop(s, gone))
  {
  }

  /** Every step of every process keeps the invariant. */
  lemma StepKeepsInv(s: System, t: Step)
    requires Inv(s) && Enabled(s, t)
    ensures Inv(Do(s, t))
  {
    if t.StartPlain? || t.PlainOpen? || t.PlainLock? || t.PlainUnlock? || t.Close? || t.StartWrapper? || t.RunChild? {
      LaunchKeepsInv(s, t);
    } else if t.StatCheck? || t.OpenOwn? || t.LockOwn? || t.Abort? || t.ChildDone? || t.Exit? {
      WrapperKeepsInv(s, t);
    } else {
      VerifierKeepsInv(s, t);
    }
  }

  lemma LaunchKeepsInv(s: System, t: Step)
    requires Inv(s) && Enabled(s, t)
    requires t.StartPlain? || t.PlainOpen? || t.PlainLock? || t.PlainUnlock? || t.Close? || t.StartWrapper?
             || t.RunChild?
    ensures Inv(Do(s, t))
  {
    match t
    case StartPlain(p) => GotoKeeps(s, p, Plain);
    case PlainOpen(p, o, lockFile) => OpenKeeps(s, p, o, lockFile);
    case PlainLock(p, o) =>
      assert (p, o).1 == o;
      if s.isLock[o] && CanLock(s, o) {
        LockKeeps(s, o);
      }
    case PlainUnlock(p, o) =>
      if s.owner == Some(o) {
        ReleaseKeeps(s, o);
      }
    case Close(p, o) => DropKeeps(s, {(p, o)}, p);
    case StartWrapper(p, parent, inherited) =>
      if inherited.Some? {
        DelegateKeeps(s, parent, p, inherited.value);
        GotoKeeps(s.(refs := s.refs + {(p, inherited.value)}), p, Begin(inherited));
      } else {
        GotoKeeps(s, p, Begin(inherited));
      }
    case RunChild(p, c, share, nested) =>
      var o := s.pc[p].lease;
      assert Good(s, p, s.pc[p]);
      if share {
        DelegateKeeps(s, p, c, o);
      }
      var shared := if share then s.(refs := s.refs + {(c, o)}) else s;
      GotoKeeps(shared, p, Running(o, c));
      GotoKeeps(Goto(shared, p, Running(o, c)), c, if nested then Begin(if share then Some(o) else None) else Plain);
  }

  lemma WrapperKeepsInv(s: System, t: Step)
    requires Inv(s) && Enabled(s, t)
    requires t.StatCheck? || t.OpenOwn? || t.LockOwn? || t.Abort? || t.ChildDone? || t.Exit?
    ensures Inv(Do(s, t))
  {
    assert Good(s, t.p, s.pc[t.p]);
    match t
    case StatCheck(p) =>
      var d := s.pc[p].inherited.value;
      GotoKeeps(s, p, if s.isLock[d] then Checked(d) else Finished);
    case OpenOwn(p, o) =>
      OpenKeeps(s, p, o, true);
      GotoKeeps(Open(s, p, o, true), p, Opened(o));
    case LockOwn(p) =>
      var o := s.pc[p].own;
      assert (p, o).1 == o;
      if CanLock(s, o) {
        LockKeeps(s, o);
        GotoKeeps(s.(owner := Some(o)), p, Held(o));
      } else {
        GotoKeeps(s, p, Finished);
      }
    case Abort(p) => GotoKeeps(s, p, Finished);
    case ChildDone(p) => GotoKeeps(s, p, Finished);
    case Exit(p) =>
      var gone := set r | r in s.refs && r.0 == p;
      GotoKeeps(s, p, Exited);
      DropKeeps(Goto(s, p, Exited), gone, p);
      assert Drop(Goto(s, p, Exited), gone) == Goto(Drop(s, gone), p, Exited);
  }

  lemma VerifierKeepsInv(s: System, t: Step)
    requires Inv(s) && Enabled(s, t)
    requires t.OpenProbe? || t.LockProbe? || t.UnlockProbe? || t.Relock? || t.CloseProbe?
    ensures Inv(Do(s, t))
  {
    assert Good(s, t.p, s.pc[t.p]);
    match t
    case OpenProbe(p, o) =>
      OpenKeeps(s, p, o, true);
      GotoKeeps(Open(s, p, o, true), p, Probing(s.pc[p].lease, o));
    case LockProbe(p) =>
      var Probing(d, pr) := s.pc[p];
      assert (p, pr).1 == pr;
      if CanLock(s, pr) {
        LockKeeps(s, pr);
        GotoKeeps(s.(owner := Some(pr)), p, ProbeLocked(d, pr));
      } else {
        GotoKeeps(s, p, ProbeBusy(d, pr));
      }
    case UnlockProbe(p) =>
      var pr := s.pc[p].probe;
      if s.owner == Some(pr) {
        UnlockKeeps(s, p, pr);
        GotoKeeps(s.(owner := None), p, ClosingProbe(pr));
      } else {
        GotoKeeps(s, p, ClosingProbe(pr));
      }
    case Relock(p) =>
      var ProbeBusy(d, pr) := s.pc[p];
      assert (p, d).1 == d;
      if CanLock(s, d) {
        LockKeeps(s, d);
        GotoKeeps(s.(owner := Some(d)), p, Accepted(d, pr));
      } else {
        GotoKeeps(s, p, ClosingProbe(pr));
      }
    case CloseProbe(p) =>
      var pr := s.pc[p].probe;
      var next := if s.pc[p].Accepted? then Held(s.pc[p].lease) else Finished;
      GotoKeeps(s, p, next);
      DropKeeps(Goto(s, p, next), {(p, pr)}, p);
      assert Drop(Goto(s, p, next), {(p, pr)}) == Goto(Drop(s, {(p, pr)}), p, next);
  }

  // ---- Safety over whole runs ----

  /** The system after a sequence of steps, if each of them was enabled when taken. */
  function Run(steps: seq<Step>): Option<System> {
    if |steps| == 0 then Some(INITIAL)
    else
      var before := Run(steps[..|steps| - 1]);
      if before.Some? && Enabled(before.value, steps[|steps| - 1])
      then Some(Do(before.value, steps[|steps| - 1])) else None
  }

  lemma {:induction false} RunKeepsInv(steps: seq<Step>)
    requires Run(steps).Some?
    ensures Inv(Run(steps).value)
  {
    if |steps| == 0 {
      InitialInv();
    } else {
      RunKeepsInv(steps[..|steps| - 1]);
      StepKeepsInv(Run(steps[..|steps| - 1]).value, steps[|steps| - 1]);
    }
  }

  /** In every interleaving, all running children belong to one open file description, and it owns the lock. */
  lemma {:induction false} Exclusion(steps: seq<Step>, p: Process, q: Process)
    requires Run(steps).Some?
    requires var s := Run(steps).value; p in s.pc && s.pc[p].Running? && q in s.pc && s.pc[q].Running?
    ensures var s := Run(steps).value; s.pc[p].lease == s.pc[q].lease && s.owner == Some(s.pc[p].lease)
  {
    RunKeepsInv(steps);
    assert Good(Run(steps).value, p, Run(steps).value.pc[p]) && Good(Run(steps).value, q, Run(steps).value.pc[q]);
  }

  /** The re-lock decides: it accepts exactly when the lock is free or already the inherited description's, and from
      then on that description owns the lock, whatever happened since the probe. */
  lemma {:induction false} AcceptanceOwns(steps: seq<Step>, p: Process)
    requires Run(steps + [Relock(p)]).Some?
    ensures Run(steps).Some? && Enabled(Run(steps).value, Relock(p))
    ensures var before, after := Run(steps).value, Run(steps + [Relock(p)]).value;
            var d := before.pc[p].lease;
            && (after.pc[p].Accepted? <==> before.owner.None? || before.owner == Some(d))
            && (after.pc[p].Accepted? ==> after.owner == Some(d) && (p, d) in after.refs)
            && (!after.pc[p].Accepted? ==> after.owner == before.owner && after.owner != Some(d))
  {
    assert (steps + [Relock(p)])[..|steps|] == steps;
    RunKeepsInv(steps);
    assert Good(Run(steps).value, p, Run(steps).value.pc[p]);
  }

  lemma {:induction false} RunAfter(steps: seq<Step>, t: Step)
    ensures Run(steps + [t]).Some? <==> Run(steps).Some? && Enabled(Run(steps).value, t)
    ensures Run(steps + [t]).Some? ==> Run(steps + [t]).value == Do(Run(steps).value, t)
  {
    assert (steps + [t])[..|steps|] == steps;
  }

  /** An outermost wrapper takes the lease exactly when the lock is free or already its own description's; otherwise it
      stops and the owner stays. */
  lemma {:induction false} TakingOwns(steps: seq<Step>, p: Process)
    requires Run(steps + [LockOwn(p)]).Some?
    ensures Run(steps).Some? && Enabled(Run(steps).value, LockOwn(p))
    ensures var before, after := Run(steps).value, Run(steps + [LockOwn(p)]).value;
            var own := before.pc[p].own;
            && (after.pc[p] == Held(own) <==> before.owner.None? || before.owner == Some(own))
            && (after.pc[p] == Held(own) ==> after.owner == Some(own))
            && (after.pc[p] != Held(own) ==> after.pc[p] == Finished && after.owner == before.owner)
  {
    RunAfter(steps, LockOwn(p));
  }

  /** A wrapper that finds the lock free goes on to run its child under it, and hands its descriptor on exactly when it
      shares the lease. */
  lemma {:induction false} FreeLockRuns(steps: seq<Step>, p: Process, c: Process, share: bool, nested: bool)
    requires Run(steps).Some? && Enabled(Run(steps).value, LockOwn(p)) && Run(steps).value.owner.None?
    requires c !in Run(steps).value.pc && forall r :: r in Run(steps).value.refs ==> r.0 != c
    ensures var own, end := Run(steps).value.pc[p].own, Run(steps + [LockOwn(p)] + [RunChild(p, c, share, nested)]);
            && end.Some? && end.value.owner == Some(own) && end.value.pc[p] == Running(own, c)
            && ((c, own) in end.value.refs <==> share)
            && end.value.pc[c] == if !nested then Plain else if share then Begin(Some(own)) else Begin(None)
  {
    RunAfter(steps, LockOwn(p));
    RunAfter(steps + [LockOwn(p)], RunChild(p, c, share, nested));
  }

  const FIRST_WRAPPER := [StartPlain(0), StartWrapper(1, 0, None), OpenOwn(1, 7)]

  lemma FirstOpens()
    ensures Run(FIRST_WRAPPER).Some?
    ensures var s := Run(FIRST_WRAPPER).value;
            s.owner.None? && s.refs == {(1, 7)} && s.pc.Keys == {0, 1} && s.pc[1] == Opened(7)
  {
    var a, b := [StartPlain(0)], [StartPlain(0), StartWrapper(1, 0, None)];
    assert a == [] + [StartPlain(0)] && b == a + [StartWrapper(1, 0, None)] && FIRST_WRAPPER == b + [OpenOwn(1, 7)];
    RunAfter([], StartPlain(0));
    RunAfter(a, StartWrapper(1, 0, None));
    RunAfter(b, OpenOwn(1, 7));
  }

  /** A first wrapper on a free lock does run its child. */
  lemma FirstRun()
    ensures var end := Run(FIRST_WRAPPER + [LockOwn(1)] + [RunChild(1, 2, false, false)]);
            end.Some? && end.value.pc[1] == Running(7, 2) && end.value.owner == Some(7)
  {
    FirstOpens();
    FreeLockRuns(FIRST_WRAPPER, 1, 2, false, false);
  }

  /** A wrapper whose child has ended, or that gives up before it, keeps its descriptors until it closes them. */
  lemma WrapperEnds(s: System, p: Process)
    ensures Enabled(s, ChildDone(p)) ==> Do(s, ChildDone(p)) == s.(pc := s.pc[p := Finished])
    ensures Enabled(s, Abort(p)) ==> Do(s, Abort(p)) == s.(pc := s.pc[p := Finished])
  {
  }

  /** What any program can do to the lock: take it when it is free or already its own, and give up its own. */
  lemma PlainLocking(s: System, p: Process, o: Ofd)
    ensures Enabled(s, PlainLock(p, o)) ==>
              Do(s, PlainLock(p, o)).owner
              == if s.isLock[o] && (s.owner.None? || s.owner == Some(o)) then Some(o) else s.owner
    ensures Enabled(s, PlainUnlock(p, o)) ==>
              Do(s, PlainUnlock(p, o)).owner == if s.owner == Some(o) then None else s.owner
  {
  }

  /** A process that ends gives up all its descriptors, and the lock with them exactly when no other process holds a
      descriptor of the owning description. */
  lemma {:induction false} ExitReleases(steps: seq<Step>, p: Process)
    requires Run(steps + [Exit(p)]).Some?
    ensures Run(steps).Some?
    ensures var before, after := Run(steps).value, Run(steps + [Exit(p)]).value;
            && (forall r :: r in after.refs <==> r in before.refs && r.0 != p)
            && (before.owner.Some? ==>
                  (after.owner == before.owner <==>
                     exists r :: r in before.refs && r.0 != p && r.1 == before.owner.value))
            && (after.owner != before.owner ==> after.owner.None?)
  {
    RunAfter(steps, Exit(p));
    var before, after := Run(steps).value, Run(steps + [Exit(p)]).value;
    assert after.refs == before.refs - (set r | r in before.refs && r.0 == p);
  }

  // ---- The verifier on its own ----

  /** `verify_inherited_lease` without interference: it accepts exactly the descriptor of the lock file whose
      description owned the lock, and it leaves the ownership and the open descriptors as it found them. */
  method VerifyInheritedLease(start: System, p: Process, probe: Ofd) returns (accepted: bool, s: System)
    requires Inv(start) && p in start.pc && start.pc[p].Begin? && start.pc[p].inherited.Some? && probe !in start.isLock
    ensures accepted <==> start.isLock[start.pc[p].inherited.value] && start.owner == start.pc[p].inherited
    ensures s.pc == start.pc[p := if accepted then Held(start.pc[p].inherited.value) else Finished]
    ensures s.owner == start.owner && s.refs == start.refs
  {
    assert Good(start, p, start.pc[p]);
    s := Do(start, StatCheck(p));
    if s.pc[p].Finished? {
      return false, s;
    }
    accepted, s := ProbeLease(s, p, probe, start.pc[p].inherited.value);
  }

  /** The probe, the re-lock and the probe's close. */
  method ProbeLease(start: System, p: Process, probe: Ofd, d: Ofd) returns (accepted: bool, s: System)
    requires p in start.pc && start.pc[p] == Checked(d) && probe !in start.isLock && d in start.isLock
    requires forall r :: r in start.refs ==> r.1 != probe
    requires start.owner.Some? ==> Referenced(start, start.owner.value)
    ensures accepted <==> start.owner == Some(d)
    ensures s.pc == start.pc[p := if accepted then Held(d) else Finished]
    ensures s.owner == start.owner && s.refs == start.refs
  {
    s := Do(start, OpenProbe(p, probe));
    s := Do(s, LockProbe(p));
    if s.pc[p].ProbeLocked? {
      s := Do(s, UnlockProbe(p));
    } else {
      s := Do(s, Relock(p));
    }
    accepted := s.pc[p].Accepted?;
    assert s.refs - {(p, probe)} == start.refs;
    s := Do(s, CloseProbe(p));
  }
}
