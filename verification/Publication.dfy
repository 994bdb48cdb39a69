/**
 * Hard-link publication of a receipt, as a machine of steps over one directory: any number of
 * publishers interleave, each may fail or be killed anywhere, and the machine may lose power
 * between any two steps.
 */
module Publication {
  import opened Wrappers

  type Bytes = seq<Byte>

  /** The receipt's own name, or a temporary name made from it by adding a prefix and a suffix. */
  datatype Name = Receipt | Temp(k: nat)

  /** `data` is what readers see; `disk` is what a power loss leaves. */
  datatype Inode = Inode(writer: nat, data: Bytes, disk: Bytes, synced: bool)

  datatype Pc =
    | Writing(temp: nat, file: nat)
    | Synced(temp: nat, file: nat)
    | Linked(temp: nat, file: nat)
    | Settled(temp: nat, file: nat)
    | Failing(temp: nat, file: nat)
    | Returned
    | Raised
    | Killed

  /** `dir` is the directory as processes see it, `kept` the entries a power loss leaves. */
  datatype System = System(inodes: seq<Inode>, dir: map<Name, nat>, kept: map<Name, nat>, pcs: map<nat, Pc>)

  /**
   * `Writeback` and `Journal` are the kernel's own: unsynced data may reach the disk in any shape,
   * and any directory entry may become durable early.
   */
  datatype Event =
    | Create(p: nat, k: nat)
    | Write(p: nat, amount: nat)
    | SyncFile(p: nat)
    | Link(p: nat)
    | SyncDirectory(p: nat)
    | Unlink(p: nat)
    | Fail(p: nat)
    | Kill(p: nat)
    | Writeback(file: nat, bytes: Bytes)
    | Journal(name: Name)
    | PowerLoss

  const EMPTY: System := System([], map[], map[], map[])

  predicate Live(pc: Pc) {
    !pc.Returned? && !pc.Raised? && !pc.Killed?
  }

  predicate Holds(s: System, p: nat) {
    p in s.pcs && Live(s.pcs[p]) && s.pcs[p].file < |s.inodes|
  }

  function Update(s: System, p: nat, pc: Pc): System {
    s.(pcs := s.pcs[p := pc])
  }

  /** A file may be synced only when its whole text is written; `os.link` needs the temporary name. */
  predicate Enabled(payload: nat -> Bytes, s: System, e: Event) {
    match e
    case Create(p, k) => p !in s.pcs && Temp(k) !in s.dir
    case Write(p, amount) =>
      Holds(s, p) && s.pcs[p].Writing? && |s.inodes[s.pcs[p].file].data| + amount <= |payload(p)|
    case SyncFile(p) =>
      Holds(s, p) && s.pcs[p].Writing? && |s.inodes[s.pcs[p].file].data| == |payload(p)|
    case Link(p) => Holds(s, p) && s.pcs[p].Synced?
    case SyncDirectory(p) => Holds(s, p) && s.pcs[p].Linked?
    case Unlink(p) => Holds(s, p) && (s.pcs[p].Settled? || s.pcs[p].Failing?)
    case Fail(p) => Holds(s, p) && !s.pcs[p].Settled? && !s.pcs[p].Failing?
    case Kill(p) => Holds(s, p)
    case Writeback(file, _) => file < |s.inodes| && !s.inodes[file].synced
    case Journal(_) => true
    case PowerLoss => true
  }

  function Do(payload: nat -> Bytes, s: System, e: Event): System
    requires Enabled(payload, s, e)
  {
    match e
    case Create(p, k) =>
      System(s.inodes + [Inode(p, [], [], false)], s.dir[Temp(k) := |s.inodes|], s.kept,
             s.pcs[p := Writing(k, |s.inodes|)])
    case Write(p, amount) =>
      var f := s.pcs[p].file;
      var n := |s.inodes[f].data|;
      s.(inodes := s.inodes[f := s.inodes[f].(data := s.inodes[f].data + payload(p)[n..n + amount], synced := false)])
    case SyncFile(p) =>
      var f := s.pcs[p].file;
      Update(s.(inodes := s.inodes[f := s.inodes[f].(disk := s.inodes[f].data, synced := true)]),
             p, Synced(s.pcs[p].temp, f))
    case Link(p) =>
      var k, f := s.pcs[p].temp, s.pcs[p].file;
      // An existing receipt, or a temporary name that is gone, makes the call raise.
      if Receipt in s.dir || Temp(k) !in s.dir then Update(s, p, Failing(k, f))
      else Update(s.(dir := s.dir[Receipt := s.dir[Temp(k)]]), p, Linked(k, f))
    case SyncDirectory(p) =>
      Update(s.(kept := s.dir), p, Settled(s.pcs[p].temp, s.pcs[p].file))
    case Unlink(p) =>
      Update(s.(dir := s.dir - {Temp(s.pcs[p].temp)}), p, if s.pcs[p].Settled? then Returned else Raised)
    case Fail(p) => Update(s, p, Failing(s.pcs[p].temp, s.pcs[p].file))
    case Kill(p) => Update(s, p, Killed)
    case Writeback(file, bytes) => s.(inodes := s.inodes[file := s.inodes[file].(disk := bytes)])
    case Journal(name) =>
      s.(kept := if name in s.dir then s.kept[name := s.dir[name]] else s.kept - {name})
    case PowerLoss =>
      System(seq(|s.inodes|, i requires 0 <= i < |s.inodes| => s.inodes[i].(data := s.inodes[i].disk, synced := true)),
             s.kept, s.kept, map p | p in s.pcs :: if Live(s.pcs[p]) then Killed else s.pcs[p])
  }

  /** A power loss keeps the durable names and the contents on disk, and ends every process. */
  lemma PowerLossMeans(payload: nat -> Bytes, s: System)
    ensures var after := Do(payload, s, PowerLoss);
            && after.dir == after.kept == s.kept && |after.inodes| == |s.inodes|
            && (forall f :: 0 <= f < |s.inodes| ==> after.inodes[f].data == after.inodes[f].disk == s.inodes[f].disk)
            && after.pcs.Keys == s.pcs.Keys && forall p :: p in after.pcs ==> !Live(after.pcs[p])
  {
  }

  // ---- What every step keeps ----

  /** The whole text of its writer, in the cache and on the disk. */
  ghost predicate Complete(payload: nat -> Bytes, s: System, f: nat) {
    && f < |s.inodes|
    && s.inodes[f].synced
    && s.inodes[f].data == s.inodes[f].disk == payload(s.inodes[f].writer)
  }

  /** What a publisher's place in its code promises. */
  ghost predicate Good(payload: nat -> Bytes, s: System, p: nat)
    requires p in s.pcs
  {
    var pc := s.pcs[p];
    if pc.Returned? then
      Receipt in s.kept && s.kept[Receipt] < |s.inodes| && s.inodes[s.kept[Receipt]].writer == p
    else Live(pc) ==>
      && pc.file < |s.inodes|
      && s.inodes[pc.file].writer == p
      && Temp(pc.temp) in s.dir && s.dir[Temp(pc.temp)] == pc.file
      && (pc.Writing? ==>
            && s.inodes[pc.file].data <= payload(p)
            && (Receipt in s.dir ==> s.dir[Receipt] != pc.file))
      && (pc.Synced? || pc.Linked? || pc.Settled? ==> Complete(payload, s, pc.file))
      && (pc.Linked? || pc.Settled? ==> Receipt in s.dir && s.dir[Receipt] == pc.file)
      && (pc.Settled? ==> Receipt in s.kept)
  }

  ghost predicate Inv(payload: nat -> Bytes, s: System) {
    && (forall f :: 0 <= f < |s.inodes| ==> s.inodes[f].writer in s.pcs)
    && (forall name :: name in s.dir ==> s.dir[name] < |s.inodes|)
    && (forall name :: name in s.kept ==> s.kept[name] < |s.inodes|)
    && (Receipt in s.dir ==> Complete(payload, s, s.dir[Receipt]))
    && (Receipt in s.kept ==> Receipt in s.dir && s.dir[Receipt] == s.kept[Receipt])
    && (forall p :: p in s.pcs ==> Good(payload, s, p))
  }

  lemma CreateKeeps(payload: nat -> Bytes, s: System, p: nat, k: nat)
    requires Inv(payload, s) && Enabled(payload, s, Create(p, k))
    ensures Inv(payload, Do(payload, s, Create(p, k)))
  {
    var s' := Do(payload, s, Create(p, k));
    forall q | q in s'.pcs
      ensures Good(payload, s', q)
    {
      if q != p {
        assert Good(payload, s, q);
      }
    }
  }

  lemma WriteKeeps(payload: nat -> Bytes, s: System, p: nat, amount: nat)
    requires Inv(payload, s) && Enabled(payload, s, Write(p, amount))
    ensures Inv(payload, Do(payload, s, Write(p, amount)))
  {
  }

  lemma SyncFileKeeps(payload: nat -> Bytes, s: System, p: nat)
    requires Inv(payload, s) && Enabled(payload, s, SyncFile(p))
    ensures Inv(payload, Do(payload, s, SyncFile(p)))
  {
    var s' := Do(payload, s, SyncFile(p));
    assert Good(payload, s, p);
    forall q | q in s'.pcs
      ensures Good(payload, s', q)
    {
      assert Good(payload, s, q);
    }
  }

  lemma LinkKeeps(payload: nat -> Bytes, s: System, p: nat)
    requires Inv(payload, s) && Enabled(payload, s, Link(p))
    ensures Inv(payload, Do(payload, s, Link(p)))
  {
    var s' := Do(payload, s, Link(p));
    assert Good(payload, s, p);
    forall q | q in s'.pcs
      ensures Good(payload, s', q)
    {
      assert Good(payload, s, q);
    }
  }

  lemma SyncDirectoryKeeps(payload: nat -> Bytes, s: System, p: nat)
    requires Inv(payload, s) && Enabled(payload, s, SyncDirectory(p))
    ensures Inv(payload, Do(payload, s, SyncDirectory(p)))
  {
  }

  lemma UnlinkKeeps(payload: nat -> Bytes, s: System, p: nat)
    requires Inv(payload, s) && Enabled(payload, s, Unlink(p))
    ensures Inv(payload, Do(payload, s, Unlink(p)))
  {
  }

  lemma MoveKeeps(payload: nat -> Bytes, s: System, e: Event)
    requires Inv(payload, s) && Enabled(payload, s, e) && (e.Fail? || e.Kill?)
    ensures Inv(payload, Do(payload, s, e))
  {
    var s' := Do(payload, s, e);
    assert Good(payload, s, e.p);
    forall q | q in s'.pcs
      ensures Good(payload, s', q)
    {
      assert Good(payload, s, q);
    }
  }

  lemma KernelKeeps(payload: nat -> Bytes, s: System, e: Event)
    requires Inv(payload, s) && Enabled(payload, s, e) && (e.Writeback? || e.Journal? || e.PowerLoss?)
    ensures Inv(payload, Do(payload, s, e))
  {
    var s' := Do(payload, s, e);
    forall q | q in s'.pcs
      ensures Good(payload, s', q)
    {
      assert Good(payload, s, q);
    }
  }

  lemma StepKeepsInv(payload: nat -> Bytes, s: System, e: Event)
    requires Inv(payload, s) && Enabled(payload, s, e)
    ensures Inv(payload, Do(payload, s, e))
  {
    match e
    case Create(p, k) => CreateKeeps(payload, s, p, k);
    case Write(p, amount) => WriteKeeps(payload, s, p, amount);
    case SyncFile(p) => SyncFileKeeps(payload, s, p);
    case Link(p) => LinkKeeps(payload, s, p);
    case SyncDirectory(p) => SyncDirectoryKeeps(payload, s, p);
    case Unlink(p) => UnlinkKeeps(payload, s, p);
    case Fail(_) => MoveKeeps(payload, s, e);
    case Kill(_) => MoveKeeps(payload, s, e);
    case _ => KernelKeeps(payload, s, e);
  }

  // ---- Whole runs ----

  ghost predicate Runs(payload: nat -> Bytes, s: System, events: seq<Event>, end: System)
    decreases |events|
  {
    if events == [] then s == end
    else Enabled(payload, s, events[0]) && Runs(payload, Do(payload, s, events[0]), events[1..], end)
  }

  lemma {:induction false} RunKeepsInv(payload: nat -> Bytes, s: System, events: seq<Event>, end: System)
    requires Inv(payload, s) && Runs(payload, s, events, end)
    ensures Inv(payload, end)
    decreases |events|
  {
    if events != [] {
      StepKeepsInv(payload, s, events[0]);
      RunKeepsInv(payload, Do(payload, s, events[0]), events[1..], end);
    }
  }

  /**
   * In every reachable state the receipt is absent or holds the whole text of one publisher, and a
   * name that survives a power loss points at text that survives it too.
   */
  lemma {:induction false} ReceiptIsWhole(payload: nat -> Bytes, events: seq<Event>, s: System)
    requires Runs(payload, EMPTY, events, s)
    ensures Receipt in s.dir ==>
              && s.dir[Receipt] < |s.inodes|
              && var file := s.inodes[s.dir[Receipt]];
                 file.writer in s.pcs && file.data == payload(file.writer)
    ensures Receipt in s.kept ==>
              && s.kept[Receipt] < |s.inodes|
              && var file := s.inodes[s.kept[Receipt]];
                 file.writer in s.pcs && file.disk == payload(file.writer)
    ensures var after := Do(payload, s, PowerLoss);
            Receipt in after.dir ==>
              && after.dir[Receipt] < |after.inodes|
              && var file := after.inodes[after.dir[Receipt]];
                 file.writer in s.pcs && file.data == payload(file.writer)
  {
    RunKeepsInv(payload, EMPTY, events, s);
  }

  /** What a reader who opens the receipt sees, if anything. */
  function Visible(s: System): set<Bytes> {
    if Receipt in s.dir && s.dir[Receipt] < |s.inodes| then {s.inodes[s.dir[Receipt]].data} else {}
  }

  lemma StepKeepsReceipt(payload: nat -> Bytes, s: System, e: Event)
    requires Inv(payload, s) && Enabled(payload, s, e)
    requires Receipt in s.dir && (e.PowerLoss? ==> Receipt in s.kept)
    ensures var s' := Do(payload, s, e);
            && Visible(s') == Visible(s)
            && Receipt in s'.dir && s'.dir[Receipt] == s.dir[Receipt]
            && (Receipt in s.kept ==> Receipt in s'.kept)
  {
  }

  /**
   * Once visible, the content never changes: never without a power loss, and not even across one
   * when the name was already durable.
   */
  lemma {:induction false} VisibleForever(payload: nat -> Bytes, s: System, events: seq<Event>, end: System)
    requires Inv(payload, s) && Runs(payload, s, events, end)
    requires Receipt in s.dir && (PowerLoss in events ==> Receipt in s.kept)
    ensures Visible(end) == Visible(s) != {}
    ensures Receipt in end.dir && end.dir[Receipt] == s.dir[Receipt]
    decreases |events|
  {
    if events != [] {
      StepKeepsInv(payload, s, events[0]);
      StepKeepsReceipt(payload, s, events[0]);
      VisibleForever(payload, Do(payload, s, events[0]), events[1..], end);
    }
  }

  lemma StepKeepsReturned(payload: nat -> Bytes, s: System, e: Event, p: nat)
    requires Enabled(payload, s, e) && p in s.pcs && s.pcs[p].Returned?
    ensures var s' := Do(payload, s, e); p in s'.pcs && s'.pcs[p].Returned?
  {
  }

  lemma {:induction false} RunReturned(payload: nat -> Bytes, s: System, events: seq<Event>, end: System, p: nat)
    requires Runs(payload, s, events, end)
    requires p in s.pcs && s.pcs[p].Returned?
    ensures p in end.pcs && end.pcs[p].Returned?
    decreases |events|
  {
    if events != [] {
      StepKeepsReturned(payload, s, events[0], p);
      RunReturned(payload, Do(payload, s, events[0]), events[1..], end, p);
    }
  }

  /**
   * A publisher that returned is the only one that ever does, and its own text stays published
   * through every later step, power losses included.
   */
  lemma {:induction false} ReturnedOwnsReceipt(
    payload: nat -> Bytes, before: seq<Event>, s: System, later: seq<Event>, end: System, p: nat
  )
    requires Runs(payload, EMPTY, before, s) && Runs(payload, s, later, end)
    requires p in s.pcs && s.pcs[p].Returned?
    ensures Visible(end) == {payload(p)}
    ensures forall q :: q in end.pcs && end.pcs[q].Returned? ==> q == p
  {
    RunKeepsInv(payload, EMPTY, before, s);
    RunKeepsInv(payload, s, later, end);
    RunReturned(payload, s, later, end, p);
    assert Good(payload, end, p);
    forall q | q in end.pcs && end.pcs[q].Returned?
      ensures q == p
    {
      assert Good(payload, end, q);
    }
  }

  // ---- No temporary name is left behind ----

  /** Every temporary name belongs to a publisher still at work. */
  ghost predicate Tidy(s: System) {
    forall k :: Temp(k) in s.dir ==> exists p :: p in s.pcs && Live(s.pcs[p]) && s.pcs[p].temp == k
  }

  /** A live publisher keeps its temporary name, or the name goes with it. */
  lemma StepKeepsHolder(payload: nat -> Bytes, s: System, e: Event, p: nat)
    requires Enabled(payload, s, e) && !e.Kill? && !e.PowerLoss? && p in s.pcs && Live(s.pcs[p])
    ensures var s' := Do(payload, s, e);
            && p in s'.pcs
            && (Temp(s.pcs[p].temp) in s'.dir ==> Live(s'.pcs[p]) && s'.pcs[p].temp == s.pcs[p].temp)
  {
  }

  lemma StepKeepsTidy(payload: nat -> Bytes, s: System, e: Event)
    requires Tidy(s) && Enabled(payload, s, e) && !e.Kill? && !e.PowerLoss?
    ensures Tidy(Do(payload, s, e))
  {
    var s' := Do(payload, s, e);
    forall k | Temp(k) in s'.dir
      ensures exists p :: p in s'.pcs && Live(s'.pcs[p]) && s'.pcs[p].temp == k
    {
      if e.Create? && e.k == k {
        assert s'.pcs[e.p].temp == k;
      } else {
        var p :| p in s.pcs && Live(s.pcs[p]) && s.pcs[p].temp == k;
        StepKeepsHolder(payload, s, e, p);
      }
    }
  }

  lemma {:induction false} RunKeepsTidy(payload: nat -> Bytes, s: System, events: seq<Event>, end: System)
    requires Tidy(s) && Runs(payload, s, events, end)
    requires forall e :: e in events ==> !e.Kill? && !e.PowerLoss?
    ensures Tidy(end)
    decreases |events|
  {
    if events != [] {
      StepKeepsTidy(payload, s, events[0]);
      RunKeepsTidy(payload, Do(payload, s, events[0]), events[1..], end);
    }
  }

  /** When nothing was killed and every publisher has ended, only the receipt can be left. */
  lemma {:induction false} NothingLeftBehind(payload: nat -> Bytes, events: seq<Event>, s: System)
    requires Runs(payload, EMPTY, events, s)
    requires forall e :: e in events ==> !e.Kill? && !e.PowerLoss?
    requires forall p :: p in s.pcs ==> !Live(s.pcs[p])
    ensures forall k :: Temp(k) !in s.dir
  {
    RunKeepsTidy(payload, EMPTY, events, s);
  }

  // ---- One uninterrupted call ----

  lemma {:induction false} RunsSnoc(payload: nat -> Bytes, s: System, events: seq<Event>, end: System, e: Event)
    requires Runs(payload, s, events, end) && Enabled(payload, end, e)
    ensures Runs(payload, s, events + [e], Do(payload, end, e))
    decreases |events|
  {
    if events == [] {
      assert [e][1..] == [];
    } else {
      assert (events + [e])[1..] == events[1..] + [e];
      RunsSnoc(payload, Do(payload, s, events[0]), events[1..], end, e);
    }
  }

  /** Everything one uninterrupted call leaves. */
  function AfterCall(payload: nat -> Bytes, s: System, p: nat, k: nat): System {
    var inodes := s.inodes + [Inode(p, payload(p), payload(p), true)];
    if Receipt in s.dir then
      System(inodes, s.dir, s.kept, s.pcs[p := Raised])
    else
      System(inodes, s.dir[Receipt := |s.inodes|], s.dir[Temp(k) := |s.inodes|][Receipt := |s.inodes|],
             s.pcs[p := Returned])
  }

  lemma AfterCallMeans(payload: nat -> Bytes, s: System, p: nat, k: nat)
    requires Inv(payload, s)
    ensures var s', published := AfterCall(payload, s, p, k), Receipt !in s.dir;
            && Visible(s') == (if published then {payload(p)} else Visible(s))
            && (published ==> Visible(Do(payload, s', PowerLoss)) == {payload(p)})
            && s'.dir.Keys == s.dir.Keys + {Receipt}
            && forall name :: name in s.dir ==> s'.dir[name] == s.dir[name]
  {
  }

  /** The directory that holds the receipt. */
  class Directory {
    var system: System
    const payload: nat -> Bytes

    ghost predicate Valid()
      reads this
    {
      Inv(payload, system)
    }

    constructor (payload: nat -> Bytes)
      ensures Valid() && system == EMPTY && this.payload == payload
    {
      this.payload := payload;
      system := EMPTY;
    }

    method Perform(e: Event, ghost past: seq<Event>, ghost start: System)
      requires Enabled(payload, system, e) && Runs(payload, start, past, system)
      modifies this
      ensures system == Do(payload, old(system), e) && Runs(payload, start, past + [e], system)
    {
      RunsSnoc(payload, start, past, system, e);
      system := Do(payload, system, e);
    }

    /** The text goes to the file in pieces of any size. */
    method WriteText(p: nat, chunk: nat, ghost past: seq<Event>, ghost start: System) returns (ghost events: seq<Event>)
      requires Runs(payload, start, past, system) && chunk > 0
      requires Holds(system, p) && system.pcs[p].Writing?
      requires system.inodes[system.pcs[p].file].data <= payload(p)
      modifies this
      ensures Runs(payload, start, events, system)
      ensures var f := old(system).pcs[p].file;
              && f < |system.inodes|
              && system.inodes[f].writer == old(system).inodes[f].writer
              && system.inodes[f].data == payload(p)
              && system == old(system).(inodes := old(system).inodes[f := system.inodes[f]])
    {
      events := past;
      ghost var s := system;
      var file := system.pcs[p].file;
      while |system.inodes[file].data| < |payload(p)|
        invariant Runs(payload, start, events, system)
        invariant file < |system.inodes| && system.inodes[file].data <= payload(p)
        invariant system == s.(inodes := s.inodes[file := system.inodes[file]])
        invariant system.inodes[file].writer == s.inodes[file].writer
        decreases |payload(p)| - |system.inodes[file].data|
      {
        var rest := |payload(p)| - |system.inodes[file].data|;
        var amount := if chunk < rest then chunk else rest;
        Perform(Write(p, amount), events, start);
        events := events + [Write(p, amount)];
      }
    }

    /** The temporary file, written in full and synced. */
    method Prepare(p: nat, k: nat, chunk: nat) returns (ghost events: seq<Event>)
      requires p !in system.pcs && Temp(k) !in system.dir && chunk > 0
      modifies this
      ensures Runs(payload, old(system), events, system)
      ensures var s, f := old(system), |old(system).inodes|;
              system == System(s.inodes + [Inode(p, payload(p), payload(p), true)], s.dir[Temp(k) := f], s.kept,
                               s.pcs[p := Synced(k, f)])
    {
      ghost var start := system;
      Perform(Create(p, k), [], start);
      events := WriteText(p, chunk, [Create(p, k)], start);
      Perform(SyncFile(p), events, start);
      events := events + [SyncFile(p)];
      assert system.inodes == start.inodes + [Inode(p, payload(p), payload(p), true)];
    }

    /** The link, the directory sync it allows, and the removal of the temporary name. */
    method Publish(p: nat, ghost past: seq<Event>, ghost start: System)
      returns (published: bool, ghost events: seq<Event>)
      requires Runs(payload, start, past, system)
      requires Holds(system, p) && system.pcs[p].Synced?
      requires Temp(system.pcs[p].temp) in system.dir && system.dir[Temp(system.pcs[p].temp)] == system.pcs[p].file
      modifies this
      ensures Runs(payload, start, events, system)
      ensures published <==> Receipt !in old(system).dir
      ensures var s, temp := old(system), Temp(old(system).pcs[p].temp);
              var dir := if published then s.dir[Receipt := s.pcs[p].file] else s.dir;
              system == System(s.inodes, dir - {temp}, if published then dir else s.kept,
                               s.pcs[p := if published then Returned else Raised])
    {
      Perform(Link(p), past, start);
      events := past + [Link(p)];
      published := system.pcs[p].Linked?;
      if published {
        Perform(SyncDirectory(p), events, start);
        events := events + [SyncDirectory(p)];
      }
      Perform(Unlink(p), events, start);
      events := events + [Unlink(p)];
    }

    /** All the effects of one call, in order. */
    method Call(p: nat, k: nat, chunk: nat) returns (published: bool, ghost events: seq<Event>)
      requires p !in system.pcs && Temp(k) !in system.dir && chunk > 0
      modifies this
      ensures Runs(payload, old(system), events, system)
      ensures published <==> Receipt !in old(system).dir
      ensures system == AfterCall(payload, old(system), p, k)
    {
      ghost var start := system;
      events := Prepare(p, k, chunk);
      published, events := Publish(p, events, start);
      assert start.dir[Temp(k) := |start.inodes|] - {Temp(k)} == start.dir;
    }

    /**
     * The call as its caller sees it when nothing else moves: it succeeds exactly when no receipt
     * was there, and then its text is visible and survives a power loss; otherwise the old receipt
     * is untouched. Either way the temporary name is gone and no other name changes.
     */
    method WriteReceiptAtomic(p: nat, k: nat, chunk: nat) returns (published: bool, ghost events: seq<Event>)
      requires Valid() && p !in system.pcs && Temp(k) !in system.dir && chunk > 0
      modifies this
      ensures Valid() && Runs(payload, old(system), events, system)
      ensures published <==> Receipt !in old(system).dir
      ensures system.pcs == old(system).pcs[p := if published then Returned else Raised]
      ensures Visible(system) == if published then {payload(p)} else old(Visible(system))
      ensures published ==> Visible(Do(payload, system, PowerLoss)) == {payload(p)}
      ensures system.dir.Keys == old(system).dir.Keys + {Receipt}
      ensures forall name :: name in old(system).dir ==> system.dir[name] == old(system).dir[name]
    {
      ghost var start := system;
      AfterCallMeans(payload, start, p, k);
      published, events := Call(p, k, chunk);
      RunKeepsInv(payload, start, events, system);
    }
  }
}
