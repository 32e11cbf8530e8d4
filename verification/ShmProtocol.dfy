/**
 Creators and cleaners of shared memory segments as a state machine: every system call and every
 atomic load or store is a step of its own, and processes may die between any two of them. Process
 ids and segment ids are never used twice.
 */
module ShmProtocol {
  import opened ShmLayout

  type Pid = int
  type Id = int

  const MARKER: int := 0xc0ffee11 - 0x1_0000_0000

  /** `words` holds what was stored, by byte offset; the rest of the segment is zero. */
  datatype Segment = Segment(owner: Pid, size: nat, words: map<nat, int>)

  function Word(g: Segment, offset: nat): int {
    if offset in g.words then g.words[offset] else 0
  }

  /** What a task has done so far; `n` is the rounded request of a creator. */
  datatype Work =
    | Opened(id: Id, n: nat)
    | Sized(id: Id, n: nat)
    | Mapped(id: Id, n: nat)
    | PidStored(id: Id, n: nat)
    | InUse(id: Id, n: nat)
    | GivingUp(id: Id, n: nat)
    | Attached(id: Id)
    | SizeRead(id: Id, size: nat)
    | MarkerSeen(id: Id, size: nat)
    | PidRead(id: Id, size: nat, pid: Pid)
    | Condemned(id: Id)

  datatype Task = Task(pid: Pid, work: Work)

  /** `linked` are the names that exist; a segment without a name lives on for those who opened it. */
  datatype State = State(alive: set<Pid>, dead: set<Pid>, linked: set<Id>, segments: map<Id, Segment>, tasks: map<int, Task>)

  datatype Step =
    | Born(pid: Pid)
    | Die(pid: Pid)
    // creating and freeing
    | Open(t: int, pid: Pid, id: Id, n: nat)
    | Truncate(t: int)
    | Map(t: int)
    | StorePid(t: int)
    | StoreMarker(t: int)
    | Write(t: int, offset: nat, value: int)
    | GiveUp(t: int)
    | UnlinkOwn(t: int)
    // cleaning
    | Attach(t: int, pid: Pid, id: Id)
    | ReadSize(t: int)
    | LoadMarker(t: int)
    | LoadPid(t: int)
    | Probe(t: int)
    | Skip(t: int)
    | UnlinkStale(t: int)

  function Done(s: State, t: int): State {
    s.(tasks := s.tasks - {t})
  }

  function Now(s: State, t: int, w: Work): State
    requires t in s.tasks
  {
    s.(tasks := s.tasks[t := Task(s.tasks[t].pid, w)])
  }

  function Stored(s: State, id: Id, offset: nat, value: int): State
    requires id in s.segments
  {
    var g := s.segments[id];
    s.(segments := s.segments[id := g.(words := g.words[offset := value])])
  }

  predicate Working(s: State, t: int) {
    t in s.tasks && s.tasks[t].work.id in s.segments
  }

  /** May this step happen? */
  predicate Can(s: State, e: Step) {
    match e
    case Born(pid) => pid > 0 && pid !in s.alive && pid !in s.dead
    case Die(pid) => pid in s.alive
    case Open(t, pid, id, n) => t !in s.tasks && pid in s.alive && id !in s.segments && n > 0
    case Truncate(t) => Working(s, t) && s.tasks[t].work.Opened?
    case Map(t) => Working(s, t) && s.tasks[t].work.Sized?
    case StorePid(t) => Working(s, t) && s.tasks[t].work.Mapped?
    case StoreMarker(t) => Working(s, t) && s.tasks[t].work.PidStored?
    case Write(t, offset, _) => Working(s, t) && s.tasks[t].work.InUse? && offset + 4 <= s.tasks[t].work.n
    case GiveUp(t) => Working(s, t) && (s.tasks[t].work.Opened? || s.tasks[t].work.Sized? || s.tasks[t].work.InUse?)
    case UnlinkOwn(t) => Working(s, t) && s.tasks[t].work.GivingUp?
    case Attach(t, pid, id) => t !in s.tasks && pid in s.alive && id in s.linked
    case ReadSize(t) => Working(s, t) && s.tasks[t].work.Attached?
    case LoadMarker(t) => Working(s, t) && s.tasks[t].work.SizeRead?
    case LoadPid(t) => Working(s, t) && s.tasks[t].work.MarkerSeen?
    case Probe(t) => Working(s, t) && s.tasks[t].work.PidRead?
    case Skip(t) => Working(s, t) && (s.tasks[t].work.Attached? || s.tasks[t].work.PidRead?)
    case UnlinkStale(t) => Working(s, t) && s.tasks[t].work.Condemned?
  }

  function Next(s: State, e: Step): State
    requires Can(s, e)
  {
    match e
    case Born(pid) => s.(alive := s.alive + {pid})
    case Die(pid) =>
      s.(alive := s.alive - {pid}, dead := s.dead + {pid}, tasks := map t | t in s.tasks && s.tasks[t].pid != pid :: s.tasks[t])
    case Open(t, pid, id, n) =>
      s.(linked := s.linked + {id}, segments := s.segments[id := Segment(pid, 0, map[])], tasks := s.tasks[t := Task(pid, Opened(id, n))])
    case Truncate(t) =>
      var w := s.tasks[t].work;
      Now(s.(segments := s.segments[w.id := s.segments[w.id].(size := w.n + MARKER_SIZE)]), t, Sized(w.id, w.n))
    case Map(t) => Now(s, t, Mapped(s.tasks[t].work.id, s.tasks[t].work.n))
    case StorePid(t) =>
      var w := s.tasks[t].work;
      Now(Stored(s, w.id, MarkerOffset(w.n + MARKER_SIZE) + 4, s.tasks[t].pid), t, PidStored(w.id, w.n))
    case StoreMarker(t) =>
      var w := s.tasks[t].work;
      Now(Stored(s, w.id, MarkerOffset(w.n + MARKER_SIZE), MARKER), t, InUse(w.id, w.n))
    case Write(t, offset, value) => Stored(s, s.tasks[t].work.id, offset, value)
    case GiveUp(t) => Now(s, t, GivingUp(s.tasks[t].work.id, s.tasks[t].work.n))
    case UnlinkOwn(t) => Done(s.(linked := s.linked - {s.tasks[t].work.id}), t)
    case Attach(t, pid, id) => s.(tasks := s.tasks[t := Task(pid, Attached(id))])
    case ReadSize(t) =>
      var w := s.tasks[t].work;
      var size := s.segments[w.id].size;
      if SizeAccepted(size) then Now(s, t, SizeRead(w.id, size)) else Done(s, t)
    case LoadMarker(t) =>
      var w := s.tasks[t].work;
      if w.size < MARKER_SIZE || Word(s.segments[w.id], MarkerOffset(w.size)) != MARKER then Done(s, t)
      else Now(s, t, MarkerSeen(w.id, w.size))
    case LoadPid(t) =>
      var w := s.tasks[t].work;
      if w.size < MARKER_SIZE then Done(s, t)
      else
        var pid := Word(s.segments[w.id], MarkerOffset(w.size) + 4);
        if pid == 0 then Done(s, t) else Now(s, t, PidRead(w.id, w.size, pid))
    case Probe(t) =>
      var w := s.tasks[t].work;
      if w.pid in s.alive then Done(s, t) else Now(s, t, Condemned(w.id))
    case Skip(t) => Done(s, t)
    case UnlinkStale(t) => Done(s.(linked := s.linked - {s.tasks[t].work.id}), t)
  }

  // ------------------------------------------------------------------ what every step keeps

  /** In a sized segment the process id is unset or the owner's, and behind a marker it is set. */
  ghost predicate SegmentOk(s: State, g: Segment) {
    && g.owner > 0 && (g.owner in s.alive || g.owner in s.dead)
    && (g.size == 0 ==> g.words == map[])
    && (g.size > 0 ==>
          && g.size >= MARKER_SIZE
          && Word(g, MarkerOffset(g.size) + 4) in {0, g.owner}
          && (Word(g, MarkerOffset(g.size)) == MARKER ==> Word(g, MarkerOffset(g.size) + 4) == g.owner))
  }

  /** The segment carries the marker and the process id of its owner. */
  ghost predicate Stamped(g: Segment) {
    && g.size >= MARKER_SIZE
    && Word(g, MarkerOffset(g.size)) == MARKER && Word(g, MarkerOffset(g.size) + 4) == g.owner
  }

  /** A cleaner that finds the name may remove it, once the owner is dead. */
  ghost predicate Removable(g: Segment) {
    Stamped(g) && SizeAccepted(g.size)
  }

  predicate Creating(w: Work) {
    w.Opened? || w.Sized? || w.Mapped? || w.PidStored? || w.InUse? || w.GivingUp?
  }

  /** What a task knows of its segment. */
  ghost predicate WorkOk(s: State, pid: Pid, w: Work, g: Segment) {
    match w
    case Opened(_, n) => g.owner == pid && g.size == 0
    case Sized(_, n) => g.owner == pid && g.size == n + MARKER_SIZE
    case Mapped(_, n) => g.owner == pid && g.size == n + MARKER_SIZE
    case PidStored(_, n) => g.owner == pid && g.size == n + MARKER_SIZE && Word(g, n + 4) == g.owner
    case InUse(_, n) => g.owner == pid && g.size == n + MARKER_SIZE && Stamped(g)
    case GivingUp(_, _) => g.owner == pid
    case Attached(_) => true
    case SizeRead(_, size) => 0 < size == g.size && SizeAccepted(size)
    case MarkerSeen(_, size) => size == g.size && Removable(g)
    case PidRead(_, _, p) => p == g.owner && Removable(g)
    case Condemned(_) => g.owner in s.dead && Removable(g)
  }

  ghost predicate TaskOk(s: State, t: int)
    requires t in s.tasks
  {
    var k := s.tasks[t];
    k.pid in s.alive && k.work.id in s.segments && WorkOk(s, k.pid, k.work, s.segments[k.work.id])
  }

  ghost predicate Ok(s: State) {
    && s.alive !! s.dead && s.linked <= s.segments.Keys
    && (forall pid :: pid in s.alive ==> pid > 0)
    && (forall id :: id in s.segments ==> SegmentOk(s, s.segments[id]))
    && (forall t :: t in s.tasks ==> TaskOk(s, t))
    && (forall t, u :: t in s.tasks && u in s.tasks && t != u && Creating(s.tasks[t].work) && Creating(s.tasks[u].work) ==>
          s.tasks[t].work.id != s.tasks[u].work.id)
  }

  /** A change of one segment that the other tasks on it do not notice. */
  ghost predicate Compatible(g: Segment, g': Segment) {
    && g'.owner == g.owner
    && (g.size > 0 ==> g'.size == g.size)
    && (Stamped(g) ==> Stamped(g'))
  }

  /** Only task `t` and its segment `id` change. */
  lemma LocalStep(s: State, s': State, t: int, id: Id)
    requires Ok(s) && t in s.tasks && s.tasks[t].work.id == id && id in s.segments
    requires s'.alive == s.alive && s'.dead == s.dead && s'.linked == s.linked
    requires s'.segments.Keys == s.segments.Keys && (forall i :: i in s.segments && i != id ==> s'.segments[i] == s.segments[i])
    requires Compatible(s.segments[id], s'.segments[id]) && SegmentOk(s, s'.segments[id])
    requires s.segments[id] != s'.segments[id] ==> Creating(s.tasks[t].work)
    requires t in s'.tasks && s'.tasks == s.tasks[t := s'.tasks[t]] && s'.tasks[t].pid == s.tasks[t].pid && s'.tasks[t].work.id == id
    requires Creating(s'.tasks[t].work) <==> Creating(s.tasks[t].work)
    requires WorkOk(s, s.tasks[t].pid, s'.tasks[t].work, s'.segments[id])
    ensures Ok(s')
  {
    forall u | u in s'.tasks ensures TaskOk(s', u) {
      assert TaskOk(s, u);
    }
    forall i | i in s'.segments ensures SegmentOk(s', s'.segments[i]) {
      assert SegmentOk(s, s.segments[i]);
    }
  }

  /** A task ends. */
  lemma EndStep(s: State, t: int)
    requires Ok(s)
    ensures Ok(Done(s, t))
  {
    var s' := Done(s, t);
    forall u | u in s'.tasks ensures TaskOk(s', u) {
      assert TaskOk(s, u);
    }
    forall i | i in s'.segments ensures SegmentOk(s', s'.segments[i]) {
      assert SegmentOk(s, s.segments[i]);
    }
  }

  /** A name goes. */
  lemma UnlinkStep(s: State, id: Id)
    requires Ok(s)
    ensures Ok(s.(linked := s.linked - {id}))
  {
    var s' := s.(linked := s.linked - {id});
    forall u | u in s'.tasks ensures TaskOk(s', u) {
      assert TaskOk(s, u);
    }
    forall i | i in s'.segments ensures SegmentOk(s', s'.segments[i]) {
      assert SegmentOk(s, s.segments[i]);
    }
  }

  lemma BornStep(s: State, pid: Pid)
    requires Ok(s) && Can(s, Born(pid))
    ensures Ok(Next(s, Born(pid)))
  {
    var s' := Next(s, Born(pid));
    forall u | u in s'.tasks ensures TaskOk(s', u) {
      assert TaskOk(s, u);
    }
    forall i | i in s'.segments ensures SegmentOk(s', s'.segments[i]) {
      assert SegmentOk(s, s.segments[i]);
    }
  }

  lemma DieStep(s: State, pid: Pid)
    requires Ok(s) && Can(s, Die(pid))
    ensures Ok(Next(s, Die(pid)))
  {
    var s' := Next(s, Die(pid));
    forall u | u in s'.tasks ensures TaskOk(s', u) {
      assert TaskOk(s, u);
    }
    forall i | i in s'.segments ensures SegmentOk(s', s'.segments[i]) {
      assert SegmentOk(s, s.segments[i]);
    }
  }

  lemma OpenStep(s: State, t: int, pid: Pid, id: Id, n: nat)
    requires Ok(s) && Can(s, Open(t, pid, id, n))
    ensures Ok(Next(s, Open(t, pid, id, n)))
  {
    var s' := Next(s, Open(t, pid, id, n));
    forall u | u in s'.tasks ensures TaskOk(s', u) {
      if u != t {
        assert TaskOk(s, u);
      }
    }
    forall i | i in s'.segments ensures SegmentOk(s', s'.segments[i]) {
      if i != id {
        assert SegmentOk(s, s.segments[i]);
      }
    }
    forall u | u in s.tasks ensures s.tasks[u].work.id != id {
      assert TaskOk(s, u);
    }
  }

  lemma AttachStep(s: State, t: int, pid: Pid, id: Id)
    requires Ok(s) && Can(s, Attach(t, pid, id))
    ensures Ok(Next(s, Attach(t, pid, id)))
  {
    var s' := Next(s, Attach(t, pid, id));
    forall u | u in s'.tasks ensures TaskOk(s', u) {
      if u != t {
        assert TaskOk(s, u);
      }
    }
    forall i | i in s'.segments ensures SegmentOk(s', s'.segments[i]) {
      assert SegmentOk(s, s.segments[i]);
    }
  }

  /** The steps of a creator on its own segment. */
  lemma CreatorStep(s: State, e: Step)
    requires Ok(s) && Can(s, e)
    requires e.Truncate? || e.Map? || e.StorePid? || e.StoreMarker? || e.Write? || e.GiveUp?
    ensures Ok(Next(s, e))
  {
    hide Ok, Can;
    CanFacts(s, e);
    TaskFacts(s, e.t);
    LocalStep(s, Next(s, e), e.t, s.tasks[e.t].work.id);
  }

  /** The steps of a cleaner that only look. */
  lemma CleanerStep(s: State, e: Step)
    requires Ok(s) && Can(s, e)
    requires e.ReadSize? || e.LoadMarker? || e.LoadPid? || e.Probe? || e.Skip?
    ensures Ok(Next(s, e))
  {
    hide Ok, Can;
    CanFacts(s, e);
    EndStep(s, e.t);
    TaskFacts(s, e.t);
    if Next(s, e) != Done(s, e.t) {
      LocalStep(s, Next(s, e), e.t, s.tasks[e.t].work.id);
    }
  }

  lemma CanFacts(s: State, e: Step)
    requires Can(s, e) && !e.Born? && !e.Die? && !e.Open? && !e.Attach?
    ensures Working(s, e.t)
    ensures var w := s.tasks[e.t].work;
      && (e.Truncate? ==> w.Opened?) && (e.Map? ==> w.Sized?) && (e.StorePid? ==> w.Mapped?) && (e.StoreMarker? ==> w.PidStored?)
      && (e.Write? ==> w.InUse? && e.offset + 4 <= w.n) && (e.GiveUp? ==> w.Opened? || w.Sized? || w.InUse?)
      && (e.ReadSize? ==> w.Attached?) && (e.LoadMarker? ==> w.SizeRead?) && (e.LoadPid? ==> w.MarkerSeen?)
      && (e.Probe? ==> w.PidRead?) && (e.Skip? ==> w.Attached? || w.PidRead?)
  {
  }

  /** Every step keeps the invariant. */
  lemma StepOk(s: State, e: Step)
    requires Ok(s) && Can(s, e)
    ensures Ok(Next(s, e))
  {
    hide Ok;
    match e
    case Born(pid) => BornStep(s, pid);
    case Die(pid) => DieStep(s, pid);
    case Open(t, pid, id, n) => OpenStep(s, t, pid, id, n);
    case Attach(t, pid, id) => AttachStep(s, t, pid, id);
    case UnlinkOwn(t) =>
      UnlinkStep(s, s.tasks[t].work.id);
      EndStep(s.(linked := s.linked - {s.tasks[t].work.id}), t);
    case UnlinkStale(t) =>
      UnlinkStep(s, s.tasks[t].work.id);
      EndStep(s.(linked := s.linked - {s.tasks[t].work.id}), t);
    case ReadSize(_) => CleanerStep(s, e);
    case LoadMarker(_) => CleanerStep(s, e);
    case LoadPid(_) => CleanerStep(s, e);
    case Probe(_) => CleanerStep(s, e);
    case Skip(_) => CleanerStep(s, e);
    case _ => CreatorStep(s, e);
  }

  lemma TaskFacts(s: State, t: int)
    requires Ok(s) && t in s.tasks
    ensures TaskOk(s, t) && SegmentOk(s, s.segments[s.tasks[t].work.id])
    ensures forall p :: p in s.segments.Keys && s.segments[p].owner in s.dead ==> s.segments[p].owner !in s.alive
  {
  }

  // ------------------------------------------------------------------ whole runs

  ghost predicate IsRun(states: seq<State>, steps: seq<Step>) {
    && |states| == |steps| + 1 && states[0] == State({}, {}, {}, map[], map[])
    && forall i :: 0 <= i < |steps| ==> Leads(states[i], steps[i], states[i + 1])
  }

  ghost predicate Leads(s: State, e: Step, s': State) {
    Can(s, e) && s' == Next(s, e)
  }

  /** The segment of a creator that has not given it back has a name. */
  ghost predicate Named(s: State) {
    forall t :: t in s.tasks && Creating(s.tasks[t].work) ==> s.tasks[t].work.id in s.linked
  }

  /** A cleaner only removes names of segments whose owner is dead; every other name that goes is removed by
      its owner. */
  lemma VanishingNames(s: State, e: Step, id: Id)
    requires Ok(s) && Can(s, e) && id in s.linked && id !in Next(s, e).linked
    ensures id in s.segments
    ensures if e.UnlinkStale? then s.segments[id].owner in s.dead && s.segments[id].owner !in s.alive
            else e.UnlinkOwn? && e.t in s.tasks && s.tasks[e.t].pid == s.segments[id].owner
  {
    if e.UnlinkStale? || e.UnlinkOwn? {
      TaskFacts(s, e.t);
    }
    hide Ok;
  }

  lemma StepNamed(s: State, e: Step)
    requires Ok(s) && Named(s) && Can(s, e)
    ensures Named(Next(s, e))
  {
    hide TaskOk, WorkOk, SegmentOk, Word, MarkerOffset, SizeAccepted;
    var s' := Next(s, e);
    forall t | t in s'.tasks && Creating(s'.tasks[t].work) ensures s'.tasks[t].work.id in s'.linked {
      if e.UnlinkStale? && t in s.tasks {
        CondemnedApart(s, t, e.t);
      }
    }
  }

  /** Nobody is still creating a condemned segment: its owner is dead. */
  lemma CondemnedApart(s: State, t: int, u: int)
    requires Ok(s) && t in s.tasks && u in s.tasks && Creating(s.tasks[t].work) && s.tasks[u].work.Condemned?
    ensures s.tasks[t].work.id != s.tasks[u].work.id
  {
    assert TaskOk(s, t) && TaskOk(s, u);
  }

  lemma {:induction false} RunOk(states: seq<State>, steps: seq<Step>, n: nat)
    requires IsRun(states, steps) && n < |states|
    ensures Ok(states[n]) && Named(states[n])
    decreases n
  {
    hide Ok, Named, Can, Next;
    if n == 0 {
      EmptyOk();
    } else {
      RunOk(states, steps, n - 1);
      assert Leads(states[n - 1], steps[n - 1], states[n - 1 + 1]);
      StepOk(states[n - 1], steps[n - 1]);
      StepNamed(states[n - 1], steps[n - 1]);
    }
  }

  lemma EmptyOk()
    ensures Ok(State({}, {}, {}, map[], map[])) && Named(State({}, {}, {}, map[], map[]))
  {
  }

  /** In every interleaving of creators, cleaners and deaths: cleanup never removes the name of a segment whose
      creator is alive, and a segment that its creator uses has its name. */
  lemma CleanupIsSafe(states: seq<State>, steps: seq<Step>, n: nat)
    requires IsRun(states, steps) && n < |states|
    ensures n < |steps| && steps[n].UnlinkStale? ==>
      forall id :: id in states[n].linked && id !in states[n + 1].linked ==>
        id in states[n].segments && states[n].segments[id].owner !in states[n].alive
    ensures forall t :: t in states[n].tasks && states[n].tasks[t].work.InUse? ==>
      states[n].tasks[t].work.id in states[n].linked && states[n].tasks[t].pid in states[n].alive
  {
    hide Ok, Can, Next;
    RunOk(states, steps, n);
    forall t | t in states[n].tasks ensures states[n].tasks[t].pid in states[n].alive {
      TaskFacts(states[n], t);
    }
    if n < |steps| && steps[n].UnlinkStale? {
      assert Leads(states[n], steps[n], states[n + 1]);
      forall id | id in states[n].linked && id !in states[n + 1].linked
        ensures id in states[n].segments && states[n].segments[id].owner !in states[n].alive
      {
        VanishingNames(states[n], steps[n], id);
      }
    }
  }

  /** Because the process id is stored before the marker and loaded after it, a cleaner that saw the marker
      never finds the process id unset, and what it finds is the creator's. */
  lemma MarkerImpliesPid(states: seq<State>, steps: seq<Step>, n: nat)
    requires IsRun(states, steps) && n < |steps| && steps[n].LoadPid?
    ensures var t := steps[n].t;
      && t in states[n].tasks && t in states[n + 1].tasks && states[n].tasks[t].work.id in states[n].segments
      && states[n + 1].tasks[t].work.PidRead?
      && states[n + 1].tasks[t].work.pid == states[n].segments[states[n].tasks[t].work.id].owner
  {
    hide Ok;
    RunOk(states, steps, n);
    assert Leads(states[n], steps[n], states[n + 1]);
    TaskFacts(states[n], steps[n].t);
  }
}
