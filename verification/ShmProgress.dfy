/**
 What the creators and cleaners of shared memory segments get done: creators finish, and the names that dead creators left
 behind go, exactly if the creator had finished.
 */
module ShmProgress {
  import opened ShmLayout
  import opened ShmProtocol

  // ------------------------------------------------------------------ several steps

  predicate CanAll(s: State, es: seq<Step>)
    decreases |es|
  {
    es == [] || (Can(s, es[0]) && CanAll(Next(s, es[0]), es[1..]))
  }

  function After(s: State, es: seq<Step>): State
    requires CanAll(s, es)
    decreases |es|
  {
    if es == [] then s else After(Next(s, es[0]), es[1..])
  }

  /** The steps one by one, through the states `t`. */
  lemma {:induction false} Stepping(s: State, es: seq<Step>, t: seq<State>)
    requires |t| == |es| + 1 && t[0] == s && forall i :: 0 <= i < |es| ==> Leads(t[i], es[i], t[i + 1])
    ensures CanAll(s, es) && After(s, es) == t[|es|]
    decreases |es|
  {
    hide Can, Next;
    if es != [] {
      assert Leads(t[0], es[0], t[0 + 1]);
      forall i | 0 <= i < |es| - 1 ensures Leads(t[1..][i], es[1..][i], t[1..][i + 1]) {
        assert Leads(t[i + 1], es[i + 1], t[i + 1 + 1]);
      }
      Stepping(t[1], es[1..], t[1..]);
    }
  }

  // ------------------------------------------------------------------ a creator

  /** The five steps of a creator can be taken in turn, and leave a marked segment of the right size in use. */
  lemma CreatorGetsThrough(s: State, t: int, pid: Pid, id: Id, n: nat)
    requires Can(s, Open(t, pid, id, n))
    ensures var es := [Open(t, pid, id, n), Truncate(t), Map(t), StorePid(t), StoreMarker(t)];
      CanAll(s, es) && After(s, es) == s.(linked := s.linked + {id},
        segments := s.segments[id := Segment(pid, n + MARKER_SIZE, map[n + 4 := pid, n := MARKER])],
        tasks := s.tasks[t := Task(pid, InUse(id, n))])
  {
    hide CanAll, After;
    var s1 := Next(s, Open(t, pid, id, n));
    var s2 := Next(s1, Truncate(t));
    var s3 := Next(s2, Map(t));
    assert s3 == s.(linked := s.linked + {id}, segments := s.segments[id := Segment(pid, n + MARKER_SIZE, map[])],
      tasks := s.tasks[t := Task(pid, Mapped(id, n))]);
    var s4, s5 := Stores(s3, t, pid, id, n);
    assert s5.segments == s.segments[id := Segment(pid, n + MARKER_SIZE, map[n + 4 := pid, n := MARKER])];
    assert s5.tasks == s.tasks[t := Task(pid, InUse(id, n))];
    Five(s, s1, s2, s3, s4, s5, Open(t, pid, id, n), Truncate(t), Map(t), StorePid(t), StoreMarker(t));
  }

  /** The process id, then the marker. */
  lemma Stores(s: State, t: int, pid: Pid, id: Id, n: nat) returns (s1: State, s2: State)
    requires t in s.tasks && s.tasks[t] == Task(pid, Mapped(id, n)) && id in s.segments && s.segments[id] == Segment(pid, n + MARKER_SIZE, map[])
    ensures Leads(s, StorePid(t), s1) && Leads(s1, StoreMarker(t), s2)
    ensures s2 == s.(segments := s.segments[id := Segment(pid, n + MARKER_SIZE, map[n + 4 := pid, n := MARKER])],
      tasks := s.tasks[t := Task(pid, InUse(id, n))])
  {
    s1 := Next(s, StorePid(t));
    s2 := Next(s1, StoreMarker(t));
    assert s2.segments[id].words == map[n + 4 := pid, n := MARKER];
    assert s2.segments == s.segments[id := s2.segments[id]] && s2.tasks == s.tasks[t := Task(pid, InUse(id, n))];
  }

  lemma Five(s: State, s1: State, s2: State, s3: State, s4: State, s5: State, a: Step, b: Step, c: Step, d: Step, e: Step)
    requires Leads(s, a, s1) && Leads(s1, b, s2) && Leads(s2, c, s3) && Leads(s3, d, s4) && Leads(s4, e, s5)
    ensures CanAll(s, [a, b, c, d, e]) && After(s, [a, b, c, d, e]) == s5
  {
    hide Can, Next, CanAll, After, Leads;
    Stepping(s, [a, b, c, d, e], [s, s1, s2, s3, s4, s5]);
  }

  /** The owner of a segment in use can give it back, and then its name is gone. */
  lemma OwnerGivesBack(s: State, t: int)
    requires Working(s, t) && s.tasks[t].work.InUse?
    ensures CanAll(s, [GiveUp(t), UnlinkOwn(t)])
    ensures After(s, [GiveUp(t), UnlinkOwn(t)]) == s.(linked := s.linked - {s.tasks[t].work.id}, tasks := s.tasks - {t})
  {
    hide CanAll, After;
    var s1 := Next(s, GiveUp(t));
    var s2 := Next(s1, UnlinkOwn(t));
    assert s2.tasks == s.tasks - {t};
    assert Leads(s, GiveUp(t), s1) && Leads(s1, UnlinkOwn(t), s2);
    hide Can, Next, Leads;
    Stepping(s, [GiveUp(t), UnlinkOwn(t)], [s, s1, s2]);
  }

  // ------------------------------------------------------------------ what is stamped stays stamped

  lemma StampStays(s: State, e: Step, id: Id)
    requires Ok(s) && Can(s, e) && id in s.segments && Stamped(s.segments[id])
    ensures var s' := Next(s, e);
      && id in s'.segments && Stamped(s'.segments[id])
      && s'.segments[id].size == s.segments[id].size && s'.segments[id].owner == s.segments[id].owner
  {
    if !e.Born? && !e.Die? && !e.Open? && !e.Attach? {
      CanFacts(s, e);
      TaskFacts(s, e.t);
    }
    hide Ok;
  }

  /** In every later state of every run the segment that a creator has put in use carries the marker and the process id of
      that creator, whatever is written to it. */
  lemma {:induction false} StampedForever(states: seq<State>, steps: seq<Step>, i: nat, n: nat, t: int)
    requires IsRun(states, steps) && i <= n < |states| && t in states[i].tasks && states[i].tasks[t].work.InUse?
    ensures var k := states[i].tasks[t];
      && k.work.id in states[n].segments
      && var g := states[n].segments[k.work.id];
         g.owner == k.pid && g.size == k.work.n + MARKER_SIZE
         && Word(g, k.work.n) == MARKER && Word(g, k.work.n + 4) == k.pid
    decreases n
  {
    hide Ok, Can, Next, Named;
    var id := states[i].tasks[t].work.id;
    StampedSince(states, steps, i, n, t);
  }

  lemma {:induction false} StampedSince(states: seq<State>, steps: seq<Step>, i: nat, n: nat, t: int)
    requires IsRun(states, steps) && i <= n < |states| && t in states[i].tasks && states[i].tasks[t].work.InUse?
    ensures var k := states[i].tasks[t];
      && k.work.id in states[n].segments && Stamped(states[n].segments[k.work.id])
      && states[n].segments[k.work.id].owner == k.pid && states[n].segments[k.work.id].size == k.work.n + MARKER_SIZE
    decreases n
  {
    hide Ok, Can, Next, Named, Stamped;
    if n == i {
      RunOk(states, steps, n);
      TaskFacts(states[i], t);
    } else {
      StampedSince(states, steps, i, n - 1, t);
      RunOk(states, steps, n - 1);
      assert Leads(states[n - 1], steps[n - 1], states[n - 1 + 1]);
      StampStays(states[n - 1], steps[n - 1], states[i].tasks[t].work.id);
    }
  }

  // ------------------------------------------------------------------ a cleaner on its own

  /** The owner is dead and had finished. */
  ghost predicate Ready(s: State, id: Id) {
    id in s.segments && Removable(s.segments[id]) && s.segments[id].owner in s.dead
  }

  /** A new cleaner can take its steps in turn, and afterwards the name is gone and nothing else has changed. */
  lemma CleanerGetsThrough(s: State, t: int, pid: Pid, id: Id)
    requires Ok(s) && t !in s.tasks && pid in s.alive && id in s.linked && Ready(s, id)
    ensures var es := [Attach(t, pid, id), ReadSize(t), LoadMarker(t), LoadPid(t), Probe(t), UnlinkStale(t)];
      CanAll(s, es) && After(s, es) == s.(linked := s.linked - {id})
  {
    hide CanAll, After, Ok, SizeAccepted;
    OwnerKnown(s, id);
    var s1, s3 := Seen(s, t, pid, id);
    var s5, s6 := Removed(s, s3, t, pid, id);
    var s2, s4 := Next(s1, ReadSize(t)), Next(s3, LoadPid(t));
    hide Can, Next, Leads;
    Six(s, s1, s2, s3, s4, s5, s6, Attach(t, pid, id), ReadSize(t), LoadMarker(t), LoadPid(t), Probe(t), UnlinkStale(t));
  }

  lemma Seen(s: State, t: int, pid: Pid, id: Id) returns (s1: State, s3: State)
    requires t !in s.tasks && pid in s.alive && id in s.linked && Ready(s, id)
    ensures Leads(s, Attach(t, pid, id), s1) && Can(s1, ReadSize(t)) && Leads(s1, ReadSize(t), Next(s1, ReadSize(t)))
    ensures Leads(Next(s1, ReadSize(t)), LoadMarker(t), s3)
    ensures s3 == s.(tasks := s.tasks[t := Task(pid, MarkerSeen(id, s.segments[id].size))])
  {
    hide SizeAccepted;
    s1 := Next(s, Attach(t, pid, id));
    s3 := Next(Next(s1, ReadSize(t)), LoadMarker(t));
    assert s3.tasks == s.tasks[t := Task(pid, MarkerSeen(id, s.segments[id].size))];
  }

  lemma Removed(s: State, s3: State, t: int, pid: Pid, id: Id) returns (s5: State, s6: State)
    requires Ready(s, id) && t !in s.tasks && s.segments[id].owner > 0 && s.segments[id].owner !in s.alive
    requires s3 == s.(tasks := s.tasks[t := Task(pid, MarkerSeen(id, s.segments[id].size))])
    ensures Can(s3, LoadPid(t)) && Leads(s3, LoadPid(t), Next(s3, LoadPid(t))) && Leads(Next(s3, LoadPid(t)), Probe(t), s5)
    ensures Leads(s5, UnlinkStale(t), s6) && s6 == s.(linked := s.linked - {id})
  {
    hide SizeAccepted;
    s5 := Next(Next(s3, LoadPid(t)), Probe(t));
    s6 := Next(s5, UnlinkStale(t));
    assert s6.tasks == s.tasks;
  }

  lemma Six(s: State, s1: State, s2: State, s3: State, s4: State, s5: State, s6: State, a: Step, b: Step, c: Step, d: Step, e: Step, k: Step)
    requires Leads(s, a, s1) && Leads(s1, b, s2) && Leads(s2, c, s3) && Leads(s3, d, s4) && Leads(s4, e, s5) && Leads(s5, k, s6)
    ensures CanAll(s, [a, b, c, d, e, k]) && After(s, [a, b, c, d, e, k]) == s6
  {
    hide Can, Next, CanAll, After, Leads;
    Stepping(s, [a, b, c, d, e, k], [s, s1, s2, s3, s4, s5, s6]);
  }

  lemma OwnerKnown(s: State, id: Id)
    requires Ok(s) && id in s.segments
    ensures s.segments[id].owner > 0 && (s.segments[id].owner in s.dead ==> s.segments[id].owner !in s.alive)
    ensures s.segments[id].owner in s.alive || s.segments[id].owner in s.dead
  {
    assert SegmentOk(s, s.segments[id]);
  }

  // ------------------------------------------------------------------ a cleaner among others

  predicate By(e: Step, t: int) {
    !e.Born? && !e.Die? && e.t == t
  }

  /** How many steps of its own a cleaner has still to take. */
  function Left(w: Work): nat {
    match w
    case Attached(_) => 5
    case SizeRead(_, _) => 4
    case MarkerSeen(_, _) => 3
    case PidRead(_, _, _) => 2
    case Condemned(_) => 1
    case _ => 0
  }

  /** How many steps `t` takes from `i` to `n`. */
  function Taken(steps: seq<Step>, i: nat, n: nat, t: int): nat
    requires i <= n <= |steps|
    decreases n - i
  {
    if i == n then 0 else (if By(steps[i], t) then 1 else 0) + Taken(steps, i + 1, n, t)
  }

  lemma OthersLeave(s: State, e: Step, t: int)
    requires Can(s, e) && t in s.tasks && !By(e, t) && e != Die(s.tasks[t].pid)
    ensures t in Next(s, e).tasks && Next(s, e).tasks[t] == s.tasks[t]
  {
  }

  lemma StaysReady(s: State, e: Step, id: Id)
    requires Ok(s) && Can(s, e) && Ready(s, id)
    ensures Ready(Next(s, e), id)
  {
    hide Ok, SizeAccepted;
    StampStays(s, e, id);
    hide Stamped;
  }

  /** A name that is gone does not come back. */
  lemma GoneStays(s: State, e: Step, id: Id)
    requires Can(s, e) && id in s.segments && id !in s.linked
    ensures id in Next(s, e).segments && id !in Next(s, e).linked
  {
  }

  lemma OwnStep(s: State, e: Step, t: int)
    requires Ok(s) && Can(s, e) && t in s.tasks && By(e, t) && !e.Skip? && Left(s.tasks[t].work) > 0 && Ready(s, s.tasks[t].work.id)
    ensures var k, s' := s.tasks[t], Next(s, e);
      if Left(k.work) == 1 then k.work.id !in s'.linked
      else t in s'.tasks && s'.tasks[t].pid == k.pid && s'.tasks[t].work.id == k.work.id && Left(s'.tasks[t].work) == Left(k.work) - 1
  {
    TaskFacts(s, t);
    OwnerKnown(s, s.tasks[t].work.id);
    hide Ok, SizeAccepted;
  }

  /** However the steps of other processes come in between: once a cleaner that neither dies nor gives up has taken the
      steps it had left, the name is gone. */
  lemma {:induction false} CleanerFinishes(states: seq<State>, steps: seq<Step>, i: nat, n: nat, t: int)
    requires IsRun(states, steps) && i <= n <= |steps| && t in states[i].tasks && Left(states[i].tasks[t].work) > 0
    requires Ready(states[i], states[i].tasks[t].work.id)
    requires forall j :: i <= j < n ==> steps[j] != Die(states[i].tasks[t].pid) && steps[j] != Skip(t)
    requires Taken(steps, i, n, t) >= Left(states[i].tasks[t].work)
    ensures states[i].tasks[t].work.id !in states[n].linked
    decreases n - i
  {
    hide Ok, Can, Next, Named, Ready;
    RunOk(states, steps, i);
    assert Leads(states[i], steps[i], states[i + 1]);
    var id := states[i].tasks[t].work.id;
    StaysReady(states[i], steps[i], id);
    if By(steps[i], t) {
      OwnStep(states[i], steps[i], t);
      if Left(states[i].tasks[t].work) == 1 {
        ReadyKnown(states[i + 1], id);
        GoneSince(states, steps, i + 1, n, id);
      } else {
        CleanerFinishes(states, steps, i + 1, n, t);
      }
    } else {
      OthersLeave(states[i], steps[i], t);
      CleanerFinishes(states, steps, i + 1, n, t);
    }
  }

  lemma ReadyKnown(s: State, id: Id)
    requires Ready(s, id)
    ensures id in s.segments
  {
  }

  lemma {:induction false} GoneSince(states: seq<State>, steps: seq<Step>, i: nat, n: nat, id: Id)
    requires IsRun(states, steps) && i <= n < |states| && id in states[i].segments && id !in states[i].linked
    ensures id in states[n].segments && id !in states[n].linked
    decreases n
  {
    hide Can, Next;
    if i < n {
      GoneSince(states, steps, i, n - 1, id);
      assert Leads(states[n - 1], steps[n - 1], states[n - 1 + 1]);
      GoneStays(states[n - 1], steps[n - 1], id);
    }
  }

  // ------------------------------------------------------------------ which names of the dead can go

  /** Nobody removes the name, or changes the segment, of a dead creator that had not finished. */
  lemma UnfinishedStep(s: State, e: Step, id: Id)
    requires Ok(s) && Can(s, e) && id in s.linked && id in s.segments && s.segments[id].owner in s.dead && !Removable(s.segments[id])
    ensures var s' := Next(s, e);
      id in s'.linked && id in s'.segments && s'.segments[id] == s.segments[id] && s'.segments[id].owner in s'.dead
  {
    if !e.Born? && !e.Die? && !e.Open? && !e.Attach? {
      AnyTask(s, e);
      TaskFacts(s, e.t);
    }
    OwnerKnown(s, id);
    hide Ok, Removable, SizeAccepted;
  }

  lemma AnyTask(s: State, e: Step)
    requires Can(s, e) && !e.Born? && !e.Die? && !e.Open? && !e.Attach?
    ensures Working(s, e.t) && (e.UnlinkOwn? ==> s.tasks[e.t].work.GivingUp?) && (e.UnlinkStale? ==> s.tasks[e.t].work.Condemned?)
    ensures e.Truncate? || e.StorePid? || e.StoreMarker? || e.Write? ==> Creating(s.tasks[e.t].work)
  {
  }

  lemma {:induction false} UnfinishedStays(s: State, es: seq<Step>, id: Id)
    requires Ok(s) && CanAll(s, es) && id in s.linked && id in s.segments && s.segments[id].owner in s.dead && !Removable(s.segments[id])
    ensures id in After(s, es).linked
    decreases |es|
  {
    hide Ok, Can, Next, Removable;
    if es != [] {
      UnfinishedStep(s, es[0], id);
      StepOk(s, es[0]);
      UnfinishedStays(Next(s, es[0]), es[1..], id);
    }
  }

  lemma {:induction false} FreshNumber(used: set<int>) returns (x: int)
    ensures x > 0 && forall y :: y in used ==> y < x
    decreases |used|
  {
    x := 1;
    if y :| y in used {
      var z := FreshNumber(used - {y});
      x := if y < z then z else y + 1;
      forall a | a in used ensures a < x {
        assert a == y || a in used - {y};
      }
    }
  }

  /** The name that a dead creator left behind can go, by some steps of some processes, if and only if the creator had
      stored the process id and the marker, and the size of the segment is acceptable. */
  lemma RemovableExactly(s: State, id: Id)
    requires Ok(s) && id in s.linked && id in s.segments && s.segments[id].owner in s.dead
    ensures (exists es :: CanAll(s, es) && id !in After(s, es).linked) <==> Removable(s.segments[id])
  {
    hide Ok, Removable, CanAll, After, Can, Next;
    if Removable(s.segments[id]) {
      var pid := FreshNumber(s.alive + s.dead);
      var t := FreshNumber(s.tasks.Keys);
      var s1 := NewProcess(s, pid, id);
      CleanerGetsThrough(s1, t, pid, id);
      var es := [Attach(t, pid, id), ReadSize(t), LoadMarker(t), LoadPid(t), Probe(t), UnlinkStale(t)];
      InFront(s, Born(pid), es);
      assert CanAll(s, [Born(pid)] + es) && id !in After(s, [Born(pid)] + es).linked;
    } else {
      forall es | CanAll(s, es) ensures id in After(s, es).linked {
        UnfinishedStays(s, es, id);
      }
    }
  }

  lemma InFront(s: State, e: Step, rest: seq<Step>)
    requires Can(s, e) && CanAll(Next(s, e), rest)
    ensures CanAll(s, [e] + rest) && After(s, [e] + rest) == After(Next(s, e), rest)
  {
    hide Can, Next;
    var es := [e] + rest;
    assert es[0] == e && es[1..] == rest;
  }

  lemma NewProcess(s: State, pid: Pid, id: Id) returns (s1: State)
    requires Ok(s) && pid > 0 && pid !in s.alive && pid !in s.dead && id in s.linked && Ready(s, id)
    ensures Can(s, Born(pid)) && s1 == Next(s, Born(pid)) && Ok(s1) && pid in s1.alive && id in s1.linked && Ready(s1, id) && s1.tasks == s.tasks
  {
    BornStep(s, pid);
    s1 := Next(s, Born(pid));
    hide Ok;
  }
}
