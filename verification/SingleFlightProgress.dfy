/**
 No lookup waits in vain: a locked gate has somebody inside who can go on, and a permit
 that is missing is held by somebody who will give it back.
 */
module SingleFlightProgress {
  import opened Common
  import opened Lru
  import opened SingleFlight
  import L = AdmissionLimiter

  /** A locked gate is held by a task inside it. */
  ghost predicate LockedByInside(s: State) {
    forall g :: g in s.locked ==>
      exists t :: t in s.tasks && Inside(s.tasks[t].phase) && GateOf(s.tasks[t].phase) == Some(g)
  }

  lemma LockedKept(c: Config, s: State, e: Event)
    requires Configured(c) && MutexHeld(s) && LockedByInside(s)
    ensures LockedByInside(Next(c, s, e))
  {
    var s' := Next(c, s, e);
    hide NextOf;
    if e.Tick? || e.Spawn? {
      SpawnLeaves(c, s, e);
      hide Next;
      forall g | g in s'.locked
        ensures exists t :: t in s'.tasks && Inside(s'.tasks[t].phase) && GateOf(s'.tasks[t].phase) == Some(g)
      {
        var t :| t in s.tasks && Inside(s.tasks[t].phase) && GateOf(s.tasks[t].phase) == Some(g);
        assert s'.tasks[t] == s.tasks[t];
      }
    } else if e.t in s.tasks {
      Moves(c, s, e);
      var p, p' := s.tasks[e.t].phase, s'.tasks[e.t].phase;
      if Inside(p) && Inside(p') {
        InsideKeepsGate(c, s, e);
      }
      if Inside(p') && !Inside(p) {
        EnterTakesGate(c, s, e);
      }
      hide Next;
      InsideHasGate(p);
      InsideHasGate(p');
      hide Inside, GateOf;
      forall g | g in s'.locked
        ensures exists t :: t in s'.tasks && Inside(s'.tasks[t].phase) && GateOf(s'.tasks[t].phase) == Some(g)
      {
        if g in s.locked {
          var t :| t in s.tasks && Inside(s.tasks[t].phase) && GateOf(s.tasks[t].phase) == Some(g);
          if t != e.t {
            assert s'.tasks[t] == s.tasks[t];
          } else {
            assert Inside(p') && GateOf(p') == Some(g);
          }
        } else {
          assert GateOf(p) == Some(g) && Inside(p') && GateOf(p') == Some(g);
        }
      }
    }
  }

  lemma SpawnLeaves(c: Config, s: State, e: Event)
    requires Configured(c) && (e.Tick? || e.Spawn?)
    ensures Next(c, s, e).locked == s.locked
    ensures forall t :: t in s.tasks ==> t in Next(c, s, e).tasks && Next(c, s, e).tasks[t] == s.tasks[t]
  {
  }

  lemma InsideHasGate(p: Phase)
    ensures Inside(p) ==> GateOf(p).Some?
    ensures p.Waiting? ==> GateOf(p) == Some(p.gate)
  {
  }

  lemma {:induction false} LockedAlways(c: Config, s: State, events: seq<Event>)
    requires Configured(c) && Inv(c, s) && LockedByInside(s)
    ensures Inv(c, Run(c, s, events)) && LockedByInside(Run(c, s, events))
    decreases |events|
  {
    hide Next, GatesHeld, MutexHeld, PermitsHeld, Authentic, LockedByInside;
    if events != [] {
      InvKept(c, s, events[0]);
      LockedKept(c, s, events[0]);
      LockedAlways(c, Next(c, s, events[0]), events[1..]);
    }
  }

  /** The next step of an unfinished lookup; a fetch may at worst fail. */
  function NextStep(t: TaskId, p: Phase): Event
    requires !p.Done?
  {
    match p
    case Start => FirstCheck(t)
    case Missed => FindGate(t)
    case Waiting(_) => LockGate(t)
    case Entered(_) => Recheck(t)
    case Rechecked(_) => Admit(t)
    case Admitted(_, _) => TakePermit(t)
    case Fetching(_) => BackendReplies(t, None)
    case Stored(_, _) => Return(t)
    case Leaving(_, _) => DropGate(t)
  }

  /** Only a locked gate and a missing permit hold a lookup up. */
  lemma GoesOn(c: Config, s: State, t: TaskId)
    requires Configured(c) && t in s.tasks && !s.tasks[t].phase.Done?
    requires s.tasks[t].phase.Waiting? ==> s.tasks[t].phase.gate !in s.locked
    requires s.tasks[t].phase.Admitted? ==> s.permits > 0
    ensures t in Next(c, s, NextStep(t, s.tasks[t].phase)).tasks
    ensures Next(c, s, NextStep(t, s.tasks[t].phase)).tasks[t].phase != s.tasks[t].phase
  {
    hide Consult, KeyGate, L.Admit;
  }

  /** Whoever has a permit. */
  lemma Holder(c: Config, s: State) returns (u: TaskId)
    requires Configured(c) && PermitsHeld(c, s) && s.permits == 0
    ensures u in s.tasks && HasPermit(s.tasks[u].phase)
  {
    assert |Permitted(s.tasks)| > 0;
    u :| u in Permitted(s.tasks);
  }

  /** There is no deadlock: while a lookup is unfinished, the next step of some lookup can be taken. */
  lemma {:induction false} NoDeadlock(c: Config, start: nat, events: seq<Event>, t: TaskId) returns (u: TaskId)
    requires Configured(c)
    requires var s := Run(c, Init(c, start), events); t in s.tasks && !s.tasks[t].phase.Done?
    ensures var s := Run(c, Init(c, start), events);
            && u in s.tasks && !s.tasks[u].phase.Done?
            && u in Next(c, s, NextStep(u, s.tasks[u].phase)).tasks
            && Next(c, s, NextStep(u, s.tasks[u].phase)).tasks[u].phase != s.tasks[u].phase
  {
    var s := Run(c, Init(c, start), events);
    Reachable(c, start, []);
    assert Run(c, Init(c, start), []) == Init(c, start);
    LockedAlways(c, Init(c, start), events);
    hide Run, Init, Next, GatesHeld, MutexHeld, Authentic;
    u := t;
    if s.tasks[t].phase.Waiting? && s.tasks[t].phase.gate in s.locked {
      u :| u in s.tasks && Inside(s.tasks[u].phase) && GateOf(s.tasks[u].phase) == Some(s.tasks[t].phase.gate);
    }
    if s.tasks[u].phase.Admitted? && s.permits == 0 {
      u := Holder(c, s);
    }
    GoesOn(c, s, u);
  }

  // ---- how a lookup ends ----

  /** A fetch ends with what the backend replied, or with its failure. */
  lemma FetchEnds(c: Config, s: State, t: TaskId, reply: Option<Answer>)
    requires Configured(c) && t in s.tasks && s.tasks[t].phase.Fetching?
    ensures var replied := Next(c, s, BackendReplies(t, reply));
            var left := if reply.Some? then Next(c, replied, Return(t)) else replied;
            var done := Next(c, left, DropGate(t));
            && t in done.tasks
            && done.tasks[t].phase == Done(if reply.Some? then Ok(Cached(reply.value, s.now)) else Err(Backend))
            && done.locked == s.locked - {s.tasks[t].phase.gate} && done.permits == s.permits + 1
  {
    hide Put;
  }

  /** Without an admission a lookup ends with that refusal, and gives its gate back. */
  lemma RefusedAdmissionEnds(c: Config, s: State, t: TaskId)
    requires Configured(c) && t in s.tasks && s.tasks[t].phase.Rechecked?
    ensures var asked := Next(c, s, Admit(t));
            && t in asked.tasks
            && (if L.Admit(c.limits, s.limiter, s.tasks[t].req.account, s.now).1
                then asked.tasks[t].phase == Admitted(s.tasks[t].phase.gate, s.now)
                else && Next(c, asked, DropGate(t)).tasks[t].phase == Done(Err(AdmissionLimit))
                     && asked.locked == s.locked - {s.tasks[t].phase.gate})
  {
    hide L.Admit;
  }

  /** A lookup may be dropped at any point: it ends, and holds neither gate nor permit. */
  lemma DroppedLetsGo(c: Config, s: State, t: TaskId)
    requires Configured(c) && t in s.tasks && !s.tasks[t].phase.Done?
    ensures var after, p := Next(c, s, Event.Drop(t)), s.tasks[t].phase;
            && t in after.tasks && after.tasks[t].phase == Done(Err(Dropped))
            && after.locked == (if Inside(p) then s.locked - {GateOf(p).value} else s.locked)
            && after.permits == s.permits + (if HasPermit(p) then 1 else 0)
            && after.cache == s.cache && after.limiter == s.limiter
  {
  }

  // ---- which gate makes room ----

  lemma {:induction false} FirstIdleIsFirst(tasks: map<TaskId, Task>, gates: Cache<Key, GateId>, order: seq<Key>)
    requires forall k :: k in order ==> k in gates.table
    ensures match FirstIdle(tasks, gates, order)
            case None => forall i :: 0 <= i < |order| ==> !Idle(tasks, gates.table[order[i]])
            case Some(k) => exists i :: 0 <= i < |order| && order[i] == k && Idle(tasks, gates.table[k])
                                        && forall j :: 0 <= j < i ==> !Idle(tasks, gates.table[order[j]])
  {
    hide Idle;
    if order != [] && !Idle(tasks, gates.table[order[0]]) {
      FirstIdleIsFirst(tasks, gates, order[1..]);
      var rest := FirstIdle(tasks, gates, order[1..]);
      if rest.Some? {
        var i :| 0 <= i < |order[1..]| && order[1..][i] == rest.value && Idle(tasks, gates.table[rest.value])
                 && forall j :: 0 <= j < i ==> !Idle(tasks, gates.table[order[1..][j]]);
        assert order[i + 1] == rest.value;
        assert forall j :: 1 <= j < i + 1 ==> order[j] == order[1..][j - 1];
      } else {
        assert forall j :: 1 <= j < |order| ==> order[j] == order[1..][j - 1];
      }
    }
  }

  /**
   A lookup shares the gate its key has; otherwise it gets a new one, and a full table
   loses the most recently used gate that nobody owns.
   */
  lemma GateFound(c: Config, s: State, t: TaskId)
    requires Configured(c) && GatesHeld(c, s) && t in s.tasks && s.tasks[t].phase.Missed?
    requires !Next(c, s, FindGate(t)).tasks[t].phase.Done?
    ensures var key, after := s.tasks[t].req.key, Next(c, s, FindGate(t));
            && after.gates.order != [] && after.gates.order[0] == key
            && after.tasks[t].phase == Waiting(if key in s.gates.table then s.gates.table[key] else s.nextGate)
            && (key in s.gates.table ==> after.gates.table == s.gates.table)
            && (key !in s.gates.table && |s.gates.order| < c.limits.capacity ==>
                  after.gates.table == s.gates.table[key := s.nextGate])
            && (key !in s.gates.table && |s.gates.order| == c.limits.capacity ==>
                  exists i :: 0 <= i < |s.gates.order| && FirstUnowned(s, i)
                              && after.gates.table == (s.gates.table - {s.gates.order[i]})[key := s.nextGate])
  {
    assert forall k :: k in s.gates.order ==> k in s.gates.table;
    FirstIdleIsFirst(s.tasks, s.gates, s.gates.order);
    DropAtFront(s.gates, c.limits.capacity);
    hide FirstIdle, Idle, Lru.Drop;
  }

  /** The first gate in the order of use that is idle. */
  ghost predicate FirstUnowned(s: State, i: nat)
    requires i < |s.gates.order| && forall k :: k in s.gates.order ==> k in s.gates.table
  {
    Idle(s.tasks, s.gates.table[s.gates.order[i]])
    && forall j :: 0 <= j < i ==> !Idle(s.tasks, s.gates.table[s.gates.order[j]])
  }

  lemma DropAtFront(gates: Cache<Key, GateId>, capacity: nat)
    requires Valid(gates) && |gates.order| <= capacity
    ensures forall k :: k in gates.table ==> |Pop(gates, k).order| < capacity
  {
    forall k | k in gates.table ensures |Pop(gates, k).order| < capacity {
      PopValid(gates, k);
    }
  }
}
