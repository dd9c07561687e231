/**
 The cached, single-flight lookups of `src/nadeo.rs` (`lookup` and its twin
 `author_id_for_uid`), as a machine whose events are the atomic steps of any number
 of concurrent tasks. Tasks may be dropped at any point.
 */
module SingleFlight {
  import opened Common
  import opened Lru
  import L = AdmissionLimiter
  import R = AdmissionBounds

  type TaskId = nat
  type GateId = nat
  type Key = string

  datatype Answer = Positive(payload: nat) | Negative

  datatype Error = GateCapacity | AdmissionLimit | Backend | Dropped

  datatype Cached = Cached(answer: Answer, obtained: nat)

  /** A reply the backend gave for a key. */
  datatype Reply = Reply(key: Key, cached: Cached)

  datatype Request = Request(account: nat, key: Key, negativeNotBefore: Option<nat>)

  /** How far a task has come. From `Waiting` to `Leaving` it owns a clone of its key's gate. */
  datatype Phase =
    | Start
    | Missed
    | Waiting(gate: GateId)
    | Entered(gate: GateId)
    | Rechecked(gate: GateId)
    | Admitted(gate: GateId, at: nat)
    | Fetching(gate: GateId)
    | Stored(gate: GateId, stored: Cached)
    | Leaving(gate: GateId, outcome: Result<Cached, Error>)
    | Done(result: Result<Cached, Error>)

  datatype Task = Task(req: Request, phase: Phase)

  datatype Config = Config(limits: L.Limits, positiveTtl: nat, negativeTtl: nat, concurrency: nat)

  /** One capacity serves the cache, the gate table and the limiter's account table. */
  ghost predicate Configured(c: Config) {
    c.limits.capacity > 0 && c.concurrency > 0
  }

  datatype State = State(
    now: nat,
    tasks: map<TaskId, Task>,
    gates: Cache<Key, GateId>,
    nextGate: GateId,
    locked: set<GateId>,
    permits: nat,
    cache: Cache<Key, Cached>,
    limiter: L.State,
    past: Past)

  /** What has happened so far: no step reads it. */
  datatype Past = Past(
    calls: seq<L.Call>,
    fetchedFor: seq<nat>,
    abandonedFor: seq<nat>,
    replies: set<Reply>,
    answered: map<TaskId, nat>)

  function Init(c: Config, start: nat): State {
    State(start, map[], Empty(), 0, {}, c.concurrency, Empty(), L.Fresh(start), Past([], [], [], {}, map[]))
  }

  datatype Event =
    | Tick(delta: nat)
    | Spawn(t: TaskId, req: Request)
    | FirstCheck(t: TaskId)
    | FindGate(t: TaskId)
    | LockGate(t: TaskId)
    | Recheck(t: TaskId)
    | Admit(t: TaskId)
    | TakePermit(t: TaskId)
    | BackendReplies(t: TaskId, reply: Option<Answer>)
    | Return(t: TaskId)
    | DropGate(t: TaskId)
    | Drop(t: TaskId)

  // ---- the pieces of a lookup ----

  function Ttl(c: Config, a: Answer): nat {
    if a.Positive? then c.positiveTtl else c.negativeTtl
  }

  /** `cached_record`: an expired entry is popped; a negative one older than asked for is only passed over. */
  function Consult(c: Config, cache: Cache<Key, Cached>, req: Request, now: nat): (Cache<Key, Cached>, Option<Cached>) {
    match Peek(cache, req.key)
    case None => (cache, None)
    case Some(e) =>
      if Since(now, e.obtained) >= Ttl(c, e.answer) then (Pop(cache, req.key), None)
      else if e.answer.Negative? && req.negativeNotBefore.Some? && e.obtained < req.negativeNotBefore.value
      then (Touch(cache, req.key), None)
      else (Touch(cache, req.key), Some(e))
  }

  function GateOf(p: Phase): Option<GateId> {
    match p
    case Waiting(g) => Some(g)
    case Entered(g) => Some(g)
    case Rechecked(g) => Some(g)
    case Admitted(g, _) => Some(g)
    case Fetching(g) => Some(g)
    case Stored(g, _) => Some(g)
    case Leaving(g, _) => Some(g)
    case _ => None
  }

  /** Between acquiring and releasing the gate's mutex. */
  predicate Inside(p: Phase) {
    p.Entered? || p.Rechecked? || p.Admitted? || p.Fetching? || p.Stored?
  }

  predicate HasPermit(p: Phase) {
    p.Fetching? || p.Stored?
  }

  /** `Arc::strong_count(gate) == 1`: no task owns a clone. */
  predicate Idle(tasks: map<TaskId, Task>, g: GateId) {
    forall t :: t in tasks ==> GateOf(tasks[t].phase) != Some(g)
  }

  /** The most recently used gate nobody owns. */
  function FirstIdle(tasks: map<TaskId, Task>, gates: Cache<Key, GateId>, order: seq<Key>): Option<Key>
  {
    if order == [] then None
    else if order[0] in gates.table && Idle(tasks, gates.table[order[0]]) then Some(order[0])
    else FirstIdle(tasks, gates, order[1..])
  }

  /** `key_gate`: the gate for a key, its table afterwards, and whether the gate is new. */
  function KeyGate(c: Config, tasks: map<TaskId, Task>, gates: Cache<Key, GateId>, nextGate: GateId, key: Key)
    : Option<(Cache<Key, GateId>, GateId, bool)>
  {
    if key in gates.table then Some((Touch(gates, key), gates.table[key], false))
    else if |gates.order| >= c.limits.capacity then
      match FirstIdle(tasks, gates, gates.order)
      case None => None
      case Some(idle) => Some((Put(Pop(gates, idle), key, nextGate, c.limits.capacity), nextGate, true))
    else Some((Put(gates, key, nextGate, c.limits.capacity), nextGate, true))
  }

  /** The two bounded tables of a verifier, updated in place. */
  class Tables {
    const config: Config
    var cache: Cache<Key, Cached>
    var gates: Cache<Key, GateId>
    var nextGate: GateId

    constructor (c: Config)
      ensures config == c && cache == Empty() && gates == Empty() && nextGate == 0
    {
      config, cache, gates, nextGate := c, Empty(), Empty(), 0;
    }

    method CachedRecord(req: Request, now: nat) returns (hit: Option<Cached>)
      modifies this`cache
      ensures (cache, hit) == Consult(config, old(cache), req, now)
    {
      var peeked := Peek(cache, req.key);
      if peeked.None? {
        return None;
      }
      var entry := peeked.value;
      if Since(now, entry.obtained) >= Ttl(config, entry.answer) {
        cache := Pop(cache, req.key);
        return None;
      }
      cache := Touch(cache, req.key);
      if entry.answer.Negative? && req.negativeNotBefore.Some? && entry.obtained < req.negativeNotBefore.value {
        return None;
      }
      return Some(entry);
    }

    /**
     The tasks stand for the strong counts of the gates; a full table makes room by
     dropping the first gate nobody owns.
     */
    method GateFor(tasks: map<TaskId, Task>, key: Key) returns (gate: Option<GateId>)
      modifies this`gates, this`nextGate
      ensures var found := KeyGate(config, tasks, old(gates), old(nextGate), key);
              if found.None? then gate == None && gates == old(gates) && nextGate == old(nextGate)
              else gate == Some(found.value.1) && gates == found.value.0
                   && nextGate == if found.value.2 then old(nextGate) + 1 else old(nextGate)
    {
      if key in gates.table {
        gate := Some(gates.table[key]);
        gates := Touch(gates, key);
        return;
      }
      if |gates.order| >= config.limits.capacity {
        var i := 0;
        while i < |gates.order| && !(gates.order[i] in gates.table && Idle(tasks, gates.table[gates.order[i]]))
          invariant 0 <= i <= |gates.order| && gates == old(gates) && nextGate == old(nextGate)
          invariant FirstIdle(tasks, gates, gates.order) == FirstIdle(tasks, gates, gates.order[i..])
        {
          assert gates.order[i..][1..] == gates.order[i + 1..];
          i := i + 1;
        }
        if i == |gates.order| {
          return None;
        }
        gates := Pop(gates, gates.order[i]);
      }
      gates := Put(gates, key, nextGate, config.limits.capacity);
      gate := Some(nextGate);
      nextGate := nextGate + 1;
    }
  }

  function Goto(s: State, t: TaskId, p: Phase): State
    requires t in s.tasks
  {
    s.(tasks := s.tasks[t := s.tasks[t].(phase := p)])
  }

  /** Leaving with the mutex (and perhaps a permit) given back. */
  function Exit(s: State, t: TaskId, g: GateId, outcome: Result<Cached, Error>): State
    requires t in s.tasks
  {
    Goto(s, t, Leaving(g, outcome)).(
      locked := s.locked - {g},
      permits := s.permits + if HasPermit(s.tasks[t].phase) then 1 else 0)
  }

  /** One atomic step; an event that is not enabled changes nothing. */
  function Next(c: Config, s: State, e: Event): State
    requires Configured(c)
  {
    match e
    case Tick(delta) => s.(now := s.now + delta)
    case Spawn(t, req) =>
      if t in s.tasks || (req.negativeNotBefore.Some? && req.negativeNotBefore.value > s.now) then s
      else s.(tasks := s.tasks[t := Task(req, Start)])
    case _ =>
      if e.t !in s.tasks then s else NextOf(c, s, e, s.tasks[e.t].req, s.tasks[e.t].phase)
  }

  function NextOf(c: Config, s: State, e: Event, req: Request, p: Phase): State
    requires Configured(c)
    requires !e.Tick? && !e.Spawn? && e.t in s.tasks && s.tasks[e.t] == Task(req, p)
  {
    match (e, p)
    case (FirstCheck(t), Start) =>
      var (cache, hit) := Consult(c, s.cache, req, s.now);
      Goto(s, t, if hit.Some? then Done(Ok(hit.value)) else Missed).(
        cache := cache, past := if hit.Some? then s.past.(answered := s.past.answered[t := s.now]) else s.past)
    case (FindGate(t), Missed) =>
      (match KeyGate(c, s.tasks, s.gates, s.nextGate, req.key)
       case None => Goto(s, t, Done(Err(GateCapacity)))
       case Some(found) =>
         Goto(s, t, Waiting(found.1)).(gates := found.0, nextGate := if found.2 then s.nextGate + 1 else s.nextGate))
    case (LockGate(t), Waiting(g)) =>
      if g in s.locked then s else Goto(s, t, Entered(g)).(locked := s.locked + {g})
    case (Recheck(t), Entered(g)) =>
      var (cache, hit) := Consult(c, s.cache, req, s.now);
      (if hit.Some? then Exit(s, t, g, Ok(hit.value)) else Goto(s, t, Rechecked(g))).(
        cache := cache, past := if hit.Some? then s.past.(answered := s.past.answered[t := s.now]) else s.past)
    case (Admit(t), Rechecked(g)) =>
      var (limiter, ok) := L.Admit(c.limits, s.limiter, req.account, s.now);
      (if ok then Goto(s, t, Admitted(g, s.now)) else Exit(s, t, g, Err(AdmissionLimit)))
        .(limiter := limiter, past := s.past.(calls := s.past.calls + [L.Call(req.account, s.now)]))
    case (TakePermit(t), Admitted(g, at)) =>
      if s.permits == 0 then s
      else Goto(s, t, Fetching(g)).(permits := s.permits - 1, past := s.past.(fetchedFor := s.past.fetchedFor + [at]))
    case (BackendReplies(t, None), Fetching(g)) => Exit(s, t, g, Err(Backend))
    case (BackendReplies(t, Some(a)), Fetching(g)) =>
      var entry := Cached(a, s.now);
      Goto(s, t, Stored(g, entry)).(
        cache := Put(s.cache, req.key, entry, c.limits.capacity),
        past := s.past.(
          replies := s.past.replies + {Reply(req.key, entry)}, answered := s.past.answered[t := s.now]))
    case (Return(t), Stored(g, entry)) => Exit(s, t, g, Ok(entry))
    case (DropGate(t), Leaving(_, r)) => Goto(s, t, Done(r))
    case (Drop(t), _) =>
      if p.Done? then s
      else
        var s1 := if Inside(p) then Exit(s, t, GateOf(p).value, Err(Dropped)) else s;
        Goto(s1, t, Done(Err(Dropped))).(
          past := s.past.(abandonedFor := s.past.abandonedFor + if p.Admitted? then [p.at] else []))
    case _ => s
  }

  // ---- the invariant ----

  /** Every gate in the table is known by one key, and every task's gate is the one the table has for its key. */
  ghost predicate GatesHeld(c: Config, s: State) {
    && Valid(s.gates)
    && |s.gates.order| <= c.limits.capacity
    && (forall k :: k in s.gates.table ==> s.gates.table[k] < s.nextGate)
    && (forall k, k' :: k in s.gates.table && k' in s.gates.table && k != k' ==> s.gates.table[k] != s.gates.table[k'])
    && (forall t :: t in s.tasks ==> var g := GateOf(s.tasks[t].phase);
          g.Some? ==> s.tasks[t].req.key in s.gates.table && s.gates.table[s.tasks[t].req.key] == g.value)
  }

  /** A gate's mutex is held by exactly one task, and only while it is locked. */
  ghost predicate MutexHeld(s: State) {
    && (forall t :: t in s.tasks && Inside(s.tasks[t].phase) ==> GateOf(s.tasks[t].phase).value in s.locked)
    && (forall t, u ::
          t in s.tasks && u in s.tasks && t != u && Inside(s.tasks[t].phase) && Inside(s.tasks[u].phase) ==>
          GateOf(s.tasks[t].phase) != GateOf(s.tasks[u].phase))
  }

  function Permitted(tasks: map<TaskId, Task>): set<TaskId> {
    set t | t in tasks && HasPermit(tasks[t].phase)
  }

  ghost predicate PermitsHeld(c: Config, s: State) {
    s.permits + |Permitted(s.tasks)| == c.concurrency
  }

  /** An answer was new, or within its time to live, when the task got it. */
  ghost predicate Young(c: Config, e: Cached, at: nat) {
    e.obtained <= at && (at == e.obtained || at - e.obtained < Ttl(c, e.answer))
  }

  /** Cached entries and successful outcomes are replies the backend really gave for that key. */
  ghost predicate Authentic(c: Config, s: State) {
    && (forall r :: r in s.past.replies ==> r.cached.obtained <= s.now)
    && (forall k :: k in s.cache.table ==> Reply(k, s.cache.table[k]) in s.past.replies)
    && (forall t :: t in s.tasks ==> var o := Carried(s.tasks[t].phase);
          o.Some? ==>
            && Reply(s.tasks[t].req.key, o.value) in s.past.replies && FreshEnough(s.tasks[t].req, o.value)
            && t in s.past.answered && Young(c, o.value, s.past.answered[t]))
    && (forall t :: t in s.tasks && s.tasks[t].req.negativeNotBefore.Some? ==>
        s.tasks[t].req.negativeNotBefore.value <= s.now)
  }

  function Carried(p: Phase): Option<Cached> {
    match p
    case Stored(_, e) => Some(e)
    case Leaving(_, Ok(e)) => Some(e)
    case Done(Ok(e)) => Some(e)
    case _ => None
  }

  ghost predicate FreshEnough(req: Request, e: Cached) {
    e.answer.Negative? && req.negativeNotBefore.Some? ==> e.obtained >= req.negativeNotBefore.value
  }

  ghost predicate Inv(c: Config, s: State) {
    GatesHeld(c, s) && MutexHeld(s) && PermitsHeld(c, s) && Authentic(c, s)
  }

  function Run(c: Config, s: State, events: seq<Event>): State
    requires Configured(c)
    decreases |events|
  {
    if events == [] then s else Run(c, Next(c, s, events[0]), events[1..])
  }

  // ---- every step keeps it ----

  lemma PhaseMoves(c: Config, s: State, e: Event)
    requires Configured(c) && !e.Tick? && !e.Spawn? && e.t in s.tasks
    ensures
      var s', p := Next(c, s, e), s.tasks[e.t].phase;
      && e.t in s'.tasks
      && var p' := s'.tasks[e.t].phase;
         && s'.tasks == s.tasks[e.t := s.tasks[e.t].(phase := p')]
         && s'.now == s.now
         && (!(e.FindGate? && p.Missed?) ==>
               s'.gates == s.gates && s'.nextGate == s.nextGate && (GateOf(p') == GateOf(p) || GateOf(p') == None))
  {
    hide Consult, KeyGate, Put, L.Admit, Inside, HasPermit;
  }

  lemma LockMoves(c: Config, s: State, e: Event)
    requires Configured(c) && !e.Tick? && !e.Spawn? && e.t in s.tasks
    ensures
      var s', p := Next(c, s, e), s.tasks[e.t].phase;
      && e.t in s'.tasks
      && var p' := s'.tasks[e.t].phase;
         && (Inside(p') && !Inside(p) ==> p.Waiting? && p.gate !in s.locked && s'.locked == s.locked + {p.gate})
         && (Inside(p) && !Inside(p') ==> s'.locked == s.locked - {GateOf(p).value})
         && (Inside(p) == Inside(p') ==> s'.locked == s.locked)
         && s'.permits == s.permits + (if HasPermit(p) then 1 else 0) - (if HasPermit(p') then 1 else 0)
  {
    hide Consult, KeyGate, Put, L.Admit;
  }

  /** What one step of one task can do to its phase, the mutexes and the permits. */
  lemma Moves(c: Config, s: State, e: Event)
    requires Configured(c) && !e.Tick? && !e.Spawn? && e.t in s.tasks
    ensures
      var s', p := Next(c, s, e), s.tasks[e.t].phase;
      && e.t in s'.tasks
      && var p' := s'.tasks[e.t].phase;
         && s'.tasks == s.tasks[e.t := s.tasks[e.t].(phase := p')]
         && s'.now == s.now
         && (!(e.FindGate? && p.Missed?) ==>
               s'.gates == s.gates && s'.nextGate == s.nextGate && (GateOf(p') == GateOf(p) || GateOf(p') == None))
         && (Inside(p') && !Inside(p) ==> p.Waiting? && p.gate !in s.locked && s'.locked == s.locked + {p.gate})
         && (Inside(p) && !Inside(p') ==> s'.locked == s.locked - {GateOf(p).value})
         && (Inside(p) == Inside(p') ==> s'.locked == s.locked)
         && s'.permits == s.permits + (if HasPermit(p) then 1 else 0) - (if HasPermit(p') then 1 else 0)
  {
    PhaseMoves(c, s, e);
    LockMoves(c, s, e);
    hide Next, Inside, HasPermit, GateOf;
  }

  lemma KeyGateKeeps(c: Config, s: State, t: TaskId)
    requires Configured(c) && GatesHeld(c, s) && t in s.tasks && s.tasks[t].phase.Missed?
    ensures GatesHeld(c, Next(c, s, FindGate(t)))
  {
    hide FirstIdle, Idle, Valid, Touch;
    var key := s.tasks[t].req.key;
    var s' := Next(c, s, FindGate(t));
    if key in s.gates.table {
      TouchValid(s.gates, key);
    } else if |s.gates.order| >= c.limits.capacity {
      FirstIdleIsIdle(s.tasks, s.gates, s.gates.order);
      match FirstIdle(s.tasks, s.gates, s.gates.order)
      case None =>
      case Some(idle) =>
        PopValid(s.gates, idle);
        var popped := Pop(s.gates, idle);
        PutValid(popped, key, s.nextGate, c.limits.capacity);
        assert s'.gates.table == popped.table[key := s.nextGate];
        NewGateKeeps(c, s, t, popped, key);
    } else {
      PutValid(s.gates, key, s.nextGate, c.limits.capacity);
      NewGateKeeps(c, s, t, s.gates, key);
    }
  }

  lemma {:induction false} FirstIdleIsIdle(tasks: map<TaskId, Task>, gates: Cache<Key, GateId>, order: seq<Key>)
    ensures var k := FirstIdle(tasks, gates, order);
            k.Some? ==> k.value in gates.table && Idle(tasks, gates.table[k.value])
    ensures var k := FirstIdle(tasks, gates, order);
            k.None? ==> forall i :: 0 <= i < |order| && order[i] in gates.table ==> !Idle(tasks, gates.table[order[i]])
  {
    if order != [] {
      FirstIdleIsIdle(tasks, gates, order[1..]);
    }
  }

  lemma NewGateKeeps(c: Config, s: State, t: TaskId, kept: Cache<Key, GateId>, key: Key)
    requires GatesHeld(c, s) && t in s.tasks && s.tasks[t].req.key == key && key !in s.gates.table
    requires forall k :: k in kept.table ==> k in s.gates.table && kept.table[k] == s.gates.table[k]
    requires forall k :: k in s.gates.table && k !in kept.table ==> Idle(s.tasks, s.gates.table[k])
    requires Valid(Cache(kept.order, kept.table)) && |kept.order| < c.limits.capacity
    requires Valid(Put(kept, key, s.nextGate, c.limits.capacity))
    ensures GatesHeld(c, Goto(s, t, Waiting(s.nextGate)).(
      gates := Put(kept, key, s.nextGate, c.limits.capacity), nextGate := s.nextGate + 1))
  {
    hide Valid;
    var g' := Put(kept, key, s.nextGate, c.limits.capacity);
    assert !Evicts(kept, key, c.limits.capacity);
    assert g'.table == kept.table[key := s.nextGate];
    forall u | u in s.tasks && u != t && GateOf(s.tasks[u].phase).Some?
      ensures s.tasks[u].req.key in g'.table && g'.table[s.tasks[u].req.key] == GateOf(s.tasks[u].phase).value
    {
      assert s.tasks[u].req.key in s.gates.table;
    }
    PutSize(kept, key, s.nextGate, c.limits.capacity);
  }

  lemma PutSize(kept: Cache<Key, GateId>, key: Key, g: GateId, capacity: nat)
    requires |kept.order| < capacity && key !in kept.table
    ensures |Put(kept, key, g, capacity).order| <= capacity
  {
  }

  lemma GatesKept(c: Config, s: State, e: Event)
    requires Configured(c) && GatesHeld(c, s)
    ensures GatesHeld(c, Next(c, s, e))
  {
    if !e.Tick? && !e.Spawn? && e.t in s.tasks {
      if e.FindGate? && s.tasks[e.t].phase.Missed? {
        KeyGateKeeps(c, s, e.t);
      } else {
        Moves(c, s, e);
      }
    }
  }

  lemma MutexKept(c: Config, s: State, e: Event)
    requires Configured(c) && MutexHeld(s)
    ensures MutexHeld(Next(c, s, e))
  {
    hide NextOf;
    if !e.Tick? && !e.Spawn? && e.t in s.tasks {
      Moves(c, s, e);
      var s' := Next(c, s, e);
      var p, p' := s.tasks[e.t].phase, s'.tasks[e.t].phase;
      if Inside(p) && Inside(p') {
        InsideKeepsGate(c, s, e);
      }
      if Inside(p') && !Inside(p) {
        EnterTakesGate(c, s, e);
      }
    }
  }

  lemma InsideKeepsGate(c: Config, s: State, e: Event)
    requires Configured(c) && !e.Tick? && !e.Spawn? && e.t in s.tasks
    requires Inside(s.tasks[e.t].phase) && Inside(Next(c, s, e).tasks[e.t].phase)
    ensures GateOf(Next(c, s, e).tasks[e.t].phase) == GateOf(s.tasks[e.t].phase)
  {
  }

  lemma EnterTakesGate(c: Config, s: State, e: Event)
    requires Configured(c) && !e.Tick? && !e.Spawn? && e.t in s.tasks
    requires !Inside(s.tasks[e.t].phase) && Inside(Next(c, s, e).tasks[e.t].phase)
    ensures GateOf(Next(c, s, e).tasks[e.t].phase) == GateOf(s.tasks[e.t].phase)
  {
  }

  lemma PermittedAfter(tasks: map<TaskId, Task>, t: TaskId, task: Task)
    requires t in tasks
    ensures |Permitted(tasks[t := task])| ==
            |Permitted(tasks)| - (if HasPermit(tasks[t].phase) then 1 else 0) + (if HasPermit(task.phase) then 1 else 0)
  {
    var before, after := Permitted(tasks), Permitted(tasks[t := task]);
    var others := before - {t};
    assert before == if t in before then others + {t} else others;
    assert after == if t in after then others + {t} else others;
  }

  lemma PermitsKept(c: Config, s: State, e: Event)
    requires Configured(c) && PermitsHeld(c, s)
    ensures PermitsHeld(c, Next(c, s, e))
  {
    hide NextOf;
    var s' := Next(c, s, e);
    if e.Tick? || e.Spawn? {
      assert Permitted(s'.tasks) == Permitted(s.tasks);
    } else if e.t in s.tasks {
      Moves(c, s, e);
      hide Next, Permitted;
      PermittedAfter(s.tasks, e.t, s'.tasks[e.t]);
    }
  }

  lemma ConsultKeeps(c: Config, s: State, req: Request)
    ensures var (cache, hit) := Consult(c, s.cache, req, s.now);
            && (forall k :: k in cache.table ==> k in s.cache.table && cache.table[k] == s.cache.table[k])
            && (hit.Some? ==>
                  && req.key in s.cache.table && s.cache.table[req.key] == hit.value && FreshEnough(req, hit.value)
                  && Since(s.now, hit.value.obtained) < Ttl(c, hit.value.answer))
  {
  }

  lemma PutStores(cache: Cache<Key, Cached>, k: Key, v: Cached, capacity: nat)
    ensures forall x :: x in Put(cache, k, v, capacity).table ==>
              (x == k && Put(cache, k, v, capacity).table[x] == v)
                  || (x in cache.table && Put(cache, k, v, capacity).table[x] == cache.table[x])
  {
  }

  /** The cache only gains replies the backend gave, and what was given is remembered. */
  lemma CacheMoves(c: Config, s: State, e: Event)
    requires Configured(c) && !e.Tick? && !e.Spawn? && e.t in s.tasks
    ensures var s' := Next(c, s, e);
            && s.past.replies <= s'.past.replies
            && (forall r :: r in s'.past.replies ==> r in s.past.replies || r.cached.obtained == s.now)
            && forall k :: k in s'.cache.table ==>
                 || (k in s.cache.table && s'.cache.table[k] == s.cache.table[k])
                 || Reply(k, s'.cache.table[k]) in s'.past.replies
  {
    hide KeyGate, Put, Consult;
    ConsultKeeps(c, s, s.tasks[e.t].req);
    if e.BackendReplies? && e.reply.Some? {
      PutStores(s.cache, s.tasks[e.t].req.key, Cached(e.reply.value, s.now), c.limits.capacity);
    }
  }

  /** An answer a task comes to carry is a fresh enough cache hit or a reply just given. */
  lemma CarriedMoves(c: Config, s: State, e: Event)
    requires Configured(c) && !e.Tick? && !e.Spawn? && e.t in s.tasks
    ensures var s', req := Next(c, s, e), s.tasks[e.t].req;
            e.t in s'.tasks &&
            var o := Carried(s'.tasks[e.t].phase);
            && (s'.past.answered == s.past.answered || s'.past.answered == s.past.answered[e.t := s.now])
            && (Carried(s.tasks[e.t].phase).Some? ==> s'.past.answered == s.past.answered)
            && (o.Some? && o != Carried(s.tasks[e.t].phase) ==>
                  && s'.past.answered == s.past.answered[e.t := s.now]
                  && (|| (req.key in s.cache.table && s.cache.table[req.key] == o.value && FreshEnough(req, o.value)
                          && Since(s.now, o.value.obtained) < Ttl(c, o.value.answer))
                      || (Reply(req.key, o.value) in s'.past.replies && o.value.obtained == s.now)))
  {
    hide KeyGate, Put, Consult, FreshEnough, L.Admit, HasPermit, GateOf;
    ConsultKeeps(c, s, s.tasks[e.t].req);
  }

  lemma AuthenticKept(c: Config, s: State, e: Event)
    requires Configured(c) && Authentic(c, s)
    ensures Authentic(c, Next(c, s, e))
  {
    hide NextOf;
    if !e.Tick? && !e.Spawn? && e.t in s.tasks {
      Moves(c, s, e);
      CacheMoves(c, s, e);
      CarriedMoves(c, s, e);
      hide Next, Carried;
    }
  }

  lemma InvKept(c: Config, s: State, e: Event)
    requires Configured(c) && Inv(c, s)
    ensures Inv(c, Next(c, s, e))
  {
    GatesKept(c, s, e);
    MutexKept(c, s, e);
    PermitsKept(c, s, e);
    AuthenticKept(c, s, e);
  }

  lemma {:induction false} InvAlways(c: Config, s: State, events: seq<Event>)
    requires Configured(c) && Inv(c, s)
    ensures Inv(c, Run(c, s, events))
    decreases |events|
  {
    if events != [] {
      InvKept(c, s, events[0]);
      InvAlways(c, Next(c, s, events[0]), events[1..]);
    }
  }

  // ---- admissions and fetches ----

  function CountIn(times: seq<nat>, lo: nat, hi: nat): nat {
    if times == [] then 0 else CountIn(times[..|times| - 1], lo, hi) + if lo <= times[|times| - 1] < hi then 1 else 0
  }

  /** Tasks that spent an admission in `[lo, hi)` and still wait for a permit. */
  function AdmittedIn(tasks: map<TaskId, Task>, lo: nat, hi: nat): set<TaskId> {
    set t | t in tasks && tasks[t].phase.Admitted? && lo <= tasks[t].phase.at < hi
  }

  function Admissions(c: Config, start: nat, calls: seq<L.Call>, lo: nat, hi: nat): nat
    requires Configured(c)
  {
    R.Admitted(calls, L.Verdicts(c.limits, L.Fresh(start), calls), None, lo, hi)
  }

  /** The limiter has seen exactly the recorded calls. */
  ghost predicate LimiterTracks(c: Config, start: nat, s: State)
    requires Configured(c)
  {
    && start <= s.now
    && L.Timely(start, s.past.calls)
    && (forall i :: 0 <= i < |s.past.calls| ==> s.past.calls[i].at <= s.now)
    && s.limiter == L.After(c.limits, L.Fresh(start), s.past.calls)
  }

  /** Each admission has become a fetch, or been given up while waiting, or is still waiting. */
  ghost predicate Accounted(c: Config, start: nat, s: State, lo: nat, hi: nat)
    requires Configured(c)
  {
    CountIn(s.past.fetchedFor, lo, hi) + CountIn(s.past.abandonedFor, lo, hi) + |AdmittedIn(s.tasks, lo, hi)|
    == Admissions(c, start, s.past.calls, lo, hi)
  }

  lemma {:induction false} CountOneMore(times: seq<nat>, at: nat, lo: nat, hi: nat)
    ensures CountIn(times + [at], lo, hi) == CountIn(times, lo, hi) + if lo <= at < hi then 1 else 0
    ensures CountIn(times + [], lo, hi) == CountIn(times, lo, hi)
  {
    assert (times + [at])[..|times|] == times;
    assert times + [] == times;
  }

  /** How one step of one task moves admissions between the three places. */
  lemma AdmissionMoves(c: Config, s: State, e: Event)
    requires Configured(c) && !e.Tick? && !e.Spawn? && e.t in s.tasks
    ensures
      var s', p := Next(c, s, e), s.tasks[e.t].phase;
      var p' := s'.tasks[e.t].phase;
      && (!p.Admitted? ==> s'.past.fetchedFor == s.past.fetchedFor && s'.past.abandonedFor == s.past.abandonedFor + [])
      && (p.Admitted? && p'.Admitted? ==>
            && p' == p && s'.past.fetchedFor == s.past.fetchedFor
            && s'.past.abandonedFor == s.past.abandonedFor + [])
      && (p.Admitted? && !p'.Admitted? ==>
            || (s'.past.fetchedFor == s.past.fetchedFor + [p.at] && s'.past.abandonedFor == s.past.abandonedFor + [])
            || (s'.past.fetchedFor == s.past.fetchedFor && s'.past.abandonedFor == s.past.abandonedFor + [p.at]))
      && (if e.Admit? && p.Rechecked? then
            var (limiter, ok) := L.Admit(c.limits, s.limiter, s.tasks[e.t].req.account, s.now);
            && s'.past.calls == s.past.calls + [L.Call(s.tasks[e.t].req.account, s.now)] && s'.limiter == limiter
            && p'.Admitted? == ok && (ok ==> p'.at == s.now)
          else
            s'.past.calls == s.past.calls && s'.limiter == s.limiter && (p'.Admitted? ==> p.Admitted?))
  {
    hide Consult, KeyGate, Put, L.Admit, Inside, HasPermit, GateOf;
  }

  lemma WaitingAfter(tasks: map<TaskId, Task>, t: TaskId, task: Task, lo: nat, hi: nat)
    requires t in tasks
    ensures |AdmittedIn(tasks[t := task], lo, hi)| ==
            |AdmittedIn(tasks, lo, hi)|
            - (if tasks[t].phase.Admitted? && lo <= tasks[t].phase.at < hi then 1 else 0)
            + (if task.phase.Admitted? && lo <= task.phase.at < hi then 1 else 0)
  {
    var before, after := AdmittedIn(tasks, lo, hi), AdmittedIn(tasks[t := task], lo, hi);
    var others := before - {t};
    assert before == if t in before then others + {t} else others;
    assert after == if t in after then others + {t} else others;
  }

  lemma TracksKept(c: Config, start: nat, s: State, e: Event)
    requires Configured(c) && LimiterTracks(c, start, s)
    ensures LimiterTracks(c, start, Next(c, s, e))
  {
    hide NextOf;
    if !e.Tick? && !e.Spawn? && e.t in s.tasks {
      Moves(c, s, e);
      AdmissionMoves(c, s, e);
      R.OneMoreCall(c.limits, L.Fresh(start), s.past.calls, L.Call(s.tasks[e.t].req.account, s.now), 0, 0);
    }
  }

  lemma AdmissionsStep(c: Config, start: nat, s: State, e: Event, lo: nat, hi: nat)
    requires Configured(c) && LimiterTracks(c, start, s) && !e.Tick? && !e.Spawn? && e.t in s.tasks
    ensures var s', p := Next(c, s, e), s.tasks[e.t].phase;
            && e.t in s'.tasks
            && var p' := s'.tasks[e.t].phase;
               Admissions(c, start, s'.past.calls, lo, hi) ==
               Admissions(c, start, s.past.calls, lo, hi)
               + if !p.Admitted? && p'.Admitted? && lo <= p'.at < hi then 1 else 0
  {
    hide NextOf;
    Moves(c, s, e);
    AdmissionMoves(c, s, e);
    hide Next;
    R.OneMoreCall(c.limits, L.Fresh(start), s.past.calls, L.Call(s.tasks[e.t].req.account, s.now), lo, hi);
  }

  lemma {:induction false} FetchStep(c: Config, s: State, e: Event, lo: nat, hi: nat)
    requires Configured(c) && !e.Tick? && !e.Spawn? && e.t in s.tasks
    ensures var s', p := Next(c, s, e), s.tasks[e.t].phase;
            && e.t in s'.tasks
            && var p' := s'.tasks[e.t].phase;
               && (p.Admitted? && p'.Admitted? ==> p == p')
               && CountIn(s'.past.fetchedFor, lo, hi) + CountIn(s'.past.abandonedFor, lo, hi) ==
                  CountIn(s.past.fetchedFor, lo, hi) + CountIn(s.past.abandonedFor, lo, hi)
                  + if p.Admitted? && !p'.Admitted? && lo <= p.at < hi then 1 else 0
  {
    hide NextOf;
    Moves(c, s, e);
    AdmissionMoves(c, s, e);
    hide Next;
    var at := if s.tasks[e.t].phase.Admitted? then s.tasks[e.t].phase.at else 0;
    CountOneMore(s.past.fetchedFor, at, lo, hi);
    CountOneMore(s.past.abandonedFor, at, lo, hi);
  }

  lemma AccountedKept(c: Config, start: nat, s: State, e: Event, lo: nat, hi: nat)
    requires Configured(c) && LimiterTracks(c, start, s) && Accounted(c, start, s, lo, hi)
    ensures Accounted(c, start, Next(c, s, e), lo, hi)
  {
    hide NextOf, Admissions, CountIn, LimiterTracks;
    var s' := Next(c, s, e);
    if e.Tick? || e.Spawn? {
      assert AdmittedIn(s'.tasks, lo, hi) == AdmittedIn(s.tasks, lo, hi);
    } else if e.t in s.tasks {
      Moves(c, s, e);
      AdmissionsStep(c, start, s, e, lo, hi);
      FetchStep(c, s, e, lo, hi);
      hide Next, AdmittedIn;
      WaitingAfter(s.tasks, e.t, s'.tasks[e.t], lo, hi);
    }
  }

  lemma {:induction false} AccountedAlways(c: Config, start: nat, s: State, events: seq<Event>, lo: nat, hi: nat)
    requires Configured(c) && LimiterTracks(c, start, s) && Accounted(c, start, s, lo, hi)
    ensures LimiterTracks(c, start, Run(c, s, events)) && Accounted(c, start, Run(c, s, events), lo, hi)
    decreases |events|
  {
    if events != [] {
      TracksKept(c, start, s, events[0]);
      AccountedKept(c, start, s, events[0], lo, hi);
      AccountedAlways(c, start, Next(c, s, events[0]), events[1..], lo, hi);
    }
  }

  // ---- what holds in every interleaving ----

  lemma {:induction false} Reachable(c: Config, start: nat, events: seq<Event>)
    requires Configured(c)
    ensures Inv(c, Run(c, Init(c, start), events))
  {
    var s := Init(c, start);
    assert Permitted(s.tasks) == {};
    InvAlways(c, s, events);
  }

  /** Two tasks inside the gates they locked never look up the same key: one fetch per key is in flight at most. */
  lemma {:induction false} SingleFlightPerKey(c: Config, start: nat, events: seq<Event>, t: TaskId, u: TaskId)
    requires Configured(c)
    ensures var s := Run(c, Init(c, start), events);
            t in s.tasks && u in s.tasks && t != u && Inside(s.tasks[t].phase) && Inside(s.tasks[u].phase) ==>
              s.tasks[t].req.key != s.tasks[u].req.key
  {
    Reachable(c, start, events);
  }

  /** A gate that any task owns stays in the bounded table, under that task's key. */
  lemma {:induction false} OwnedGateStays(c: Config, start: nat, events: seq<Event>, t: TaskId)
    requires Configured(c)
    ensures var s := Run(c, Init(c, start), events);
            && |s.gates.order| <= c.limits.capacity
            && (t in s.tasks && GateOf(s.tasks[t].phase).Some? ==>
                  Peek(s.gates, s.tasks[t].req.key) == GateOf(s.tasks[t].phase))
  {
    Reachable(c, start, events);
  }

  /**
   A lookup is turned away for want of a gate exactly when its key has none and every gate
   of a full table is owned.
   */
  lemma GateRefusalMeansAllOwned(c: Config, s: State, t: TaskId)
    requires Configured(c) && GatesHeld(c, s) && t in s.tasks && s.tasks[t].phase.Missed?
    ensures Next(c, s, FindGate(t)).tasks[t].phase == Done(Err(GateCapacity)) <==>
              && s.tasks[t].req.key !in s.gates.table
              && |s.gates.order| == c.limits.capacity
              && forall k :: k in s.gates.table ==> !Idle(s.tasks, s.gates.table[k])
  {
    FirstIdleIsIdle(s.tasks, s.gates, s.gates.order);
    assert forall k :: k in s.gates.table ==> k in s.gates.order;
  }

  function InFlight(tasks: map<TaskId, Task>): set<TaskId> {
    set t | t in tasks && tasks[t].phase.Fetching?
  }

  /** Fetches in flight never exceed the semaphore. */
  lemma {:induction false} FetchesWithinPermits(c: Config, start: nat, events: seq<Event>)
    requires Configured(c)
    ensures |InFlight(Run(c, Init(c, start), events).tasks)| <= c.concurrency
  {
    Reachable(c, start, events);
    var s := Run(c, Init(c, start), events);
    CardinalityMono(InFlight(s.tasks), Permitted(s.tasks));
  }

  /**
   Every fetch spent exactly one admission. So the fetches admitted over any span one
   window long are at most two global budgets, whatever the interleaving.
   */
  lemma {:induction false} FetchesAreAdmitted(c: Config, start: nat, events: seq<Event>, lo: nat, hi: nat)
    requires Configured(c)
    ensures var s := Run(c, Init(c, start), events);
            CountIn(s.past.fetchedFor, lo, hi) + CountIn(s.past.abandonedFor, lo, hi) + |AdmittedIn(s.tasks, lo, hi)|
            == Admissions(c, start, s.past.calls, lo, hi)
    ensures hi == lo + c.limits.window ==>
              CountIn(Run(c, Init(c, start), events).past.fetchedFor, lo, hi) <= 2 * c.limits.globalLimit
  {
    var s := Init(c, start);
    assert AdmittedIn(s.tasks, lo, hi) == {};
    AccountedAlways(c, start, s, events, lo, hi);
    if hi == lo + c.limits.window {
      R.RateBound(c.limits, start, Run(c, s, events).past.calls, 0, lo);
    }
  }

  /**
   A finished lookup hands out a reply the backend gave for its own key, which was new or
   within its time to live when the task got it; and a negative one is no older than the
   caller asked for, so a caller that passes the present moment never gets a refusal from
   before it asked.
   */
  lemma {:induction false} AnswersAreAuthenticAndFresh(c: Config, start: nat, events: seq<Event>, t: TaskId)
    requires Configured(c)
    ensures var s := Run(c, Init(c, start), events);
            t in s.tasks && s.tasks[t].phase.Done? && s.tasks[t].phase.result.Ok? ==>
              var e := s.tasks[t].phase.result.value;
              && Reply(s.tasks[t].req.key, e) in s.past.replies
              && t in s.past.answered && e.obtained <= s.past.answered[t]
              && (s.past.answered[t] == e.obtained
                  || s.past.answered[t] - e.obtained < if e.answer.Positive? then c.positiveTtl else c.negativeTtl)
              && (e.answer.Negative? && s.tasks[t].req.negativeNotBefore.Some? ==>
                    e.obtained >= s.tasks[t].req.negativeNotBefore.value)
  {
    Reachable(c, start, events);
    var s := Run(c, Init(c, start), events);
    if t in s.tasks && s.tasks[t].phase.Done? && s.tasks[t].phase.result.Ok? {
      assert Carried(s.tasks[t].phase).Some?;
    }
  }
}
