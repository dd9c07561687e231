/**
 Which lookups are answered from the cache: a reply that is live, and whose key is among
 those used last, is handed out without an admission, and no key is fetched again before.
 What the backend replied and which keys were used is told from the events of a run.
 */
module SingleFlightHits {
  import opened Common
  import opened Lru
  import opened SingleFlight
  import L = AdmissionLimiter

  /** Less than the time to live of its kind has passed. */
  predicate Live(c: Config, e: Cached, now: nat) {
    match e.answer
    case Positive(_) => now < e.obtained + c.positiveTtl
    case Negative => now < e.obtained + c.negativeTtl
  }

  /** A refusal from before the caller asked for. */
  predicate TooOld(req: Request, e: Cached) {
    e.answer.Negative? && req.negativeNotBefore.Some? && e.obtained < req.negativeNotBefore.value
  }

  // ---- what happened to a key ----

  /** The event is a reply that the backend gives to a fetch. */
  predicate Replies(s: State, e: Event) {
    e.BackendReplies? && e.reply.Some? && e.t in s.tasks && s.tasks[e.t].phase.Fetching?
  }

  /** The event looks its key up in the cache. */
  predicate Consults(s: State, e: Event) {
    (e.FirstCheck? && e.t in s.tasks && s.tasks[e.t].phase.Start?)
    || (e.Recheck? && e.t in s.tasks && s.tasks[e.t].phase.Entered?)
  }

  /** The key an event uses: it stores an entry, or finds one and leaves it there. */
  function Used(c: Config, s: State, e: Event): Option<Key>
    requires Configured(c)
  {
    if Replies(s, e) then Some(s.tasks[e.t].req.key)
    else if Consults(s, e) && s.tasks[e.t].req.key in s.cache.table && s.tasks[e.t].req.key in Next(c, s, e).cache.table
    then Some(s.tasks[e.t].req.key)
    else None
  }

  /** The latest reply for a key, and the other keys used since its own last use. */
  datatype Memory = Memory(reply: Option<Cached>, others: set<Key>)

  function Recalls(c: Config, s: State, e: Event, key: Key, mem: Memory): Memory
    requires Configured(c)
  {
    Memory(
      if Replies(s, e) && s.tasks[e.t].req.key == key then Some(Cached(e.reply.value, s.now)) else mem.reply,
      match Used(c, s, e)
      case None => mem.others
      case Some(k) => if k == key then {} else mem.others + {k})
  }

  function Memories(c: Config, s: State, events: seq<Event>, key: Key, mem: Memory): Memory
    requires Configured(c)
    decreases |events|
  {
    if events == [] then mem
    else Memories(c, Next(c, s, events[0]), events[1..], key, Recalls(c, s, events[0], key, mem))
  }

  /** Of the run from the beginning. */
  function MemoryOf(c: Config, start: nat, events: seq<Event>, key: Key): Memory
    requires Configured(c)
  {
    Memories(c, Init(c, start), events, key, Memory(None, {}))
  }

  // ---- the bounded table ----

  /** Only these keys have been used since this one. */
  ghost predicate Ahead(order: seq<Key>, key: Key, others: set<Key>) {
    forall i, j :: 0 <= i < j < |order| && order[j] == key ==> order[i] in others
  }

  lemma PutAhead(cache: Cache<Key, Cached>, x: Key, v: Cached, capacity: nat, key: Key, others: set<Key>)
    requires Valid(cache) && Ahead(cache.order, key, others) && x != key
    ensures Ahead(Put(cache, x, v, capacity).order, key, others + {x})
  {
    var o := Put(cache, x, v, capacity).order;
    forall i, j | 0 <= i < j < |o| && o[j] == key ensures o[i] in others + {x} {
      if i > 0 {
        var i', j' := PutOrder(cache, x, v, capacity, i, j);
      }
    }
  }

  lemma PutFront(cache: Cache<Key, Cached>, key: Key, v: Cached, capacity: nat)
    requires Valid(cache) && 0 < capacity
    ensures Ahead(Put(cache, key, v, capacity).order, key, {})
  {
    PutValid(cache, key, v, capacity);
    var o := Put(cache, key, v, capacity).order;
    assert o[0] == key;
    hide Put;
  }

  /** A key is pushed out only when so many others have been used since. */
  lemma PushedOut(cache: Cache<Key, Cached>, x: Key, v: Cached, capacity: nat, key: Key, others: set<Key>)
    requires Valid(cache) && Ahead(cache.order, key, others) && key in cache.table
    requires key !in Put(cache, x, v, capacity).table
    ensures |others + {x}| >= capacity
  {
    var n := |cache.order| - 1;
    var front := cache.order[..n];
    assert Last(cache) == key && x !in cache.table;
    Elements(front);
    var before := set k | k in front;
    assert forall k :: k in before ==> k in others && k in cache.table;
    CardinalityMono(before + {x}, others + {x});
  }

  lemma PopAhead(cache: Cache<Key, Cached>, x: Key, key: Key, others: set<Key>)
    requires Ahead(cache.order, key, others)
    ensures Ahead(Pop(cache, x).order, key, others)
  {
    DropAt(cache.order, x);
    var o := Pop(cache, x).order;
    forall i, j | 0 <= i < j < |o| && o[j] == key ensures o[i] in others {
      assert o[i] == cache.order[Skip(cache.order, x, i)] && o[j] == cache.order[Skip(cache.order, x, j)];
    }
  }

  lemma TouchIsPut(cache: Cache<Key, Cached>, x: Key, capacity: nat)
    requires x in cache.table
    ensures Touch(cache, x) == Put(cache, x, cache.table[x], capacity)
  {
    assert cache.table[x := cache.table[x]] == cache.table;
  }

  // ---- the invariant ----

  ghost predicate CacheBounded(c: Config, s: State) {
    Valid(s.cache) && |s.cache.order| <= c.limits.capacity
  }

  /** The latest reply is in the table, or expired, or pushed out by that many other keys. */
  ghost predicate Remembers(c: Config, s: State, key: Key, mem: Memory) {
    match mem.reply
    case None => key !in s.cache.table
    case Some(e) =>
      && e.obtained <= s.now
      && if key in s.cache.table then s.cache.table[key] == e && Ahead(s.cache.order, key, mem.others)
         else !Live(c, e, s.now) || |mem.others| >= c.limits.capacity
  }

  /** What an event does to the cache. */
  lemma CacheEffect(c: Config, s: State, e: Event)
    requires Configured(c) && Authentic(c, s)
    ensures var s' := Next(c, s, e);
            if Replies(s, e) then
              && s'.cache == Put(s.cache, s.tasks[e.t].req.key, Cached(e.reply.value, s.now), c.limits.capacity)
              && s'.now == s.now
            else if Consults(s, e) then
              var key := s.tasks[e.t].req.key;
              && s'.now == s.now
              && (key !in s.cache.table ==> s'.cache == s.cache)
              && (key in s.cache.table ==>
                    s'.cache == if Live(c, s.cache.table[key], s.now) then Touch(s.cache, key) else Pop(s.cache, key))
            else s'.cache == s.cache && s'.now >= s.now
  {
    assert forall k :: k in s.cache.table ==> Reply(k, s.cache.table[k]) in s.past.replies;
    assert forall k :: k in s.cache.table ==> s.cache.table[k].obtained <= s.now;
    hide KeyGate, Put, Touch, Pop, HasPermit, Inside, GateOf, Authentic;
  }

  lemma BoundedKept(c: Config, s: State, e: Event)
    requires Configured(c) && Authentic(c, s) && CacheBounded(c, s)
    ensures CacheBounded(c, Next(c, s, e))
  {
    CacheEffect(c, s, e);
    hide Next, Valid, Put, Pop, Touch, Authentic, Live;
    if Replies(s, e) {
      PutValid(s.cache, s.tasks[e.t].req.key, Cached(e.reply.value, s.now), c.limits.capacity);
    } else if Consults(s, e) {
      TouchValid(s.cache, s.tasks[e.t].req.key);
      PopValid(s.cache, s.tasks[e.t].req.key);
    }
  }

  lemma StoreRemembers(c: Config, s: State, e: Event, key: Key, mem: Memory)
    requires Configured(c) && Authentic(c, s) && CacheBounded(c, s) && Remembers(c, s, key, mem) && Replies(s, e)
    ensures Remembers(c, Next(c, s, e), key, Recalls(c, s, e, key, mem))
  {
    CacheEffect(c, s, e);
    var x, v, cap := s.tasks[e.t].req.key, Cached(e.reply.value, s.now), c.limits.capacity;
    PutStores(s.cache, x, v, cap);
    hide Next, Authentic, Valid, Ahead, Consults;
    if x == key {
      PutFront(s.cache, key, v, cap);
      assert key in Put(s.cache, key, v, cap).table;
    } else if mem.reply.Some? && key in s.cache.table {
      PutAhead(s.cache, x, v, cap, key, mem.others);
      hide Put;
      if key !in Put(s.cache, x, v, cap).table {
        PushedOut(s.cache, x, v, cap, key, mem.others);
      }
    } else {
      hide Put;
      CardinalityMono(mem.others, mem.others + {x});
    }
  }

  lemma ConsultRemembers(c: Config, s: State, e: Event, key: Key, mem: Memory)
    requires Configured(c) && Authentic(c, s) && CacheBounded(c, s) && Remembers(c, s, key, mem) && Consults(s, e)
    ensures Remembers(c, Next(c, s, e), key, Recalls(c, s, e, key, mem))
  {
    CacheEffect(c, s, e);
    var x, cap := s.tasks[e.t].req.key, c.limits.capacity;
    hide Next, Authentic, Valid, Ahead, Live;
    CardinalityMono(mem.others, mem.others + {x});
    if x in s.cache.table {
      if Live(c, s.cache.table[x], s.now) {
        TouchIsPut(s.cache, x, cap);
        if x == key {
          PutFront(s.cache, key, s.cache.table[x], cap);
        } else if mem.reply.Some? && key in s.cache.table {
          PutAhead(s.cache, x, s.cache.table[x], cap, key, mem.others);
        }
        hide Put;
      } else {
        PopAhead(s.cache, x, key, mem.others);
        hide Lru.Drop;
      }
    }
  }

  lemma RemembersKept(c: Config, s: State, e: Event, key: Key, mem: Memory)
    requires Configured(c) && Authentic(c, s) && CacheBounded(c, s) && Remembers(c, s, key, mem)
    ensures Remembers(c, Next(c, s, e), key, Recalls(c, s, e, key, mem))
  {
    if Replies(s, e) {
      StoreRemembers(c, s, e, key, mem);
    } else if Consults(s, e) {
      ConsultRemembers(c, s, e, key, mem);
    } else {
      CacheEffect(c, s, e);
      hide Next, Authentic, Valid, Ahead, CacheBounded;
    }
  }

  // ---- tasks that have missed ----

  /** Behind the second check: on the way to a fetch, or fetching. */
  predicate Missing(p: Phase) {
    p.Rechecked? || p.Admitted? || p.Fetching?
  }

  /** Why such a task was not answered: nothing to answer with, or nothing it may be given. */
  ghost predicate MissedFor(c: Config, s: State, u: TaskId, mem: Memory)
    requires u in s.tasks
  {
    Missing(s.tasks[u].phase) ==>
      match mem.reply
      case None => true
      case Some(e) =>
        !Live(c, e, s.now) || s.tasks[u].req.key !in s.cache.table || TooOld(s.tasks[u].req, e)
  }

  /** How a task comes to be missing: by a second check that finds nothing it may be given. */
  lemma MissingMoves(c: Config, s: State, e: Event, u: TaskId)
    requires Configured(c) && u in s.tasks
    ensures var s' := Next(c, s, e);
            && u in s'.tasks && s'.tasks[u].req == s.tasks[u].req
            && (Missing(s'.tasks[u].phase) && !Missing(s.tasks[u].phase) ==>
                  e == Recheck(u) && s.tasks[u].phase.Entered?
                  && (Consult(c, s.cache, s.tasks[u].req, s.now).1.None?))
            && (Replies(s, e) && e.t == u ==> !Missing(s'.tasks[u].phase))
  {
    hide Consult, KeyGate, Put, L.Admit, Inside, HasPermit, GateOf;
  }

  lemma MissMeans(c: Config, s: State, req: Request)
    requires Authentic(c, s) && Consult(c, s.cache, req, s.now).1.None?
    ensures var cache := Consult(c, s.cache, req, s.now).0;
            req.key in s.cache.table ==>
              !Live(c, s.cache.table[req.key], s.now) || TooOld(req, s.cache.table[req.key])
  {
    assert req.key in s.cache.table ==> Reply(req.key, s.cache.table[req.key]) in s.past.replies;
    hide Pop, Touch;
  }

  /** While a task is missing, nobody else is replied to for its key: the gate is one per key. */
  lemma NobodyElseReplies(c: Config, s: State, e: Event, u: TaskId)
    requires GatesHeld(c, s) && MutexHeld(s)
    requires u in s.tasks && Missing(s.tasks[u].phase) && Replies(s, e) && e.t != u
    ensures s.tasks[e.t].req.key != s.tasks[u].req.key
  {
  }

  /** No event but a reply brings a key into the table. */
  lemma OnlyRepliesInsert(c: Config, s: State, e: Event, key: Key)
    requires Configured(c) && Authentic(c, s) && key !in s.cache.table
    requires Replies(s, e) ==> s.tasks[e.t].req.key != key
    ensures key !in Next(c, s, e).cache.table
  {
    CacheEffect(c, s, e);
    hide Next, Authentic;
  }

  lemma MissedKept(c: Config, s: State, e: Event, u: TaskId, mem: Memory)
    requires Configured(c) && Inv(c, s) && u in s.tasks
    requires MissedFor(c, s, u, mem) && Remembers(c, s, s.tasks[u].req.key, mem)
    ensures u in Next(c, s, e).tasks && MissedFor(c, Next(c, s, e), u, Recalls(c, s, e, s.tasks[u].req.key, mem))
  {
    var s' := Next(c, s, e);
    MissingMoves(c, s, e, u);
    CacheEffect(c, s, e);
    hide Next, GatesHeld, MutexHeld, PermitsHeld, Authentic, Consult, Used, Live, TooOld, Put, Touch, Pop, Ahead;
    if Missing(s'.tasks[u].phase) {
      if !Missing(s.tasks[u].phase) {
        MissMeans(c, s, s.tasks[u].req);
      } else if Replies(s, e) {
        NobodyElseReplies(c, s, e, u);
      }
      StaysExpired(c, mem, s.now, s'.now);
      if s.tasks[u].req.key !in s.cache.table {
        OnlyRepliesInsert(c, s, e, s.tasks[u].req.key);
      }
    }
  }

  lemma StaysExpired(c: Config, mem: Memory, now: nat, later: nat)
    requires now <= later
    ensures mem.reply.Some? && !Live(c, mem.reply.value, now) ==> !Live(c, mem.reply.value, later)
  {
  }

  // ---- whole runs ----

  ghost predicate Good(c: Config, s: State, key: Key, mem: Memory) {
    && Inv(c, s) && CacheBounded(c, s) && Remembers(c, s, key, mem)
    && forall u :: u in s.tasks && s.tasks[u].req.key == key ==> MissedFor(c, s, u, mem)
  }

  /** A task is as it was, or new. */
  lemma TasksStay(c: Config, s: State, e: Event, u: TaskId)
    requires Configured(c) && u in Next(c, s, e).tasks
    ensures u in s.tasks ==> Next(c, s, e).tasks[u].req == s.tasks[u].req
    ensures u !in s.tasks ==> Next(c, s, e).tasks[u].phase == Start
  {
    hide Consult, KeyGate, Put, L.Admit, Inside, HasPermit, GateOf;
  }

  lemma GoodKept(c: Config, s: State, e: Event, key: Key, mem: Memory)
    requires Configured(c) && Good(c, s, key, mem)
    ensures Good(c, Next(c, s, e), key, Recalls(c, s, e, key, mem))
  {
    InvKept(c, s, e);
    BoundedKept(c, s, e);
    RemembersKept(c, s, e, key, mem);
    var s', mem' := Next(c, s, e), Recalls(c, s, e, key, mem);
    hide Next, Inv, CacheBounded, Remembers, Recalls, MissedFor;
    forall u | u in s'.tasks && s'.tasks[u].req.key == key ensures MissedFor(c, s', u, mem') {
      TasksStay(c, s, e, u);
      if u in s.tasks {
        MissedKept(c, s, e, u, mem);
      } else {
        NotYetMissing(c, s', u, mem');
      }
    }
  }

  lemma NotYetMissing(c: Config, s: State, u: TaskId, mem: Memory)
    requires u in s.tasks && s.tasks[u].phase == Start
    ensures MissedFor(c, s, u, mem)
  {
  }

  lemma {:induction false} GoodAlways(c: Config, s: State, events: seq<Event>, key: Key, mem: Memory)
    requires Configured(c) && Good(c, s, key, mem)
    ensures Good(c, Run(c, s, events), key, Memories(c, s, events, key, mem))
    decreases |events|
  {
    hide Next, Good, Recalls;
    if events != [] {
      GoodKept(c, s, events[0], key, mem);
      GoodAlways(c, Next(c, s, events[0]), events[1..], key, Recalls(c, s, events[0], key, mem));
    }
  }

  lemma {:induction false} GoodFromStart(c: Config, start: nat, events: seq<Event>, key: Key)
    requires Configured(c)
    ensures Good(c, Run(c, Init(c, start), events), key, MemoryOf(c, start, events, key))
  {
    Reachable(c, start, []);
    assert Run(c, Init(c, start), []) == Init(c, start);
    hide Run, Inv, Memories;
    GoodAlways(c, Init(c, start), events, key, Memory(None, {}));
  }

  /** The reply a lookup may be given at this moment, if its key is among those used last. */
  ghost predicate Answerable(c: Config, s: State, req: Request, mem: Memory) {
    && mem.reply.Some? && Live(c, mem.reply.value, s.now) && !TooOld(req, mem.reply.value)
    && |mem.others| < c.limits.capacity
  }

  lemma ConsultFinds(c: Config, s: State, req: Request)
    requires Authentic(c, s) && req.key in s.cache.table
    requires Live(c, s.cache.table[req.key], s.now) && !TooOld(req, s.cache.table[req.key])
    ensures Consult(c, s.cache, req, s.now).1 == Some(s.cache.table[req.key])
  {
    assert Reply(req.key, s.cache.table[req.key]) in s.past.replies;
    hide Pop, Touch;
  }

  /** What the two checks make of what they find. */
  lemma CheckEnds(c: Config, s: State, t: TaskId)
    requires Configured(c) && t in s.tasks && Consult(c, s.cache, s.tasks[t].req, s.now).1.Some?
    ensures var e := Consult(c, s.cache, s.tasks[t].req, s.now).1.value;
            && (s.tasks[t].phase.Start? ==>
                  && Next(c, s, FirstCheck(t)).tasks[t].phase == Done(Ok(e))
                  && Next(c, s, FirstCheck(t)).limiter == s.limiter)
            && (s.tasks[t].phase.Entered? ==>
                  && Next(c, s, Recheck(t)).tasks[t].phase == Leaving(s.tasks[t].phase.gate, Ok(e))
                  && Next(c, s, Recheck(t)).limiter == s.limiter)
  {
    hide Consult, HasPermit;
  }

  /**
   A lookup whose key the backend has replied for, with the reply live, a refusal not
   older than asked for, and fewer than the capacity of other keys used since the key's
   own last use, ends with that reply at its next check, without an admission.
   */
  lemma {:induction false} LiveReplyIsHandedOut(c: Config, start: nat, events: seq<Event>, t: TaskId)
    requires Configured(c) && t in Run(c, Init(c, start), events).tasks
    requires var s := Run(c, Init(c, start), events);
             Answerable(c, s, s.tasks[t].req, MemoryOf(c, start, events, s.tasks[t].req.key))
    ensures var s := Run(c, Init(c, start), events);
            var e := MemoryOf(c, start, events, s.tasks[t].req.key).reply.value;
            && (s.tasks[t].phase.Start? ==>
                  && Next(c, s, FirstCheck(t)).tasks[t].phase == Done(Ok(e))
                  && Next(c, s, FirstCheck(t)).limiter == s.limiter)
            && (s.tasks[t].phase.Entered? ==>
                  && Next(c, s, Recheck(t)).tasks[t].phase == Leaving(s.tasks[t].phase.gate, Ok(e))
                  && Next(c, s, Recheck(t)).limiter == s.limiter)
  {
    var s := Run(c, Init(c, start), events);
    GoodFromStart(c, start, events, s.tasks[t].req.key);
    hide Next, Run, MemoryOf, Valid, Ahead, Live, TooOld, GatesHeld, MutexHeld, PermitsHeld, Authentic, Consult;
    ConsultFinds(c, s, s.tasks[t].req);
    CheckEnds(c, s, t);
  }

  /** Conversely a check only ever ends with the latest reply, live and not older than asked for. */
  lemma {:induction false} HitsAreTheLatestReply(c: Config, start: nat, events: seq<Event>, t: TaskId)
    requires Configured(c) && t in Run(c, Init(c, start), events).tasks
    ensures var s := Run(c, Init(c, start), events);
            var mem, req := MemoryOf(c, start, events, s.tasks[t].req.key), s.tasks[t].req;
            s.tasks[t].phase.Start? && Next(c, s, FirstCheck(t)).tasks[t].phase.Done? ==>
              && mem.reply.Some? && Next(c, s, FirstCheck(t)).tasks[t].phase == Done(Ok(mem.reply.value))
              && Live(c, mem.reply.value, s.now) && !TooOld(req, mem.reply.value)
    ensures var s := Run(c, Init(c, start), events);
            var mem, req := MemoryOf(c, start, events, s.tasks[t].req.key), s.tasks[t].req;
            s.tasks[t].phase.Entered? && Next(c, s, Recheck(t)).tasks[t].phase.Leaving? ==>
              && mem.reply.Some?
              && Next(c, s, Recheck(t)).tasks[t].phase == Leaving(s.tasks[t].phase.gate, Ok(mem.reply.value))
              && Live(c, mem.reply.value, s.now) && !TooOld(req, mem.reply.value)
  {
    var s := Run(c, Init(c, start), events);
    GoodFromStart(c, start, events, s.tasks[t].req.key);
    HitMeans(c, s, t);
    hide Next, Run, MemoryOf, Valid, Ahead, Live, TooOld, GatesHeld, MutexHeld, PermitsHeld, Authentic, Consult;
  }

  lemma HitMeans(c: Config, s: State, t: TaskId)
    requires Configured(c) && Inv(c, s) && t in s.tasks
    ensures var hit := Consult(c, s.cache, s.tasks[t].req, s.now).1;
            && (hit.Some? ==> && s.tasks[t].req.key in s.cache.table && hit.value == s.cache.table[s.tasks[t].req.key]
                              && Live(c, hit.value, s.now) && !TooOld(s.tasks[t].req, hit.value))
            && (s.tasks[t].phase.Start? && Next(c, s, FirstCheck(t)).tasks[t].phase.Done? ==>
                  hit.Some? && Next(c, s, FirstCheck(t)).tasks[t].phase == Done(Ok(hit.value)))
            && (s.tasks[t].phase.Entered? && Next(c, s, Recheck(t)).tasks[t].phase.Leaving? ==>
                  hit.Some? && Next(c, s, Recheck(t)).tasks[t].phase == Leaving(s.tasks[t].phase.gate, Ok(hit.value)))
  {
    ConsultKeeps(c, s, s.tasks[t].req);
    assert forall k :: k in s.cache.table ==> Reply(k, s.cache.table[k]) in s.past.replies;
    hide Consult, HasPermit, GatesHeld, MutexHeld, PermitsHeld, Authentic;
  }

  /**
   Nobody is on the way to fetch a key while its latest reply could still be handed out:
   that reply has expired, or been pushed out by other keys, or is a refusal from before
   the caller asked for.
   */
  lemma {:induction false} NoFetchWhileLive(c: Config, start: nat, events: seq<Event>, t: TaskId)
    requires Configured(c) && t in Run(c, Init(c, start), events).tasks
    requires Missing(Run(c, Init(c, start), events).tasks[t].phase)
    ensures var s := Run(c, Init(c, start), events);
            var mem := MemoryOf(c, start, events, s.tasks[t].req.key);
            mem.reply.Some? ==>
              || !Live(c, mem.reply.value, s.now) || |mem.others| >= c.limits.capacity
              || TooOld(s.tasks[t].req, mem.reply.value)
  {
    var s := Run(c, Init(c, start), events);
    GoodFromStart(c, start, events, s.tasks[t].req.key);
    hide Run, MemoryOf, Inv, CacheBounded, Ahead, Live, TooOld;
  }

  /**
   So two fetches of a key in a row, the first of which found a record, are the positive
   time to live apart, unless the record was pushed out in between.
   */
  lemma {:induction false} FetchesOfRecordsAreSpaced(c: Config, start: nat, events: seq<Event>, t: TaskId)
    requires Configured(c) && t in Run(c, Init(c, start), events).tasks
    requires Run(c, Init(c, start), events).tasks[t].phase.Fetching?
    ensures var s := Run(c, Init(c, start), events);
            var mem := MemoryOf(c, start, events, s.tasks[t].req.key);
            mem.reply.Some? && mem.reply.value.answer.Positive? && |mem.others| < c.limits.capacity ==>
              s.now >= mem.reply.value.obtained + c.positiveTtl
  {
    NoFetchWhileLive(c, start, events, t);
    hide Run, MemoryOf;
  }
}
