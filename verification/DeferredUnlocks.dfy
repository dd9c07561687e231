/**
 Deferred hat unlocks of one connection (`src/server2.rs`): the owed set, the 213
 requests withheld while an unlock is being validated, and the push that answers them.
 */
module DeferredUnlocks {
  import opened Common

  type MapUid = nat
  type Slug = string
  type TaskId = nat

  datatype Owed = Owed(m: MapUid, slug: Slug)

  const MAX_PENDING: nat := 16

  predicate AnyFor(owed: set<Owed>, m: MapUid) {
    exists k :: k in owed && k.m == m
  }

  /** The answers owed to one connection. */
  class PendingHatUnlocks {
    var owed: set<Owed>

    constructor ()
      ensures owed == {}
    {
      owed := {};
    }

    /** Refused when the answer is owed already, or sixteen others are. */
    method Begin(m: MapUid, slug: Slug) returns (accepted: bool)
      modifies this
      ensures accepted <==> Owed(m, slug) !in old(owed) && |old(owed)| < MAX_PENDING
      ensures owed == if accepted then old(owed) + {Owed(m, slug)} else old(owed)
    {
      if |owed| >= MAX_PENDING || Owed(m, slug) in owed {
        return false;
      }
      owed := owed + {Owed(m, slug)};
      return true;
    }

    /** Releases an entry; true when that leaves nothing owed for its map. */
    method Remove(key: Owed) returns (drained: bool)
      modifies this
      ensures owed == old(owed) - {key}
      ensures drained <==> !AnyFor(owed, key.m)
    {
      owed := owed - {key};
      drained := !AnyFor(owed, key.m);
    }
  }

  // ---- the machine ----

  /** A spawned unlock task: its validation may end well, badly or in a panic; all three release. */
  datatype Phase = Validating | Ended(panicked: bool) | Draining | Finished

  datatype Task = Task(key: Owed, phase: Phase)

  /** What happened on the connection, in order. */
  datatype Entry =
    | Accepted(t: TaskId, m: MapUid)
    | Refused(m: MapUid)
    | Withheld(m: MapUid)
    | Inline(m: MapUid)
    | Released(t: TaskId, m: MapUid, drained: bool)
    | Pushed(t: TaskId, m: MapUid)

  datatype World = World(owed: set<Owed>, tasks: map<TaskId, Task>, log: seq<Entry>)

  datatype Step =
    | Unlock84(t: TaskId, m: MapUid, slug: Slug)
    | Mine213(m: MapUid)
    | ValidationEnds(t: TaskId, panicked: bool)
    | Release(t: TaskId)
    | Push(t: TaskId)

  predicate Active(p: Phase) {
    p.Validating? || p.Ended?
  }

  function Goto(w: World, t: TaskId, p: Phase): World
    requires t in w.tasks
  {
    w.(tasks := w.tasks[t := w.tasks[t].(phase := p)])
  }

  function Advance(w: World, s: Step): World {
    match s
    case Unlock84(t, m, slug) =>
      if t in w.tasks then w
      else if |w.owed| >= MAX_PENDING || Owed(m, slug) in w.owed then w.(log := w.log + [Refused(m)])
      else World(w.owed + {Owed(m, slug)}, w.tasks[t := Task(Owed(m, slug), Validating)], w.log + [Accepted(t, m)])
    case Mine213(m) => w.(log := w.log + [if AnyFor(w.owed, m) then Withheld(m) else Inline(m)])
    case ValidationEnds(t, panicked) =>
      if t in w.tasks && w.tasks[t].phase.Validating? then Goto(w, t, Ended(panicked)) else w
    case Release(t) =>
      if t in w.tasks && w.tasks[t].phase.Ended? then
        var key := w.tasks[t].key;
        var owed := w.owed - {key};
        var drained := !AnyFor(owed, key.m);
        Goto(w, t, if drained then Draining else Finished).(owed := owed, log := w.log + [Released(t, key.m, drained)])
      else w
    case Push(t) =>
      if t in w.tasks && w.tasks[t].phase.Draining? then
        Goto(w, t, Finished).(log := w.log + [Pushed(t, w.tasks[t].key.m)])
      else w
  }

  function Fresh(): World {
    World({}, map[], [])
  }

  function History(w: World, steps: seq<Step>): World
    decreases |steps|
  {
    if steps == [] then w else History(Advance(w, steps[0]), steps[1..])
  }

  // ---- the invariant ----

  ghost predicate ActiveOwed(owed: set<Owed>, tasks: map<TaskId, Task>) {
    forall t :: t in tasks && Active(tasks[t].phase) ==> tasks[t].key in owed
  }

  ghost predicate KeysDiffer(tasks: map<TaskId, Task>) {
    forall t, u :: t in tasks && u in tasks && t != u && Active(tasks[t].phase) && Active(tasks[u].phase) ==>
        tasks[t].key != tasks[u].key
  }

  ghost predicate ActiveOn(tasks: map<TaskId, Task>, k: Owed) {
    exists t :: t in tasks && Active(tasks[t].phase) && tasks[t].key == k
  }

  /** One active task per owed answer, and at most sixteen. */
  ghost predicate OwedByTasks(w: World) {
    && |w.owed| <= MAX_PENDING
    && ActiveOwed(w.owed, w.tasks)
    && KeysDiffer(w.tasks)
    && (forall k :: k in w.owed ==> ActiveOn(w.tasks, k))
  }

  ghost predicate ReleasedIn(log: seq<Entry>, t: TaskId, lo: nat, hi: nat) {
    exists i :: lo <= i < hi && i < |log| && log[i].Released? && log[i].t == t
  }

  ghost predicate DrainedIn(log: seq<Entry>, m: MapUid, lo: nat) {
    exists i :: lo <= i < |log| && log[i].Released? && log[i].m == m && log[i].drained
  }

  ghost predicate PushedIn(log: seq<Entry>, t: TaskId, m: MapUid, lo: nat) {
    exists i :: lo <= i < |log| && log[i] == Pushed(t, m)
  }

  ghost predicate ActiveFor(w: World, m: MapUid) {
    exists t :: t in w.tasks && Active(w.tasks[t].phase) && w.tasks[t].key.m == m
  }

  /** Every accepted unlock is a task of that map, active until it is released. */
  ghost predicate AcceptedAreTasks(w: World) {
    forall i :: 0 <= i < |w.log| && w.log[i].Accepted? ==>
      var t := w.log[i].t;
      t in w.tasks && w.tasks[t].key.m == w.log[i].m && (Active(w.tasks[t].phase)
          || ReleasedIn(w.log, t, i + 1, |w.log|))
  }

  /** A released task was accepted before, and is active no more; a drained one pushes or has pushed. */
  ghost predicate ReleasedAreDone(w: World) {
    forall i :: 0 <= i < |w.log| && w.log[i].Released? ==>
      var t := w.log[i].t;
      t in w.tasks && !Active(w.tasks[t].phase) && w.tasks[t].key.m == w.log[i].m
      && (w.log[i].drained ==> w.tasks[t].phase.Draining? || PushedIn(w.log, t, w.log[i].m, i + 1))
  }

  /**
   Whoever waits on a map - an accepted unlock, a withheld request - has a draining
   release behind it, or someone is still active there.
   */
  ghost predicate WaitersAreServed(w: World) {
    forall i :: 0 <= i < |w.log| && (w.log[i].Accepted? || w.log[i].Withheld?) ==>
      DrainedIn(w.log, w.log[i].m, i + 1) || ActiveFor(w, w.log[i].m)
  }

  /** All unlocks of this map accepted before `k` have been released before `end`. */
  ghost predicate AllReleased(log: seq<Entry>, m: MapUid, k: nat, end: nat) {
    forall i :: 0 <= i < k && i < |log| && log[i].Accepted? && log[i].m == m ==> ReleasedIn(log, log[i].t, i + 1, end)
  }

  /** An inline answer was given, and a release drained, exactly when nothing accepted earlier was still unreleased. */
  ghost predicate AnswersInOrder(log: seq<Entry>) {
    && (forall i :: 0 <= i < |log| && log[i].Inline? ==> AllReleased(log, log[i].m, i, i))
    && (forall i :: 0 <= i < |log| && log[i].Withheld? ==> !AllReleased(log, log[i].m, i, i))
    && (forall i :: 0 <= i < |log| && log[i].Released? ==> (log[i].drained <==> AllReleased(log, log[i].m, i, i + 1)))
  }

  /** A task is accepted before it is released, and neither happens twice. */
  ghost predicate OnceEach(log: seq<Entry>) {
    && (forall i :: 0 <= i < |log| && log[i].Released? ==>
          exists j :: 0 <= j < i && log[j].Accepted? && log[j].t == log[i].t && log[j].m == log[i].m)
    && (forall i, j :: 0 <= i < j < |log| && log[i].Released? && log[j].Released? ==> log[i].t != log[j].t)
  }

  ghost predicate ActiveAreAccepted(w: World) {
    forall t :: t in w.tasks ==> exists j :: 0 <= j < |w.log| && w.log[j] == Accepted(t, w.tasks[t].key.m)
  }

  ghost predicate Good(w: World) {
    && OwedByTasks(w) && AcceptedAreTasks(w) && ReleasedAreDone(w) && WaitersAreServed(w)
    && AnswersInOrder(w.log) && OnceEach(w.log) && ActiveAreAccepted(w)
  }

  // ---- logs that grow ----

  lemma ReleasedGrows(log: seq<Entry>, e: Entry, t: TaskId, lo: nat, hi: nat)
    requires hi <= |log|
    ensures ReleasedIn(log + [e], t, lo, hi) <==> ReleasedIn(log, t, lo, hi)
    ensures ReleasedIn(log + [e], t, lo, |log| + 1) <==>
              ReleasedIn(log, t, lo, |log|) || (lo <= |log| && e.Released? && e.t == t)
  {
    var after := log + [e];
    if ReleasedIn(log, t, lo, |log|) {
      var i :| lo <= i < |log| && log[i].Released? && log[i].t == t;
      assert after[i] == log[i];
    }
    if ReleasedIn(log, t, lo, hi) {
      var i :| lo <= i < hi && i < |log| && log[i].Released? && log[i].t == t;
      assert after[i] == log[i];
    }
    if lo <= |log| && e.Released? && e.t == t {
      assert after[|log|] == e;
    }
  }

  lemma DrainedGrows(log: seq<Entry>, e: Entry, m: MapUid, lo: nat)
    requires lo <= |log|
    ensures DrainedIn(log, m, lo) || (e.Released? && e.m == m && e.drained) ==> DrainedIn(log + [e], m, lo)
  {
    var after := log + [e];
    if DrainedIn(log, m, lo) {
      var i :| lo <= i < |log| && log[i].Released? && log[i].m == m && log[i].drained;
      assert after[i] == log[i];
    }
    assert after[|log|] == e;
  }

  lemma PushedGrows(log: seq<Entry>, e: Entry, t: TaskId, m: MapUid, lo: nat)
    requires lo <= |log|
    ensures PushedIn(log, t, m, lo) || e == Pushed(t, m) ==> PushedIn(log + [e], t, m, lo)
  {
    var after := log + [e];
    if PushedIn(log, t, m, lo) {
      var i :| lo <= i < |log| && log[i] == Pushed(t, m);
      assert after[i] == log[i];
    }
    assert after[|log|] == e;
  }

  lemma AllReleasedGrows(log: seq<Entry>, e: Entry, m: MapUid, k: nat, end: nat)
    requires k <= |log| && end <= |log|
    ensures AllReleased(log + [e], m, k, end) <==> AllReleased(log, m, k, end)
  {
    var after := log + [e];
    forall i | 0 <= i < k && log[i].Accepted?
      ensures after[i] == log[i] && (ReleasedIn(after, log[i].t, i + 1, end) <==> ReleasedIn(log, log[i].t, i + 1, end))
    {
      ReleasedGrows(log, e, log[i].t, i + 1, end);
    }
    hide ReleasedIn;
    assert forall i :: 0 <= i < k ==> after[i] == log[i];
  }

  lemma OrderGrows(log: seq<Entry>, e: Entry)
    requires AnswersInOrder(log)
    requires e.Inline? ==> AllReleased(log, e.m, |log|, |log|)
    requires e.Withheld? ==> !AllReleased(log, e.m, |log|, |log|)
    requires e.Released? ==> (e.drained <==> AllReleased(log + [e], e.m, |log|, |log| + 1))
    ensures AnswersInOrder(log + [e])
  {
    var after := log + [e];
    forall i | 0 <= i < |after|
      ensures after[i].Inline? ==> AllReleased(after, after[i].m, i, i)
      ensures after[i].Withheld? ==> !AllReleased(after, after[i].m, i, i)
      ensures after[i].Released? ==> (after[i].drained <==> AllReleased(after, after[i].m, i, i + 1))
    {
      AllReleasedGrows(log, e, after[i].m, i, i);
      if i < |log| {
        assert after[i] == log[i];
        AllReleasedGrows(log, e, after[i].m, i, i + 1);
      }
      hide AllReleased;
    }
  }

  lemma OnceGrows(log: seq<Entry>, e: Entry)
    requires OnceEach(log)
    requires e.Released? ==> (exists j :: 0 <= j < |log| && log[j].Accepted? && log[j].t == e.t && log[j].m == e.m)
    requires e.Released? ==> forall i :: 0 <= i < |log| && log[i].Released? ==> log[i].t != e.t
    ensures OnceEach(log + [e])
  {
    var after := log + [e];
    forall i | 0 <= i < |after| && after[i].Released?
      ensures exists j :: 0 <= j < i && after[j].Accepted? && after[j].t == after[i].t && after[j].m == after[i].m
    {
      var x := after[i];
      assert i < |log| ==> log[i] == x;
      var j :| 0 <= j < i && log[j].Accepted? && log[j].t == x.t && log[j].m == x.m;
      assert after[j] == log[j];
    }
  }

  // ---- nothing owed for a map means everything released ----

  /** With nobody active on a map, everything accepted for it has been released; and conversely. */
  lemma IdleMeansReleased(w: World, m: MapUid)
    requires OwedByTasks(w) && AcceptedAreTasks(w) && ReleasedAreDone(w) && ActiveAreAccepted(w)
    ensures !AnyFor(w.owed, m) <==> AllReleased(w.log, m, |w.log|, |w.log|)
    ensures AnyFor(w.owed, m) <==> ActiveFor(w, m)
  {
    if AnyFor(w.owed, m) {
      var k :| k in w.owed && k.m == m;
      assert ActiveOn(w.tasks, k);
      var t :| t in w.tasks && Active(w.tasks[t].phase) && w.tasks[t].key == k;
      var j :| 0 <= j < |w.log| && w.log[j] == Accepted(t, m);
      NotReleased(w, t, j + 1);
    } else {
      forall i | 0 <= i < |w.log| && w.log[i].Accepted? && w.log[i].m == m
        ensures ReleasedIn(w.log, w.log[i].t, i + 1, |w.log|)
      {
        assert w.tasks[w.log[i].t].key.m == m;
      }
    }
  }

  lemma NotReleased(w: World, t: TaskId, lo: nat)
    requires ReleasedAreDone(w) && t in w.tasks && Active(w.tasks[t].phase)
    ensures !ReleasedIn(w.log, t, lo, |w.log|)
  {
  }

  // ---- one step ----

  /** The parts of the invariant that speak of tasks, for a step that logs `e`. */
  ghost predicate Follows(w: World, after: World, e: Entry) {
    && after.log == w.log + [e]
    && (forall t :: t in w.tasks ==> t in after.tasks && after.tasks[t].key == w.tasks[t].key)
    && (forall t :: t in w.tasks && Active(w.tasks[t].phase) && !Active(after.tasks[t].phase) ==>
        e.Released? && e.t == t)
    && (forall t :: t in w.tasks && !Active(w.tasks[t].phase) ==> !Active(after.tasks[t].phase))
    && (forall t :: t in w.tasks && w.tasks[t].phase.Draining? && !after.tasks[t].phase.Draining? ==>
        e == Pushed(t, w.tasks[t].key.m))
  }

  lemma AcceptedKept(w: World, after: World, e: Entry)
    requires AcceptedAreTasks(w) && Follows(w, after, e)
    requires e.Accepted? ==> e.t in after.tasks && after.tasks[e.t].key.m == e.m && Active(after.tasks[e.t].phase)
    ensures AcceptedAreTasks(after)
  {
    forall i | 0 <= i < |after.log| && after.log[i].Accepted?
      ensures var t := after.log[i].t;
              t in after.tasks && after.tasks[t].key.m == after.log[i].m
              && (Active(after.tasks[t].phase) || ReleasedIn(after.log, t, i + 1, |after.log|))
    {
      if i < |w.log| {
        assert after.log[i] == w.log[i];
        ReleasedGrows(w.log, e, w.log[i].t, i + 1, |w.log|);
        hide ReleasedIn;
      }
    }
  }

  lemma ReleasedKept(w: World, after: World, e: Entry)
    requires ReleasedAreDone(w) && Follows(w, after, e)
    requires e.Released? ==> e.t in after.tasks && !Active(after.tasks[e.t].phase) && after.tasks[e.t].key.m == e.m
                             && (e.drained ==> after.tasks[e.t].phase.Draining?)
    ensures ReleasedAreDone(after)
  {
    forall i | 0 <= i < |after.log| && after.log[i].Released?
      ensures var t := after.log[i].t;
              t in after.tasks && !Active(after.tasks[t].phase) && after.tasks[t].key.m == after.log[i].m
              && (after.log[i].drained ==>
                    after.tasks[t].phase.Draining? || PushedIn(after.log, t, after.log[i].m, i + 1))
    {
      if i < |w.log| {
        assert after.log[i] == w.log[i];
        PushedGrows(w.log, e, w.log[i].t, w.log[i].m, i + 1);
        hide PushedIn;
      }
    }
  }

  lemma WaitersKept(w: World, after: World, e: Entry)
    requires WaitersAreServed(w) && Follows(w, after, e)
    requires e.Accepted? || e.Withheld? ==> ActiveFor(after, e.m)
    requires forall m :: ActiveFor(w, m) ==> ActiveFor(after, m) || (e.Released? && e.m == m && e.drained)
    ensures WaitersAreServed(after)
  {
    hide ActiveFor;
    forall i | 0 <= i < |after.log| && (after.log[i].Accepted? || after.log[i].Withheld?)
      ensures DrainedIn(after.log, after.log[i].m, i + 1) || ActiveFor(after, after.log[i].m)
    {
      if i < |w.log| {
        assert after.log[i] == w.log[i];
        DrainedGrows(w.log, e, w.log[i].m, i + 1);
        hide DrainedIn;
      }
    }
  }

  lemma ActiveAcceptedKept(w: World, after: World, e: Entry)
    requires ActiveAreAccepted(w) && Follows(w, after, e)
    requires forall t :: t in after.tasks && t !in w.tasks ==> e == Accepted(t, after.tasks[t].key.m)
    ensures ActiveAreAccepted(after)
  {
    forall t | t in after.tasks
      ensures exists j :: 0 <= j < |after.log| && after.log[j] == Accepted(t, after.tasks[t].key.m)
    {
      if t in w.tasks {
        var j :| 0 <= j < |w.log| && w.log[j] == Accepted(t, w.tasks[t].key.m);
        assert after.log[j] == w.log[j];
      } else {
        assert after.log[|w.log|] == e;
      }
    }
  }

  lemma AcceptedDiffer(owed: set<Owed>, tasks: map<TaskId, Task>, t: TaskId, k: Owed)
    requires ActiveOwed(owed, tasks) && KeysDiffer(tasks) && t !in tasks && k !in owed
    ensures ActiveOwed(owed + {k}, tasks[t := Task(k, Validating)]) && KeysDiffer(tasks[t := Task(k, Validating)])
  {
  }

  lemma AcceptedActive(tasks: map<TaskId, Task>, t: TaskId, k: Owed, x: Owed)
    requires t !in tasks && (ActiveOn(tasks, x) || x == k)
    ensures ActiveOn(tasks[t := Task(k, Validating)], x)
  {
    var after := tasks[t := Task(k, Validating)];
    if x == k {
      assert after[t].key == k;
    } else {
      var u :| u in tasks && Active(tasks[u].phase) && tasks[u].key == x;
      assert u in after && after[u] == tasks[u];
    }
  }

  lemma OwedAfterAccept(w: World, t: TaskId, m: MapUid, slug: Slug)
    requires OwedByTasks(w) && t !in w.tasks && |w.owed| < MAX_PENDING && Owed(m, slug) !in w.owed
    ensures OwedByTasks(Advance(w, Unlock84(t, m, slug)))
  {
    AcceptedDiffer(w.owed, w.tasks, t, Owed(m, slug));
    hide ActiveOwed, KeysDiffer, ActiveOn;
    var after := Advance(w, Unlock84(t, m, slug));
    assert after.tasks == w.tasks[t := Task(Owed(m, slug), Validating)] && after.owed == w.owed + {Owed(m, slug)};
    forall k | k in after.owed ensures ActiveOn(after.tasks, k) {
      AcceptedActive(w.tasks, t, Owed(m, slug), k);
    }
  }

  /** Steps that leave who is active, and for what, alone. */
  lemma OwedUnmoved(w: World, after: World)
    requires OwedByTasks(w) && after.owed == w.owed && after.tasks.Keys == w.tasks.Keys
    requires forall t :: t in w.tasks ==>
               after.tasks[t].key == w.tasks[t].key && (Active(after.tasks[t].phase) <==> Active(w.tasks[t].phase))
    ensures OwedByTasks(after)
  {
    forall k | k in after.owed ensures ActiveOn(after.tasks, k) {
      assert ActiveOn(w.tasks, k);
      var u :| u in w.tasks && Active(w.tasks[u].phase) && w.tasks[u].key == k;
      assert u in after.tasks && Active(after.tasks[u].phase) && after.tasks[u].key == k;
    }
  }

  lemma OwedKept(w: World, s: Step)
    requires OwedByTasks(w)
    ensures OwedByTasks(Advance(w, s))
  {
    hide OwedByTasks, AnyFor;
    match s
    case Unlock84(t, m, slug) =>
      if t !in w.tasks && |w.owed| < MAX_PENDING && Owed(m, slug) !in w.owed {
        OwedAfterAccept(w, t, m, slug);
      } else {
        OwedUnmoved(w, Advance(w, s));
      }
    case Release(t) => OwedAfterRelease(w, t);
    case _ => OwedUnmoved(w, Advance(w, s));
  }

  lemma OwedAfterRelease(w: World, t: TaskId)
    requires OwedByTasks(w)
    ensures OwedByTasks(Advance(w, Release(t)))
  {
    hide AnyFor;
    var after := Advance(w, Release(t));
    if after != w {
      CardinalityMono(after.owed, w.owed);
      forall k | k in after.owed ensures ActiveOn(after.tasks, k) {
        assert ActiveOn(w.tasks, k);
        var u :| u in w.tasks && Active(w.tasks[u].phase) && w.tasks[u].key == k;
        assert u != t && after.tasks[u] == w.tasks[u];
      }
    }
  }

  /** How a step that logs `e` changes tasks and owed answers. */
  ghost predicate Logs(w: World, after: World, e: Entry) {
    && Follows(w, after, e)
    && (forall t :: t in after.tasks && t !in w.tasks ==> e == Accepted(t, after.tasks[t].key.m))
    && (e.Accepted? ==> e.t in after.tasks && after.tasks[e.t].key.m == e.m && Active(after.tasks[e.t].phase))
    && (e.Withheld? ==> AnyFor(w.owed, e.m))
    && (e.Inline? ==> !AnyFor(w.owed, e.m))
    && (e.Released? ==>
          && e.t in w.tasks && Active(w.tasks[e.t].phase) && w.tasks[e.t].key.m == e.m
          && e.t in after.tasks && !Active(after.tasks[e.t].phase) && after.tasks[e.t].key.m == e.m
          && after.owed == w.owed - {w.tasks[e.t].key}
          && (e.drained <==> !AnyFor(after.owed, e.m))
          && (e.drained ==> after.tasks[e.t].phase.Draining?))
    && (!e.Released? ==> w.owed <= after.owed)
  }

  lemma LoggedKeeps(w: World, after: World, e: Entry)
    requires Good(w) && Logs(w, after, e) && OwedByTasks(after)
    ensures Good(after)
  {
    hide OwedByTasks, AcceptedAreTasks, ReleasedAreDone, ActiveAreAccepted, OnceEach;
    hide WaitersAreServed, AnswersInOrder, AnyFor;
    AcceptedKept(w, after, e);
    ReleasedKept(w, after, e);
    ActiveAcceptedKept(w, after, e);
    LoggedOrder(w, after, e);
    LoggedOnce(w, after, e);
    LoggedWaiters(w, after, e);
  }

  lemma LoggedOrder(w: World, after: World, e: Entry)
    requires Good(w) && Follows(w, after, e)
    requires OwedByTasks(after) && AcceptedAreTasks(after) && ReleasedAreDone(after) && ActiveAreAccepted(after)
    requires e.Withheld? ==> AnyFor(w.owed, e.m)
    requires e.Inline? ==> !AnyFor(w.owed, e.m)
    requires e.Released? ==> (e.drained <==> !AnyFor(after.owed, e.m))
    ensures AnswersInOrder(after.log)
  {
    hide AllReleased, OwedByTasks, AcceptedAreTasks, ReleasedAreDone, ActiveAreAccepted;
    hide AnyFor, OnceEach, WaitersAreServed, AnswersInOrder, ActiveFor;
    IdleMeansReleased(w, e.m);
    if e.Released? {
      IdleMeansReleased(after, e.m);
      LastIsNoUnlock(w.log, e);
    }
    OrderGrows(w.log, e);
  }

  lemma LastIsNoUnlock(log: seq<Entry>, e: Entry)
    requires !e.Accepted?
    ensures AllReleased(log + [e], e.m, |log| + 1, |log| + 1) <==> AllReleased(log + [e], e.m, |log|, |log| + 1)
  {
  }

  lemma LoggedOnce(w: World, after: World, e: Entry)
    requires Good(w) && Follows(w, after, e)
    requires e.Released? ==> e.t in w.tasks && Active(w.tasks[e.t].phase) && w.tasks[e.t].key.m == e.m
    ensures OnceEach(after.log)
  {
    if e.Released? {
      var j :| 0 <= j < |w.log| && w.log[j] == Accepted(e.t, w.tasks[e.t].key.m);
    }
    OnceGrows(w.log, e);
  }

  lemma LoggedWaiters(w: World, after: World, e: Entry)
    requires Good(w) && Follows(w, after, e) && OwedByTasks(after)
    requires AcceptedAreTasks(after) && ReleasedAreDone(after) && ActiveAreAccepted(after)
    requires e.Accepted? ==> e.t in after.tasks && after.tasks[e.t].key.m == e.m && Active(after.tasks[e.t].phase)
    requires e.Withheld? ==> AnyFor(w.owed, e.m)
    requires e.Released? ==> e.t in w.tasks && after.owed == w.owed - {w.tasks[e.t].key} && w.tasks[e.t].key.m == e.m
    requires !e.Released? ==> w.owed <= after.owed
    requires e.Released? ==> (e.drained <==> !AnyFor(after.owed, e.m))
    ensures WaitersAreServed(after)
  {
    forall m | ActiveFor(w, m) ensures ActiveFor(after, m) || (e.Released? && e.m == m && e.drained) {
      IdleMeansReleased(w, m);
      IdleMeansReleased(after, m);
      var k :| k in w.owed && k.m == m;
      hide AllReleased, ActiveFor, OwedByTasks, AcceptedAreTasks, ReleasedAreDone;
      hide ActiveAreAccepted, OnceEach, WaitersAreServed, AnswersInOrder;
      if k in after.owed {
        assert AnyFor(after.owed, m);
      }
    }
    IdleMeansReleased(w, e.m);
    IdleMeansReleased(after, e.m);
    if e.Withheld? {
      var k :| k in w.owed && k.m == e.m;
      assert k in after.owed;
    }
    hide AllReleased, OwedByTasks, AcceptedAreTasks, ReleasedAreDone, ActiveAreAccepted, OnceEach, AnswersInOrder;
    WaitersKept(w, after, e);
  }

  /** Nothing logged, nobody's activity changed. */
  ghost predicate Unmoved(w: World, after: World) {
    && after.log == w.log && after.owed == w.owed && after.tasks.Keys == w.tasks.Keys
    && forall t :: t in w.tasks ==>
         && after.tasks[t].key == w.tasks[t].key
         && (Active(after.tasks[t].phase) <==> Active(w.tasks[t].phase))
         && (after.tasks[t].phase.Draining? <==> w.tasks[t].phase.Draining?)
  }

  lemma UnmovedWaiters(w: World, after: World)
    requires WaitersAreServed(w) && Unmoved(w, after)
    ensures WaitersAreServed(after)
  {
    forall m | ActiveFor(w, m) ensures ActiveFor(after, m) {
      var u :| u in w.tasks && Active(w.tasks[u].phase) && w.tasks[u].key.m == m;
      assert u in after.tasks && Active(after.tasks[u].phase) && after.tasks[u].key.m == m;
    }
    hide ActiveFor, DrainedIn;
  }

  lemma UnmovedTasks(w: World, after: World)
    requires AcceptedAreTasks(w) && ReleasedAreDone(w) && ActiveAreAccepted(w) && Unmoved(w, after)
    ensures AcceptedAreTasks(after) && ReleasedAreDone(after) && ActiveAreAccepted(after)
  {
    hide ReleasedIn, PushedIn;
    forall t | t in after.tasks
      ensures exists j :: 0 <= j < |after.log| && after.log[j] == Accepted(t, after.tasks[t].key.m)
    {
      assert t in w.tasks;
    }
  }

  lemma QuietKeeps(w: World, t: TaskId, panicked: bool)
    requires Good(w) && t in w.tasks && w.tasks[t].phase.Validating?
    ensures Good(Goto(w, t, Ended(panicked)))
  {
    hide AnswersInOrder, OnceEach, OwedByTasks, AcceptedAreTasks, ReleasedAreDone, ActiveAreAccepted, WaitersAreServed;
    var after := Goto(w, t, Ended(panicked));
    OwedUnmoved(w, after);
    UnmovedWaiters(w, after);
    UnmovedTasks(w, after);
  }

  lemma UnlockLogs(w: World, t: TaskId, m: MapUid, slug: Slug)
    requires t !in w.tasks
    ensures Logs(w, Advance(w, Unlock84(t, m, slug)),
                 if |w.owed| >= MAX_PENDING || Owed(m, slug) in w.owed then Refused(m) else Accepted(t, m))
  {
    hide AnyFor;
  }

  lemma MineLogs(w: World, m: MapUid)
    ensures Logs(w, Advance(w, Mine213(m)), if AnyFor(w.owed, m) then Withheld(m) else Inline(m))
  {
    hide AnyFor;
  }

  lemma ReleaseLogs(w: World, t: TaskId)
    requires t in w.tasks && w.tasks[t].phase.Ended?
    ensures var key := w.tasks[t].key;
            Logs(w, Advance(w, Release(t)), Released(t, key.m, !AnyFor(w.owed - {key}, key.m)))
  {
    hide AnyFor;
  }

  lemma PushLogs(w: World, t: TaskId)
    requires t in w.tasks && w.tasks[t].phase.Draining?
    ensures Logs(w, Advance(w, Push(t)), Pushed(t, w.tasks[t].key.m))
  {
    hide AnyFor;
  }

  lemma UnlockKeeps(w: World, t: TaskId, m: MapUid, slug: Slug)
    requires Good(w) && t !in w.tasks
    ensures Good(Advance(w, Unlock84(t, m, slug)))
  {
    assert OwedByTasks(w);
    hide Good, AnyFor, Logs, OwedByTasks, Advance;
    OwedKept(w, Unlock84(t, m, slug));
    UnlockLogs(w, t, m, slug);
    LoggedKeeps(w, Advance(w, Unlock84(t, m, slug)),
                if |w.owed| >= MAX_PENDING || Owed(m, slug) in w.owed then Refused(m) else Accepted(t, m));
  }

  lemma MineKeeps(w: World, m: MapUid)
    requires Good(w)
    ensures Good(Advance(w, Mine213(m)))
  {
    assert OwedByTasks(w);
    hide Good, AnyFor, Logs, OwedByTasks, Advance;
    OwedKept(w, Mine213(m));
    MineLogs(w, m);
    LoggedKeeps(w, Advance(w, Mine213(m)), if AnyFor(w.owed, m) then Withheld(m) else Inline(m));
  }

  lemma ReleaseKeeps(w: World, t: TaskId)
    requires Good(w) && t in w.tasks && w.tasks[t].phase.Ended?
    ensures Good(Advance(w, Release(t)))
  {
    assert OwedByTasks(w);
    hide Good, AnyFor, Logs, OwedByTasks, Advance;
    OwedKept(w, Release(t));
    ReleaseLogs(w, t);
    LoggedKeeps(w, Advance(w, Release(t)),
                Released(t, w.tasks[t].key.m, !AnyFor(w.owed - {w.tasks[t].key}, w.tasks[t].key.m)));
  }

  lemma PushKeeps(w: World, t: TaskId)
    requires Good(w) && t in w.tasks && w.tasks[t].phase.Draining?
    ensures Good(Advance(w, Push(t)))
  {
    assert OwedByTasks(w);
    hide Good, AnyFor, Logs, OwedByTasks, Advance;
    OwedKept(w, Push(t));
    PushLogs(w, t);
    LoggedKeeps(w, Advance(w, Push(t)), Pushed(t, w.tasks[t].key.m));
  }

  lemma AdvanceKeeps(w: World, s: Step)
    requires Good(w)
    ensures Good(Advance(w, s))
  {
    hide Good, AnyFor;
    match s
    case Unlock84(t, m, slug) =>
      if t !in w.tasks {
        UnlockKeeps(w, t, m, slug);
      }
    case Mine213(m) => MineKeeps(w, m);
    case ValidationEnds(t, panicked) =>
      if t in w.tasks && w.tasks[t].phase.Validating? {
        QuietKeeps(w, t, panicked);
      }
    case Release(t) =>
      if t in w.tasks && w.tasks[t].phase.Ended? {
        ReleaseKeeps(w, t);
      }
    case Push(t) =>
      if t in w.tasks && w.tasks[t].phase.Draining? {
        PushKeeps(w, t);
      }
  }

  lemma {:induction false} HistoryKeeps(w: World, steps: seq<Step>)
    requires Good(w)
    ensures Good(History(w, steps))
    decreases |steps|
  {
    hide Good, Advance;
    if steps != [] {
      AdvanceKeeps(w, steps[0]);
      HistoryKeeps(Advance(w, steps[0]), steps[1..]);
    }
  }

  lemma FreshIsGood()
    ensures Good(Fresh())
  {
  }

  lemma {:induction false} Reachable(steps: seq<Step>)
    ensures Good(History(Fresh(), steps))
  {
    hide Good, History, Fresh;
    FreshIsGood();
    HistoryKeeps(Fresh(), steps);
  }

  // ---- what holds in every interleaving ----

  /** Never more than sixteen answers are owed, and each by one task. */
  lemma {:induction false} OwedIsBounded(steps: seq<Step>, t: TaskId, u: TaskId)
    ensures var w := History(Fresh(), steps);
            && |w.owed| <= 16
            && (t in w.tasks && u in w.tasks && t != u && Active(w.tasks[t].phase) && Active(w.tasks[u].phase) ==>
                  w.tasks[t].key != w.tasks[u].key && w.tasks[t].key in w.owed)
  {
    Reachable(steps);
    hide History;
  }

  /** The tasks whose answer is owed. */
  function ActiveTasks(w: World): set<TaskId> {
    set t | t in w.tasks && Active(w.tasks[t].phase)
  }

  lemma {:induction false} AsManyKeys(tasks: map<TaskId, Task>, active: set<TaskId>, keys: set<Owed>)
    requires forall t :: t in active ==> t in tasks && tasks[t].key in keys
    requires forall k :: k in keys ==> exists t :: t in active && tasks[t].key == k
    requires forall t, u :: t in active && u in active && t != u ==> tasks[t].key != tasks[u].key
    ensures |active| == |keys|
    decreases active
  {
    if active == {} {
      assert keys == {};
    } else {
      var t :| t in active;
      forall k | k in keys - {tasks[t].key} ensures exists u :: u in active - {t} && tasks[u].key == k {
        var u :| u in active && tasks[u].key == k;
        assert u in active - {t};
      }
      AsManyKeys(tasks, active - {t}, keys - {tasks[t].key});
    }
  }

  /**
   An 84 is accepted if and only if fewer than sixteen unlocks of the connection are under
   way and none of them is for the same hat; and a 213 is withheld if and only if one for
   its map is. Neither goes unrecorded.
   */
  lemma {:induction false} AcceptedIffRoom(steps: seq<Step>, t: TaskId, m: MapUid, slug: Slug)
    ensures var w := History(Fresh(), steps);
            var room := |ActiveTasks(w)| < 16
                        && forall u :: u in w.tasks && Active(w.tasks[u].phase) ==> w.tasks[u].key != Owed(m, slug);
            t !in w.tasks ==>
              var after := Advance(w, Unlock84(t, m, slug));
              && after.log == w.log + [if room then Accepted(t, m) else Refused(m)]
              && after.tasks == (if room then w.tasks[t := Task(Owed(m, slug), Validating)] else w.tasks)
    ensures var w := History(Fresh(), steps);
            Advance(w, Mine213(m)).log == w.log + [if ActiveFor(w, m) then Withheld(m) else Inline(m)]
  {
    Reachable(steps);
    var w := History(Fresh(), steps);
    hide History, AcceptedAreTasks, ReleasedAreDone, WaitersAreServed, AnswersInOrder, OnceEach, ActiveAreAccepted;
    assert forall k :: k in w.owed ==> ActiveOn(w.tasks, k);
    AsManyKeys(w.tasks, ActiveTasks(w), w.owed);
    AnyIsActive(w, m);
    hide ActiveOn, ActiveFor, AnyFor;
  }

  lemma AnyIsActive(w: World, m: MapUid)
    requires OwedByTasks(w)
    ensures AnyFor(w.owed, m) <==> ActiveFor(w, m)
  {
    if AnyFor(w.owed, m) {
      var k :| k in w.owed && k.m == m;
      assert ActiveOn(w.tasks, k);
    }
  }

  /** However its validation ends, a task releases and, if that drains its map, pushes. */
  lemma EveryTaskFinishes(w: World, t: TaskId, panicked: bool)
    requires t in w.tasks && w.tasks[t].phase.Validating?
    ensures var ended := Advance(w, ValidationEnds(t, panicked));
            var released := Advance(ended, Release(t));
            var key := w.tasks[t].key;
            && released.owed == w.owed - {key}
            && released.log == w.log + [Released(t, key.m, !AnyFor(w.owed - {key}, key.m))]
            && t in released.tasks
            && (if AnyFor(w.owed - {key}, key.m) then released.tasks[t].phase.Finished?
                else Advance(released, Push(t)).log == released.log + [Pushed(t, key.m)]
                     && Advance(released, Push(t)).tasks[t].phase.Finished?)
  {
    hide AnyFor;
  }

  /** A 213 is answered at once if and only if every 84 accepted before it for that map has been released. */
  lemma {:induction false} InlineIffAllReleased(steps: seq<Step>, i: nat)
    requires i < |History(Fresh(), steps).log|
    ensures var log := History(Fresh(), steps).log;
            && (log[i].Inline? ==> AllReleased(log, log[i].m, i, i))
            && (log[i].Withheld? ==> !AllReleased(log, log[i].m, i, i))
  {
    Reachable(steps);
    hide History, AllReleased;
  }

  /** A release drains its map if and only if, with it, every 84 accepted before for that map has been released. */
  lemma {:induction false} DrainIffAllReleased(steps: seq<Step>, i: nat)
    requires i < |History(Fresh(), steps).log| && History(Fresh(), steps).log[i].Released?
    ensures var log := History(Fresh(), steps).log;
            log[i].drained <==> AllReleased(log, log[i].m, i, i + 1)
  {
    Reachable(steps);
    hide History, AllReleased;
  }

  lemma DrainsApart(log: seq<Entry>, i: nat, j: nat, k: nat)
    requires OnceEach(log) && i < j < |log| && log[i].Released? && log[j].Released?
          && AllReleased(log, log[i].m, i, i + 1)
    requires k < j && log[k] == Accepted(log[j].t, log[i].m)
    ensures i < k
  {
  }

  /** Between two draining releases of a map a new 84 was accepted: a busy period drains once. */
  lemma OneDrainPerBusyPeriod(steps: seq<Step>, i: nat, j: nat) returns (k: nat)
    requires var log := History(Fresh(), steps).log;
             && i < j < |log| && log[i].Released? && log[j].Released? && log[i].m == log[j].m && log[i].drained
    ensures var log := History(Fresh(), steps).log;
            i < k < j && log[k] == Accepted(log[j].t, log[j].m)
  {
    Reachable(steps);
    hide History, AllReleased, OwedByTasks, AcceptedAreTasks, ReleasedAreDone, ActiveAreAccepted, WaitersAreServed;
    var log := History(Fresh(), steps).log;
    k :| 0 <= k < j && log[k].Accepted? && log[k].t == log[j].t && log[k].m == log[j].m;
    DrainsApart(log, i, j, k);
  }

  /** No task is left to run. */
  ghost predicate Quiescent(w: World) {
    forall t :: t in w.tasks ==> w.tasks[t].phase.Finished?
  }

  /**
   Once all tasks have run to their end - panicking validations included - every
   withheld 213, and every accepted 84, has been followed by a draining release of its
   map and then by the push of that very release.
   */
  lemma WithheldIsAnswered(steps: seq<Step>, i: nat) returns (j: nat, k: nat)
    requires var w := History(Fresh(), steps);
             Quiescent(w) && i < |w.log| && (w.log[i].Withheld? || w.log[i].Accepted?)
    ensures var log := History(Fresh(), steps).log;
            && i < j < k < |log|
            && log[j].Released? && log[j].m == log[i].m && log[j].drained
            && log[k] == Pushed(log[j].t, log[i].m)
  {
    Reachable(steps);
    hide History, AnswersInOrder, OwedByTasks, OnceEach, AcceptedAreTasks, ActiveAreAccepted;
    var w := History(Fresh(), steps);
    assert !ActiveFor(w, w.log[i].m);
    assert DrainedIn(w.log, w.log[i].m, i + 1);
    j :| i + 1 <= j < |w.log| && w.log[j].Released? && w.log[j].m == w.log[i].m && w.log[j].drained;
    assert PushedIn(w.log, w.log[j].t, w.log[j].m, j + 1);
    k :| j + 1 <= k < |w.log| && w.log[k] == Pushed(w.log[j].t, w.log[j].m);
  }
}
