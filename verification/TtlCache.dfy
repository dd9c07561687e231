/**
 The time-to-live cache (`src/cache_util.rs`) and the pings that deliver its values
 (`src/server2.rs`): a value's age decides whether a client is sent it again.
 */
module TtlCache {
  import opened Common

  type Key = nat
  type Value = nat
  type ClientId = nat

  datatype Entry = Entry(value: Value, firstSeen: nat, lastChecked: nat)

  datatype Answer = Answer(age: nat, value: Value)

  // ---- the three critical sections ----

  /** A hit, judged at the instant `now` that was sampled before the lock was taken. */
  function Hit(map_: map<Key, Entry>, key: Key, ttl: nat, now: nat): Option<Answer> {
    if key in map_ && map_[key].lastChecked + ttl > now
    then Some(Answer(Since(now, map_[key].firstSeen), map_[key].value)) else None
  }

  /** Storing a fresh answer: only a different value begins a new age. */
  function Stored(map_: map<Key, Entry>, key: Key, value: Value, at: nat): map<Key, Entry> {
    if key in map_ && map_[key].value == value then map_[key := map_[key].(lastChecked := at)]
    else map_[key := Entry(value, at, at)]
  }

  function Purged(map_: map<Key, Entry>, now: nat, purgeAfter: nat): map<Key, Entry> {
    map k | k in map_ && Since(now, map_[k].lastChecked) < purgeAfter :: map_[k]
  }

  class InnerCache {
    var entries: map<Key, Entry>
    var lastScanned: nat
    const purgeAfter: nat

    constructor (now: nat, after: nat)
      ensures entries == map[] && lastScanned == now && purgeAfter == after
    {
      entries := map[];
      lastScanned := now;
      purgeAfter := after;
    }

    method Lookup(key: Key, ttl: nat, now: nat) returns (answer: Option<Answer>)
      ensures answer == Hit(entries, key, ttl, now)
    {
      if key in entries {
        var entry := entries[key];
        if entry.lastChecked + ttl > now {
          return Some(Answer(Since(now, entry.firstSeen), entry.value));
        }
      }
      return None;
    }

    /** The age is zero for a new entry and for a new value. */
    method Store(key: Key, value: Value, cachedAt: nat) returns (age: nat)
      modifies this`entries
      ensures entries == Stored(old(entries), key, value, cachedAt)
      ensures age == Since(cachedAt, entries[key].firstSeen)
    {
      age := 0;
      if key in entries {
        var entry := entries[key];
        if entry.value != value {
          entry := entry.(value := value, firstSeen := cachedAt);
        }
        entry := entry.(lastChecked := cachedAt);
        age := Since(cachedAt, entry.firstSeen);
        entries := entries[key := entry];
      } else {
        entries := entries[key := Entry(value, cachedAt, cachedAt)];
      }
    }

    method CheckPurgeOld(now: nat)
      modifies this
      ensures if Since(now, old(lastScanned)) < purgeAfter
              then entries == old(entries) && lastScanned == old(lastScanned)
              else entries == Purged(old(entries), now, purgeAfter) && lastScanned == now
    {
      if Since(now, lastScanned) < purgeAfter {
        return;
      }
      entries := map k | k in entries && Since(now, entries[k].lastChecked) < purgeAfter :: entries[k];
      lastScanned := now;
    }
  }

  // ---- clients that ping ----

  /** A ping between its map check and the end of its lookup; `changed` is what the map check found. */
  datatype Phase = Resting | Looking(changed: bool)

  /**
   A client: the map its pings track, the value last sent to it for that map, the
   instant its latest successful lookup was judged at, and that lookup's answer.
   `entered`: the ping that changed the map succeeded. `young`: some answer since was
   young enough to be sent. `spaced`: since the first value sent, successful lookups
   were judged at most `sendTtl` apart.
   */
  datatype Client = Client(
    tracked: Option<Key>,
    phase: Phase,
    sent: Option<Value>,
    lastSample: nat,
    latest: Option<Value>,
    entered: bool,
    young: bool,
    spaced: bool)

  datatype Config = Config(ttl: nat, sendTtl: nat, purgeAfter: nat)

  /** What has been stored and purged for a key. */
  datatype Change = Put(key: Key, value: Value, at: nat) | Removed(key: Key)

  datatype World = World(now: nat, entries: map<Key, Entry>, clients: map<ClientId, Client>, changes: seq<Change>)

  datatype Step =
    | Tick(delta: nat)
    | Ping(c: ClientId, key: Option<Key>)
    | HitsAt(c: ClientId, sample: nat)
    | Fetches(c: ClientId, value: Value)
    | Fails(c: ClientId)
    | Purges(sample: nat)

  function NewClient(): Client {
    Client(None, Resting, None, 0, None, false, false, true)
  }

  /** `update_last_map`, before anything is looked up. */
  function StartPing(client: Client, key: Option<Key>): Client {
    if client.tracked != key then
      Client(key, if key.Some? then Looking(true) else Resting, None, 0, None, false, false, true)
    else if key.Some? then client.(phase := Looking(false)) else client
  }

  /** A successful lookup: the value is sent when the map changed or the value is young. */
  function Deliver(cfg: Config, client: Client, answer: Answer, sample: nat): Client
    requires client.phase.Looking?
  {
    var sends := client.phase.changed || answer.age <= cfg.sendTtl;
    client.(
      phase := Resting,
      sent := if sends then Some(answer.value) else client.sent,
      lastSample := sample,
      latest := Some(answer.value),
      entered := client.entered || client.phase.changed,
      young := client.young || answer.age <= cfg.sendTtl,
      spaced := client.sent.None? || (client.spaced && Since(sample, client.lastSample) <= cfg.sendTtl))
  }

  /** Changes a purge logs: one per key it drops. */
  ghost predicate LogsPurge(before: map<Key, Entry>, after: map<Key, Entry>, removed: seq<Change>) {
    && (forall i :: 0 <= i < |removed| ==> removed[i].Removed? && removed[i].key in before && removed[i].key !in after)
    && (forall k :: k in before && k !in after ==> Removed(k) in removed)
  }

  ghost predicate Advances(cfg: Config, w: World, s: Step, after: World) {
    match s
    case Tick(delta) => after == w.(now := w.now + delta)
    case Ping(c, key) =>
      var client := if c in w.clients then w.clients[c] else NewClient();
      after == if client.phase.Looking? then w else w.(clients := w.clients[c := StartPing(client, key)])
    case HitsAt(c, sample) =>
      if c !in w.clients || !w.clients[c].phase.Looking? || sample > w.now then after == w
      else
        var client := w.clients[c];
        client.tracked.Some? &&
        var answer := Hit(w.entries, client.tracked.value, cfg.ttl, sample);
        after == if answer.None? then w else w.(clients := w.clients[c := Deliver(cfg, client, answer.value, sample)])
    case Fetches(c, value) =>
      if c !in w.clients || !w.clients[c].phase.Looking? then after == w
      else
        var client := w.clients[c];
        client.tracked.Some? &&
        var key := client.tracked.value;
        var entries := Stored(w.entries, key, value, w.now);
        after == w.(
          entries := entries,
          clients := w.clients[c := Deliver(cfg, client, Answer(Since(w.now, entries[key].firstSeen), value), w.now)],
          changes := w.changes + [Put(key, value, w.now)])
    case Fails(c) =>
      after == if c !in w.clients || !w.clients[c].phase.Looking? then w
               else w.(clients := w.clients[c := w.clients[c].(phase := Resting)])
    case Purges(sample) =>
      if sample > w.now then after == w
      else
        && after.entries == Purged(w.entries, sample, cfg.purgeAfter)
        && |after.changes| >= |w.changes| && after.changes[..|w.changes|] == w.changes
        && LogsPurge(w.entries, after.entries, after.changes[|w.changes|..])
        && after == w.(entries := after.entries, changes := after.changes)
  }

  /** A run: worlds in which each follows from the one before by one step. */
  ghost predicate Run(cfg: Config, worlds: seq<World>, steps: seq<Step>) {
    && |worlds| == |steps| + 1
    && worlds[0].entries == map[] && worlds[0].clients == map[] && worlds[0].changes == []
    && forall i :: 0 <= i < |steps| ==> Advances(cfg, worlds[i], steps[i], worlds[i + 1])
  }

  // ---- the invariant ----

  /** A cached value older than the client's latest sample is the one the client was sent. */
  ghost predicate Delivered(w: World, client: Client) {
    && client.lastSample <= w.now
    && (client.phase.Looking? ==> client.tracked.Some?)
    && (client.phase.Looking? && client.phase.changed ==> client.sent.None? && client.latest.None?)
    && (client.sent.Some? && client.spaced && client.tracked.Some? ==>
          && client.latest == client.sent
          && (client.tracked.value in w.entries && w.entries[client.tracked.value].firstSeen < client.lastSample ==>
                Some(w.entries[client.tracked.value].value) == client.sent))
    && (client.sent.Some? <==> client.entered || client.young)
  }

  ghost predicate AllDelivered(w: World) {
    forall c :: c in w.clients ==> Delivered(w, w.clients[c])
  }

  lemma DeliverKeeps(cfg: Config, w: World, client: Client, answer: Answer, sample: nat)
    requires Delivered(w, client) && client.phase.Looking? && sample <= w.now
    requires client.tracked.value in w.entries && answer.value == w.entries[client.tracked.value].value
    requires answer.age == Since(sample, w.entries[client.tracked.value].firstSeen)
    ensures Delivered(w, Deliver(cfg, client, answer, sample))
  {
  }

  /** Storing an answer touches no client's past: a new value is younger than every sample. */
  lemma StoringKeeps(w: World, client: Client, key: Key, value: Value)
    requires Delivered(w, client)
    ensures Delivered(w.(entries := Stored(w.entries, key, value, w.now)), client)
  {
  }

  lemma PurgingKeeps(w: World, client: Client, sample: nat, purgeAfter: nat)
    requires Delivered(w, client)
    ensures Delivered(w.(entries := Purged(w.entries, sample, purgeAfter)), client)
  {
  }

  lemma FetchKeeps(cfg: Config, w: World, c: ClientId, value: Value, after: World)
    requires AllDelivered(w) && Advances(cfg, w, Fetches(c, value), after)
    ensures AllDelivered(after)
  {
    if c in w.clients && w.clients[c].phase.Looking? {
      var client := w.clients[c];
      var key := client.tracked.value;
      var mid := w.(entries := Stored(w.entries, key, value, w.now));
      forall x | x in after.clients ensures Delivered(after, after.clients[x]) {
        StoringKeeps(w, w.clients[x], key, value);
        if x == c {
          DeliverKeeps(cfg, mid, client, Answer(Since(w.now, mid.entries[key].firstSeen), value), w.now);
        }
        hide Delivered, Deliver, Stored;
        SameForClient(mid, after, after.clients[x]);
      }
    }
  }

  lemma SameForClient(w: World, after: World, client: Client)
    requires Delivered(w, client) && after.now >= w.now && after.entries == w.entries
    ensures Delivered(after, client)
  {
  }

  lemma HitKeeps(cfg: Config, w: World, c: ClientId, sample: nat, after: World)
    requires AllDelivered(w) && Advances(cfg, w, HitsAt(c, sample), after)
    ensures AllDelivered(after)
  {
    if after != w {
      var client := w.clients[c];
      var answer := Hit(w.entries, client.tracked.value, cfg.ttl, sample).value;
      DeliverKeeps(cfg, w, client, answer, sample);
      forall x | x in after.clients ensures Delivered(after, after.clients[x]) {
        hide Delivered, Deliver, Hit;
        SameForClient(w, after, after.clients[x]);
      }
    }
  }

  lemma PurgeKeeps(cfg: Config, w: World, sample: nat, after: World)
    requires AllDelivered(w) && Advances(cfg, w, Purges(sample), after)
    ensures AllDelivered(after)
  {
    hide LogsPurge;
    if sample <= w.now {
      forall x | x in after.clients ensures Delivered(after, after.clients[x]) {
        PurgingKeeps(w, w.clients[x], sample, cfg.purgeAfter);
        hide Delivered, Purged;
        SameForClient(w.(entries := after.entries), after, after.clients[x]);
      }
    }
  }

  lemma StepDelivers(cfg: Config, w: World, s: Step, after: World)
    requires AllDelivered(w) && Advances(cfg, w, s, after)
    ensures AllDelivered(after)
  {
    match s
    case HitsAt(c, sample) => HitKeeps(cfg, w, c, sample, after);
    case Fetches(c, value) => FetchKeeps(cfg, w, c, value, after);
    case Purges(sample) => PurgeKeeps(cfg, w, sample, after);
    case _ =>
  }

  lemma {:induction false} RunDelivers(cfg: Config, worlds: seq<World>, steps: seq<Step>, i: nat)
    requires Run(cfg, worlds, steps) && i <= |steps|
    ensures AllDelivered(worlds[i])
  {
    hide AllDelivered, Advances;
    if i > 0 {
      RunDelivers(cfg, worlds, steps, i - 1);
      StepDelivers(cfg, worlds[i - 1], steps[i - 1], worlds[i]);
    } else {
      NoClients(worlds[0]);
    }
  }

  lemma NoClients(w: World)
    requires w.clients == map[]
    ensures AllDelivered(w)
  {
  }

  // ---- delivery ----

  /**
   After every successful ping of a client whose lookups were judged at most `sendTtl`
   apart, what was last sent to it for its map is what the cache answered - if and only
   if the ping that brought it to the map succeeded or some answer since was young.
   */
  lemma LastSentIsLatestIff(cfg: Config, worlds: seq<World>, steps: seq<Step>, i: nat, c: ClientId)
    requires Run(cfg, worlds, steps) && i <= |steps| && c in worlds[i].clients
    requires var client := worlds[i].clients[c];
             client.tracked.Some? && client.phase.Resting? && client.latest.Some? && client.spaced
    ensures var client := worlds[i].clients[c];
            client.sent == client.latest <==> client.entered || client.young
  {
    RunDelivers(cfg, worlds, steps, i);
    hide Run;
  }

  // ---- the ping that fails ----

  /**
   The map check runs before the lookup and is not undone when the lookup fails. Here
   client 1 keeps the entry warm; client 2's first ping on the map fails, and its next
   one finds a value too old to be sent: it has been sent nothing and will not be while
   the value stays.
   */
  lemma FailedFirstPingIsNeverMadeUp() returns (worlds: seq<World>, steps: seq<Step>)
    ensures Run(Config(9000, 11000, 600000), worlds, steps)
    ensures var end := worlds[|steps|];
            && 2 in end.clients && end.clients[2].latest == Some(7) && end.clients[2].sent == None
                && end.clients[2].spaced
  {
    var cfg := Config(9000, 11000, 600000);
    steps := [Ping(1, Some(5)), Fetches(1, 7), Tick(9000), Ping(2, Some(5)), Fails(2), Ping(1, Some(5)), Fetches(1, 7),
              Tick(8000), Ping(2, Some(5)), HitsAt(2, 17000)];
    var c0 := NewClient();
    var a1 := Client(Some(5), Looking(true), None, 0, None, false, false, true);
    var a2 := Client(Some(5), Resting, Some(7), 0, Some(7), true, true, true);
    var a3 := a2.(phase := Looking(false));
    var a4 := a2.(lastSample := 9000);
    var b2 := Client(Some(5), Resting, None, 0, None, false, false, true);
    var b3 := b2.(phase := Looking(false));
    var b4 := b2.(lastSample := 17000, latest := Some(7));
    var e1, e2 := map[5 := Entry(7, 0, 0)], map[5 := Entry(7, 0, 9000)];
    var p1, p2 := [Put(5, 7, 0)], [Put(5, 7, 0), Put(5, 7, 9000)];
    var w0 := World(0, map[], map[], []);
    var w1 := World(0, map[], map[1 := a1], []);
    var w2 := World(0, e1, map[1 := a2], p1);
    var w3 := World(9000, e1, map[1 := a2], p1);
    var w4 := World(9000, e1, map[1 := a2, 2 := a1], p1);
    var w5 := World(9000, e1, map[1 := a2, 2 := b2], p1);
    var w6 := World(9000, e1, map[1 := a3, 2 := b2], p1);
    var w7 := World(9000, e2, map[1 := a4, 2 := b2], p2);
    var w8 := World(17000, e2, map[1 := a4, 2 := b2], p2);
    var w9 := World(17000, e2, map[1 := a4, 2 := b3], p2);
    var w10 := World(17000, e2, map[1 := a4, 2 := b4], p2);
    worlds := [w0, w1, w2, w3, w4, w5, w6, w7, w8, w9, w10];
    assert Advances(cfg, w0, steps[0], w1);
    assert Advances(cfg, w1, steps[1], w2);
    assert Advances(cfg, w2, steps[2], w3);
    assert Advances(cfg, w3, steps[3], w4);
    assert Advances(cfg, w4, steps[4], w5);
    assert Advances(cfg, w5, steps[5], w6);
    assert Advances(cfg, w6, steps[6], w7);
    assert Advances(cfg, w7, steps[7], w8);
    assert Advances(cfg, w8, steps[8], w9);
    assert Advances(cfg, w9, steps[9], w10);
    hide Advances;
    forall i | 0 <= i < 10 ensures Advances(cfg, worlds[i], steps[i], worlds[i + 1]) {
    }
  }

  // ---- what an age means ----

  ghost predicate SameAfter(changes: seq<Change>, key: Key, value: Value, i: nat) {
    forall j :: i <= j < |changes| && changes[j].key == key ==> changes[j].Put? && changes[j].value == value
  }

  /**
   Nothing before `i` could have begun the age earlier: the change of this key before it,
   if any, was another value or a removal.
   */
  ghost predicate BeginsAt(changes: seq<Change>, key: Key, value: Value, i: nat) {
    || (forall j :: 0 <= j < i && j < |changes| ==> changes[j].key != key)
    || exists j ::
         0 <= j < i && j < |changes| && changes[j].key == key && (changes[j].Put? ==> changes[j].value != value)
                   && forall k :: j < k < i && k < |changes| ==> changes[k].key != key
  }

  /** The first of the latest unbroken run of equal answers. */
  ghost predicate RunStart(changes: seq<Change>, key: Key, entry: Entry, i: nat) {
    && i < |changes| && changes[i] == Put(key, entry.value, entry.firstSeen)
    && SameAfter(changes, key, entry.value, i)
    && BeginsAt(changes, key, entry.value, i)
  }

  /** A key without an entry was never stored, or has been removed since. */
  ghost predicate Absent(changes: seq<Change>, key: Key) {
    || (forall j :: 0 <= j < |changes| ==> changes[j].key != key)
    || exists j :: 0 <= j < |changes| && changes[j] == Removed(key) && forall k :: j < k < |changes| ==>
        changes[k].key != key
  }

  ghost predicate Explained(w: World, key: Key) {
    if key in w.entries then exists i :: RunStart(w.changes, key, w.entries[key], i) else Absent(w.changes, key)
  }

  lemma OtherChangeKeeps(changes: seq<Change>, x: Change, key: Key, entry: Entry, i: nat)
    requires RunStart(changes, key, entry, i) && (x.key == key ==> x.Put? && x.value == entry.value)
    ensures RunStart(changes + [x], key, entry, i)
  {
    var after := changes + [x];
    assert forall j :: 0 <= j < |changes| ==> after[j] == changes[j];
    if exists j :: 0 <= j < i && j < |changes| && changes[j].key == key {
      var j :|
        0 <= j < i && j < |changes| && changes[j].key == key && (changes[j].Put? ==> changes[j].value != entry.value)
               && forall k :: j < k < i && k < |changes| ==> changes[k].key != key;
      assert after[j].key == key;
    }
  }

  lemma NewRun(changes: seq<Change>, key: Key, value: Value, at: nat)
    requires Absent(changes, key)
    ensures RunStart(changes + [Put(key, value, at)], key, Entry(value, at, at), |changes|)
  {
    var after := changes + [Put(key, value, at)];
    assert forall j :: 0 <= j < |changes| ==> after[j] == changes[j];
    if exists j :: 0 <= j < |changes| && changes[j].key == key {
      var j :| 0 <= j < |changes| && changes[j] == Removed(key) && forall k :: j < k < |changes| ==>
          changes[k].key != key;
      assert after[j].key == key;
    }
  }

  lemma LastOf(changes: seq<Change>, key: Key, n: nat) returns (j: nat)
    requires n <= |changes| && exists i :: 0 <= i < n && changes[i].key == key
    ensures j < n && changes[j].key == key && forall k :: j < k < n ==> changes[k].key != key
  {
    j := n - 1;
    while changes[j].key != key
      invariant j < n && forall k :: j < k < n ==> changes[k].key != key
      invariant exists i :: 0 <= i <= j && changes[i].key == key
      decreases j
    {
      j := j - 1;
    }
  }

  lemma BrokenRun(changes: seq<Change>, key: Key, old_: Entry, i: nat, value: Value, at: nat)
    requires RunStart(changes, key, old_, i) && old_.value != value
    ensures RunStart(changes + [Put(key, value, at)], key, Entry(value, at, at), |changes|)
  {
    var after := changes + [Put(key, value, at)];
    assert forall j :: 0 <= j < |changes| ==> after[j] == changes[j];
    assert changes[i].key == key;
    var j := LastOf(changes, key, |changes|);
    assert after[j].key == key && after[j].value != value;
  }

  /** A store explains the key stored, and leaves the others explained. */
  lemma StoreExplains(w: World, after: World, key: Key, value: Value, other: Key)
    requires Explained(w, other) && Explained(w, key)
    requires after.entries == Stored(w.entries, key, value, w.now)
          && after.changes == w.changes + [Put(key, value, w.now)]
    ensures Explained(after, other)
  {
    var x := Put(key, value, w.now);
    if other != key {
      if other in w.entries {
        var i :| RunStart(w.changes, other, w.entries[other], i);
        OtherChangeKeeps(w.changes, x, other, w.entries[other], i);
      } else {
        AbsentStays(w.changes, x, other);
      }
    } else if key !in w.entries {
      NewRun(w.changes, key, value, w.now);
    } else {
      var i :| RunStart(w.changes, key, w.entries[key], i);
      if w.entries[key].value == value {
        OtherChangeKeeps(w.changes, x, key, w.entries[key], i);
        SameRun(after.changes, key, w.entries[key], after.entries[key], i);
      } else {
        BrokenRun(w.changes, key, w.entries[key], i, value, w.now);
      }
    }
  }

  lemma SameRun(changes: seq<Change>, key: Key, a: Entry, b: Entry, i: nat)
    requires RunStart(changes, key, a, i) && a.value == b.value && a.firstSeen == b.firstSeen
    ensures RunStart(changes, key, b, i)
  {
  }

  lemma AbsentStays(changes: seq<Change>, x: Change, key: Key)
    requires Absent(changes, key) && x.key != key
    ensures Absent(changes + [x], key)
  {
    var after := changes + [x];
    assert forall j :: 0 <= j < |changes| ==> after[j] == changes[j];
    if exists j :: 0 <= j < |changes| && changes[j].key == key {
      var j :| 0 <= j < |changes| && changes[j] == Removed(key) && forall k :: j < k < |changes| ==>
          changes[k].key != key;
      assert after[j] == Removed(key);
    }
  }

  lemma {:induction false} PurgeExplains(w: World, after: World, removed: seq<Change>, key: Key)
    requires Explained(w, key) && LogsPurge(w.entries, after.entries, removed) && after.changes == w.changes + removed
    requires forall k :: k in after.entries ==> k in w.entries && after.entries[k] == w.entries[k]
    ensures Explained(after, key)
  {
    if key in after.entries {
      var i :| RunStart(w.changes, key, w.entries[key], i);
      RemovalsOfOthers(w.changes, removed, key, w.entries[key], i);
    } else if key in w.entries {
      var j :| 0 <= j < |removed| && removed[j] == Removed(key);
      RemovedIsAbsent(w.changes, removed, key, j);
    } else {
      AbsentAfter(w.changes, removed, key);
    }
  }

  lemma {:induction false} RemovalsOfOthers(changes: seq<Change>, removed: seq<Change>, key: Key, entry: Entry, i: nat)
    requires RunStart(changes, key, entry, i) && forall j :: 0 <= j < |removed| ==> removed[j].key != key
    ensures RunStart(changes + removed, key, entry, i)
  {
    if removed == [] {
      assert changes + removed == changes;
    } else {
      RemovalsOfOthers(changes, removed[..|removed| - 1], key, entry, i);
      OtherChangeKeeps(changes + removed[..|removed| - 1], removed[|removed| - 1], key, entry, i);
      assert changes + removed == (changes + removed[..|removed| - 1]) + [removed[|removed| - 1]];
    }
  }

  lemma RemovedIsAbsent(changes: seq<Change>, removed: seq<Change>, key: Key, j: nat)
    requires j < |removed| && removed[j] == Removed(key) && forall i :: 0 <= i < |removed| ==> removed[i].Removed?
    ensures Absent(changes + removed, key)
  {
    var all := changes + removed;
    assert all[|changes| + j].key == key;
    var last := LastOf(all, key, |all|);
    assert last >= |changes| + j;
    assert all[last] == removed[last - |changes|];
  }

  lemma {:induction false} AbsentAfter(changes: seq<Change>, removed: seq<Change>, key: Key)
    requires Absent(changes, key) && forall i :: 0 <= i < |removed| ==> removed[i].key != key
    ensures Absent(changes + removed, key)
  {
    if removed == [] {
      assert changes + removed == changes;
    } else {
      AbsentAfter(changes, removed[..|removed| - 1], key);
      AbsentStays(changes + removed[..|removed| - 1], removed[|removed| - 1], key);
      assert changes + removed == (changes + removed[..|removed| - 1]) + [removed[|removed| - 1]];
    }
  }

  lemma {:induction false} RunExplains(cfg: Config, worlds: seq<World>, steps: seq<Step>, i: nat, key: Key)
    requires Run(cfg, worlds, steps) && i <= |steps|
    ensures Explained(worlds[i], key)
  {
    if i > 0 {
      var w, after, s := worlds[i - 1], worlds[i], steps[i - 1];
      assert Advances(cfg, w, s, after);
      RunExplains(cfg, worlds, steps, i - 1, key);
      if s.Fetches? && s.c in w.clients && w.clients[s.c].phase.Looking? && w.clients[s.c].tracked.Some? {
        RunExplains(cfg, worlds, steps, i - 1, w.clients[s.c].tracked.value);
        hide Run, Explained, Deliver, Stored;
        StoreExplains(w, after, w.clients[s.c].tracked.value, s.value, key);
      } else if s.Purges? && s.sample <= w.now {
        hide Run, Explained, LogsPurge;
        assert after.changes == w.changes + after.changes[|w.changes|..];
        PurgeExplains(w, after, after.changes[|w.changes|..], key);
      } else {
        hide Run, Explained, Deliver, Hit;
        NothingStored(cfg, w, s, after);
        SameExplanation(w, after, key);
      }
    }
  }

  lemma NothingStored(cfg: Config, w: World, s: Step, after: World)
    requires Advances(cfg, w, s, after)
    requires s.Fetches? ==> !(s.c in w.clients && w.clients[s.c].phase.Looking?)
    requires s.Purges? ==> s.sample > w.now
    ensures after.entries == w.entries && after.changes == w.changes
  {
    hide Deliver, Hit, StartPing, LogsPurge, Purged, Stored;
  }

  lemma SameExplanation(w: World, after: World, key: Key)
    requires Explained(w, key) && after.entries == w.entries && after.changes == w.changes
    ensures Explained(after, key)
  {
  }

  /**
   An entry's age counts from the earliest instant since which every answer stored for
   it was equal; a removal ends that run, and a reinsertion begins a new one.
   */
  lemma FirstSeenBeginsTheRun(cfg: Config, worlds: seq<World>, steps: seq<Step>, n: nat, key: Key) returns (i: nat)
    requires Run(cfg, worlds, steps) && n <= |steps| && key in worlds[n].entries
    ensures RunStart(worlds[n].changes, key, worlds[n].entries[key], i)
  {
    RunExplains(cfg, worlds, steps, n, key);
    hide Run, RunStart;
    i :| RunStart(worlds[n].changes, key, worlds[n].entries[key], i);
  }

  // ---- what is served, told from the log ----

  /** The latest change of a key. */
  function LastChange(changes: seq<Change>, key: Key): Option<Change> {
    if changes == [] then None
    else if changes[|changes| - 1].key == key then Some(changes[|changes| - 1])
    else LastChange(changes[..|changes| - 1], key)
  }

  /** The entry of a key is its latest change: the value stored last, checked when it was stored. */
  ghost predicate Remembered(entries: map<Key, Entry>, changes: seq<Change>, key: Key) {
    match LastChange(changes, key)
    case Some(Put(_, value, at)) => key in entries && entries[key].value == value && entries[key].lastChecked == at
    case _ => key !in entries
  }

  lemma {:induction false} OneMoreChange(changes: seq<Change>, x: Change, key: Key)
    ensures LastChange(changes + [x], key) == if x.key == key then Some(x) else LastChange(changes, key)
  {
    assert (changes + [x])[..|changes|] == changes;
  }

  lemma {:induction false} MoreChanges(changes: seq<Change>, removed: seq<Change>, key: Key)
    requires forall i :: 0 <= i < |removed| ==> removed[i].Removed?
    ensures LastChange(changes + removed, key)
         == if Removed(key) in removed then Some(Removed(key)) else LastChange(changes, key)
  {
    if removed == [] {
      assert changes + removed == changes;
    } else {
      var most, x := removed[..|removed| - 1], removed[|removed| - 1];
      assert removed == most + [x];
      MoreChanges(changes, most, key);
      OneMoreChange(changes + most, x, key);
      assert changes + removed == (changes + most) + [x];
    }
  }

  lemma StoreRemembers(entries: map<Key, Entry>, changes: seq<Change>, key: Key, value: Value, at: nat, other: Key)
    requires Remembered(entries, changes, other)
    ensures Remembered(Stored(entries, key, value, at), changes + [Put(key, value, at)], other)
  {
    OneMoreChange(changes, Put(key, value, at), other);
  }

  lemma PurgeRemembers(entries: map<Key, Entry>, changes: seq<Change>, sample: nat, purgeAfter: nat,
                       removed: seq<Change>, key: Key)
    requires Remembered(entries, changes, key) && LogsPurge(entries, Purged(entries, sample, purgeAfter), removed)
    ensures Remembered(Purged(entries, sample, purgeAfter), changes + removed, key)
  {
    MoreChanges(changes, removed, key);
  }

  lemma {:induction false} RunRemembers(cfg: Config, worlds: seq<World>, steps: seq<Step>, n: nat, key: Key)
    requires Run(cfg, worlds, steps) && n <= |steps|
    ensures Remembered(worlds[n].entries, worlds[n].changes, key)
  {
    if n > 0 {
      var w, after, s := worlds[n - 1], worlds[n], steps[n - 1];
      assert Advances(cfg, w, s, after);
      RunRemembers(cfg, worlds, steps, n - 1, key);
      hide Run, Remembered, Deliver, Stored, Hit;
      if s.Fetches? && s.c in w.clients && w.clients[s.c].phase.Looking? && w.clients[s.c].tracked.Some? {
        StoreRemembers(w.entries, w.changes, w.clients[s.c].tracked.value, s.value, w.now, key);
      } else if s.Purges? && s.sample <= w.now {
        hide LogsPurge, Purged;
        assert after.changes == w.changes + after.changes[|w.changes|..];
        PurgeRemembers(w.entries, w.changes, s.sample, cfg.purgeAfter, after.changes[|w.changes|..], key);
      } else {
        NothingStored(cfg, w, s, after);
      }
    }
  }

  /** The value the log has for a key, if it was stored less than `ttl` before the sample. */
  function Servable(changes: seq<Change>, key: Key, ttl: nat, sample: nat): Option<Value> {
    match LastChange(changes, key)
    case Some(Put(_, value, at)) => if at + ttl > sample then Some(value) else None
    case _ => None
  }

  /**
   A lookup judged at a sample answers if and only if the latest change of its key stored a
   value less than `ttl` before, and then with that value; otherwise it misses. So no
   value is served that was last stored `ttl` or more before.
   */
  lemma ServedIffStoredWithinTtl(cfg: Config, worlds: seq<World>, steps: seq<Step>, n: nat, c: ClientId, sample: nat,
                                 after: World)
    requires Run(cfg, worlds, steps) && n <= |steps| && c in worlds[n].clients && sample <= worlds[n].now
    requires worlds[n].clients[c].phase.Looking? && Advances(cfg, worlds[n], HitsAt(c, sample), after)
    ensures worlds[n].clients[c].tracked.Some?
    ensures match Servable(worlds[n].changes, worlds[n].clients[c].tracked.value, cfg.ttl, sample)
            case Some(value) =>
              c in after.clients && after.clients[c].phase.Resting? && after.clients[c].latest == Some(value)
            case None => after == worlds[n]
  {
    RunRemembers(cfg, worlds, steps, n, worlds[n].clients[c].tracked.value);
    hide Run;
  }

  /** A purge at a sample removes exactly the keys whose value was stored `purgeAfter` or more before it. */
  lemma {:induction false} PurgedIffStoredLongAgo(cfg: Config, worlds: seq<World>, steps: seq<Step>, n: nat,
                                                  sample: nat, key: Key,
                               after: World)
    requires Run(cfg, worlds, steps) && n <= |steps| && sample <= worlds[n].now
    requires Advances(cfg, worlds[n], Purges(sample), after)
    ensures var last, now := LastChange(worlds[n].changes, key), LastChange(after.changes, key);
            if last.Some? && last.value.Put? && Since(sample, last.value.at) >= cfg.purgeAfter
            then now == Some(Removed(key)) else now == last
  {
    RunRemembers(cfg, worlds, steps, n, key);
    hide Run;
    var removed := after.changes[|worlds[n].changes|..];
    assert after.changes == worlds[n].changes + removed;
    MoreChanges(worlds[n].changes, removed, key);
  }

  // ---- what a ping sends ----

  /** Until its lookup ends a client's ping stays as it began. */
  lemma {:induction false} LookupGoesOn(cfg: Config, worlds: seq<World>, steps: seq<Step>, i: nat, j: nat, c: ClientId)
    requires Run(cfg, worlds, steps) && i <= j <= |steps|
    requires forall x :: i <= x <= j ==> c in worlds[x].clients && worlds[x].clients[c].phase.Looking?
    ensures worlds[j].clients[c] == worlds[i].clients[c]
    decreases j - i
  {
    if i < j {
      LookupGoesOn(cfg, worlds, steps, i, j - 1, c);
      assert Advances(cfg, worlds[j - 1], steps[j - 1], worlds[j]);
      hide Run, Stored, Hit, Purged, LogsPurge;
    }
  }

  /** The key of the latest ping of a client that was not already looking; none before the first. */
  function LastPinged(worlds: seq<World>, steps: seq<Step>, i: nat, c: ClientId): Option<Option<Key>>
    requires i <= |steps| < |worlds|
  {
    if i == 0 then None
    else if steps[i - 1].Ping? && steps[i - 1].c == c
            && (c in worlds[i - 1].clients ==> worlds[i - 1].clients[c].phase.Resting?) then Some(steps[i - 1].key)
    else LastPinged(worlds, steps, i - 1, c)
  }

  /** What a client tracks is what it last pinged for. */
  lemma {:induction false} TracksLastPinged(cfg: Config, worlds: seq<World>, steps: seq<Step>, i: nat, c: ClientId)
    requires Run(cfg, worlds, steps) && i <= |steps|
    ensures c in worlds[i].clients <==> LastPinged(worlds, steps, i, c).Some?
    ensures c in worlds[i].clients ==> Some(worlds[i].clients[c].tracked) == LastPinged(worlds, steps, i, c)
  {
    if i > 0 {
      TracksLastPinged(cfg, worlds, steps, i - 1, c);
      assert Advances(cfg, worlds[i - 1], steps[i - 1], worlds[i]);
      hide Run, Advances;
      TrackedMoves(cfg, worlds[i - 1], steps[i - 1], worlds[i], c);
    }
  }

  /** A step changes what a client tracks only by a ping of that client. */
  lemma TrackedMoves(cfg: Config, w: World, s: Step, after: World, c: ClientId)
    requires Advances(cfg, w, s, after)
    ensures var pings := s.Ping? && s.c == c && (c in w.clients ==> w.clients[c].phase.Resting?);
            && (c in after.clients <==> pings || c in w.clients)
            && (c in after.clients ==> after.clients[c].tracked == if pings then s.key else w.clients[c].tracked)
  {
    hide Stored, Hit, Purged, LogsPurge;
  }

  /** What the steps of one ping do to its client. */
  lemma PingBegins(cfg: Config, w: World, c: ClientId, key: Key, after: World)
    requires Advances(cfg, w, Ping(c, Some(key)), after)
    requires c in w.clients ==> w.clients[c].phase.Resting?
    ensures c in after.clients && after.clients[c].tracked == Some(key)
    ensures after.clients[c].phase == Looking(c !in w.clients || w.clients[c].tracked != Some(key))
  {
  }

  lemma LookupSends(cfg: Config, w: World, s: Step, c: ClientId, after: World)
    requires Advances(cfg, w, s, after) && c in w.clients && w.clients[c].phase.Looking? && w.clients[c].tracked.Some?
    requires (s.HitsAt? || s.Fetches?) && s.c == c && c in after.clients && after.clients[c].phase.Resting?
    ensures var key, at := w.clients[c].tracked.value, if s.HitsAt? then s.sample else w.now;
            && key in after.entries && after.clients[c].latest == Some(after.entries[key].value)
            && after.clients[c].sent
               == if w.clients[c].phase.changed || Since(at, after.entries[key].firstSeen) <= cfg.sendTtl
                  then Some(after.entries[key].value) else w.clients[c].sent
  {
  }

  /**
   A ping whose lookup succeeds sends the value if and only if the client's ping before was
   not for the same map, or the present run of equal answers began at most `sendTtl` before.
   */
  lemma SentIffEnteredOrYoung(cfg: Config, worlds: seq<World>, steps: seq<Step>, i: nat, j: nat, c: ClientId, key: Key)
    returns (r: nat)
    requires Run(cfg, worlds, steps) && i < j < |steps| && steps[i] == Ping(c, Some(key))
    requires c in worlds[i].clients ==> worlds[i].clients[c].phase.Resting?
    requires forall x :: i < x <= j ==> c in worlds[x].clients && worlds[x].clients[c].phase.Looking?
    requires (steps[j].HitsAt? || steps[j].Fetches?) && steps[j].c == c
    requires c in worlds[j + 1].clients && worlds[j + 1].clients[c].phase.Resting?
    ensures key in worlds[j + 1].entries
    ensures RunStart(worlds[j + 1].changes, key, worlds[j + 1].entries[key], r)
    ensures var began, entered := worlds[j + 1].changes[r],
                                  LastPinged(worlds, steps, i, c) != Some(Some(key));
            var at := if steps[j].HitsAt? then steps[j].sample else worlds[j].now;
            && worlds[j + 1].clients[c].latest == Some(began.value)
            && worlds[j + 1].clients[c].sent
               == if entered || Since(at, began.at) <= cfg.sendTtl then Some(began.value) else worlds[j].clients[c].sent
  {
    assert Advances(cfg, worlds[i], steps[i], worlds[i + 1]) && Advances(cfg, worlds[j], steps[j], worlds[j + 1]);
    LookupGoesOn(cfg, worlds, steps, i + 1, j, c);
    TracksLastPinged(cfg, worlds, steps, i, c);
    hide Run, Advances, LastPinged;
    PingBegins(cfg, worlds[i], c, key, worlds[i + 1]);
    LookupSends(cfg, worlds[j], steps[j], c, worlds[j + 1]);
    r := FirstSeenBeginsTheRun(cfg, worlds, steps, j + 1, key);
  }
}
