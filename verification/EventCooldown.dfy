/** Per-key cooldown of integration events, with eviction of the oldest keys. */
module EventCooldown {
  import opened Wrappers

  const MAX_SIZE := 500
  const KEEP := 250      // half of it

  datatype Event = Event(integrationType: string, eventType: string, clientId: Option<string>,
                         cooldownSeconds: Option<real>, category: string)
  {
    /** The client, or else the integration, with the event type. */
    function Key(): string {
      (if clientId.Some? && clientId.value != "" then clientId.value else integrationType) + ":" + eventType
    }

    function EffectiveCooldown(): real {
      if cooldownSeconds.Some? then cooldownSeconds.value
      else if category == "message" then 300.0
      else if category == "poll" then 60.0
      else if category == "device" then 30.0
      else 0.0
    }
  }

  datatype Firing = Firing(key: string, time: real)

  /** Index of the latest firing of the key, or -1. */
  function Latest(history: seq<Firing>, key: string): (i: int)
    ensures i == -1 ==> forall j :: 0 <= j < |history| ==> history[j].key != key
    ensures i != -1 ==> 0 <= i < |history| && history[i].key == key
                        && forall j :: i < j < |history| ==> history[j].key != key
  {
    if history == [] then -1
    else if history[|history| - 1].key == key then |history| - 1
    else Latest(history[..|history| - 1], key)
  }

  /** The keys that fired after index `i`. */
  function KeysAfter(history: seq<Firing>, i: int): set<string> {
    set j | i < j < |history| && 0 <= j :: history[j].key
  }

  predicate Increasing(history: seq<Firing>) {
    forall i, j :: 0 <= i < j < |history| ==> history[i].time < history[j].time
  }

  /** The table holds latest firings; a key that fired but is missing has been overtaken by many others. */
  ghost predicate Tracks(table: map<string, real>, history: seq<Firing>) {
    && Increasing(history)
    && (forall k :: k in table ==> Latest(history, k) >= 0 && table[k] == history[Latest(history, k)].time)
    && (forall k :: Latest(history, k) >= 0 && k !in table ==> |KeysAfter(history, Latest(history, k))| >= KEEP)
  }

  lemma {:induction false} SubsetCount(a: set<string>, b: set<string>)
    requires a <= b
    ensures |a| <= |b|
  {
    if a != {} {
      var x :| x in a;
      SubsetCount(a - {x}, b - {x});
    }
  }

  lemma LatestSnoc(history: seq<Firing>, f: Firing, key: string)
    ensures Latest(history + [f], key) == if f.key == key then |history| else Latest(history, key)
  {
    assert (history + [f])[..|history|] == history;
  }

  lemma IncreasingSnoc(history: seq<Firing>, f: Firing)
    requires Increasing(history) && (history != [] ==> history[|history| - 1].time < f.time)
    ensures Increasing(history + [f])
  {
    var grown := history + [f];
    forall i, j | 0 <= i < j < |grown| ensures grown[i].time < grown[j].time {
      if j == |history| && i < |history| - 1 { assert history[i].time < history[|history| - 1].time; }
    }
  }

  /** A firing is recorded. */
  lemma FiringTracked(table: map<string, real>, history: seq<Firing>, key: string, now: real)
    requires Tracks(table, history) && (history != [] ==> history[|history| - 1].time < now)
    ensures Tracks(table[key := now], history + [Firing(key, now)])
  {
    hide Latest, KeysAfter, Increasing;
    var f := Firing(key, now);
    var grown, updated := history + [f], table[key := now];
    IncreasingSnoc(history, f);
    forall k ensures k in updated ==> Latest(grown, k) >= 0 && updated[k] == grown[Latest(grown, k)].time {
      LatestSnoc(history, f, k);
    }
    forall k | Latest(grown, k) >= 0 && k !in updated ensures |KeysAfter(grown, Latest(grown, k))| >= KEEP {
      LatestSnoc(history, f, k);
      AfterGrows(history, f, Latest(history, k));
    }
  }

  lemma AfterGrows(history: seq<Firing>, f: Firing, i: int)
    ensures |KeysAfter(history, i)| <= |KeysAfter(history + [f], i)|
  {
    var grown := history + [f];
    forall k | k in KeysAfter(history, i) ensures k in KeysAfter(grown, i) {
      var j :| i < j < |history| && 0 <= j && history[j].key == k;
      assert grown[j] == history[j];
    }
    SubsetCount(KeysAfter(history, i), KeysAfter(grown, i));
  }

  /** `kept` is a part of the table that is nowhere older than the rest. */
  predicate NewestPart(table: map<string, real>, kept: map<string, real>) {
    && kept.Keys <= table.Keys && (forall k :: k in kept ==> kept[k] == table[k])
    && forall a, b :: a in kept && b in table && b !in kept ==> table[b] <= table[a]
  }

  /** The oldest keys may go, once enough newer ones are kept. */
  lemma EvictionTracked(table: map<string, real>, kept: map<string, real>, history: seq<Firing>)
    requires Tracks(table, history) && |kept| >= KEEP && NewestPart(table, kept)
    ensures Tracks(kept, history)
  {
    hide Latest, KeysAfter, Increasing;
    forall k | Latest(history, k) >= 0 && k !in kept ensures |KeysAfter(history, Latest(history, k))| >= KEEP {
      if k in table { NewerKept(table, kept, history, k); }
    }
  }

  lemma NewerKept(table: map<string, real>, kept: map<string, real>, history: seq<Firing>, key: string)
    requires Tracks(table, history) && NewestPart(table, kept) && key in table && key !in kept
    ensures |kept| <= |KeysAfter(history, Latest(history, key))|
  {
    var i := Latest(history, key);
    forall a | a in kept.Keys ensures a in KeysAfter(history, i) {
      LaterFiring(table, history, key, a);
      assert history[Latest(history, a)].key == a;
    }
    SubsetCount(kept.Keys, KeysAfter(history, i));
  }

  /** A key with no older entry fired later. */
  lemma LaterFiring(table: map<string, real>, history: seq<Firing>, key: string, other: string)
    requires Tracks(table, history) && key in table && other in table && other != key && table[key] <= table[other]
    ensures 0 <= Latest(history, key) < Latest(history, other) < |history|
  {
    hide Tracks, Latest;
    TrackedEntry(table, history, key);
    TrackedEntry(table, history, other);
    EarlierIsBefore(history, Latest(history, key), Latest(history, other));
  }

  lemma TrackedEntry(table: map<string, real>, history: seq<Firing>, key: string)
    requires Tracks(table, history) && key in table
    ensures var i := Latest(history, key); 0 <= i < |history| && history[i] == Firing(key, table[key])
    ensures Increasing(history)
  {
    hide KeysAfter, Increasing;
  }

  lemma EarlierIsBefore(history: seq<Firing>, i: nat, j: nat)
    requires Increasing(history) && i < |history| && j < |history| && history[i].time <= history[j].time
    ensures i <= j
  {}

  // ---------------------------------------------------------------- sorting

  lemma OldestExists(table: map<string, real>, keys: set<string>) returns (k: string)
    requires keys != {} && keys <= table.Keys
    ensures k in keys && forall j :: j in keys ==> table[k] <= table[j]
  {
    k :| k in keys;
    if keys != {k} {
      var other := OldestExists(table, keys - {k});
      if table[other] <= table[k] { k := other; }
    }
  }

  /** Distinct keys of the table, oldest first. */
  predicate Ascending(table: map<string, real>, keys: seq<string>) {
    && (forall i :: 0 <= i < |keys| ==> keys[i] in table)
    && forall i, j :: 0 <= i < j < |keys| ==> keys[i] != keys[j] && table[keys[i]] <= table[keys[j]]
  }

  /** The keys of the table, by the time they fired. */
  method SortedByTime(table: map<string, real>) returns (sorted: seq<string>)
    ensures |sorted| == |table| && Ascending(table, sorted)
    ensures forall k :: k in table ==> k in sorted
  {
    sorted := [];
    var rest := table.Keys;
    assert Ascending(table, []);
    hide Ascending;
    while rest != {}
      invariant rest <= table.Keys && |sorted| + |rest| == |table|
      invariant forall k :: k in table.Keys - rest ==> k in sorted
      invariant Below(table, sorted, rest) && Ascending(table, sorted)
      decreases |rest|
    {
      ghost var oldest := OldestExists(table, rest);
      var k :| k in rest && forall j :: j in rest ==> table[k] <= table[j];
      OldestNext(table, sorted, rest, k);
      sorted := sorted + [k];
      rest := rest - {k};
    }
  }

  /** All of `keys` come before all of `rest`. */
  predicate Below(table: map<string, real>, keys: seq<string>, rest: set<string>)
    requires rest <= table.Keys
  {
    forall i, k :: 0 <= i < |keys| && k in rest ==> keys[i] in table && keys[i] != k && table[keys[i]] <= table[k]
  }

  lemma OldestNext(table: map<string, real>, sorted: seq<string>, rest: set<string>, k: string)
    requires rest <= table.Keys && Below(table, sorted, rest) && Ascending(table, sorted)
    requires k in rest && forall j :: j in rest ==> table[k] <= table[j]
    ensures Below(table, sorted + [k], rest - {k}) && Ascending(table, sorted + [k])
  {}

  /** If the key fired within the cooldown before `now`, at least 250 other keys fired in between. */
  predicate EarlyOnlyIfOvertaken(history: seq<Firing>, key: string, now: real, cooldown: real) {
    var i := Latest(history, key);
    i >= 0 && now - history[i].time < cooldown ==> key !in KeysAfter(history, i) && |KeysAfter(history, i)| >= 250
  }

  class EventGate {
    var cooldowns: map<string, real>
    ghost var history: seq<Firing>   // all firings

    ghost predicate Valid()
      reads this
    {
      Tracks(cooldowns, history) && |cooldowns| <= 500
    }

    constructor ()
      ensures Valid() && cooldowns == map[] && history == []
    {
      cooldowns, history := map[], [];
    }

    /** Lets the event fire unless its key fired within the cooldown, as far as the table remembers. */
    method Emit(event: Event, now: real) returns (fired: bool)
      requires Valid() && (history != [] ==> history[|history| - 1].time < now)
      modifies this
      ensures Valid()
      ensures fired <==> !(event.EffectiveCooldown() > 0.0
                           && now - (if event.Key() in old(cooldowns) then old(cooldowns)[event.Key()] else 0.0)
                              < event.EffectiveCooldown())
      ensures !fired ==> history == old(history) && cooldowns == old(cooldowns)
      ensures fired ==> history == old(history) + [Firing(event.Key(), now)]
      ensures fired ==> event.Key() in cooldowns && cooldowns[event.Key()] == now
      ensures fired && |old(cooldowns)[event.Key() := now]| <= 500 ==>
                cooldowns == old(cooldowns)[event.Key() := now]
      ensures fired && |old(cooldowns)[event.Key() := now]| > 500 ==>
                |cooldowns| == 250 && NewestPart(old(cooldowns)[event.Key() := now], cooldowns)
      ensures fired ==> EarlyOnlyIfOvertaken(old(history), event.Key(), now, event.EffectiveCooldown())
    {
      hide Event.EffectiveCooldown, Event.Key, Tracks, EarlyOnlyIfOvertaken;
      var effectiveCooldown := event.EffectiveCooldown();
      var key := event.Key();
      if effectiveCooldown > 0.0 {
        var last := if key in cooldowns then cooldowns[key] else 0.0;
        if now - last < effectiveCooldown {
          return false;
        }
      }
      NotEarly(cooldowns, history, key, now, effectiveCooldown);
      FiringTracked(cooldowns, history, key, now);
      cooldowns := cooldowns[key := now];
      history := history + [Firing(key, now)];
      if |cooldowns| > MAX_SIZE {
        Evict(key, now);
      }
      return true;
    }

    /** Keeps the newest keys only; the one fired last is among them. */
    method Evict(ghost key: string, ghost now: real)
      requires Tracks(cooldowns, history) && |cooldowns| > MAX_SIZE && key in cooldowns
      requires history != [] && history[|history| - 1] == Firing(key, now)
      modifies this`cooldowns
      ensures Tracks(cooldowns, history) && |cooldowns| == KEEP && NewestPart(old(cooldowns), cooldowns)
      ensures key in cooldowns && cooldowns[key] == now
    {
      hide Tracks, Latest, Ascending;
      var sortedKeys := SortedByTime(cooldowns);
      var cut := |cooldowns| - MAX_SIZE / 2;
      ghost var before := cooldowns;
      var i := 0;
      while i < cut
        invariant 0 <= i <= cut < |sortedKeys| == |before|
        invariant Remaining(before, sortedKeys, i, cooldowns)
      {
        DropNext(before, sortedKeys, i, cooldowns);
        cooldowns := cooldowns - {sortedKeys[i]};
        i := i + 1;
      }
      NewestRemain(before, sortedKeys, cut, cooldowns);
      EvictionTracked(before, cooldowns, history);
      LastIsNewest(before, cooldowns, history, key);
    }
  }

  /** `left` is the table without the first `i` of the sorted keys. */
  ghost predicate Remaining(table: map<string, real>, sorted: seq<string>, i: nat, left: map<string, real>) {
    && i <= |sorted| && |left| == |table| - i
    && left.Keys <= table.Keys && (forall k :: k in left ==> left[k] == table[k])
    && forall k :: k in table ==> (k in left <==> k !in sorted[..i])
  }

  lemma DropNext(table: map<string, real>, sorted: seq<string>, i: nat, left: map<string, real>)
    requires Ascending(table, sorted) && i < |sorted| && Remaining(table, sorted, i, left)
    ensures Remaining(table, sorted, i + 1, left - {sorted[i]})
  {
    assert sorted[..i + 1] == sorted[..i] + [sorted[i]];
    assert sorted[i] !in sorted[..i];
    assert (left - {sorted[i]}).Keys == left.Keys - {sorted[i]};
    assert |left.Keys - {sorted[i]}| == |left.Keys| - 1;
  }

  lemma NewestRemain(table: map<string, real>, sorted: seq<string>, cut: nat, left: map<string, real>)
    requires Ascending(table, sorted) && (forall k :: k in table ==> k in sorted) && Remaining(table, sorted, cut, left)
    ensures NewestPart(table, left)
  {
    forall a, b | a in left && b in table && b !in left ensures table[b] <= table[a] {
      var i :| 0 <= i < |sorted[..cut]| && sorted[..cut][i] == b;
      var j :| 0 <= j < |sorted| && sorted[j] == a;
      assert sorted[i] == b;
    }
  }

  /** The key that fired last is the newest, so it stays. */
  lemma LastIsNewest(table: map<string, real>, kept: map<string, real>, history: seq<Firing>, key: string)
    requires Tracks(table, history) && NewestPart(table, kept) && kept != map[]
    requires history != [] && history[|history| - 1].key == key && key in table
    ensures key in kept && kept[key] == history[|history| - 1].time
  {
    if key !in kept {
      var a :| a in kept;
      LaterFiring(table, history, key, a);
      assert false;
    }
  }

  /** A key whose entry does not forbid firing has no recent firing, or has been overtaken. */
  lemma NotEarly(table: map<string, real>, history: seq<Firing>, key: string, now: real, cooldown: real)
    requires Tracks(table, history) && (history != [] ==> history[|history| - 1].time < now)
    requires cooldown > 0.0 && key in table ==> now - table[key] >= cooldown
    ensures EarlyOnlyIfOvertaken(history, key, now, cooldown)
  {
    var i := Latest(history, key);
    if i >= 0 {
      assert history[i].time <= history[|history| - 1].time;
      forall j | i < j < |history| ensures history[j].key != key {}
    }
  }

  // ---------------------------------------------------------------- in plain terms

  /** Events share a cooldown if they have the same type and the same client, or without one the same integration. */
  lemma KeyInPlainTerms(e: Event)
    ensures e.clientId == None || e.clientId == Some("") ==> e.Key() == e.integrationType + ":" + e.eventType
    ensures forall client :: client != "" && e.clientId == Some(client) ==> e.Key() == client + ":" + e.eventType
  {}

  /** A cooldown of the event's own comes first; else the category decides, and others have none. */
  lemma CooldownInPlainTerms(e: Event)
    ensures forall seconds :: e.cooldownSeconds == Some(seconds) ==> e.EffectiveCooldown() == seconds
    ensures e.cooldownSeconds == None && e.category == "message" ==> e.EffectiveCooldown() == 300.0
    ensures e.cooldownSeconds == None && e.category == "poll" ==> e.EffectiveCooldown() == 60.0
    ensures e.cooldownSeconds == None && e.category == "device" ==> e.EffectiveCooldown() == 30.0
    ensures e.cooldownSeconds == None && e.category != "message" && e.category != "poll" && e.category != "device" ==>
              e.EffectiveCooldown() == 0.0
  {
    assert "message"[0] != "poll"[0] && "message"[0] != "device"[0] && "poll"[0] != "device"[0];
  }
}
