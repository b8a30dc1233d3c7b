/** The bounded DNS cache with lazy expiry, against the history of what was put into it. */
module DnsCache {
  import opened Prelude
  import opened Text
  import opened Address

  /** Time is counted in nanoseconds. */
  const SECOND: nat := 1_000_000_000

  datatype Entry = Entry(ips: seq<Ip>, expireAt: nat)

  /** What a caller did that the cache took notice of. */
  datatype Event = Put(key: string, entry: Entry) | Flush

  /** The most recent put under a key that no flush has wiped out. */
  function LastPut(log: seq<Event>, key: string): Option<Entry> {
    if log == [] then None
    else match log[|log| - 1]
      case Flush => None
      case Put(k, entry) => if k == key then Some(entry) else LastPut(log[..|log| - 1], key)
  }

  function Clamp(ttl: nat): nat {
    if ttl < 10 then 10 else if ttl > 600 then 600 else ttl
  }

  function Max(a: nat, b: nat): nat {
    if a >= b then a else b
  }

  /** The entries that have not expired. */
  function Live(m: map<string, Entry>, now: nat): map<string, Entry> {
    map k | k in m && m[k].expireAt > now :: m[k]
  }

  /** No entry expires sooner. */
  predicate Oldest(m: map<string, Entry>, k: string) {
    k in m && forall j | j in m :: m[k].expireAt <= m[j].expireAt
  }

  /** What eviction may leave of a cache: all of it when there is room, else its live entries,
      and when those fill it up, all but one that expires first. */
  ghost predicate Evicted(before: map<string, Entry>, after: map<string, Entry>, capacity: nat, now: nat) {
    if |before| < capacity then after == before
    else if |Live(before, now)| < capacity then after == Live(before, now)
    else exists k :: Oldest(Live(before, now), k) && after == Live(before, now) - {k}
  }

  lemma {:induction false} SomeoneIsOldest(m: map<string, Entry>) returns (k: string)
    requires |m| > 0
    ensures Oldest(m, k)
    decreases |m|
  {
    k :| k in m;
    var rest := m - {k};
    if |rest| > 0 {
      var j := SomeoneIsOldest(rest);
      if m[j].expireAt < m[k].expireAt {
        k := j;
      }
      assert forall i | i in m :: i in rest || i == k || i == j || m[k].expireAt <= m[i].expireAt;
    } else {
      assert m.Keys == {k};
    }
  }

  lemma LiveIsSmaller(m: map<string, Entry>, now: nat)
    ensures |Live(m, now)| <= |m|
  {
    assert Live(m, now).Keys <= m.Keys;
    SubsetIsSmaller(Live(m, now).Keys, m.Keys);
  }

  lemma {:induction false} SubsetIsSmaller<T>(a: set<T>, b: set<T>)
    requires a <= b
    ensures |a| <= |b|
    decreases a
  {
    if a != {} {
      var x :| x in a;
      SubsetIsSmaller(a - {x}, b - {x});
    }
  }

  /** Everything held is what was last put under its key. */
  ghost predicate Sound(log: seq<Event>, m: map<string, Entry>) {
    forall k | k in m :: LastPut(log, k) == Some(m[k])
  }

  ghost predicate Kept(log: seq<Event>, m: map<string, Entry>, now: nat, k: string) {
    LastPut(log, k).Some? && LastPut(log, k).value.expireAt > now ==> k in m
  }

  /** Every put that has not expired is held. */
  ghost predicate Complete(log: seq<Event>, m: map<string, Entry>, now: nat) {
    forall k {:trigger Kept(log, m, now, k)} :: Kept(log, m, now, k)
  }

  lemma LastPutAfter(log: seq<Event>, key: string, entry: Entry, k: string)
    ensures LastPut(log + [Event.Put(key, entry)], k) == if k == key then Some(entry) else LastPut(log, k)
  {
    assert (log + [Event.Put(key, entry)])[..|log|] == log;
  }

  lemma PutIsSound(log: seq<Event>, m: map<string, Entry>, room: map<string, Entry>, key: string, entry: Entry)
    requires Sound(log, m) && forall k | k in room :: k in m && room[k] == m[k]
    ensures Sound(log + [Event.Put(key, entry)], room[key := entry])
  {
    hide LastPut;
    forall k | k in room[key := entry]
      ensures LastPut(log + [Event.Put(key, entry)], k) == Some(room[key := entry][k])
    {
      LastPutAfter(log, key, entry, k);
    }
  }

  lemma PutIsComplete(log: seq<Event>, m: map<string, Entry>, key: string, entry: Entry, now: nat, later: nat)
    requires Complete(log, m, now) && now <= later
    ensures Complete(log + [Event.Put(key, entry)], m[key := entry], later)
  {
    hide LastPut;
    var grown, filled := log + [Event.Put(key, entry)], m[key := entry];
    forall k {:trigger Kept(grown, filled, later, k)} ensures Kept(grown, filled, later, k) {
      LastPutAfter(log, key, entry, k);
      assert Kept(log, m, now, k);
    }
  }

  lemma LaterIsComplete(log: seq<Event>, m: map<string, Entry>, now: nat, later: nat)
    requires Complete(log, m, now) && now <= later
    ensures Complete(log, m, later)
  {
    forall k ensures Kept(log, m, later, k) {
      assert Kept(log, m, now, k);
    }
  }

  lemma ExpiredMayGo(log: seq<Event>, m: map<string, Entry>, now: nat, key: string)
    requires Sound(log, m) && Complete(log, m, now) && key in m && m[key].expireAt <= now
    ensures Complete(log, m - {key}, now)
  {
    hide LastPut;
    forall k ensures Kept(log, m - {key}, now, k) {
      assert Kept(log, m, now, k);
    }
  }

  /** Whatever time to live an answer carries, it is kept for at least ten seconds and at most ten minutes, and between
      those for as long as it says. */
  lemma LifetimeIsClamped(ttl: nat)
    ensures 10_000_000_000 <= Clamp(ttl) * SECOND <= 600_000_000_000
    ensures 10 <= ttl <= 600 ==> Clamp(ttl) * SECOND == ttl * 1_000_000_000
    ensures forall more | more >= ttl :: Clamp(more) >= Clamp(ttl)
  {
  }

  /** Making room in a full cache takes expired entries, and only if too few of those, one that expires first. */
  lemma EvictionIsMild(before: map<string, Entry>, after: map<string, Entry>, capacity: nat, now: nat, k: string)
    requires Evicted(before, after, capacity, now)
    ensures k in after ==> k in before && after[k] == before[k]
    ensures |before| >= capacity && k in after ==> now < before[k].expireAt
    ensures k in before && k !in after ==>
              || before[k].expireAt <= now
              || (forall j | j in after :: before[k].expireAt <= after[j].expireAt)
    ensures forall j | j in before && k in before && j !in after && k !in after ::
              j == k || before[j].expireAt <= now || before[k].expireAt <= now
    ensures capacity > 0 && |before| <= capacity ==> |after| < capacity
  {
    if |before| >= capacity {
      LiveIsSmaller(before, now);
    }
  }

  class DnsCache {
    var inner: map<string, Entry>
    const maxSize: nat
    const enabled: bool

    ghost var log: seq<Event>
    ghost var clock: nat
    /** Has a put found the cache full so far? */
    ghost var wasFull: bool

    /** What is held is what was last put; what was last put is held until it expires,
        as long as the cache has never been full. */
    ghost predicate Valid()
      reads this
    {
      && maxSize >= 16 && |inner| <= maxSize
      && Sound(log, inner) && (!wasFull ==> Complete(log, inner, clock))
    }

    constructor (enabled: bool, maxSize: nat)
      ensures Valid() && inner == map[] && log == [] && !wasFull && clock == 0
      ensures this.enabled == enabled && this.maxSize == if maxSize >= 16 then maxSize else 16
    {
      this.enabled, this.maxSize := enabled, Max(maxSize, 16);
      inner, log, clock, wasFull := map[], [], 0, false;
    }

    /** A hit is the last put under this name in any case, strictly before it expires; while the
        cache has never been full, every such put is a hit. */
    method Get(name: string, now: nat) returns (r: Option<seq<Ip>>)
      requires Valid() && clock <= now
      modifies this
      ensures Valid() && log == old(log) && clock == now && wasFull == old(wasFull)
      ensures r.Some? ==> enabled && LastPut(log, Lower(name)).Some?
                          && r.value == LastPut(log, Lower(name)).value.ips
                          && now < LastPut(log, Lower(name)).value.expireAt
      ensures enabled && !wasFull && r.None? ==>
                LastPut(log, Lower(name)).None? || LastPut(log, Lower(name)).value.expireAt <= now
      ensures r == if enabled && Lower(name) in old(inner) && now < old(inner)[Lower(name)].expireAt
                   then Some(old(inner)[Lower(name)].ips) else None
      ensures inner == if enabled && Lower(name) in old(inner) && r.None? then old(inner) - {Lower(name)} else old(inner)
    {
      hide LastPut;
      if !wasFull {
        LaterIsComplete(log, inner, clock, now);
      }
      clock := now;
      if !enabled {
        return None;
      }
      var key := Lower(name);
      assert !wasFull ==> Kept(log, inner, now, key);
      if key !in inner {
        return None;
      }
      var hit := inner[key];
      if now >= hit.expireAt {
        if !wasFull {
          ExpiredMayGo(log, inner, now, key);
        }
        inner := inner - {key};
        return None;
      }
      return Some(hit.ips);
    }

    /** Stores addresses for the clamped time to live, after making room in a full cache.
        `now` and `later` are the two readings of the clock. */
    method Put(name: string, ips: seq<Ip>, minTtl: nat, now: nat, later: nat)
      requires Valid() && clock <= now <= later
      modifies this
      ensures Valid() && clock == later
      ensures !enabled || ips == [] ==> inner == old(inner) && log == old(log) && wasFull == old(wasFull)
      ensures enabled && ips != [] ==>
                var entry := Entry(ips, later + Clamp(minTtl) * SECOND);
                && log == old(log) + [Event.Put(Lower(name), entry)]
                && wasFull == (old(wasFull) || |old(inner)| >= maxSize)
                && exists room :: Evicted(old(inner), room, maxSize, now) && inner == room[Lower(name) := entry]
    {
      hide LastPut, Lower;
      if !wasFull {
        LaterIsComplete(log, inner, clock, later);
      }
      clock := later;
      if !enabled || ips == [] {
        return;
      }
      ghost var start := inner;
      if |inner| >= maxSize {
        wasFull := true;
        LiveIsSmaller(inner, now);
        inner := Live(inner, now);
        if |inner| >= maxSize {
          ghost var first := SomeoneIsOldest(inner);
          var oldest :| Oldest(inner, oldest);
          inner := inner - {oldest};
        }
      }
      var entry := Entry(ips, later + Clamp(minTtl) * SECOND);
      assert Evicted(start, inner, maxSize, now);
      PutIsSound(log, start, inner, Lower(name), entry);
      if !wasFull {
        PutIsComplete(log, inner, Lower(name), entry, later, later);
      }
      log := log + [Event.Put(Lower(name), entry)];
      inner := inner[Lower(name) := entry];
    }

    method FlushAll()
      requires Valid()
      modifies this
      ensures Valid() && inner == map[] && log == old(log) + [Flush] && clock == old(clock) && wasFull == old(wasFull)
    {
      inner := map[];
      log := log + [Flush];
    }
  }
}
