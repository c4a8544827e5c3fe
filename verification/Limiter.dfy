/**
 The in-process abuse limiter: a bounded map from keys to counters that expire one window after the last
 accepted attempt. Normalising and hashing the inputs is left to the caller: a key is a dimension with an
 already computed digest, or the invalid key. Clock samples are parameters and never decrease.
 */
module Limiter {
  import opened Common

  const WINDOW := 15 * 60
  const LOGIN_ACCOUNT_LIMIT := 5
  const LOGIN_IP_LIMIT := 20
  const REFRESH_IP_LIMIT := 30
  const REFRESH_FAMILY_LIMIT := 10
  const DEFAULT_ENTRIES := 4096
  const MAX_ENTRIES := 100000

  datatype Key =
    | Invalid
    | LoginAccount(digest: nat)
    | LoginIP(digest: nat)
    | RefreshIP(digest: nat)
    | RefreshFamily(digest: nat)

  datatype Entry = Entry(count: nat, expires: int, touched: int)

  function LimitOf(k: Key): nat {
    match k
    case Invalid => 0
    case LoginAccount(_) => LOGIN_ACCOUNT_LIMIT
    case LoginIP(_) => LOGIN_IP_LIMIT
    case RefreshIP(_) => REFRESH_IP_LIMIT
    case RefreshFamily(_) => REFRESH_FAMILY_LIMIT
  }

  // ----- What one key's counter means -----

  /** Any `limit + 1` consecutive acceptances span at least a window. */
  ghost predicate Spaced(h: seq<int>, limit: nat) {
    && (forall i, j :: 0 <= i <= j < |h| ==> h[i] <= h[j])
    && (forall i, j :: 0 <= i && j < |h| && i + limit <= j ==> h[j] - h[i] >= WINDOW)
  }

  /** How a stored counter (or its absence) summarises the acceptance times since the key was last evicted. */
  ghost predicate Tracks(e: Option<Entry>, h: seq<int>, limit: nat, clock: int) {
    && Spaced(h, limit)
    && (h != [] ==> Last(h) <= clock)
    && match e
       case Some(entry) =>
         && 1 <= entry.count <= limit && entry.count <= |h|
         && entry.touched == Last(h) && entry.expires == Last(h) + WINDOW
         && (entry.count < |h| ==> h[|h| - entry.count] - h[|h| - entry.count - 1] >= WINDOW)
       case None => h != [] ==> Last(h) + WINDOW <= clock
  }

  function Bump(e: Option<Entry>, now: int): Entry {
    Entry(1 + (if e.Some? then e.value.count else 0), now + WINDOW, now)
  }

  lemma BumpTracks(e: Option<Entry>, h: seq<int>, limit: nat, clock: int, now: int)
    requires Tracks(e, h, limit, clock) && clock <= now && limit >= 1 && (e.Some? ==> e.value.count < limit)
    ensures Tracks(Some(Bump(e, now)), h + [now], limit, now)
  {
    var g := h + [now];
    forall i, j | 0 <= i && j < |g| && i + limit <= j ensures g[j] - g[i] >= WINDOW {
      if j == |h| && e.Some? {
        assert h[i] <= h[|h| - e.value.count - 1];
      }
    }
  }

  ghost function InWindow(h: seq<int>, from: int): set<int> {
    set i | 0 <= i < |h| && from <= h[i] < from + WINDOW
  }

  function Range(lo: int, n: nat): (r: set<int>)
    ensures forall i :: lo <= i < lo + n ==> i in r
    ensures |r| == n
    ensures forall i <- r :: lo <= i < lo + n
  {
    if n == 0 then {} else Range(lo, n - 1) + {lo + n - 1}
  }

  lemma {:induction false} FirstInWindow(h: seq<int>, limit: nat, from: int, lo: nat)
    requires Spaced(h, limit) && lo <= |h| && forall i <- InWindow(h, from) :: lo <= i
    ensures |InWindow(h, from)| <= limit
    decreases |h| - lo
  {
    var s := InWindow(h, from);
    if lo == |h| {
      SubsetSize(s, Range(0, 0));
    } else if lo in s {
      forall i <- s ensures i in Range(lo, limit) { assert h[i] - h[lo] < WINDOW; }
      SubsetSize(s, Range(lo, limit));
    } else {
      FirstInWindow(h, limit, from, lo + 1);
    }
  }

  /** No half-open window, wherever it starts, holds more than `limit` acceptances. */
  lemma WindowBound(h: seq<int>, limit: nat, from: int)
    requires Spaced(h, limit)
    ensures |InWindow(h, from)| <= limit
  {
    FirstInWindow(h, limit, from, 0);
  }

  // ----- Steps on the table -----

  type Table = map<Key, Entry>

  /** A clean-up, or an increment that may have to forget one victim first. */
  datatype Event = Clean(now: int) | Count(key: Key, now: int, victim: Option<Key>)

  function EntryOf(t: Table, k: Key): Option<Entry> { if k in t then Some(t[k]) else None }

  predicate HasRoom(t: Table, k: Key) { k !in t || t[k].count < LimitOf(k) }

  function Live(t: Table, now: int): Table { map k | k in t && now < t[k].expires :: t[k] }

  predicate LeastRecent(t: Table, victim: Key) { victim in t && forall k <- t :: t[victim].touched <= t[k].touched }

  ghost predicate Enabled(t: Table, e: Event, max: nat) {
    e.Count? ==>
      && (e.victim.Some? <==> e.key != Invalid && e.key !in t && |t| >= max)
      && (e.victim.Some? ==> LeastRecent(t, e.victim.value))
  }

  function Without(t: Table, victim: Option<Key>): Table { if victim.Some? then t - {victim.value} else t }

  predicate Accepts(t: Table, k: Key) { k != Invalid && HasRoom(t, k) }

  function Step(t: Table, e: Event): Table {
    match e
    case Clean(now) => Live(t, now)
    case Count(k, now, victim) =>
      if Accepts(t, k) then Without(t, victim)[k := Bump(EntryOf(t, k), now)] else Without(t, victim)
  }

  function After(run: seq<Event>): Table { if run == [] then map[] else Step(After(run[..|run| - 1]), Last(run)) }

  ghost predicate Legal(run: seq<Event>, max: nat) {
    run == [] || (
      var before := run[..|run| - 1];
      && Legal(before, max) && Enabled(After(before), Last(run), max)
      && (before != [] ==> Last(before).now <= Last(run).now))
  }

  /** When key `k` was accepted, since it was last evicted. */
  function Accepted(run: seq<Event>, k: Key): seq<int> {
    if run == [] then []
    else
      var before := run[..|run| - 1];
      var e := Last(run);
      if e.Count? && e.victim == Some(k) then []
      else if e.Count? && e.key == k && Accepts(After(before), k) then Accepted(before, k) + [e.now]
      else Accepted(before, k)
  }

  // ----- Runs -----

  /** One step keeps every counter in agreement with its history. */
  lemma StepTracks(t: Table, h: seq<int>, k: Key, clock: int, e: Event, g: seq<int>)
    requires k != Invalid && clock <= e.now && Tracks(EntryOf(t, k), h, LimitOf(k), clock)
    requires e.Count? && e.victim == Some(k) ==> g == []
    requires e.Count? && e.victim != Some(k) && e.key == k && Accepts(t, k) ==> g == h + [e.now]
    requires !(e.Count? && (e.victim == Some(k) || (e.key == k && Accepts(t, k)))) ==> g == h
    requires e.Count? && e.victim.Some? ==> e.key !in t && e.victim.value in t
    ensures Tracks(EntryOf(Step(t, e), k), g, LimitOf(k), e.now)
  {
    if e.Count? && e.key == k && Accepts(t, k) {
      BumpTracks(EntryOf(t, k), h, LimitOf(k), clock, e.now);
    }
  }

  /** After any legal run each counter summarises the acceptances since its key was last evicted. */
  lemma {:induction false} RunTracks(run: seq<Event>, max: nat, k: Key)
    requires Legal(run, max) && k != Invalid
    ensures run != [] ==> Tracks(EntryOf(After(run), k), Accepted(run, k), LimitOf(k), Last(run).now)
    ensures run == [] ==> k !in After(run) && Accepted(run, k) == []
  {
    if run != [] {
      var before := run[..|run| - 1];
      RunTracks(before, max, k);
      var clock := if before == [] then Last(run).now else Last(before).now;
      StepTracks(After(before), Accepted(before, k), k, clock, Last(run), Accepted(run, k));
    }
  }

  lemma SubmapSize(t: Table, u: Table)
    requires u.Keys <= t.Keys
    ensures |u| <= |t|
  {
    assert t.Keys == u.Keys + (t.Keys - u.Keys);
  }

  lemma Overwritten(t: Table, k: Key, e: Entry)
    ensures |t[k := e]| == if k in t then |t| else |t| + 1
  {
    assert t[k := e].Keys == t.Keys + {k};
    if k in t {
      assert t.Keys + {k} == t.Keys;
    }
  }

  lemma Dropped(t: Table, k: Key)
    requires k in t
    ensures |t - {k}| == |t| - 1
  {
    assert (t - {k}).Keys == t.Keys - {k};
  }

  lemma StepFits(t: Table, e: Event, max: nat)
    requires Enabled(t, e, max) && |t| <= max && max > 0 && Invalid !in t
    ensures |Step(t, e)| <= max && Invalid !in Step(t, e)
  {
    hide LimitOf;
    match e
    case Clean(now) => SubmapSize(t, Live(t, now));
    case Count(k, now, victim) =>
      if victim.Some? { Dropped(t, victim.value); }
      Overwritten(Without(t, victim), k, Bump(EntryOf(t, k), now));
  }

  lemma {:induction false} RunFits(run: seq<Event>, max: nat)
    requires Legal(run, max) && max > 0
    ensures |After(run)| <= max && Invalid !in After(run)
  {
    if run != [] {
      RunFits(run[..|run| - 1], max);
      StepFits(After(run[..|run| - 1]), Last(run), max);
    }
  }

  /**
   The guarantee: in every run the table is bounded; a key that was not evicted had at most 5 (account of a login),
   20 (address of a login), 30 (address of a refresh) or 10 (family of a refresh) acceptances in any quarter of an
   hour; and a key with no room left really had that many acceptances, the last one less than a quarter of an hour
   before the latest clean-up.
   */
  lemma {:induction false} Guarantee(run: seq<Event>, max: nat, k: Key, from: int)
    requires Legal(run, max) && max > 0 && k != Invalid
    ensures |After(run)| <= max
    ensures var limit := match k
                         case LoginAccount(_) => 5
                         case LoginIP(_) => 20
                         case RefreshIP(_) => 30
                         case RefreshFamily(_) => 10;
            var h := Accepted(run, k);
            && |set i | 0 <= i < |h| && from <= h[i] < from + 900| <= limit
            && (!HasRoom(After(run), k) ==> |h| >= limit && (Last(run).Clean? ==> Last(run).now < Last(h) + 900))
  {
    RunFits(run, max);
    RunTracks(run, max, k);
    var h := Accepted(run, k);
    WindowBound(h, LimitOf(k), from);
    assert InWindow(h, from) == set i | 0 <= i < |h| && from <= h[i] < from + 900;
  }

  lemma Extend(run: seq<Event>, e: Event, max: nat)
    requires Legal(run, max) && Enabled(After(run), e, max) && (run != [] ==> Last(run).now <= e.now)
    ensures Legal(run + [e], max) && After(run + [e]) == Step(After(run), e)
  {
    assert (run + [e])[..|run|] == run;
  }

  // ----- The limiter -----

  ghost function PartlyLive(t: Table, rest: set<Key>, now: int): Table {
    map k | k in t && (k in rest || now < t[k].expires) :: t[k]
  }

  ghost function Counts(keys: seq<Key>, now: int, victims: seq<Option<Key>>): (run: seq<Event>)
    requires |victims| == |keys|
  {
    if keys == [] then []
    else Counts(keys[..|keys| - 1], now, victims[..|keys| - 1]) + [Count(Last(keys), now, Last(victims))]
  }

  lemma CountsOfTwo(first: Key, second: Key, now: int, victims: seq<Option<Key>>)
    requires |victims| == 2
    ensures Counts([first, second], now, victims) == [Count(first, now, victims[0]), Count(second, now, victims[1])]
  {
    var keys := [first, second];
    assert keys[..1] == [first] && victims[..1] == [victims[0]] && keys[..1][..0] == [];
    assert Counts([first], now, [victims[0]]) == [] + [Count(first, now, victims[0])];
  }

  lemma AcceptedExtends(run: seq<Event>, e: Event, k: Key)
    ensures Accepted(run + [e], k) == if e.Count? && e.victim == Some(k) then []
                                      else if e.Count? && e.key == k && Accepts(After(run), k)
                                      then Accepted(run, k) + [e.now]
                                      else Accepted(run, k)
  {
    assert (run + [e])[..|run|] == run;
  }

  lemma LegalPrefix(run: seq<Event>, e: Event, max: nat)
    requires Legal(run + [e], max)
    ensures Legal(run, max) && Enabled(After(run), e, max) && After(run + [e]) == Step(After(run), e)
  {
    assert (run + [e])[..|run|] == run;
  }

  /**
   An attempt let through is an acceptance of each of its valid keys, unless the second key's eviction forgets the
   first.
   */
  lemma AttemptIsAccepted(run: seq<Event>, max: nat, clean: Event, first: Key, second: Key, now: int, v: Option<Key>,
      w: Option<Key>)
    requires clean.Clean? && Legal(run + [clean] + [Count(first, now, v), Count(second, now, w)], max)
    requires first != second
    requires HasRoom(After(run + [clean]), first) && HasRoom(After(run + [clean]), second)
    ensures var n := run + [clean] + [Count(first, now, v), Count(second, now, w)];
            && (first != Invalid ==> Accepted(n, first) == if w == Some(first) then []
                                                           else Accepted(run, first) + [now])
            && (second != Invalid ==> Accepted(n, second) == (if v == Some(second) then []
              else Accepted(run, second)) + [now])
  {
    hide Accepted, Legal, After;
    var a := run + [clean];
    var b := a + [Count(first, now, v)];
    var n := b + [Count(second, now, w)];
    assert n == run + [clean] + [Count(first, now, v), Count(second, now, w)];
    LegalPrefix(b, Count(second, now, w), max);
    LegalPrefix(a, Count(first, now, v), max);
    AcceptedExtends(run, clean, first);
    AcceptedExtends(run, clean, second);
    AcceptedExtends(a, Count(first, now, v), first);
    AcceptedExtends(a, Count(first, now, v), second);
    AcceptedExtends(b, Count(second, now, w), first);
    AcceptedExtends(b, Count(second, now, w), second);
  }

  class AbuseLimiter {
    const maxEntries: nat
    var entries: Table
    /** Everything that happened so far. */
    ghost var events: seq<Event>

    ghost predicate Valid() reads this {
      maxEntries > 0 && Legal(events, maxEntries) && entries == After(events)
    }

    ghost predicate Elapsed(now: int) reads this { events != [] ==> Last(events).now <= now }

    constructor (max: Option<int>)
      ensures Valid() && events == []
      ensures maxEntries == if max.Some? && 0 < max.value < 100000 then max.value else 4096
    {
      maxEntries := if max.Some? && 0 < max.value < MAX_ENTRIES then max.value else DEFAULT_ENTRIES;
      entries, events := map[], [];
    }

    /** Deletes exactly the entries whose window has passed, in whatever order they are met. */
    method CleanupLocked(now: int)
      requires Valid() && Elapsed(now)
      modifies this
      ensures Valid() && events == old(events) + [Clean(now)]
    {
      hide Legal, After;
      ghost var before := entries;
      var rest := entries.Keys;
      while rest != {}
        invariant rest <= before.Keys && events == old(events) && entries == PartlyLive(before, rest, now)
        decreases rest
      {
        var key :| key in rest;
        if now >= entries[key].expires {
          entries := entries - {key};
        }
        rest := rest - {key};
        assert entries == PartlyLive(before, rest, now);
      }
      Extend(events, Clean(now), maxEntries);
      events := events + [Clean(now)];
    }

    method AllowLocked(keys: seq<Key>) returns (ok: bool)
      ensures ok <==> forall k <- keys :: HasRoom(entries, k)
    {
      for i := 0 to |keys|
        invariant forall k <- keys[..i] :: HasRoom(entries, k)
      {
        if keys[i] in entries && entries[keys[i]].count >= LimitOf(keys[i]) {
          assert keys[i] in keys;
          return false;
        }
      }
      return true;
    }

    /** Makes room by forgetting one least recently touched key. */
    method EnsureCapacityLocked() returns (ghost victim: Option<Key>)
      requires maxEntries > 0 && Invalid !in entries
      modifies this`entries
      ensures victim.Some? <==> |old(entries)| >= maxEntries
      ensures victim.Some? ==> LeastRecent(old(entries), victim.value)
      ensures entries == Without(old(entries), victim)
    {
      if |entries| < maxEntries {
        return None;
      }
      var oldest, touched := Invalid, 0;
      var rest := entries.Keys;
      while rest != {}
        invariant rest <= entries.Keys && (oldest == Invalid <==> rest == entries.Keys)
        invariant oldest != Invalid ==> oldest in entries && touched == entries[oldest].touched
        invariant forall k <- entries.Keys - rest :: touched <= entries[k].touched
        decreases rest
      {
        var key :| key in rest;
        if oldest == Invalid || entries[key].touched < touched {
          oldest, touched := key, entries[key].touched;
        }
        rest := rest - {key};
      }
      entries := entries - {oldest};
      return Some(oldest);
    }

    /** Counts one attempt on a key, unless the key is invalid or at its limit. */
    method IncrementKey(key: Key, now: int) returns (ghost victim: Option<Key>)
      requires Valid() && Elapsed(now)
      modifies this
      ensures Valid() && events == old(events) + [Count(key, now, victim)]
    {
      hide Legal, After;
      ghost var before := entries;
      RunFits(events, maxEntries);
      victim := None;
      if key != Invalid {
        if key !in entries {
          victim := EnsureCapacityLocked();
        }
        var entry := if key in entries then entries[key] else Entry(0, 0, 0);
        if entry.count < LimitOf(key) {
          entries := entries[key := Entry(entry.count + 1, now + WINDOW, now)];
        }
      }
      Extend(events, Count(key, now, victim), maxEntries);
      events := events + [Count(key, now, victim)];
    }

    /** Counts one attempt on each key, in order. */
    method IncrementLocked(keys: seq<Key>, now: int) returns (ghost victims: seq<Option<Key>>)
      requires Valid() && Elapsed(now)
      modifies this
      ensures Valid() && |victims| == |keys| && events == old(events) + Counts(keys, now, victims)
    {
      hide Legal, After;
      victims := [];
      for i := 0 to |keys|
        invariant Valid() && Elapsed(now) && |victims| == i && events == old(events) + Counts(keys[..i], now, victims)
      {
        ghost var victim := IncrementKey(keys[i], now);
        victims := victims + [victim];
        assert keys[..i + 1][..i] == keys[..i] && victims[..i] == victims[..|victims| - 1];
      }
      assert keys[..|keys|] == keys;
    }

    /** The check alone: cleans up, counts nothing. */
    method Allow(keys: seq<Key>, now: int) returns (ok: bool)
      requires Valid() && Elapsed(now)
      modifies this
      ensures Valid() && events == old(events) + [Clean(now)]
      ensures ok <==> forall k <- keys :: HasRoom(After(events), k)
    {
      CleanupLocked(now);
      ok := AllowLocked(keys);
    }

    method Record(keys: seq<Key>, cleanedAt: int, countedAt: int) returns (ghost victims: seq<Option<Key>>)
      requires Valid() && Elapsed(cleanedAt) && cleanedAt <= countedAt
      modifies this
      ensures Valid() && |victims| == |keys|
      ensures events == old(events) + [Clean(cleanedAt)] + Counts(keys, countedAt, victims)
    {
      CleanupLocked(cleanedAt);
      victims := IncrementLocked(keys, countedAt);
    }

    /** Check and count in one critical section: a denied attempt counts on neither key. */
    method AttemptAccepted(first: Key, second: Key, checkedAt: int, countedAt: int) returns (ok: bool,
        ghost victims: seq<Option<Key>>)
      requires Valid() && Elapsed(checkedAt) && checkedAt <= countedAt
      modifies this
      ensures Valid()
      ensures ok <==> forall k <- [first, second] :: HasRoom(After(old(events) + [Clean(checkedAt)]), k)
      ensures !ok ==> events == old(events) + [Clean(checkedAt)]
      ensures ok ==>
                && |victims| == 2
                && events == old(events) + [Clean(checkedAt)] + Counts([first, second], countedAt, victims)
      ensures ok && first != second && first != Invalid ==>
                Accepted(events, first) == if victims[1] == Some(first) then []
                                           else Accepted(old(events), first) + [countedAt]
      ensures ok && first != second && second != Invalid ==>
                Accepted(events, second) == (if victims[0] == Some(second) then []
                  else Accepted(old(events), second)) + [countedAt]
    {
      hide Accepted;
      CleanupLocked(checkedAt);
      victims := [];
      ghost var cleaned := events;
      ok := AllowLocked([first, second]);
      assert first in [first, second] && second in [first, second];
      if ok {
        victims := IncrementLocked([first, second], countedAt);
        if first != second {
          CountsOfTwo(first, second, countedAt, victims);
          AttemptIsAccepted(old(events), maxEntries, Clean(checkedAt), first, second, countedAt, victims[0],
                            victims[1]);
        }
      }
    }
  }
}
