/**
 The gateway's model cache metadata, one table for all gateways. Touch upserts the access time,
 EvictLRU keeps a gateway's most recently accessed entries.
 */
module LruCache {
  import opened Wrappers
  import opened Ranking

  type Time = int

  const DEFAULT_MAX_CACHED_VERSIONS := 10

  datatype Key = Key(gateway: string, model: string, version: string)

  datatype Entry = Entry(cachedAt: Time, lastAccessAt: Time, sizeBytes: int)

  type Entries = map<Key, Entry>

  datatype Step = Touch(key: Key, sizeBytes: int, now: Time) | Evict(gateway: string, order: seq<Key>)

  function Touched(entries: Entries, key: Key, sizeBytes: int, now: Time): Entries {
    if key in entries then entries[key := entries[key].(lastAccessAt := now)]
    else entries[key := Entry(now, now, sizeBytes)]
  }

  /** The access times of one gateway's entries. */
  function AccessTimes(entries: Entries, g: string): map<Key, Time> {
    map k | k in entries && k.gateway == g :: entries[k].lastAccessAt
  }

  /** All but the first `keep` of the listing go. */
  function Evicted(entries: Entries, order: seq<Key>, keep: nat): Entries {
    if |order| <= keep then entries else entries - Elements(order[keep..])
  }

  /** `order` is how the database lists the gateway's entries, last accessed first; nothing else is an answer. */
  ghost function Do(entries: Entries, s: Step, keep: nat): Entries {
    match s
    case Touch(key, sizeBytes, now) => Touched(entries, key, sizeBytes, now)
    case Evict(g, order) => if IsListing(order, AccessTimes(entries, g)) then Evicted(entries, order, keep) else entries
  }

  ghost function Run(steps: seq<Step>, keep: nat): Entries {
    if |steps| == 0 then map[] else Do(Run(steps[..|steps| - 1], keep), steps[|steps| - 1], keep)
  }

  /** When each key of the gateway was last touched, over the whole trace and regardless of evictions. */
  function LastTouches(steps: seq<Step>, g: string): map<Key, Time> {
    if |steps| == 0 then map[]
    else
      var before := LastTouches(steps[..|steps| - 1], g);
      var s := steps[|steps| - 1];
      if s.Touch? && s.key.gateway == g then before[s.key := s.now] else before
  }

  /** No two touches at the same time. */
  ghost predicate StrictClock(steps: seq<Step>) {
    forall i, j :: 0 <= i < j < |steps| && steps[i].Touch? && steps[j].Touch? ==> steps[i].now < steps[j].now
  }

  lemma {:induction false} TouchTimes(steps: seq<Step>, g: string)
    requires StrictClock(steps)
    ensures NoTies(LastTouches(steps, g))
    ensures forall k :: k in LastTouches(steps, g) ==>
              k.gateway == g
              && exists i :: 0 <= i < |steps| && steps[i].Touch? && steps[i].key == k
                  && steps[i].now == LastTouches(steps, g)[k]
  {
    if |steps| > 0 {
      var n := |steps| - 1;
      TouchTimes(steps[..n], g);
      var before := LastTouches(steps[..n], g);
      forall k | k in before
        ensures exists i :: 0 <= i < n && steps[i].Touch? && steps[i].key == k && steps[i].now == before[k]
      {
        var i :| 0 <= i < n && steps[..n][i].Touch? && steps[..n][i].key == k && steps[..n][i].now == before[k];
        assert steps[i] == steps[..n][i];
      }
    }
  }

  /** The gateway's entries carry true last touches and include its `keep` most recently touched keys. */
  ghost predicate KeepsRecent(entries: Entries, touches: map<Key, Time>, g: string, keep: nat) {
    && (forall k :: k in entries && k.gateway == g ==> k in touches && entries[k].lastAccessAt == touches[k])
    && (forall k :: k in Top(touches, keep) ==> k in entries)
  }

  lemma EvictExactly(entries: Entries, touches: map<Key, Time>, g: string, order: seq<Key>, keep: nat)
    requires KeepsRecent(entries, touches, g, keep) && NoTies(touches) && forall k :: k in touches ==> k.gateway == g
    requires IsListing(order, AccessTimes(entries, g))
    ensures var after := Evicted(entries, order, keep);
            && (forall k: Key :: k.gateway == g ==> (k in after <==> k in Top(touches, keep)))
            && (forall k :: k in after ==> k in entries && after[k] == entries[k])
            && (forall k :: k in entries && k.gateway != g ==> k in after)
  {
    var times := AccessTimes(entries, g);
    TopOfPart(times, touches, keep);
    assert NoTies(times);
    TopOfListing(order, times, keep);
    if keep < |order| {
      RestOfListing(order, times, keep);
    } else {
      assert Elements(order) == times.Keys;
      assert order[..|order|] == order;
    }
    assert forall k: Key :: k in Evicted(entries, order, keep) <==>
        k in entries && !(k in times && k !in Top(times, keep));
  }

  /**
   At every point of every trace, each gateway's entries carry the true last-touch times and include
   its `keep` most recently touched keys; right after its own eviction they are exactly those keys.
   */
  lemma {:induction false} MostRecentAreCached(steps: seq<Step>, keep: nat, g: string)
    requires StrictClock(steps)
    ensures KeepsRecent(Run(steps, keep), LastTouches(steps, g), g, keep)
    ensures |steps| > 0 && steps[|steps| - 1].Evict? && steps[|steps| - 1].gateway == g
            && IsListing(steps[|steps| - 1].order, AccessTimes(Run(steps[..|steps| - 1], keep), g)) ==>
              forall k: Key :: k.gateway == g ==> (k in Run(steps, keep) <==> k in Top(LastTouches(steps, g), keep))
  {
    if |steps| > 0 {
      var n := |steps| - 1;
      var before := Run(steps[..n], keep);
      var touches := LastTouches(steps[..n], g);
      MostRecentAreCached(steps[..n], keep, g);
      TouchTimes(steps[..n], g);
      match steps[n]
      case Touch(key, sizeBytes, now) =>
        if key.gateway == g {
          forall k | k in touches ensures touches[k] < now {
            var i :| 0 <= i < n && steps[..n][i].Touch? && steps[..n][i].key == k && steps[..n][i].now == touches[k];
            assert steps[i] == steps[..n][i];
          }
          TopAfterRaise(touches, key, now, keep);
        }
      case Evict(h, order) =>
        if IsListing(order, AccessTimes(before, h)) {
          if h == g {
            EvictExactly(before, touches, g, order, keep);
          } else {
            OthersUntouched(before, h, order, keep);
          }
        }
    }
  }

  /** An eviction touches no other gateway's entries. */
  lemma OthersUntouched(entries: Entries, g: string, order: seq<Key>, keep: nat)
    requires IsListing(order, AccessTimes(entries, g))
    ensures var after := Evicted(entries, order, keep);
            && (forall k :: k in entries && k.gateway != g ==> k in after && after[k] == entries[k])
            && (forall k :: k in after ==> k in entries && after[k] == entries[k])
  {
    if |order| > keep {
      forall k | k in order[keep..] ensures k.gateway == g {
        assert k in order;
      }
    }
  }

  /** The listing names each of its rows once, so as many rows go as it has past the threshold. */
  lemma EvictedCount(entries: Entries, g: string, order: seq<Key>, keep: nat)
    requires IsListing(order, AccessTimes(entries, g)) && |order| > keep
    ensures |Evicted(entries, order, keep)| == |entries| - (|order| - keep)
  {
    var victims := order[keep..];
    DistinctCount(victims);
    assert Elements(victims) <= entries.Keys by {
      assert forall k :: k in victims ==> k in order;
    }
    MapWithout(entries, Elements(victims));
  }

  lemma EvictedInWords(entries: Entries, g: string, order: seq<Key>, keep: nat)
    requires IsListing(order, AccessTimes(entries, g)) && |order| > keep
    ensures forall k :: k in entries ==> (k in Evicted(entries, order, keep) <==> k.gateway != g || k in order[..keep])
  {
    SplitElements(order, keep);
    assert Elements(order) == AccessTimes(entries, g).Keys;
    assert forall k :: k in order[keep..] <==> k in Elements(order[keep..]);
    assert forall k :: k in order[..keep] <==> k in Elements(order[..keep]);
  }

  lemma MapWithout(entries: Entries, gone: set<Key>)
    requires gone <= entries.Keys
    ensures |entries - gone| == |entries| - |gone|
  {
    assert (entries - gone).Keys == entries.Keys - gone;
    assert |entries - gone| == |(entries - gone).Keys| && |entries| == |entries.Keys|;
  }

  class CacheStore {
    var entries: Entries
    var maxCachedVersions: nat

    constructor ()
      ensures entries == map[] && maxCachedVersions == 10
    {
      entries, maxCachedVersions := map[], DEFAULT_MAX_CACHED_VERSIONS;
    }

    method SetMaxCachedVersions(n: int)
      modifies this`maxCachedVersions
      ensures maxCachedVersions == if n > 0 then n else old(maxCachedVersions)
    {
      if n > 0 {
        maxCachedVersions := n;
      }
    }

    method TouchEntry(key: Key, sizeBytes: int, now: Time, fault: bool) returns (ok: bool)
      modifies this`entries
      ensures ok == !fault
      ensures entries == if ok then Do(old(entries), Touch(key, sizeBytes, now), maxCachedVersions) else old(entries)
      ensures ok && key in old(entries) ==> entries == old(entries)[key := old(entries)[key].(lastAccessAt := now)]
      ensures ok && key !in old(entries) ==>
                && entries.Keys == old(entries).Keys + {key}
                && entries[key].cachedAt == entries[key].lastAccessAt == now && entries[key].sizeBytes == sizeBytes
                && forall k :: k in old(entries) ==> entries[k] == old(entries)[k]
    {
      if fault {
        return false;
      }
      if key in entries {
        entries := entries[key := entries[key].(lastAccessAt := now)];
      } else {
        entries := entries[key := Entry(now, now, sizeBytes)];
      }
      return true;
    }

    /** `order` is the database's listing of the gateway's entries. Returns the number of rows removed. */
    method EvictLru(g: string, order: seq<Key>, fault: bool) returns (r: Result<nat, ()>)
      requires IsListing(order, AccessTimes(entries, g))
      modifies this`entries
      ensures r.Ok? == !fault
      ensures entries == if r.Ok? then Do(old(entries), Evict(g, order), maxCachedVersions) else old(entries)
      ensures r.Ok? ==> r.value == |old(entries)| - |entries|
      ensures r.Ok? ==>
                && (forall k :: k in entries ==> k in old(entries) && entries[k] == old(entries)[k])
                && (forall k :: k in old(entries) ==>
                      (k in entries <==>
                         k.gateway != g || |order| <= maxCachedVersions || k in order[..maxCachedVersions]))
    {
      if fault {
        return Err(());
      }
      if |order| <= maxCachedVersions {
        return Ok(0);
      }
      var victims := order[maxCachedVersions..];
      EvictedCount(entries, g, order, maxCachedVersions);
      EvictedInWords(entries, g, order, maxCachedVersions);
      entries := entries - Elements(victims);
      return Ok(|victims|);
    }
  }
}
