/** The sliding-window rate limiter (auth/rate_limiter.cpp), against a limiter that never forgets: `history` keeps every
    recorded attempt of a key since its last reset, while the real table drops expired entries and whole stale keys. */
module RateLimiter {
  /** A recorded attempt; `consumed` when it was admitted by `consume`, not merely reported by `record_failure`. */
  datatype Entry = Entry(time: int, consumed: bool)

  predicate Sorted(h: seq<Entry>) {
    forall i, j :: 0 <= i < j < |h| ==> h[i].time <= h[j].time
  }

  /** How many entries are at or after the cutoff. */
  function Recent(h: seq<Entry>, cutoff: int): nat {
    if h == [] then 0 else Recent(h[..|h| - 1], cutoff) + if h[|h| - 1].time >= cutoff then 1 else 0
  }

  /** What is recent now was recent at every earlier moment. */
  lemma {:induction false} RecentBefore(h: seq<Entry>, cutoff: int, later: int)
    requires cutoff <= later
    ensures Recent(h, later) <= Recent(h, cutoff)
  {
    if h != [] {
      RecentBefore(h[..|h| - 1], cutoff, later);
    }
  }

  lemma NothingRecent(cutoff: int)
    ensures Recent([], cutoff) == 0
  {
  }

  /** Something of the key is at or after the cutoff. */
  ghost predicate Live(history: map<string, seq<Entry>>, key: string, cutoff: int) {
    key in history && Recent(history[key], cutoff) > 0
  }

  lemma LiveBefore(history: map<string, seq<Entry>>, key: string, cutoff: int, later: int)
    requires cutoff <= later
    ensures Live(history, key, later) ==> Live(history, key, cutoff)
  {
    if key in history {
      RecentBefore(history[key], cutoff, later);
    }
  }

  /** The times of the admitted attempts, in order. */
  function Consumes(h: seq<Entry>): seq<int> {
    if h == [] then []
    else Consumes(h[..|h| - 1]) + if h[|h| - 1].consumed then [h[|h| - 1].time] else []
  }

  function Within(times: seq<int>, from: int, to: int): nat {
    if times == [] then 0
    else Within(times[..|times| - 1], from, to) + if from <= times[|times| - 1] <= to then 1 else 0
  }

  predicate SortedTimes(times: seq<int>) {
    forall i, j :: 0 <= i < j < |times| ==> times[i] <= times[j]
  }

  /** Any `limit` + 1 consecutive admissions span more than the window. */
  predicate Spaced(times: seq<int>, limit: nat, window: int) {
    forall i, j :: 0 <= i < |times| && 0 <= j < |times| && j == i + limit ==> times[j] - times[i] > window
  }

  lemma {:induction false} ConsumesSorted(h: seq<Entry>)
    requires Sorted(h)
    ensures SortedTimes(Consumes(h))
    ensures forall i :: 0 <= i < |Consumes(h)| ==> exists k :: 0 <= k < |h| && h[k].time == Consumes(h)[i]
  {
    if h != [] {
      var n := |h| - 1;
      ConsumesSorted(h[..n]);
      forall i | 0 <= i < |Consumes(h)|
        ensures exists k :: 0 <= k < |h| && h[k].time == Consumes(h)[i]
      {
        if i < |Consumes(h[..n])| {
          var k :| 0 <= k < n && h[..n][k].time == Consumes(h[..n])[i];
          assert h[k].time == Consumes(h)[i];
        } else {
          assert h[n].time == Consumes(h)[i];
        }
      }
    }
  }

  /** Admissions are among the recorded attempts, so fewer of them are recent. */
  lemma {:induction false} RecentConsumes(h: seq<Entry>, cutoff: int)
    requires Sorted(h)
    ensures forall i :: 0 <= i && i + Recent(h, cutoff) < |Consumes(h)| ==> Consumes(h)[i] < cutoff
  {
    if h != [] {
      var n := |h| - 1;
      RecentConsumes(h[..n], cutoff);
      if h[n].time < cutoff {
        NoneRecent(h[..n], cutoff);
        ConsumesSorted(h);
      }
    }
  }

  lemma {:induction false} NoneRecent(h: seq<Entry>, cutoff: int)
    requires forall i :: 0 <= i < |h| ==> h[i].time < cutoff
    ensures Recent(h, cutoff) == 0
  {
    if h != [] {
      NoneRecent(h[..|h| - 1], cutoff);
    }
  }

  /** An attempt admitted with fewer than `limit` recent entries keeps the admissions spaced. */
  lemma AdmissionKeepsSpacing(h: seq<Entry>, limit: nat, window: int, seen: int, time: int)
    requires Sorted(h) && Spaced(Consumes(h), limit, window) && Recent(h, seen - window) < limit && seen <= time
    ensures Spaced(Consumes(h + [Entry(time, true)]), limit, window)
  {
    var c := Consumes(h);
    assert (h + [Entry(time, true)])[..|h|] == h;
    RecentConsumes(h, seen - window);
    assert |c| >= limit ==> c[|c| - limit] < seen - window;
  }

  lemma FailureKeepsSpacing(h: seq<Entry>, limit: nat, window: int, time: int)
    requires Spaced(Consumes(h), limit, window)
    ensures Spaced(Consumes(h + [Entry(time, false)]), limit, window)
  {
    assert (h + [Entry(time, false)])[..|h|] == h;
  }

  /** What spacing means: no closed window of the configured length holds more than `limit` admissions. */
  lemma {:induction false} SpacedMeansLimited(times: seq<int>, limit: nat, window: int, from: int)
    requires SortedTimes(times) && Spaced(times, limit, window) && limit > 0 && window >= 0
    ensures Within(times, from, from + window) <= limit
  {
    if |times| > limit {
      var n := |times| - 1;
      SpacedMeansLimited(times[..n], limit, window, from);
      if from <= times[n] <= from + window {
        assert times[n] - times[n - limit] > window;
        AtMost(times[..n], limit - 1, from, window);
      }
    } else {
      Bounded(times, from, from + window);
    }
  }

  lemma {:induction false} Bounded(times: seq<int>, from: int, to: int)
    ensures Within(times, from, to) <= |times|
  {
    if times != [] {
      Bounded(times[..|times| - 1], from, to);
    }
  }

  /** If all but the last `k` are before the window, at most `k` are in it. */
  lemma {:induction false} AtMost(times: seq<int>, k: nat, from: int, window: int)
    requires forall i :: 0 <= i < |times| - k ==> times[i] < from
    ensures Within(times, from, from + window) <= k
  {
    if times != [] {
      if k == 0 {
        AtMost(times[..|times| - 1], 0, from, window);
      } else {
        AtMost(times[..|times| - 1], k - 1, from, window);
      }
    }
  }

  /** After dropping what is older than the cutoff from a sorted history, what is left is exactly what is recent. */
  lemma {:induction false} SuffixIsRecent(h: seq<Entry>, dropped: nat, cutoff: int)
    requires dropped <= |h|
    requires forall i :: 0 <= i < dropped ==> h[i].time < cutoff
    requires forall i :: dropped <= i < |h| ==> h[i].time >= cutoff
    ensures Recent(h, cutoff) == |h| - dropped
  {
    if |h| > dropped {
      SuffixIsRecent(h[..|h| - 1], dropped, cutoff);
    } else {
      NoneRecent(h, cutoff);
    }
  }

  ghost predicate Tail(kept: seq<int>, h: seq<Entry>, cutoff: int) {
    && |kept| <= |h|
    && (forall i :: 0 <= i < |kept| ==> kept[i] == h[|h| - |kept| + i].time)
    && (forall i :: 0 <= i < |h| - |kept| ==> h[i].time < cutoff)
  }

  /** What is kept of a key is the tail of its history, everything dropped is older than the window, and its admissions
      are spaced. */
  ghost predicate Facts(kept: seq<int>, h: seq<Entry>, clock: int, limit: nat, window: int) {
    && Tail(kept, h, clock - window) && Sorted(h) && (forall i :: 0 <= i < |h| ==> h[i].time <= clock)
    && Spaced(Consumes(h), limit, window)
  }

  lemma LaterFacts(kept: seq<int>, h: seq<Entry>, clock: int, later: int, limit: nat, window: int)
    requires Facts(kept, h, clock, limit, window) && clock <= later
    ensures Facts(kept, h, later, limit, window)
  {
  }

  lemma EmptyFacts(clock: int, limit: nat, window: int)
    ensures Facts([], [], clock, limit, window)
  {
  }

  lemma PurgedFacts(kept: seq<int>, rest: seq<int>, h: seq<Entry>, clock: int, t: int, limit: nat, window: int)
    requires Facts(kept, h, clock, limit, window) && clock <= t
    requires |rest| <= |kept| && rest == kept[|kept| - |rest|..]
    requires forall i :: 0 <= i < |kept| - |rest| ==> kept[i] < t - window
    requires rest != [] ==> rest[0] >= t - window
    ensures Facts(rest, h, t, limit, window) && |rest| == Recent(h, t - window)
  {
    var n := |h| - |rest|;
    forall i | 0 <= i < n
      ensures h[i].time < t - window
    {
      if i >= |h| - |kept| {
        assert kept[i - (|h| - |kept|)] == h[i].time;
      }
    }
    assert forall i :: n <= i < |h| ==> h[n].time <= h[i].time;
    assert rest != [] ==> rest[0] == h[n].time;
    SuffixIsRecent(h, n, t - window);
  }

  lemma AppendedFacts(kept: seq<int>, h: seq<Entry>, seen: int, t: int, consumed: bool, limit: nat, window: int)
    requires Facts(kept, h, seen, limit, window) && seen <= t
    requires consumed ==> Recent(h, seen - window) < limit
    ensures Facts(kept + [t], h + [Entry(t, consumed)], t, limit, window)
  {
    hide Spaced, Consumes, Recent, Tail;
    AppendedTail(kept, h, seen - window, t - window, Entry(t, consumed));
    if consumed {
      AdmissionKeepsSpacing(h, limit, window, seen, t);
    } else {
      FailureKeepsSpacing(h, limit, window, t);
    }
  }

  lemma AppendedTail(kept: seq<int>, h: seq<Entry>, cutoff: int, later: int, e: Entry)
    requires Tail(kept, h, cutoff) && cutoff <= later
    ensures Tail(kept + [e.time], h + [e], later)
  {
    var g, k := h + [e], kept + [e.time];
    forall i | 0 <= i < |k|
      ensures k[i] == g[|g| - |k| + i].time
    {
    }
  }

  /** A key that is not tracked has nothing recent: forgetting it forgot nothing that counts. */
  lemma UntrackedIsStale(h: seq<Entry>, clock: int, limit: nat, window: int)
    requires Facts([], h, clock, limit, window)
    ensures Recent(h, clock - window) == 0
  {
    NoneRecent(h, clock - window);
  }

  lemma SizeOfKeys(a: map<string, seq<int>>, b: map<string, seq<int>>)
    ensures |a| == |a.Keys| && |b| == |b.Keys|
    ensures b.Keys <= a.Keys ==> |b| <= |a|
    ensures a.Keys == b.Keys ==> |a| == |b|
    ensures forall key :: key !in a && b.Keys == a.Keys + {key} ==> |b| == |a| + 1
  {
    if b.Keys <= a.Keys {
      assert a.Keys == b.Keys + (a.Keys - b.Keys);
    }
  }

  class Limiter {
    const maxAttempts: nat
    const window: int
    const maxKeys: nat
    var clock: int
    var attempts: map<string, seq<int>>
    ghost var history: map<string, seq<Entry>>

    function Kept(key: string): seq<int>
      reads this
    {
      if key in attempts then attempts[key] else []
    }

    ghost function Past(key: string): seq<Entry>
      reads this
    {
      if key in history then history[key] else []
    }

    ghost predicate KeyOk(key: string)
      reads this
    {
      Facts(Kept(key), Past(key), clock, maxAttempts, window)
    }

    ghost predicate Valid()
      reads this
    {
      && maxAttempts > 0 && window > 0 && maxKeys > 0
      && |attempts| <= maxKeys && (forall key :: KeyOk(key))
    }

    constructor (maxAttempts: nat, window: int, maxKeys: nat, clock: int)
      requires maxAttempts > 0 && window > 0 && maxKeys > 0
      ensures Valid() && attempts == map[] && history == map[]
    {
      this.maxAttempts, this.window, this.maxKeys, this.clock := maxAttempts, window, maxKeys, clock;
      attempts, history := map[], map[];
    }

    /** Options must be positive; anything else gets no limiter. */
    static method Create(maxAttempts: nat, window: int, maxKeys: nat, clock: int) returns (limiter: Limiter?)
      ensures limiter == null <==> maxAttempts == 0 || window <= 0 || maxKeys == 0
      ensures limiter != null ==> fresh(limiter) && limiter.Valid()
    {
      limiter := null;
      if maxAttempts > 0 && window > 0 && maxKeys > 0 {
        limiter := new Limiter(maxAttempts, window, maxKeys, clock);
      }
    }

    /** A reading of the steady clock, which never goes back. */
    method Now() returns (t: int)
      modifies this`clock
      ensures t == clock >= old(clock)
    {
      var tick: int := *;
      if tick > 0 {
        clock := clock + tick;
      }
      t := clock;
    }

    /** Drop expired entries from the front. */
    method PurgeExpired(entries: seq<int>, t: int) returns (rest: seq<int>)
      ensures |rest| <= |entries| && rest == entries[|entries| - |rest|..]
      ensures forall i :: 0 <= i < |entries| - |rest| ==> entries[i] < t - window
      ensures rest != [] ==> rest[0] >= t - window
    {
      rest := entries;
      while rest != [] && rest[0] < t - window
        invariant |rest| <= |entries| && rest == entries[|entries| - |rest|..]
        invariant forall i :: 0 <= i < |entries| - |rest| ==> entries[i] < t - window
        decreases |rest|
      {
        rest := rest[1..];
      }
    }

    /** Purge one tracked key; it goes when nothing recent is left. */
    method PurgeKey(key: string)
      requires Valid() && key in attempts
      modifies this`clock, this`attempts
      ensures Valid() && clock >= old(clock)
      ensures attempts.Keys == old(attempts.Keys) || attempts.Keys == old(attempts.Keys) - {key}
      ensures forall k :: k in attempts && k != key ==> attempts[k] == old(attempts)[k]
      ensures key in attempts ==> attempts[key] != [] && Live(history, key, old(clock) - window)
      ensures |Kept(key)| == Recent(Past(key), clock - window)
      ensures |attempts| <= old(|attempts|)
    {
      hide Facts, Recent;
      assert KeyOk(key);
      var t := Now();
      var rest := PurgeExpired(attempts[key], t);
      PurgedFacts(old(Kept(key)), rest, Past(key), old(clock), t, maxAttempts, window);
      forall k
        ensures Facts(Kept(k), Past(k), clock, maxAttempts, window)
      {
        assert old(KeyOk(k));
        LaterFacts(Kept(k), Past(k), old(clock), clock, maxAttempts, window);
      }
      Keep(key, rest);
      RecentBefore(Past(key), old(clock) - window, clock - window);
      NothingRecent(old(clock) - window);
    }

    method Keep(key: string, rest: seq<int>)
      requires Valid() && key in attempts && Facts(rest, Past(key), clock, maxAttempts, window)
      modifies this`attempts
      ensures Valid() && attempts == if rest == [] then old(attempts) - {key} else old(attempts)[key := rest]
      ensures attempts.Keys == old(attempts.Keys) || attempts.Keys == old(attempts.Keys) - {key}
      ensures Kept(key) == rest && |attempts| <= old(|attempts|)
    {
      hide Facts;
      ghost var before := attempts;
      if rest == [] {
        attempts := attempts - {key};
      } else {
        attempts := attempts[key := rest];
        assert before.Keys == attempts.Keys;
      }
      SizeOfKeys(before, attempts);
      forall k
        ensures KeyOk(k)
      {
        assert old(KeyOk(k));
      }
    }

    method PurgeStaleKeys()
      requires Valid()
      modifies this`clock, this`attempts
      ensures Valid() && clock >= old(clock)
      ensures attempts.Keys <= old(attempts.Keys)
      ensures forall k :: k in attempts ==> attempts[k] != [] && Live(history, k, old(clock) - window)
    {
      hide Live, Facts;
      var todo := attempts.Keys;
      while todo != {}
        invariant Valid() && clock >= old(clock)
        invariant todo <= attempts.Keys <= old(attempts.Keys)
        invariant forall k :: k in attempts && k !in todo ==> attempts[k] != [] && Live(history, k, old(clock) - window)
        decreases |todo|
      {
        var key :| key in todo;
        todo := todo - {key};
        LiveBefore(history, key, old(clock) - window, clock - window);
        PurgeKey(key);
      }
    }

    method EnsureKeyAvailable(key: string) returns (available: bool)
      requires Valid()
      modifies this`clock, this`attempts
      ensures Valid() && clock >= old(clock) && attempts.Keys <= old(attempts.Keys)
      ensures available <==> key in attempts || |attempts| < maxKeys
      ensures old(key in attempts) ==> available && attempts == old(attempts)
      ensures !available ==> |attempts| == maxKeys && forall k :: k in attempts ==>
                             attempts[k] != [] && Live(history, k, old(clock) - window)
    {
      if key in attempts {
        return true;
      }
      if |attempts| >= maxKeys {
        PurgeStaleKeys();
      }
      available := |attempts| < maxKeys;
    }

    /** Make the key tracked, with its recent entries and no more. */
    method Track(key: string)
      requires Valid() && (key in attempts || |attempts| < maxKeys)
      modifies this`clock, this`attempts
      ensures Valid() && clock >= old(clock) && key in attempts
      ensures |attempts[key]| == Recent(Past(key), clock - window)
    {
      hide Facts, Recent;
      assert KeyOk(key);
      if key !in attempts {
        ghost var before := attempts;
        attempts := attempts[key := []];
        assert attempts.Keys == before.Keys + {key};
        SizeOfKeys(before, attempts);
      }
      var t := Now();
      var rest := PurgeExpired(attempts[key], t);
      PurgedFacts(old(Kept(key)), rest, Past(key), old(clock), t, maxAttempts, window);
      ghost var tracked := attempts;
      attempts := attempts[key := rest];
      assert attempts.Keys == tracked.Keys;
      SizeOfKeys(tracked, attempts);
      forall k
        ensures KeyOk(k)
      {
        assert old(KeyOk(k));
        if k != key {
          LaterFacts(Kept(k), Past(k), old(clock), clock, maxAttempts, window);
        }
      }
    }

    method Append(key: string, consumed: bool)
      requires Valid() && key in attempts
      requires consumed ==> Recent(Past(key), clock - window) < maxAttempts
      modifies this
      ensures Valid() && clock >= old(clock)
      ensures history == old(history)[key := old(Past(key)) + [Entry(clock, consumed)]]
    {
      hide Facts, Recent;
      assert KeyOk(key);
      ghost var h, seen := Past(key), clock;
      var t := Now();
      ghost var before := attempts;
      attempts := attempts[key := attempts[key] + [t]];
      history := history[key := h + [Entry(t, consumed)]];
      assert attempts.Keys == before.Keys;
      SizeOfKeys(before, attempts);
      AppendedFacts(before[key], h, seen, t, consumed, maxAttempts, window);
      forall k
        ensures KeyOk(k)
      {
        assert old(KeyOk(k));
        if k != key {
          LaterFacts(Kept(k), Past(k), old(clock), clock, maxAttempts, window);
        }
      }
    }

    /** The verdict is the never-forgetting limiter's at the moment `seen` of the purge, unless the table is full of
        other keys that all have something recent. */
    method Consume(key: string) returns (ok: bool, full: bool, ghost seen: int)
      requires Valid()
      modifies this
      ensures Valid() && old(clock) <= seen <= clock
      ensures full ==> !ok && old(key !in attempts) && |attempts| == maxKeys
                       && forall k :: k in attempts ==> attempts[k] != [] && Live(history, k, old(clock) - window)
      ensures !full ==> (ok <==> Recent(old(Past(key)), seen - window) < maxAttempts)
      ensures history == if ok then old(history)[key := old(Past(key)) + [Entry(clock, true)]] else old(history)
    {
      var available := EnsureKeyAvailable(key);
      full, seen := !available, clock;
      if full {
        return false, full, seen;
      }
      Track(key);
      seen := clock;
      if |attempts[key]| >= maxAttempts {
        return false, full, seen;
      }
      Append(key, true);
      ok := true;
    }

    method Check(key: string) returns (ok: bool, full: bool, ghost seen: int)
      requires Valid()
      modifies this`clock, this`attempts
      ensures Valid() && old(clock) <= seen <= clock
      ensures full ==> !ok && old(key !in attempts) && |attempts| == maxKeys
                       && forall k :: k in attempts ==> attempts[k] != [] && Live(history, k, old(clock) - window)
      ensures !full ==> (ok <==> Recent(Past(key), seen - window) < maxAttempts)
    {
      hide Facts, Recent, Live;
      assert KeyOk(key);
      if key !in attempts {
        UntrackedIsStale(Past(key), clock, maxAttempts, window);
        seen := clock;
        ok := EnsureKeyAvailable(key);
        full := !ok;
        return;
      }
      PurgeKey(key);
      full, seen := false, clock;
      ok := if key in attempts then |attempts[key]| < maxAttempts else true;
    }

    method RecordFailure(key: string)
      requires Valid()
      modifies this
      ensures Valid()
      ensures history == old(history) || history == old(history)[key := old(Past(key)) + [Entry(clock, false)]]
      ensures history == old(history) ==>
                && old(key !in attempts) && |attempts| == maxKeys
                && forall k :: k in attempts ==> attempts[k] != [] && Live(history, k, old(clock) - window)
    {
      var available := EnsureKeyAvailable(key);
      if available {
        Track(key);
        ghost var h := Past(key);
        Append(key, false);
        assert history[key] == h + [Entry(clock, false)];
        assert |history[key]| == |h| + 1;
      }
    }

    method Reset(key: string)
      requires Valid()
      modifies this
      ensures Valid() && clock == old(clock)
      ensures attempts == old(attempts) - {key} && history == old(history) - {key}
    {
      hide Facts;
      ghost var before := attempts;
      attempts := attempts - {key};
      history := history - {key};
      assert attempts.Keys <= before.Keys;
      SizeOfKeys(before, attempts);
      forall k
        ensures KeyOk(k)
      {
        assert old(KeyOk(k));
        if k == key {
          EmptyFacts(clock, maxAttempts, window);
        }
      }
    }

    /** However the limiter has been used, no closed window holds more than `maxAttempts` admissions of a key since its
        last reset, and no more than `maxKeys` keys are tracked. */
    lemma WindowLimit(key: string, from: int)
      requires Valid()
      ensures Within(Consumes(Past(key)), from, from + window) <= maxAttempts && |attempts| <= maxKeys
    {
      assert KeyOk(key);
      ConsumesSorted(Past(key));
      SpacedMeansLimited(Consumes(Past(key)), maxAttempts, window, from);
    }
  }
}
