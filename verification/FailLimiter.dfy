/** The in-memory limiter of failed API tokens: pruned lists per client that refine the whole history. */
module FailLimiter {
  import opened FailHistory

  /** The instants after the cutoff. */
  function Young(times: seq<int>, cutoff: int): seq<int> {
    if times == [] then []
    else
      var rest := Young(times[..|times| - 1], cutoff);
      if times[|times| - 1] > cutoff then rest + [times[|times| - 1]] else rest
  }

  /** When the key failed since the last reset, after the cutoff. */
  ghost function Kept(h: History, key: string, cutoff: int): seq<int> {
    match h
    case Start => []
    case Then(before, _, _, f, reset) =>
      (if reset then [] else Kept(before, key, cutoff))
      + if f.key == key && f.time > cutoff then [f.time] else []
  }

  lemma YoungLast(times: seq<int>, t: int, cutoff: int)
    ensures Young(times + [t], cutoff) == Young(times, cutoff) + (if t > cutoff then [t] else [])
  {
    assert (times + [t])[..|times|] == times;
  }

  lemma {:induction false} YoungTwice(times: seq<int>, early: int, late: int)
    requires early <= late
    ensures Young(Young(times, early), late) == Young(times, late)
  {
    if times != [] {
      YoungTwice(times[..|times| - 1], early, late);
      YoungLast(Young(times[..|times| - 1], early), times[|times| - 1], late);
    }
  }

  lemma {:induction false} KeptLater(h: History, key: string, early: int, late: int)
    requires early <= late
    ensures Young(Kept(h, key, early), late) == Kept(h, key, late)
  {
    if h.Then? {
      KeptLater(h.before, key, early, late);
      var rest := if h.reset then [] else Kept(h.before, key, early);
      if h.f.key == key && h.f.time > early {
        YoungLast(rest, h.f.time, late);
      } else {
        assert rest + [] == rest;
      }
    }
  }

  lemma {:induction false} KeptCounts(h: History, key: string, cutoff: int)
    ensures |Kept(h, key, cutoff)| == Recent(h, key, cutoff)
    ensures key in Live(h, cutoff) <==> Recent(h, key, cutoff) > 0
  {
    if h.Then? {
      KeptCounts(h.before, key, cutoff);
    }
  }

  function HitsOf(hits: map<string, seq<int>>, key: string): seq<int> {
    if key in hits then hits[key] else []
  }

  ghost predicate Same(hits: map<string, seq<int>>, h: History, cutoff: int, key: string) {
    Young(HitsOf(hits, key), cutoff) == Kept(h, key, cutoff)
  }

  /** After the cutoff, the pruned lists and the whole history show the same failures. */
  ghost predicate Refines(hits: map<string, seq<int>>, h: History, cutoff: int) {
    forall key :: Same(hits, h, cutoff, key)
  }

  lemma RefinesLater(hits: map<string, seq<int>>, h: History, early: int, late: int)
    requires Refines(hits, h, early) && early <= late
    ensures Refines(hits, h, late)
  {
    forall key ensures Same(hits, h, late, key) {
      assert Same(hits, h, early, key);
      YoungTwice(HitsOf(hits, key), early, late);
      KeptLater(h, key, early, late);
    }
  }

  function Pruned(hits: map<string, seq<int>>, key: string, cutoff: int): map<string, seq<int>> {
    var kept := Young(HitsOf(hits, key), cutoff);
    if kept == [] then hits - {key} else hits[key := kept]
  }

  lemma PrunedOf(hits: map<string, seq<int>>, key: string, cutoff: int, k: string)
    ensures HitsOf(Pruned(hits, key, cutoff), k) ==
            if k == key then Young(HitsOf(hits, key), cutoff) else HitsOf(hits, k)
  {}

  lemma PruneRefines(hits: map<string, seq<int>>, h: History, key: string, cutoff: int)
    requires Refines(hits, h, cutoff)
    ensures Refines(Pruned(hits, key, cutoff), h, cutoff)
  {
    forall k ensures Same(Pruned(hits, key, cutoff), h, cutoff, k) {
      assert Same(hits, h, cutoff, k);
      PrunedOf(hits, key, cutoff, k);
      YoungTwice(HitsOf(hits, key), cutoff, cutoff);
    }
  }

  lemma PushRefines(hits: map<string, seq<int>>, h: History, after: History, key: string, cutoff: int)
    requires Refines(hits, h, cutoff)
    requires after.Then? && after.f.key == key && h == if after.reset then Start else after.before
    ensures Refines(hits[key := HitsOf(hits, key) + [after.f.time]], after, cutoff)
  {
    var pushed := hits[key := HitsOf(hits, key) + [after.f.time]];
    forall k ensures Same(pushed, after, cutoff, k) {
      assert Same(hits, h, cutoff, k);
      assert Kept(after, k, cutoff) ==
             Kept(h, k, cutoff) + if k == key && after.f.time > cutoff then [after.f.time] else [];
      if k == key {
        YoungLast(HitsOf(hits, key), after.f.time, cutoff);
      } else {
        assert HitsOf(pushed, k) == HitsOf(hits, k);
      }
    }
  }

  ghost predicate Fresh(hits: map<string, seq<int>>, key: string, cutoff: int) {
    Young(HitsOf(hits, key), cutoff) != []
  }

  /** Every key of the map outside todo has a failure after the cutoff. */
  ghost predicate AllFresh(hits: map<string, seq<int>>, todo: set<string>, cutoff: int) {
    forall k :: k in hits && k !in todo ==> Fresh(hits, k, cutoff)
  }

  lemma PruneFresh(hits: map<string, seq<int>>, todo: set<string>, key: string, cutoff: int)
    requires AllFresh(hits, todo, cutoff)
    ensures AllFresh(Pruned(hits, key, cutoff), todo - {key}, cutoff)
  {
    var after := Pruned(hits, key, cutoff);
    forall k | k in after && k !in todo - {key} ensures Fresh(after, k, cutoff) {
      PrunedOf(hits, key, cutoff, k);
      if k == key {
        YoungTwice(HitsOf(hits, key), cutoff, cutoff);
      } else {
        assert Fresh(hits, k, cutoff);
      }
    }
  }

  /** A key with a recent failure is always in the map, and a fully pruned map holds no other. */
  lemma LiveMap(hits: map<string, seq<int>>, h: History, cutoff: int)
    requires Refines(hits, h, cutoff)
    ensures |Live(h, cutoff)| <= |hits|
    ensures AllFresh(hits, {}, cutoff) ==> hits.Keys == Live(h, cutoff)
  {
    forall k ensures k in Live(h, cutoff) <==> k in hits && Fresh(hits, k, cutoff) {
      assert Same(hits, h, cutoff, k);
      KeptCounts(h, k, cutoff);
    }
    SubsetSize(Live(h, cutoff), hits.Keys);
    assert |hits.Keys| == |hits|;
  }

  lemma SubsetSize(a: set<string>, b: set<string>)
    requires a <= b
    ensures |a| <= |b|
  {
    assert b == a + (b - a);
  }

  /** How a request with an API token is answered. */
  datatype Answer = TooMany | Invalid | Suspended | Admitted

  class Limiter {
    const window: int
    const max: int
    var hits: map<string, seq<int>>
    ghost var history: History  // every failure ever recorded
    ghost var clock: int        // when the limiter was last used

    ghost predicate Valid() reads this {
      && Refines(hits, history, clock - window) && |hits| <= MAX_KEYS + 1
      && NoneAfter(history, clock)
    }

    constructor (window: int, max: int, ghost start: int)
      ensures Valid() && this.window == window && this.max == max
      ensures history == Start && clock == start
    {
      this.window, this.max, hits := window, max, map[];
      history, clock := Start, start;
    }

    method Prune(key: string, now: int) returns (kept: seq<int>)
      modifies this`hits
      ensures hits == Pruned(old(hits), key, now - window)
      ensures kept == HitsOf(hits, key)
    {
      var cutoff := now - window;
      kept := [];
      var times := HitsOf(hits, key);
      for i := 0 to |times|
        invariant kept == Young(times[..i], cutoff)
        invariant hits == old(hits)
      {
        assert times[..i + 1][..i] == times[..i];
        if times[i] > cutoff {
          kept := kept + [times[i]];
        }
      }
      assert times[..|times|] == times;
      if |kept| == 0 {
        hits := hits - {key};
        return [];
      }
      hits := hits[key := kept];
    }

    /** Pruning one key, seen from its two callers: nothing after the cutoff is lost. */
    method PruneTurn(key: string, now: int, ghost todo: set<string>) returns (count: nat)
      requires Refines(hits, history, now - window) && AllFresh(hits, todo, now - window)
      modifies this`hits
      ensures Refines(hits, history, now - window) && AllFresh(hits, todo - {key}, now - window)
      ensures |hits| <= |old(hits)|
      ensures count == Recent(history, key, now - window)
    {
      PrunedTurn(hits, history, todo, key, now - window);
      var kept := Prune(key, now);
      count := |kept|;
    }

    method Blocked(key: string, now: int) returns (r: bool)
      requires Valid() && clock <= now
      modifies this
      ensures Valid() && clock == now && history == old(history)
      ensures r <==> Recent(history, key, now - window) >= max
    {
      RefinesLater(hits, history, clock - window, now - window);
      clock := now;
      var count := PruneTurn(key, now, hits.Keys);
      r := count >= max;
    }

    method PruneAll(now: int)
      requires Refines(hits, history, now - window) && |hits| <= MAX_KEYS + 1
      modifies this`hits
      ensures Refines(hits, history, now - window) && |hits| <= MAX_KEYS + 1
      ensures hits.Keys == Live(history, now - window)
    {
      var todo := hits.Keys;
      ghost var cutoff := now - window;
      while todo != {}
        invariant Refines(hits, history, cutoff) && |hits| <= MAX_KEYS + 1
        invariant AllFresh(hits, todo, cutoff)
        decreases |todo|
      {
        var k :| k in todo;
        var _ := PruneTurn(k, now, todo);
        todo := todo - {k};
      }
      LiveMap(hits, history, cutoff);
    }

    /** The first half of fail: prune every key, or forget everything, when the map is full. */
    method MakeRoom(now: int)
      requires Refines(hits, history, now - window) && |hits| <= MAX_KEYS + 1
      modifies this`hits
      ensures |hits| <= MAX_KEYS
      ensures Refines(hits, if Full(history, now - window) then Start else history, now - window)
    {
      LiveMap(hits, history, now - window);
      if |hits| > MAX_KEYS {
        PruneAll(now);
        if |hits| > MAX_KEYS {
          hits := map[];
        }
      }
    }

    /** The second half of fail: the pruned list of the key and the new instant. */
    method Push(key: string, now: int, ghost h: History, ghost after: History)
      requires Refines(hits, h, now - window) && |hits| <= MAX_KEYS
      requires after.Then? && after.f == Failure(key, now) && h == if after.reset then Start else after.before
      modifies this`hits
      ensures Refines(hits, after, now - window) && |hits| <= MAX_KEYS + 1
    {
      FailRefines(hits, h, after, key, now - window);
      var kept := Prune(key, now);
      hits := hits[key := kept + [now]];
    }

    /** The client was found unblocked at the instant asked, when the history was seen. */
    method Fail(key: string, now: int, ghost seen: History, ghost asked: int)
      requires Valid() && clock <= now
      modifies this
      ensures Valid() && clock == now
      ensures var full := Full(old(history), now - window);
              history == Then(old(history), seen, asked, Failure(key, now), full)
    {
      RefinesLater(hits, history, clock - window, now - window);
      clock := now;
      MakeRoom(now);
      ghost var full := Full(history, now - window);
      ghost var after := Then(history, seen, asked, Failure(key, now), full);
      Push(key, now, if full then Start else history, after);
      history := after;
    }

    /**
     * How a request uses the limiter: a bad token counts only while its client is not blocked.
     * The verdict on the token comes between the check and the failure.
     */
    method CheckToken(key: string, asked: int, failed: int, good: bool, suspended: bool) returns (r: Answer)
      requires Valid() && clock <= asked <= failed && Legal(history, window, max)
      modifies this
      ensures Valid() && Legal(history, window, max)
      ensures r.TooMany? <==> Recent(old(history), key, asked - window) >= max
      ensures r.Invalid? <==> !r.TooMany? && !good
      ensures r.Suspended? <==> !r.TooMany? && good && suspended
      ensures if r.Invalid? then
                var full := Full(old(history), failed - window);
                history == Then(old(history), old(history), asked, Failure(key, failed), full)
              else history == old(history)
    {
      var blocked := Blocked(key, asked);
      if blocked {
        return TooMany;
      }
      if !good {
        Fail(key, failed, history, asked);
        return Invalid;
      }
      if suspended {
        return Suspended;
      }
      return Admitted;
    }
  }

  lemma PrunedTurn(hits: map<string, seq<int>>, h: History, todo: set<string>, key: string, cutoff: int)
    requires Refines(hits, h, cutoff) && AllFresh(hits, todo, cutoff)
    ensures var after := Pruned(hits, key, cutoff);
            && Refines(after, h, cutoff) && AllFresh(after, todo - {key}, cutoff) && |after| <= |hits|
            && |HitsOf(after, key)| == Recent(h, key, cutoff)
  {
    PruneRefines(hits, h, key, cutoff);
    PrunedSize(hits, key, cutoff);
    PruneFresh(hits, todo, key, cutoff);
    assert Same(hits, h, cutoff, key);
    PrunedOf(hits, key, cutoff, key);
    KeptCounts(h, key, cutoff);
  }

  lemma FailRefines(hits: map<string, seq<int>>, h: History, after: History, key: string, cutoff: int)
    requires Refines(hits, h, cutoff)
    requires after.Then? && after.f.key == key && h == if after.reset then Start else after.before
    ensures var pruned := Pruned(hits, key, cutoff);
            var pushed := pruned[key := HitsOf(pruned, key) + [after.f.time]];
            Refines(pushed, after, cutoff) && |pushed| <= |hits| + 1
  {
    var pruned := Pruned(hits, key, cutoff);
    PruneRefines(hits, h, key, cutoff);
    PushRefines(pruned, h, after, key, cutoff);
    PrunedSize(hits, key, cutoff);
    assert pruned[key := HitsOf(pruned, key) + [after.f.time]].Keys == pruned.Keys + {key};
    assert |pruned.Keys| == |pruned|;
  }

  lemma PrunedSize(hits: map<string, seq<int>>, key: string, cutoff: int)
    ensures |Pruned(hits, key, cutoff)| <= |hits|
  {
    var after := Pruned(hits, key, cutoff);
    assert |after.Keys| == |after| && |hits.Keys| == |hits|;
    SubsetSize(after.Keys, hits.Keys);
  }
}
