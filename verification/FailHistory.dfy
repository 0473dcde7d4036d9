/** Every run of the limiter of failed API tokens: how often one client can fail in a window. */
module FailHistory {

  const MAX_KEYS: int := 20000

  /** One recorded failure. */
  datatype Failure = Failure(key: string, time: int)

  /**
   * All failures ever recorded, the latest outermost: the history when its client was found
   * unblocked, the instant of that check, and whether the map was reset to make room.
   */
  datatype History = Start | Then(before: History, seen: History, asked: int, f: Failure, reset: bool)

  /** The key's failures after the cutoff that the limiter still counts: those since the last reset. */
  ghost function Recent(h: History, key: string, cutoff: int): nat {
    match h
    case Start => 0
    case Then(before, _, _, f, reset) =>
      (if reset then 0 else Recent(before, key, cutoff)) + if f.key == key && f.time > cutoff then 1 else 0
  }

  /** The keys with such a failure. */
  ghost function Live(h: History, cutoff: int): set<string> {
    match h
    case Start => {}
    case Then(before, _, _, f, reset) =>
      (if reset then {} else Live(before, cutoff)) + if f.time > cutoff then {f.key} else {}
  }

  ghost predicate Full(h: History, cutoff: int) {
    |Live(h, cutoff)| > MAX_KEYS
  }

  /** How often the key failed after the cutoff, resets or not. */
  ghost function Failures(h: History, key: string, cutoff: int): nat {
    match h
    case Start => 0
    case Then(before, _, _, f, _) =>
      Failures(before, key, cutoff) + if f.key == key && f.time > cutoff then 1 else 0
  }

  ghost function Resets(h: History, cutoff: int): nat {
    match h
    case Start => 0
    case Then(before, _, _, f, reset) =>
      Resets(before, cutoff) + if reset && f.time > cutoff then 1 else 0
  }

  ghost predicate Extends(h: History, early: History) {
    h == early || (h.Then? && Extends(h.before, early))
  }

  /** The key's failures recorded after the early history. */
  ghost function Since(h: History, early: History, key: string): nat
    requires Extends(h, early)
  {
    if h == early then 0 else Since(h.before, early, key) + if h.f.key == key then 1 else 0
  }

  ghost predicate NoneAfter(h: History, now: int) {
    h.Then? ==> h.f.time <= now
  }

  /**
   * A history of the limiter: failures come in the order of time, a reset happens exactly when
   * the map is full, and each client was not blocked when it was checked.
   */
  ghost predicate Legal(h: History, window: int, max: int) {
    match h
    case Start => true
    case Then(before, seen, asked, f, reset) =>
      && Legal(before, window, max) && NoneAfter(before, f.time)
      && Extends(before, seen) && asked <= f.time
      && (reset <==> Full(before, f.time - window))
      && Recent(seen, f.key, asked - window) < max
  }

  /** At most so many failures of the key are recorded between a check and its own failure. */
  ghost predicate Overlaps(h: History, window: int, max: int, key: string, most: nat)
    requires Legal(h, window, max)
  {
    match h
    case Start => true
    case Then(before, seen, _, f, _) =>
      && Overlaps(before, window, max, key, most)
      && (f.key == key ==> Since(before, seen, key) <= most)
  }

  // ---------------------------------------------------------------- the bound

  lemma {:induction false} RecentLater(h: History, key: string, early: int, late: int)
    requires early <= late
    ensures Recent(h, key, late) <= Recent(h, key, early)
  {
    if h.Then? {
      RecentLater(h.before, key, early, late);
    }
  }

  /** Later cutoffs and the failures recorded meanwhile bound what is counted now. */
  lemma {:induction false} RecentSince(h: History, early: History, key: string, asked: int, cutoff: int)
    requires Extends(h, early) && asked <= cutoff
    ensures Recent(h, key, cutoff) <= Recent(early, key, asked) + Since(h, early, key)
  {
    if h == early {
      RecentLater(h, key, asked, cutoff);
    } else {
      RecentSince(h.before, early, key, asked, cutoff);
    }
  }

  /** The failures counted at any instant: at most max, and those that overlapped a check. */
  lemma {:induction false} RecentBound(
    h: History, key: string, now: int, window: int, max: nat, most: nat)
    requires Legal(h, window, max) && NoneAfter(h, now) && Overlaps(h, window, max, key, most)
    ensures Recent(h, key, now - window) <= max + most
  {
    if h.Then? {
      RecentBound(h.before, key, now, window, max, most);
      if h.f.key == key {
        RecentSince(h.before, h.seen, key, h.asked - window, now - window);
      }
    }
  }

  lemma {:induction false} QuietBefore(h: History, key: string, cutoff: int, window: int, max: int)
    requires Legal(h, window, max) && NoneAfter(h, cutoff)
    ensures Failures(h, key, cutoff) == 0
  {
    if h.Then? {
      QuietBefore(h.before, key, cutoff, window, max);
    }
  }

  lemma {:induction false} FailuresSplit(
    h: History, key: string, now: int, window: int, max: nat, most: nat)
    requires Legal(h, window, max) && NoneAfter(h, now) && Overlaps(h, window, max, key, most)
    ensures Failures(h, key, now - window) <=
            (max + most) * Resets(h, now - window) + Recent(h, key, now - window)
  {
    if h.Then? {
      FailuresSplit(h.before, key, now, window, max, most);
      if h.reset {
        RecentBound(h.before, key, now, window, max, most);
        if h.f.time <= now - window {
          QuietBefore(h.before, key, now - window, window, max);
        } else {
          Distribute(max + most, Resets(h.before, now - window));
        }
      }
    }
  }

  lemma Distribute(n: nat, k: nat)
    ensures n * (k + 1) == n * k + n
  {}

  /**
   * The failures of one client inside any window, when requests may overlap: at most max and the
   * overlap for the window, and once more for every reset of the full map inside it.
   */
  lemma WindowBound(h: History, key: string, now: int, window: int, max: nat, most: nat)
    requires Legal(h, window, max) && NoneAfter(h, now) && Overlaps(h, window, max, key, most)
    ensures Failures(h, key, now - window) <= (max + most) * (1 + Resets(h, now - window))
    ensures Resets(h, now - window) == 0 ==> Failures(h, key, now - window) <= max + most
  {
    FailuresSplit(h, key, now, window, max, most);
    RecentBound(h, key, now, window, max, most);
    Distribute(max + most, Resets(h, now - window));
  }

  // ---------------------------------------------------------------- the bound is reached

  /** Requests are served one after the other. */
  ghost predicate Serial(h: History, key: string, now: int, window: int, max: int) {
    Legal(h, window, max) && NoneAfter(h, now) && Overlaps(h, window, max, key, 0)
  }

  /** The i-th address of a flood from addresses other than the key. */
  function Other(key: string, i: nat): (r: string)
    ensures |r| == |key| + i + 1
  {
    (if i == 0 then key else Other(key, i - 1)) + ['x']
  }

  lemma {:induction false} NotLive(h: History, key: string, cutoff: int)
    requires key !in Live(h, cutoff)
    ensures Recent(h, key, cutoff) == 0
  {
    if h.Then? && !h.reset {
      NotLive(h.before, key, cutoff);
    }
  }

  /** One more failure of a client that is not blocked, checked just before. */
  lemma Next(h: History, key: string, client: string, now: int, window: int, max: int) returns (after: History)
    requires Serial(h, key, now, window, max) && Recent(h, client, now - window) < max && window >= 1
    ensures Serial(after, key, now, window, max)
    ensures Live(after, now - window) == (if Full(h, now - window) then {} else Live(h, now - window)) + {client}
    ensures Failures(after, key, now - window) ==
            Failures(h, key, now - window) + if client == key then 1 else 0
    ensures Resets(after, now - window) == Resets(h, now - window) + if Full(h, now - window) then 1 else 0
    ensures client == key && !Full(h, now - window) ==>
              Recent(after, key, now - window) == Recent(h, key, now - window) + 1
  {
    after := Then(h, h, now, Failure(client, now), Full(h, now - window));
  }

  /** The key fails n times. */
  lemma {:induction false} Burst(h: History, key: string, first: string, n: nat, now: int, window: int, max: int)
    returns (after: History)
    requires window >= 1 && n <= max && first != key
    requires Serial(h, key, now, window, max) && Live(h, now - window) == {first}
    ensures Serial(after, key, now, window, max)
    ensures Live(after, now - window) == if n == 0 then {first} else {first, key}
    ensures Recent(after, key, now - window) == n
    ensures Failures(after, key, now - window) == Failures(h, key, now - window) + n
    ensures Resets(after, now - window) == Resets(h, now - window)
  {
    if n == 0 {
      NotLive(h, key, now - window);
      after := h;
    } else {
      var before := Burst(h, key, first, n - 1, now, window, max);
      assert |Live(before, now - window)| <= 2;
      after := Next(before, key, key, now, window, max);
    }
  }

  /** The addresses of a round after n others. */
  ghost function Crowd(key: string, first: nat, n: nat): set<string> {
    if n == 0 then {Other(key, first), key} else Crowd(key, first, n - 1) + {Other(key, n)}
  }

  lemma {:induction false} CrowdSize(key: string, first: nat, n: nat)
    requires n < first
    ensures |Crowd(key, first, n)| == n + 2
    ensures forall k :: k in Crowd(key, first, n) ==>
              |k| <= |key| + n + 1 || |k| == |key| + first + 1
  {
    if n > 0 {
      CrowdSize(key, first, n - 1);
    }
  }

  lemma CrowdGrows(key: string, first: nat, n: nat)
    requires 0 < n < first
    ensures Other(key, n) !in Crowd(key, first, n - 1) && Other(key, n) != key
    ensures |Crowd(key, first, n - 1)| == n + 1
  {
    CrowdSize(key, first, n - 1);
  }

  /** A client without a recent failure fails. */
  lemma Newcomer(h: History, key: string, client: string, now: int, window: int, max: int) returns (after: History)
    requires Serial(h, key, now, window, max) && window >= 1 && max >= 1
    requires client !in Live(h, now - window) && client != key
    ensures Serial(after, key, now, window, max)
    ensures Live(after, now - window) == (if Full(h, now - window) then {} else Live(h, now - window)) + {client}
    ensures Failures(after, key, now - window) == Failures(h, key, now - window)
    ensures Resets(after, now - window) == Resets(h, now - window) + if Full(h, now - window) then 1 else 0
  {
    NotLive(h, client, now - window);
    after := Next(h, key, client, now, window, max);
  }

  /** The other addresses 1 .. n fail once each. */
  lemma {:induction false} Flood(h: History, key: string, first: nat, n: nat, now: int, window: int, max: int)
    returns (after: History)
    requires window >= 1 && max >= 1 && n < first && n < MAX_KEYS
    requires Serial(h, key, now, window, max) && Live(h, now - window) == {Other(key, first), key}
    ensures Serial(after, key, now, window, max)
    ensures Live(after, now - window) == Crowd(key, first, n)
    ensures Failures(after, key, now - window) == Failures(h, key, now - window)
    ensures Resets(after, now - window) == Resets(h, now - window)
  {
    if n == 0 {
      after := h;
    } else {
      var before := Flood(h, key, first, n - 1, now, window, max);
      CrowdGrows(key, first, n);
      after := Newcomer(before, key, Other(key, n), now, window, max);
    }
  }

  /** One address fails on a full map, or on none, then the key max times, then others until the map is full. */
  lemma Round(h: History, key: string, first: nat, now: int, window: int, max: nat) returns (after: History)
    requires window >= 1 && max >= 1 && MAX_KEYS <= first
    requires Serial(h, key, now, window, max)
    requires Other(key, first) !in Live(h, now - window)
    requires h == Start || Full(h, now - window)
    ensures Serial(after, key, now, window, max) && Full(after, now - window)
    ensures Other(key, first + 1) !in Live(after, now - window)
    ensures Failures(after, key, now - window) == Failures(h, key, now - window) + max
    ensures Resets(after, now - window) == Resets(h, now - window) + if h == Start then 0 else 1
  {
    var opener := Other(key, first);
    after := Newcomer(h, key, opener, now, window, max);
    after := Burst(after, key, opener, max, now, window, max);
    after := Flood(after, key, first, MAX_KEYS - 1, now, window, max);
    CrowdSize(key, first, MAX_KEYS - 1);
  }

  /** With r resets inside a window one client can fail max * (1 + r) times in it. */
  lemma {:induction false} BoundIsReached(key: string, r: nat, now: int, window: int, max: nat) returns (h: History)
    requires window >= 1 && max >= 1
    ensures Serial(h, key, now, window, max) && Full(h, now - window)
    ensures Other(key, MAX_KEYS + r + 1) !in Live(h, now - window)
    ensures Resets(h, now - window) == r
    ensures Failures(h, key, now - window) == max * (1 + r)
  {
    h := Start;
    if r > 0 {
      h := BoundIsReached(key, r - 1, now, window, max);
      Distribute(max, r);
    }
    h := Round(h, key, MAX_KEYS + r, now, window, max);
  }
}
