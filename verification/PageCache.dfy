/**
 * The page cache: a size-bounded LRU kept as a map, a list and a byte counter.
 * The list is a sequence whose front is the most recently used entry.
 */
module PageCache {
  import opened Text

  const MAX_BYTES: int := 0x800_0000  // 128 MiB for the whole cache
  const MAX_BODY: int := 0x20_0000    // 2 MiB for one page

  /** A stored page; times are instants, expires is the put time plus the TTL. */
  datatype Entry = Entry(key: string, domain: string, status: int, header: string,
                         body: seq<Byte>, expires: int, stored: int)

  datatype Counters = Counters(hits: nat, misses: nat)

  datatype Report = Report(hits: nat, misses: nat, entries: nat, bytes: nat)

  // ---------------------------------------------------------------- lists of entries

  ghost predicate Distinct(order: seq<Entry>) {
    forall i, j :: 0 <= i < j < |order| ==> order[i].key != order[j].key
  }

  function Size(order: seq<Entry>): nat {
    if order == [] then 0 else Size(order[..|order| - 1]) + |order[|order| - 1].body|
  }

  predicate Has(order: seq<Entry>, key: string) {
    exists e :: e in order && e.key == key
  }

  /** The list without the entry of the given key. */
  function Remove(order: seq<Entry>, key: string): (r: seq<Entry>)
    ensures forall e :: e in order && e.key != key ==> e in r
    ensures forall e :: e in r ==> e in order
    ensures |r| <= |order|
  {
    if order == [] then []
    else if order[0].key == key then order[1..]
    else [order[0]] + Remove(order[1..], key)
  }

  /** Drops least recently used entries while over the cap, never the front. */
  function Evict(order: seq<Entry>): (r: seq<Entry>)
    ensures r <= order
  {
    if Size(order) > MAX_BYTES && |order| > 1 then Evict(order[..|order| - 1]) else order
  }

  function Drop(order: seq<Entry>, domain: string): (r: seq<Entry>)
    ensures forall e :: e in r <==> e in order && e.domain != domain
  {
    if order == [] then []
    else if order[0].domain == domain then Drop(order[1..], domain)
    else [order[0]] + Drop(order[1..], domain)
  }

  function DomainCount(order: seq<Entry>, domain: string): nat {
    if order == [] then 0
    else (if order[0].domain == domain then 1 else 0) + DomainCount(order[1..], domain)
  }

  function DomainSize(order: seq<Entry>, domain: string): nat {
    if order == [] then 0
    else (if order[0].domain == domain then |order[0].body| else 0) + DomainSize(order[1..], domain)
  }

  lemma {:induction false} SizeConcat(a: seq<Entry>, b: seq<Entry>)
    ensures Size(a + b) == Size(a) + Size(b)
  {
    if b == [] {
      assert a + b == a;
    } else {
      assert (a + b)[..|a + b| - 1] == a + b[..|b| - 1];
      SizeConcat(a, b[..|b| - 1]);
    }
  }

  lemma SizeFront(order: seq<Entry>)
    requires order != []
    ensures Size(order) == |order[0].body| + Size(order[1..])
  {
    assert order == [order[0]] + order[1..];
    SizeConcat([order[0]], order[1..]);
    assert [order[0]][..0] == [];
  }

  /** Removing a present key takes away exactly its entry and its bytes. */
  lemma RemoveKey(order: seq<Entry>, e: Entry)
    requires Distinct(order) && e in order
    ensures Size(Remove(order, e.key)) == Size(order) - |e.body|
    ensures |Remove(order, e.key)| == |order| - 1
    ensures Distinct(Remove(order, e.key))
    ensures !Has(Remove(order, e.key), e.key)
  {
    var i :| 0 <= i < |order| && order[i] == e;
    RemoveAt(order, i);
    SizeGap(order, i);
    DistinctGap(order, i);
  }

  lemma SizeGap(order: seq<Entry>, i: nat)
    requires i < |order|
    ensures Size(order[..i] + order[i + 1..]) == Size(order) - |order[i].body|
  {
    SizeConcat(order[..i], order[i + 1..]);
    SizeConcat(order[..i], order[i..]);
    SizeFront(order[i..]);
    assert order[..i] + order[i..] == order;
    assert order[i..][1..] == order[i + 1..];
  }

  lemma DistinctGap(order: seq<Entry>, i: nat)
    requires Distinct(order) && i < |order|
    ensures Distinct(order[..i] + order[i + 1..])
    ensures !Has(order[..i] + order[i + 1..], order[i].key)
  {
    var r := order[..i] + order[i + 1..];
    forall e | e in r ensures e.key != order[i].key {
      var j :| 0 <= j < |r| && r[j] == e;
      assert e == order[if j < i then j else j + 1];
    }
  }

  lemma {:induction false} RemoveMissing(order: seq<Entry>, key: string)
    requires !Has(order, key)
    ensures Remove(order, key) == order
  {
    if order != [] {
      assert order[0] in order;
      assert forall e :: e in order[1..] ==> e in order;
      RemoveMissing(order[1..], key);
    }
  }

  /**
   * Eviction keeps the front, gets under the cap unless one entry is left, and drops
   * nothing it could have kept: every longer prefix is over the cap.
   */
  lemma {:induction false} EvictExact(order: seq<Entry>)
    ensures order != [] ==> Evict(order) != [] && Evict(order)[0] == order[0]
    ensures Size(Evict(order)) <= MAX_BYTES || |Evict(order)| <= 1
    ensures forall n :: |Evict(order)| < n <= |order| ==> Size(order[..n]) > MAX_BYTES
  {
    if Size(order) > MAX_BYTES && |order| > 1 {
      var shorter := order[..|order| - 1];
      EvictExact(shorter);
      forall n | |Evict(order)| < n <= |order| ensures Size(order[..n]) > MAX_BYTES {
        if n == |order| {
          assert order[..n] == order;
        } else {
          assert order[..n] == shorter[..n];
        }
      }
    }
  }

  lemma {:induction false} DropExact(order: seq<Entry>, domain: string)
    ensures |Drop(order, domain)| == |order| - DomainCount(order, domain)
    ensures Size(Drop(order, domain)) == Size(order) - DomainSize(order, domain)
  {
    if order != [] {
      DropExact(order[1..], domain);
      SizeFront(order);
      var r := Drop(order, domain);
      if order[0].domain != domain {
        SizeFront(r);
        assert r[1..] == Drop(order[1..], domain);
      }
    }
  }

  lemma {:induction false} DropDistinct(order: seq<Entry>, domain: string)
    requires Distinct(order)
    ensures Distinct(Drop(order, domain))
  {
    if order != [] {
      var rest := Drop(order[1..], domain);
      DropDistinct(order[1..], domain);
      forall e | e in rest ensures e.key != order[0].key {
        assert e in order[1..];
      }
    }
  }

  function Total(order: seq<Entry>, domains: seq<string>): nat {
    if domains == [] then 0 else DomainSize(order, domains[0]) + Total(order, domains[1..])
  }

  lemma {:induction false} TotalFront(order: seq<Entry>, domains: seq<string>)
    requires order != []
    requires forall i, j :: 0 <= i < j < |domains| ==> domains[i] != domains[j]
    ensures Total(order, domains) ==
            Total(order[1..], domains) + (if order[0].domain in domains then |order[0].body| else 0)
  {
    if domains != [] {
      TotalFront(order, domains[1..]);
      assert domains == [domains[0]] + domains[1..];
    }
  }

  /** The sizes Stats reports, over all domains that have pages, add up to the whole cache. */
  lemma {:induction false} StatsAddUp(order: seq<Entry>, domains: seq<string>)
    requires forall i, j :: 0 <= i < j < |domains| ==> domains[i] != domains[j]
    requires forall e :: e in order ==> e.domain in domains
    ensures Total(order, domains) == Size(order)
  {
    if order == [] {
      TotalEmpty(domains);
    } else {
      TotalFront(order, domains);
      assert order[0] in order;
      assert forall e :: e in order[1..] ==> e in order;
      StatsAddUp(order[1..], domains);
      SizeFront(order);
    }
  }

  lemma {:induction false} TotalEmpty(domains: seq<string>)
    ensures Total([], domains) == 0
  {
    if domains != [] {
      TotalEmpty(domains[1..]);
    }
  }

  // ---------------------------------------------------------------- one step on the list

  datatype Op =
    | Get(domain: string, wanted: string, now: int)
    | Put(entry: Entry)
    | Purge(purged: string)

  function Lookup(order: seq<Entry>, key: string): (r: Option<Entry>)
    ensures r.None? ==> !Has(order, key)
    ensures r.Some? ==> r.value in order && r.value.key == key
  {
    if order == [] then None
    else if order[0].key == key then Some(order[0])
    else Lookup(order[1..], key)
  }

  function GetReply(order: seq<Entry>, key: string, now: int): Option<Entry> {
    var found := Lookup(order, key);
    if found.Some? && now <= found.value.expires then found else None
  }

  function GetOrder(order: seq<Entry>, key: string, now: int): seq<Entry> {
    var found := Lookup(order, key);
    if found.None? then order
    else if now > found.value.expires then Remove(order, key)
    else [found.value] + Remove(order, key)
  }

  function PutOrder(order: seq<Entry>, e: Entry): seq<Entry> {
    Evict([e] + Remove(order, e.key))
  }

  function Step(order: seq<Entry>, op: Op): seq<Entry> {
    match op
    case Get(_, key, now) => GetOrder(order, key, now)
    case Put(e) => PutOrder(order, e)
    case Purge(domain) => Drop(order, domain)
  }

  function Run(h: seq<Op>): seq<Entry> {
    if h == [] then [] else Step(Run(h[..|h| - 1]), h[|h| - 1])
  }

  // ---------------------------------------------------------------- the class

  /** The map and the list hold the same entries, keys are distinct, the counter is the sum. */
  ghost predicate Agree(entries: map<string, Entry>, order: seq<Entry>, bytes: int) {
    && Distinct(order)
    && (forall e :: e in order ==> e.key in entries && entries[e.key] == e)
    && (forall key :: key in entries ==> entries[key] in order && entries[key].key == key)
    && bytes == Size(order)
  }

  lemma Front(e: Entry, rest: seq<Entry>)
    requires Distinct(rest) && !Has(rest, e.key)
    ensures Distinct([e] + rest) && Size([e] + rest) == |e.body| + Size(rest)
  {
    SizeFront([e] + rest);
    assert ([e] + rest)[1..] == rest;
  }

  lemma AgreeRemove(entries: map<string, Entry>, order: seq<Entry>, bytes: int, e: Entry)
    requires Agree(entries, order, bytes) && e in order
    ensures Agree(entries - {e.key}, Remove(order, e.key), bytes - |e.body|)
    ensures !Has(Remove(order, e.key), e.key)
  {
    RemoveKey(order, e);
  }

  lemma AgreeFront(entries: map<string, Entry>, order: seq<Entry>, bytes: int, e: Entry)
    requires Agree(entries, order, bytes) && !Has(order, e.key)
    ensures Agree(entries[e.key := e], [e] + order, bytes + |e.body|)
  {
    Front(e, order);
  }

  lemma AgreeMove(entries: map<string, Entry>, order: seq<Entry>, bytes: int, e: Entry)
    requires Agree(entries, order, bytes) && e in order
    ensures Agree(entries, [e] + Remove(order, e.key), bytes)
  {
    var rest := Remove(order, e.key);
    RemoveKey(order, e);
    Front(e, rest);
    forall x | x in order ensures x in [e] + rest {
      if x.key == e.key {
        assert x == entries[e.key];
      } else {
        assert x in rest;
      }
    }
  }

  lemma AgreeLookup(entries: map<string, Entry>, order: seq<Entry>, bytes: int, key: string)
    requires Agree(entries, order, bytes)
    ensures Lookup(order, key) == (if key in entries then Some(entries[key]) else None)
  {
    if key in entries {
      LookupEntry(order, entries[key]);
    }
  }

  class Cache {
    var entries: map<string, Entry>
    var order: seq<Entry>
    var bytes: int
    var stats: map<string, Counters>

    ghost predicate Valid() reads this {
      Agree(entries, order, bytes)
    }

    constructor ()
      ensures Valid() && order == [] && stats == map[]
    {
      entries, order, bytes, stats := map[], [], 0, map[];
    }

    function StatsFor(domain: string): Counters reads this {
      if domain in stats then stats[domain] else Counters(0, 0)
    }

    method RemoveLocked(e: Entry)
      requires Valid() && e in order
      modifies this`entries, this`order, this`bytes
      ensures Valid() && order == Remove(old(order), e.key) && !Has(order, e.key)
    {
      AgreeRemove(entries, order, bytes, e);
      order := Remove(order, e.key);
      entries := entries - {e.key};
      bytes := bytes - |e.body|;
    }

    method Get(domain: string, key: string, now: int) returns (page: Option<Entry>)
      requires Valid()
      modifies this
      ensures Valid()
      ensures page == GetReply(old(order), key, now)
      ensures order == GetOrder(old(order), key, now)
      ensures stats == old(stats)[domain := Counted(old(StatsFor(domain)), page.Some?)]
    {
      var counters := StatsFor(domain);
      AgreeLookup(entries, order, bytes, key);
      if key !in entries {
        stats := stats[domain := Counted(counters, false)];
        return None;
      }
      var e := entries[key];
      if now > e.expires {
        RemoveLocked(e);
        stats := stats[domain := Counted(counters, false)];
        return None;
      }
      AgreeMove(entries, order, bytes, e);
      order := [e] + Remove(order, key);
      stats := stats[domain := Counted(counters, true)];
      return Some(e);
    }

    method Put(domain: string, key: string, status: int, header: string, body: seq<Byte>,
               ttl: int, stored: int, now: int)
      requires Valid()
      modifies this`entries, this`order, this`bytes
      ensures Valid()
      ensures order == PutOrder(old(order), Entry(key, domain, status, header, body, now + ttl, stored))
    {
      var e := Entry(key, domain, status, header, body, now + ttl, stored);
      AgreeLookup(entries, order, bytes, key);
      if key in entries {
        RemoveLocked(entries[key]);
      } else {
        RemoveMissing(order, key);
      }
      AgreeFront(entries, order, bytes, e);
      entries := entries[key := e];
      order := [e] + order;
      bytes := bytes + |body|;
      EvictLoop();
    }

    /** The loop of Put that drops the back of the list while over the cap. */
    method EvictLoop()
      requires Valid()
      modifies this`entries, this`order, this`bytes
      ensures Valid() && order == Evict(old(order))
    {
      while bytes > MAX_BYTES && |order| > 1
        invariant Valid() && Evict(order) == Evict(old(order))
        decreases |order|
      {
        EvictBack(order);
        RemoveLocked(order[|order| - 1]);
      }
    }

    method Purge(domain: string) returns (n: nat)
      requires Valid()
      modifies this`entries, this`order, this`bytes
      ensures Valid() && order == Drop(old(order), domain)
      ensures n == DomainCount(old(order), domain)
      ensures n == |old(order)| - |order|
    {
      n := 0;
      var i := 0;
      while i < |order|
        invariant Valid() && 0 <= i <= |order|
        invariant order[..i] + Drop(order[i..], domain) == Drop(old(order), domain)
        invariant n + DomainCount(order[i..], domain) == DomainCount(old(order), domain)
        decreases |order| - i
      {
        DropAt(order, i, domain);
        if order[i].domain == domain {
          RemoveLocked(order[i]);
          n := n + 1;
        } else {
          i := i + 1;
        }
      }
      assert order[i..] == [] && order[..i] == order;
      DropExact(old(order), domain);
    }

    method Stats(domain: string) returns (r: Report)
      requires Valid()
      modifies this`stats
      ensures stats == old(stats)[domain := old(StatsFor(domain))]
      ensures r == Report(old(StatsFor(domain)).hits, old(StatsFor(domain)).misses,
                          DomainCount(order, domain), DomainSize(order, domain))
    {
      stats := stats[domain := StatsFor(domain)];
      r := Report(stats[domain].hits, stats[domain].misses, 0, 0);
      var i := 0;
      while i < |order|
        invariant 0 <= i <= |order|
        invariant stats == old(stats)[domain := old(StatsFor(domain))]
        invariant r.hits == stats[domain].hits && r.misses == stats[domain].misses
        invariant r.entries + DomainCount(order[i..], domain) == DomainCount(order, domain)
        invariant r.bytes + DomainSize(order[i..], domain) == DomainSize(order, domain)
      {
        assert order[i..][0] == order[i] && order[i..][1..] == order[i + 1..];
        if order[i].domain == domain {
          r := r.(entries := r.entries + 1, bytes := r.bytes + |order[i].body|);
        }
        i := i + 1;
      }
    }
  }

  function Counted(c: Counters, hit: bool): Counters {
    if hit then c.(hits := c.hits + 1) else c.(misses := c.misses + 1)
  }

  lemma {:induction false} LookupEntry(order: seq<Entry>, e: Entry)
    requires Distinct(order) && e in order
    ensures Lookup(order, e.key) == Some(e)
  {
    if order[0] != e {
      assert e in order[1..];
      LookupEntry(order[1..], e);
    }
  }

  lemma {:induction false} RemoveAt(order: seq<Entry>, i: nat)
    requires Distinct(order) && i < |order|
    ensures Remove(order, order[i].key) == order[..i] + order[i + 1..]
  {
    if i > 0 {
      var rest := order[1..];
      RemoveAt(rest, i - 1);
      Assoc([order[0]], rest[..i - 1], rest[i..]);
      assert [order[0]] + rest[..i - 1] == order[..i];
    }
  }

  /** One turn of Put's loop: the back goes and the outcome stays the same. */
  lemma EvictBack(order: seq<Entry>)
    requires Distinct(order) && Size(order) > MAX_BYTES && |order| > 1
    ensures var r := Remove(order, order[|order| - 1].key);
            |r| == |order| - 1 && Evict(order) == Evict(r)
  {
    RemoveAt(order, |order| - 1);
    assert order[..|order| - 1] + order[|order| - 1 + 1..] == order[..|order| - 1];
  }

  /** One turn of Purge's loop: the element at i is removed or stepped over. */
  lemma DropAt(order: seq<Entry>, i: nat, domain: string)
    requires Distinct(order) && i < |order|
    ensures var r := Remove(order, order[i].key);
            && |r| == |order| - 1 && r[i..] == order[i + 1..] && r[..i] == order[..i]
    ensures order[i].domain == domain ==>
              && Drop(order[i..], domain) == Drop(order[i + 1..], domain)
              && DomainCount(order[i..], domain) == 1 + DomainCount(order[i + 1..], domain)
    ensures order[i].domain != domain ==>
              && order[..i] + Drop(order[i..], domain) == order[..i + 1] + Drop(order[i + 1..], domain)
              && DomainCount(order[i..], domain) == DomainCount(order[i + 1..], domain)
  {
    RemoveAt(order, i);
    assert order[i..][0] == order[i] && order[i..][1..] == order[i + 1..];
    Assoc(order[..i], [order[i]], Drop(order[i + 1..], domain));
    assert order[..i + 1] == order[..i] + [order[i]];
  }

  // ---------------------------------------------------------------- every run

  predicate Puts(op: Op, key: string) {
    op.Put? && op.entry.key == key
  }

  /** Position of the last Put of the key, -1 if it was never put. */
  function LastPut(h: seq<Op>, key: string): (i: int)
    ensures -1 <= i < |h|
    ensures i >= 0 ==> Puts(h[i], key)
    ensures forall j :: i < j < |h| ==> !Puts(h[j], key)
  {
    if h == [] then -1
    else if Puts(h[|h| - 1], key) then |h| - 1
    else LastPut(h[..|h| - 1], key)
  }

  /** The operation on this list puts the key or finds it. */
  predicate Uses(order: seq<Entry>, op: Op, key: string) {
    Puts(op, key) || (op.Get? && op.wanted == key && GetReply(order, key, op.now).Some?)
  }

  /** Position of the last use of the key, -1 if it was never used. */
  function LastUse(h: seq<Op>, key: string): (i: int)
    ensures -1 <= i < |h|
  {
    if h == [] then -1
    else if Uses(Run(h[..|h| - 1]), h[|h| - 1], key) then |h| - 1
    else LastUse(h[..|h| - 1], key)
  }

  lemma {:induction false} LastUseIsLast(h: seq<Op>, key: string, j: nat)
    requires j < |h|
    ensures var i := LastUse(h, key);
            && (i >= 0 ==> Uses(Run(h[..i]), h[i], key))
            && (j > i ==> !Uses(Run(h[..j]), h[j], key))
  {
    var before, i := h[..|h| - 1], LastUse(h, key);
    if i < |h| - 1 && |h| > 1 {
      LastUseIsLast(before, key, if j < |before| then j else 0);
      assert i >= 0 ==> before[..i] == h[..i];
      assert j < |before| ==> before[..j] == h[..j];
    }
  }

  /** The entry is the key's last Put, and its domain was not purged after it. */
  ghost predicate Current(h: seq<Op>, e: Entry) {
    var i := LastPut(h, e.key);
    && i >= 0 && h[i] == Op.Put(e)
    && forall j :: i < j < |h| ==> h[j] != Op.Purge(e.domain)
  }

  ghost predicate ByRecency(h: seq<Op>, order: seq<Entry>) {
    forall i, j :: 0 <= i < j < |order| ==> LastUse(h, order[i].key) > LastUse(h, order[j].key)
  }

  lemma StepDistinct(order: seq<Entry>, op: Op)
    requires Distinct(order)
    ensures Distinct(Step(order, op))
  {
    match op
    case Get(_, key, now) =>
      if Lookup(order, key).Some? {
        RemoveKey(order, Lookup(order, key).value);
        FrontDistinct(order, Lookup(order, key).value);
      }
    case Put(e) =>
      FrontDistinct(order, e);
      EvictDistinct([e] + Remove(order, e.key));
    case Purge(domain) =>
      DropDistinct(order, domain);
  }

  lemma FrontDistinct(order: seq<Entry>, e: Entry)
    requires Distinct(order)
    ensures Distinct([e] + Remove(order, e.key))
  {
    var rest := Remove(order, e.key);
    RemoveHas(order, e.key);
    assert forall i :: 0 <= i < |rest| ==> rest[i] in rest && rest[i].key != e.key;
  }

  lemma EvictDistinct(order: seq<Entry>)
    requires Distinct(order)
    ensures Distinct(Evict(order))
  {
    var kept := Evict(order);
    assert forall i :: 0 <= i < |kept| ==> kept[i] == order[i];
  }

  lemma RemoveHas(order: seq<Entry>, key: string)
    requires Distinct(order)
    ensures Distinct(Remove(order, key)) && !Has(Remove(order, key), key)
  {
    if Has(order, key) {
      var e :| e in order && e.key == key;
      RemoveKey(order, e);
    } else {
      RemoveMissing(order, key);
    }
  }

  lemma {:induction false} RunDistinct(h: seq<Op>)
    ensures Distinct(Run(h))
  {
    if h != [] {
      RunDistinct(h[..|h| - 1]);
      StepDistinct(Run(h[..|h| - 1]), h[|h| - 1]);
    }
  }

  /** Whatever a run leaves in the cache is the last Put of its key, not purged since. */
  lemma {:induction false} HeldIsLastPut(h: seq<Op>, e: Entry)
    requires e in Run(h)
    ensures Current(h, e)
  {
    var before, op := h[..|h| - 1], h[|h| - 1];
    var order := Run(before);
    RunDistinct(before);
    if op != Op.Put(e) {
      StepKeeps(order, op, e);
      HeldIsLastPut(before, e);
      StillCurrent(h, e);
    }
  }

  lemma StillCurrent(h: seq<Op>, e: Entry)
    requires h != [] && Current(h[..|h| - 1], e)
    requires !Puts(h[|h| - 1], e.key) && h[|h| - 1] != Op.Purge(e.domain)
    ensures Current(h, e)
  {
    var before := h[..|h| - 1];
    forall j | 0 <= j < |h| - 1 ensures h[j] == before[j] {
    }
  }

  /** An operation adds nothing but the entry it puts; it keeps no other entry of that key. */
  lemma StepKeeps(order: seq<Entry>, op: Op, e: Entry)
    requires Distinct(order) && e in Step(order, op) && op != Op.Put(e)
    ensures e in order && !Puts(op, e.key) && op != Op.Purge(e.domain)
  {
    if op.Put? {
      RemoveHas(order, op.entry.key);
    }
  }

  /** A hit returns the key's last Put, not past its expiry, with no later Purge of its domain. */
  lemma HitIsLastPut(h: seq<Op>, key: string, now: int)
    requires GetReply(Run(h), key, now).Some?
    ensures var e := GetReply(Run(h), key, now).value;
            e.key == key && now <= e.expires && Current(h, e)
  {
    HeldIsLastPut(h, GetReply(Run(h), key, now).value);
  }

  /** The list is ordered by last use, the latest first. */
  lemma {:induction false} OrderIsRecency(h: seq<Op>)
    ensures ByRecency(h, Run(h))
  {
    if h != [] {
      var before, op := h[..|h| - 1], h[|h| - 1];
      var order := Run(before);
      OrderIsRecency(before);
      RunDistinct(before);
      match op
      case Get(_, key, now) =>
        if Lookup(order, key).Some? {
          RemoveHas(order, key);
          RemoveRecency(before, order, key);
          FrontRecency(h, Remove(order, key), Lookup(order, key).value);
        } else {
          SameRecency(h, order);
        }
      case Put(e) =>
        RemoveHas(order, e.key);
        RemoveRecency(before, order, e.key);
        FrontRecency(h, Remove(order, e.key), e);
      case Purge(domain) =>
        DropRecency(before, order, domain);
        SameRecency(h, Drop(order, domain));
    }
  }

  /** Keys the last operation did not use keep their order; the used one is the latest. */
  lemma FrontRecency(h: seq<Op>, rest: seq<Entry>, e: Entry)
    requires h != [] && ByRecency(h[..|h| - 1], rest) && !Has(rest, e.key)
    requires h[|h| - 1].Put? || h[|h| - 1].Get?
    requires e.key == if h[|h| - 1].Put? then h[|h| - 1].entry.key else h[|h| - 1].wanted
    ensures ByRecency(h, rest)
    ensures Uses(Run(h[..|h| - 1]), h[|h| - 1], e.key) ==> ByRecency(h, [e] + rest)
  {
    forall x | x in rest ensures LastUse(h, x.key) == LastUse(h[..|h| - 1], x.key) {
      assert x.key != e.key;
    }
  }

  lemma SameRecency(h: seq<Op>, order: seq<Entry>)
    requires h != [] && ByRecency(h[..|h| - 1], order)
    requires h[|h| - 1].Purge? || (h[|h| - 1].Get? && !Has(order, h[|h| - 1].wanted))
    ensures ByRecency(h, order)
  {
    forall x | x in order ensures LastUse(h, x.key) == LastUse(h[..|h| - 1], x.key) {
    }
  }

  lemma ConsRecency(h: seq<Op>, order: seq<Entry>, kept: seq<Entry>)
    requires order != [] && ByRecency(h, order) && ByRecency(h, kept)
    requires forall e :: e in kept ==> e in order[1..]
    ensures ByRecency(h, [order[0]] + kept)
  {
    forall j | 0 <= j < |kept| ensures LastUse(h, order[0].key) > LastUse(h, kept[j].key) {
      assert kept[j] in order[1..];
      var i :| 0 <= i < |order[1..]| && order[1..][i] == kept[j];
      assert order[i + 1] == kept[j];
    }
  }

  lemma {:induction false} RemoveRecency(h: seq<Op>, order: seq<Entry>, key: string)
    requires ByRecency(h, order)
    ensures ByRecency(h, Remove(order, key))
  {
    if order != [] && order[0].key != key {
      RemoveRecency(h, order[1..], key);
      ConsRecency(h, order, Remove(order[1..], key));
    }
  }

  lemma {:induction false} DropRecency(h: seq<Op>, order: seq<Entry>, domain: string)
    requires ByRecency(h, order)
    ensures ByRecency(h, Drop(order, domain))
  {
    if order != [] {
      DropRecency(h, order[1..], domain);
      ConsRecency(h, order, Drop(order[1..], domain));
    }
  }

  /** The operation at position j took the entry out, in one of the three permitted ways. */
  ghost predicate Dropped(h: seq<Op>, j: nat, e: Entry)
    requires j < |h|
  {
    match h[j]
    case Get(_, key, now) => key == e.key && now > e.expires
    case Purge(domain) => domain == e.domain
    case Put(page) => page.key != e.key && EvictedLeastRecent(h[..j], page, e)
  }

  /**
   * Putting page evicted e: every survivor was used more recently than e, and together with
   * the pages used after e they leave no room for it.
   */
  ghost predicate EvictedLeastRecent(before: seq<Op>, page: Entry, e: Entry) {
    var full := [page] + Remove(Run(before), page.key);
    var after := before + [Op.Put(page)];
    && (forall x :: x in Run(after) ==> LastUse(after, x.key) > LastUse(after, e.key))
    && exists n :: |Run(after)| < n <= |full| && full[n - 1] == e && Size(full[..n]) > MAX_BYTES
  }

  /** A key that was put and is now missing was expired, purged or evicted as least recent. */
  lemma {:induction false} MissingWasDropped(h: seq<Op>, key: string) returns (j: nat)
    requires LastPut(h, key) >= 0 && !Has(Run(h), key)
    ensures LastPut(h, key) < j < |h|
    ensures Dropped(h, j, h[LastPut(h, key)].entry)
  {
    var before, op := h[..|h| - 1], h[|h| - 1];
    assert h == before + [op];
    if op.Put? {
      PutHas(Run(before), op.entry);
    }
    if !Has(Run(before), key) {
      j := MissingWasDropped(before, key);
      DroppedStays(before, op, j, before[LastPut(before, key)].entry);
    } else {
      j := |before|;
      HeldLoses(before, op, key);
    }
  }

  lemma DroppedStays(before: seq<Op>, op: Op, j: nat, e: Entry)
    requires j < |before| && Dropped(before, j, e)
    ensures Dropped(before + [op], j, e)
  {
    assert (before + [op])[..j] == before[..j] && (before + [op])[j] == before[j];
  }

  /** A key that the last operation took out: its entry was that of the last Put. */
  lemma HeldLoses(before: seq<Op>, op: Op, key: string)
    requires Has(Run(before), key) && !Has(Step(Run(before), op), key) && !Puts(op, key)
    ensures LastPut(before, key) >= 0 && Dropped(before + [op], |before|, before[LastPut(before, key)].entry)
  {
    var e :| e in Run(before) && e.key == key;
    HeldIsLastPut(before, e);
    RunDistinct(before);
    StepLoses(before, op, e);
  }

  lemma StepLoses(before: seq<Op>, op: Op, e: Entry)
    requires Distinct(Run(before)) && e in Run(before) && !Has(Step(Run(before), op), e.key)
    requires !Puts(op, e.key)
    ensures Dropped(before + [op], |before|, e)
  {
    var h := before + [op];
    assert h[..|before|] == before;
    match op
    case Get(_, key, now) =>
      GetLoses(Run(before), key, now, e);
    case Purge(domain) =>
      assert e.domain != domain ==> e in Drop(Run(before), domain);
    case Put(page) =>
      EvictedIsLeast(before, page, e);
  }

  lemma GetLoses(order: seq<Entry>, key: string, now: int, e: Entry)
    requires Distinct(order) && e in order && !Has(GetOrder(order, key, now), e.key)
    ensures key == e.key && now > e.expires
  {
    LookupEntry(order, e);
    assert key != e.key ==> e in Remove(order, key);
  }

  lemma EvictedIsLeast(before: seq<Op>, page: Entry, e: Entry)
    requires Distinct(Run(before)) && e in Run(before) && e.key != page.key
    requires !Has(PutOrder(Run(before), page), e.key)
    ensures EvictedLeastRecent(before, page, e)
  {
    var full, after := [page] + Remove(Run(before), page.key), before + [Op.Put(page)];
    assert after[..|before|] == before;
    FullRecency(before, page);
    assert e in full && Run(after) == Evict(full);
    var n := EvictedCut(full, e);
    PrefixRecency(after, full, Evict(full), n - 1);
  }

  lemma PrefixRecency(h: seq<Op>, full: seq<Entry>, kept: seq<Entry>, n: nat)
    requires ByRecency(h, full) && kept <= full && |kept| <= n < |full|
    ensures forall x :: x in kept ==> LastUse(h, x.key) > LastUse(h, full[n].key)
  {
    forall x | x in kept ensures LastUse(h, x.key) > LastUse(h, full[n].key) {
      var i :| 0 <= i < |kept| && kept[i] == x;
      assert x == full[i];
    }
  }

  lemma FullRecency(before: seq<Op>, page: Entry)
    requires Distinct(Run(before))
    ensures ByRecency(before + [Op.Put(page)], [page] + Remove(Run(before), page.key))
  {
    var after := before + [Op.Put(page)];
    assert after[..|before|] == before;
    OrderIsRecency(before);
    RemoveHas(Run(before), page.key);
    RemoveRecency(before, Run(before), page.key);
    FrontRecency(after, Remove(Run(before), page.key), page);
  }

  lemma EvictedCut(full: seq<Entry>, e: Entry) returns (n: nat)
    requires e in full && !Has(Evict(full), e.key)
    ensures |Evict(full)| < n <= |full| && full[n - 1] == e && Size(full[..n]) > MAX_BYTES
  {
    var m :| 0 <= m < |full| && full[m] == e;
    n := m + 1;
    EvictExact(full);
    PrefixHas(Evict(full), full, m);
  }

  lemma PrefixHas(kept: seq<Entry>, full: seq<Entry>, m: nat)
    requires kept <= full && m < |full|
    ensures m < |kept| ==> Has(kept, full[m].key)
  {
    if m < |kept| {
      assert full[m] == kept[m];
      assert kept[m] in kept;
    }
  }

  lemma PutHas(order: seq<Entry>, e: Entry)
    ensures Has(PutOrder(order, e), e.key)
  {
    EvictExact([e] + Remove(order, e.key));
    assert PutOrder(order, e)[0] in PutOrder(order, e);
  }

  /** With pages of at most 2 MiB the cache never holds more than 128 MiB. */
  lemma {:induction false} NeverOverCap(h: seq<Op>)
    requires forall i :: 0 <= i < |h| && h[i].Put? ==> |h[i].entry.body| <= MAX_BODY
    ensures Size(Run(h)) <= MAX_BYTES
  {
    if h != [] {
      var before, op := h[..|h| - 1], h[|h| - 1];
      var order := Run(before);
      NeverOverCap(before);
      RunDistinct(before);
      match op
      case Get(_, key, now) =>
        if Lookup(order, key).Some? {
          RemoveKey(order, Lookup(order, key).value);
          RemoveHas(order, key);
          Front(Lookup(order, key).value, Remove(order, key));
        }
      case Put(e) =>
        PutFits(order, e);
      case Purge(domain) =>
        DropExact(order, domain);
    }
  }

  /** A Put keeps its own page, at the front, and only a page over the cap leaves it over. */
  lemma PutFits(order: seq<Entry>, e: Entry)
    ensures PutOrder(order, e) != [] && PutOrder(order, e)[0] == e
    ensures Size(PutOrder(order, e)) <= MAX_BYTES || PutOrder(order, e) == [e]
    ensures |e.body| <= MAX_BYTES ==> Size(PutOrder(order, e)) <= MAX_BYTES
  {
    var full := [e] + Remove(order, e.key);
    EvictExact(full);
    var r := Evict(full);
    if |r| <= 1 {
      assert r == [e];
      assert [e][..0] == [];
    }
  }
}
