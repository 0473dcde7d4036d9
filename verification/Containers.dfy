/**
 * Containers, their host ports and the domains they serve. Every store write is one step;
 * the creation lock is held from the check of a request to the insertion of its row.
 */
module Containers {
  import opened Text

  const RANGE_START := 20000
  const RANGE_END := 29999
  const MAX_PORTS := 10

  datatype Proto = Tcp | Udp

  datatype PortMap = PortMap(container: int, host: int, proto: Proto, public: bool)

  /** A requested port; proto is the trimmed, lower-cased word, None if it is neither tcp, udp nor empty. */
  datatype PortRequest = PortRequest(container: int, host: int, proto: Option<Proto>, public: bool)

  /** named and limited stand for the checks on name and image, and on environment, volumes and limits. */
  datatype Request = Request(user: int, named: bool, ports: seq<PortRequest>, limited: bool, domain: int, webPort: int)

  datatype Id = Id(number: int)

  datatype Container = Container(user: int, domain: int, ports: seq<PortMap>, webPort: int)

  /** target is the port of the proxy target on the local host, 0 for none. */
  datatype Domain = Domain(owner: int, target: int)

  datatype Error =
    | BadName | NoPorts | TooManyPorts | BadContainerPort | PortTwice | BadProto | NoFreePort
    | OutOfRange | HostPortUsed | BadLimits | NoDomain | NotOwner | NoWebPort | WebPortUnpublished | DomainTaken
    | NotInstalled | OverQuota | NotStored | DidNotRun | NotAttached

  datatype Result<T> = Ok(value: T) | Err(error: Error)

  // ---------------------------------------------------------------- choosing ports

  predicate InRange(p: int) {
    RANGE_START <= p <= RANGE_END
  }

  function HostSet(ports: seq<PortMap>): set<int> {
    set p | p in ports :: p.host
  }

  predicate Free(p: int, used: set<int>, bindable: set<int>) {
    p !in used && p in bindable
  }

  /** p is the first port of the range that no container uses and that can be bound. */
  ghost predicate Lowest(p: int, used: set<int>, bindable: set<int>) {
    InRange(p) && Free(p, used, bindable) && forall q :: RANGE_START <= q < p ==> !Free(q, used, bindable)
  }

  ghost function FreePort(used: set<int>, bindable: set<int>): (r: Option<int>)
    ensures r.Some? ==> Lowest(r.value, used, bindable)
    ensures r.None? ==> forall p :: !Lowest(p, used, bindable)
  {
    if exists p :: Lowest(p, used, bindable) then
      var p :| Lowest(p, used, bindable);
      Some(p)
    else None
  }

  lemma {:induction false} LowestExists(p: int, used: set<int>, bindable: set<int>)
    requires InRange(p) && Free(p, used, bindable)
    ensures exists q :: Lowest(q, used, bindable)
    decreases p
  {
    if q :| RANGE_START <= q < p && Free(q, used, bindable) {
      LowestExists(q, used, bindable);
    } else {
      assert Lowest(p, used, bindable);
    }
  }

  /** There is no free port exactly when every port of the range is used or cannot be bound. */
  lemma NoneFree(used: set<int>, bindable: set<int>)
    ensures FreePort(used, bindable).None? <==> forall q :: InRange(q) ==> !Free(q, used, bindable)
  {
    if q :| InRange(q) && Free(q, used, bindable) {
      LowestExists(q, used, bindable);
    }
  }

  method AllocatePort(used: set<int>, bindable: set<int>) returns (r: Option<int>)
    ensures r == FreePort(used, bindable)
    ensures r.Some? ==> Lowest(r.value, used, bindable)
    ensures r.None? <==> forall q :: InRange(q) ==> q in used || q !in bindable
  {
    NoneFree(used, bindable);
    for p := RANGE_START to RANGE_END + 1
      invariant forall q :: RANGE_START <= q < p ==> !Free(q, used, bindable)
    {
      if p !in used && p in bindable {
        assert Lowest(p, used, bindable);
        assert Free(p, used, bindable);
        return Some(p);
      }
    }
    assert forall q :: InRange(q) ==> !Free(q, used, bindable);
    return None;
  }

  /** The mapping made for one requested port, given what is taken so far. */
  ghost function MapPort(p: PortRequest, used: set<int>, seen: set<int>, bindable: set<int>): Result<PortMap> {
    if p.container < 1 || p.container > 65535 then Err(BadContainerPort)
    else if p.container in seen then Err(PortTwice)
    else if p.proto.None? then Err(BadProto)
    else if p.host == 0 then
      var free := FreePort(used, bindable);
      if free.None? then Err(NoFreePort) else Ok(PortMap(p.container, free.value, p.proto.value, p.public))
    else if !InRange(p.host) then Err(OutOfRange)
    else if p.host in used then Err(HostPortUsed)
    else Ok(PortMap(p.container, p.host, p.proto.value, p.public))
  }

  ghost function MapPorts(reqs: seq<PortRequest>, used: set<int>, seen: set<int>, bindable: set<int>): Result<seq<PortMap>> {
    if reqs == [] then Ok([])
    else
      match MapPort(reqs[0], used, seen, bindable)
      case Err(e) => Err(e)
      case Ok(p) =>
        match MapPorts(reqs[1..], used + {p.host}, seen + {p.container}, bindable)
        case Err(e) => Err(e)
        case Ok(rest) => Ok([p] + rest)
  }

  /** Host ports of a container are in range and distinct, and so are its own ports. */
  ghost predicate Fine(ports: seq<PortMap>) {
    && (forall i :: 0 <= i < |ports| ==> InRange(ports[i].host))
    && (forall i, j :: 0 <= i < j < |ports| ==> ports[i].host != ports[j].host && ports[i].container != ports[j].container)
  }

  /** The mapping is what was requested: pinned where a host port was named, else bindable. */
  predicate Serves(p: PortMap, req: PortRequest, bindable: set<int>) {
    && p.container == req.container && p.public == req.public && Some(p.proto) == req.proto
    && (if req.host != 0 then p.host == req.host else p.host in bindable)
  }

  function OwnPorts(ports: seq<PortMap>): set<int> {
    set p | p in ports :: p.container
  }

  lemma FineCons(p: PortMap, rest: seq<PortMap>)
    requires Fine(rest) && InRange(p.host) && p.host !in HostSet(rest) && p.container !in OwnPorts(rest)
    ensures Fine([p] + rest)
  {
    forall i | 0 <= i < |rest| ensures rest[i].host != p.host && rest[i].container != p.container {
      assert rest[i].host in HostSet(rest) && rest[i].container in OwnPorts(rest);
    }
  }

  lemma SetsCons(p: PortMap, rest: seq<PortMap>)
    ensures HostSet([p] + rest) == {p.host} + HostSet(rest)
    ensures OwnPorts([p] + rest) == {p.container} + OwnPorts(rest)
  {
    assert forall q :: q in [p] + rest <==> q == p || q in rest;
  }

  /** Accepted ports are the requested ones and clash with nothing. */
  lemma {:induction false} MappedPorts(reqs: seq<PortRequest>, used: set<int>, seen: set<int>, bindable: set<int>)
    requires MapPorts(reqs, used, seen, bindable).Ok?
    ensures var ports := MapPorts(reqs, used, seen, bindable).value;
            && |ports| == |reqs| && Fine(ports) && HostSet(ports) !! used && OwnPorts(ports) !! seen
            && forall i :: 0 <= i < |ports| ==> Serves(ports[i], reqs[i], bindable)
  {
    if reqs != [] {
      var p := MapPort(reqs[0], used, seen, bindable).value;
      MappedPorts(reqs[1..], used + {p.host}, seen + {p.container}, bindable);
      var rest := MapPorts(reqs[1..], used + {p.host}, seen + {p.container}, bindable).value;
      FineCons(p, rest);
      SetsCons(p, rest);
      forall i | 0 <= i < |[p] + rest| ensures Serves(([p] + rest)[i], reqs[i], bindable) {
        if i > 0 {
          assert Serves(rest[i - 1], reqs[1..][i - 1], bindable);
        }
      }
    }
  }

  /** Running out of ports means that every port of the range is taken or cannot be bound. */
  lemma {:induction false} NoFreePortMeans(reqs: seq<PortRequest>, used: set<int>, seen: set<int>, bindable: set<int>)
    returns (earlier: set<int>)
    requires MapPorts(reqs, used, seen, bindable) == Err(NoFreePort)
    ensures |earlier| < |reqs|
    ensures forall q :: InRange(q) ==> q in used || q in earlier || q !in bindable
  {
    var first := MapPort(reqs[0], used, seen, bindable);
    if first.Err? {
      NoneFree(used, bindable);
      earlier := {};
    } else {
      earlier := NoFreePortMeans(reqs[1..], used + {first.value.host}, seen + {first.value.container}, bindable);
      earlier := earlier + {first.value.host};
    }
  }

  // ---------------------------------------------------------------- the state and its steps

  /** The two tables, and the container a creation holding the lock is about to insert. */
  datatype State = State(containers: map<Id, Container>, domains: map<int, Domain>, pending: Option<Container>)

  const INITIAL := State(map[], map[], None)

  function Used(containers: map<Id, Container>): set<int> {
    set id, p | id in containers && p in containers[id].ports :: p.host
  }

  predicate Attached(containers: map<Id, Container>, domain: int) {
    exists id :: id in containers && containers[id].domain == domain
  }

  predicate Publishes(reqs: seq<PortRequest>, port: int) {
    exists i :: 0 <= i < |reqs| && reqs[i].container == port
  }

  /** What the request asks of the domain table and of the rows already there. */
  function CheckDomain(s: State, req: Request): Option<Error> {
    if req.domain == 0 then None
    else if req.domain !in s.domains then Some(NoDomain)
    else if s.domains[req.domain].owner != req.user then Some(NotOwner)
    else if req.webPort == 0 then Some(NoWebPort)
    else if !Publishes(req.ports, req.webPort) then Some(WebPortUnpublished)
    else if Attached(s.containers, req.domain) then Some(DomainTaken)
    else None
  }

  ghost function Validate(s: State, req: Request, bindable: set<int>): Result<Container> {
    if !req.named then Err(BadName)
    else if |req.ports| == 0 then Err(NoPorts)
    else if |req.ports| > MAX_PORTS then Err(TooManyPorts)
    else
      match MapPorts(req.ports, Used(s.containers), {}, bindable)
      case Err(e) => Err(e)
      case Ok(ports) =>
        if !req.limited then Err(BadLimits)
        else
          match CheckDomain(s, req)
          case Some(e) => Err(e)
          case None => Ok(Container(req.user, req.domain, ports, if req.domain == 0 then 0 else req.webPort))
  }

  /** The host port of the first mapping of this container port, 0 if there is none. */
  function HostPortOf(ports: seq<PortMap>, port: int): int {
    if ports == [] then 0
    else if ports[0].container == port then ports[0].host
    else HostPortOf(ports[1..], port)
  }

  function WebHost(c: Container): int {
    if c.domain == 0 || c.webPort == 0 then 0 else HostPortOf(c.ports, c.webPort)
  }

  function SetTarget(domains: map<int, Domain>, id: int, target: int): map<int, Domain> {
    if id in domains then domains[id := domains[id].(target := target)] else domains
  }

  /** Detaching every container of a domain. */
  function Detached(containers: map<Id, Container>, domain: int): map<Id, Container> {
    map id | id in containers ::
      if containers[id].domain == domain then containers[id].(domain := 0, webPort := 0) else containers[id]
  }

  /** A row given to Apply was read earlier and need not be in the table any more. */
  datatype Step =
    | Begin(req: Request, bindable: set<int>)
    | Commit(id: Id)
    | Apply(row: Container)
    | Clear(domain: int)
    | DropRow(id: Id)
    | DropDomain(domain: int)
    | AddDomain(domain: int, owner: int)

  ghost function Next(s: State, step: Step): State {
    match step
    case Begin(req, bindable) =>
      if s.pending.Some? then s
      else
        var c := Validate(s, req, bindable);
        if c.Ok? then s.(pending := Some(c.value)) else s
    case Commit(id) =>
      if s.pending.Some? && id !in s.containers
      then s.(containers := s.containers[id := s.pending.value], pending := None) else s
    case Apply(row) =>
      if WebHost(row) == 0 then s else s.(domains := SetTarget(s.domains, row.domain, WebHost(row)))
    case Clear(domain) =>
      if domain == 0 then s else s.(domains := SetTarget(s.domains, domain, 0))
    case DropRow(id) => s.(containers := s.containers - {id})
    case DropDomain(domain) =>
      if domain == 0 then s
      else s.(containers := Detached(s.containers, domain), domains := s.domains - {domain})
    case AddDomain(domain, owner) =>
      if domain in s.domains || domain == 0 then s else s.(domains := s.domains[domain := Domain(owner, 0)])
  }

  ghost function Run(s: State, steps: seq<Step>): State {
    if steps == [] then s else Next(Run(s, steps[..|steps| - 1]), steps[|steps| - 1])
  }

  // ---------------------------------------------------------------- every interleaving

  ghost predicate PortsOk(containers: map<Id, Container>) {
    && (forall id :: id in containers ==> Fine(containers[id].ports))
    && (forall i, j :: i in containers && j in containers && i != j ==>
          HostSet(containers[i].ports) !! HostSet(containers[j].ports))
  }

  /** At most one container per domain, and it publishes the port the domain is served from. */
  ghost predicate AttachOk(containers: map<Id, Container>) {
    && (forall id :: id in containers ==> WebOk(containers[id]))
    && (forall i, j :: i in containers && j in containers && i != j && containers[i].domain == containers[j].domain ==>
          containers[i].domain == 0)
  }

  predicate WebOk(c: Container) {
    if c.domain == 0 then c.webPort == 0 else InRange(WebHost(c))
  }

  /** What a creation that holds the lock has checked is still true. */
  ghost predicate PendingOk(containers: map<Id, Container>, c: Container) {
    && Fine(c.ports) && WebOk(c)
    && (forall id :: id in containers ==> HostSet(containers[id].ports) !! HostSet(c.ports))
    && (c.domain != 0 ==> forall id :: id in containers ==> containers[id].domain != c.domain)
  }

  ghost predicate Safe(s: State) {
    PortsOk(s.containers) && AttachOk(s.containers) && (s.pending.Some? ==> PendingOk(s.containers, s.pending.value))
  }

  lemma ValidatedOk(s: State, req: Request, bindable: set<int>)
    requires Validate(s, req, bindable).Ok?
    ensures PendingOk(s.containers, Validate(s, req, bindable).value)
  {
    var c := Validate(s, req, bindable).value;
    MappedPorts(req.ports, Used(s.containers), {}, bindable);
    if req.domain != 0 {
      var i :| 0 <= i < |req.ports| && req.ports[i].container == req.webPort;
      assert Serves(c.ports[i], req.ports[i], bindable);
      HostPortFound(c.ports, req.webPort, i);
    }
    forall id | id in s.containers ensures HostSet(s.containers[id].ports) !! HostSet(c.ports) {
      assert HostSet(s.containers[id].ports) <= Used(s.containers);
    }
  }

  lemma {:induction false} HostPortFound(ports: seq<PortMap>, port: int, i: nat)
    requires i < |ports| && ports[i].container == port
    requires forall j :: 0 <= j < |ports| ==> InRange(ports[j].host)
    ensures InRange(HostPortOf(ports, port))
  {
    if ports[0].container != port {
      HostPortFound(ports[1..], port, i - 1);
    }
  }

  lemma CommitSafe(s: State, id: Id)
    requires Safe(s) && s.pending.Some? && id !in s.containers
    ensures Safe(Next(s, Commit(id)))
  {
  }

  lemma DropRowSafe(s: State, id: Id)
    requires Safe(s)
    ensures Safe(Next(s, DropRow(id)))
  {
  }

  lemma DropDomainSafe(s: State, domain: int)
    requires Safe(s)
    ensures Safe(Next(s, DropDomain(domain)))
  {
    DetachedPorts(s.containers, domain);
    DetachedAttach(s.containers, domain);
    if s.pending.Some? {
      DetachedPending(s.containers, domain, s.pending.value);
    }
  }

  lemma DetachedPorts(containers: map<Id, Container>, domain: int)
    requires PortsOk(containers)
    ensures PortsOk(Detached(containers, domain))
  {
  }

  lemma DetachedAttach(containers: map<Id, Container>, domain: int)
    requires AttachOk(containers)
    ensures AttachOk(Detached(containers, domain))
  {
  }

  lemma DetachedPending(containers: map<Id, Container>, domain: int, c: Container)
    requires PendingOk(containers, c)
    ensures PendingOk(Detached(containers, domain), c)
  {
  }

  lemma StepSafe(s: State, step: Step)
    requires Safe(s)
    ensures Safe(Next(s, step))
  {
    match step
    case Begin(req, bindable) =>
      if s.pending.None? && Validate(s, req, bindable).Ok? {
        ValidatedOk(s, req, bindable);
      }
    case Commit(id) =>
      if s.pending.Some? && id !in s.containers {
        CommitSafe(s, id);
      }
    case DropRow(id) => DropRowSafe(s, id);
    case DropDomain(domain) => DropDomainSafe(s, domain);
    case _ =>
  }

  /** In every run, steps of different operations in any order, ports and attachments stay sound. */
  lemma {:induction false} RunSafe(steps: seq<Step>)
    ensures Safe(Run(INITIAL, steps))
  {
    if steps != [] {
      RunSafe(steps[..|steps| - 1]);
      StepSafe(Run(INITIAL, steps[..|steps| - 1]), steps[|steps| - 1]);
    }
  }

  // ---------------------------------------------------------------- the proxy targets

  ghost predicate Named(s: State, domain: int)
    requires domain in s.domains
  {
    s.domains[domain].target == 0 ||
    exists id :: id in s.containers && s.containers[id].domain == domain && WebHost(s.containers[id]) == s.domains[domain].target
  }

  /** A domain's proxy target names the web port of the container attached to it. */
  ghost predicate ProxyOk(s: State) {
    forall d :: d in s.domains ==> Named(s, d)
  }

  /** What has to be true of the tables when a step is taken: only two kinds of step need anything. */
  predicate Guard(s: State, step: Step) {
    match step
    case Apply(row) =>
      WebHost(row) == 0 || row.domain !in s.domains ||
      exists id :: id in s.containers && s.containers[id].domain == row.domain && WebHost(s.containers[id]) == WebHost(row)
    case DropRow(id) =>
      id !in s.containers || s.containers[id].domain == 0 ||
      s.containers[id].domain !in s.domains || s.domains[s.containers[id].domain].target == 0
    case _ => true
  }

  lemma ApplyIff(s: State, row: Container)
    requires ProxyOk(s)
    ensures ProxyOk(Next(s, Apply(row))) <==> Guard(s, Apply(row))
  {
    var t := Next(s, Apply(row));
    if WebHost(row) != 0 && row.domain in s.domains {
      forall d | d in t.domains && d != row.domain ensures Named(t, d) {
        assert Named(s, d);
      }
      assert t.domains[row.domain].target == WebHost(row);
      assert Named(t, row.domain) <==> Guard(s, Apply(row));
    }
  }

  lemma DropRowIff(s: State, id: Id)
    requires ProxyOk(s) && Safe(s)
    ensures ProxyOk(Next(s, DropRow(id))) <==> Guard(s, DropRow(id))
  {
    var t := Next(s, DropRow(id));
    if id in s.containers {
      var own := s.containers[id].domain;
      forall d | d in s.domains && d != own ensures Named(t, d) {
        assert Named(s, d);
        if s.domains[d].target != 0 {
          var k :| k in s.containers && s.containers[k].domain == d && WebHost(s.containers[k]) == s.domains[d].target;
          assert k in t.containers;
        }
      }
      if own in s.domains {
        assert Named(s, own);
        assert Named(t, own) <==> Guard(s, DropRow(id));
      }
    } else {
      assert t == s;
    }
  }

  lemma DropDomainProxy(s: State, domain: int)
    requires ProxyOk(s)
    ensures ProxyOk(Next(s, DropDomain(domain)))
  {
    var t := Next(s, DropDomain(domain));
    forall d | d in t.domains ensures Named(t, d) {
      assert Named(s, d);
      if s.domains[d].target != 0 && domain != 0 {
        var id :| id in s.containers && s.containers[id].domain == d && WebHost(s.containers[id]) == s.domains[d].target;
        assert t.containers[id] == s.containers[id];
      }
    }
  }

  lemma CommitProxy(s: State, id: Id)
    requires ProxyOk(s)
    ensures ProxyOk(Next(s, Commit(id)))
  {
    var t := Next(s, Commit(id));
    forall d | d in t.domains ensures Named(t, d) {
      assert Named(s, d);
      if s.domains[d].target != 0 && t != s {
        var k :| k in s.containers && s.containers[k].domain == d && WebHost(s.containers[k]) == s.domains[d].target;
        assert t.containers[k] == s.containers[k];
      }
    }
  }

  /** Whole step relation: the targets stay right exactly when the step meets its guard. */
  lemma StepProxyIff(s: State, step: Step)
    requires Safe(s) && ProxyOk(s)
    ensures ProxyOk(Next(s, step)) <==> Guard(s, step)
  {
    match step
    case Begin(_, _) => SameTables(s, Next(s, step));
    case Commit(id) => CommitProxy(s, id);
    case Apply(row) => ApplyIff(s, row);
    case Clear(domain) => ResetProxy(s, Next(s, step));
    case DropRow(id) => DropRowIff(s, id);
    case DropDomain(domain) => DropDomainProxy(s, domain);
    case AddDomain(domain, owner) => ResetProxy(s, Next(s, step));
  }

  lemma SameTables(s: State, t: State)
    requires ProxyOk(s) && t.containers == s.containers && t.domains == s.domains
    ensures ProxyOk(t)
  {
    forall d | d in t.domains ensures Named(t, d) {
      assert Named(s, d);
    }
  }

  lemma ResetProxy(s: State, t: State)
    requires ProxyOk(s) && t.containers == s.containers
    requires forall d :: d in t.domains ==> t.domains[d].target == 0 || (d in s.domains && t.domains[d] == s.domains[d])
    ensures ProxyOk(t)
  {
    forall d | d in t.domains ensures Named(t, d) {
      assert d in s.domains ==> Named(s, d);
    }
  }

  /** Every step of the run is taken in a state that meets its guard. */
  ghost predicate Guarded(s: State, steps: seq<Step>) {
    steps == [] ||
    (Guarded(s, steps[..|steps| - 1]) && Guard(Run(s, steps[..|steps| - 1]), steps[|steps| - 1]))
  }

  /** Any run whose steps meet their guards, however interleaved, keeps the proxy targets right. */
  lemma {:induction false} RunProxy(steps: seq<Step>)
    requires Guarded(INITIAL, steps)
    ensures ProxyOk(Run(INITIAL, steps))
  {
    if steps != [] {
      var before := steps[..|steps| - 1];
      RunProxy(before);
      RunSafe(before);
      StepProxyIff(Run(INITIAL, before), steps[|steps| - 1]);
    }
  }

  lemma RunTwo(s: State, a: Step, b: Step)
    ensures Run(s, [a, b]) == Next(Next(s, a), b)
  {
    assert [a, b][..1] == [a] && [a][..0] == [];
    assert Run(s, [a]) == Next(Run(s, []), a);
  }

  /** Deleting an attached container while its creation or start has yet to write the target. */
  lemma LateApplyBreaks(s: State, id: Id)
    requires Safe(s) && ProxyOk(s) && id in s.containers
    requires s.containers[id].domain != 0 && s.containers[id].domain in s.domains
    ensures var c := s.containers[id];
            var deleted := Run(s, [Clear(c.domain), DropRow(id)]);
            ProxyOk(deleted) && !ProxyOk(Next(deleted, Apply(c)))
  {
    var c := s.containers[id];
    var cleared := Next(s, Clear(c.domain));
    StepProxyIff(s, Clear(c.domain));
    StepSafe(s, Clear(c.domain));
    StepProxyIff(cleared, DropRow(id));
    StepSafe(cleared, DropRow(id));
    RunTwo(s, Clear(c.domain), DropRow(id));
    StepProxyIff(Next(cleared, DropRow(id)), Apply(c));
  }

  /** The claim about targets is false of interleaved operations: one reachable run. */
  lemma StaleTargetReachable()
    ensures exists steps :: !ProxyOk(Run(INITIAL, steps))
  {
    var port := PortMap(80, RANGE_START, Tcp, false);
    var c := Container(1, 7, [port], 80);
    var steps := OneContainer(c, port);
    var s := Run(INITIAL, steps);
    RunSafe(steps);
    LateApplyBreaks(s, Id(1));
    var last := [Clear(7), DropRow(Id(1))];
    RunConcat(INITIAL, steps, last);
    assert (steps + last + [Apply(c)])[..|steps + last|] == steps + last;
    assert !ProxyOk(Run(INITIAL, steps + last + [Apply(c)]));
  }

  /** A run that ends with one container, attached to the one domain there is. */
  lemma OneContainer(c: Container, port: PortMap) returns (steps: seq<Step>)
    requires port == PortMap(80, RANGE_START, Tcp, false) && c == Container(1, 7, [port], 80)
    ensures var s := Run(INITIAL, steps);
            s.containers == map[Id(1) := c] && s.domains == map[7 := Domain(1, 0)] && ProxyOk(s)
  {
    var req := Request(1, true, [PortRequest(80, 0, Some(Tcp), false)], true, 7, 80);
    var s1 := Next(INITIAL, AddDomain(7, 1));
    var bindable := {RANGE_START};
    OnePort(req.ports, port, bindable);
    assert Used(s1.containers) == {};
    assert req.ports[0].container == 80;
    assert CheckDomain(s1, req).None?;
    assert Validate(s1, req, bindable) == Ok(c);
    steps := [AddDomain(7, 1), Begin(req, bindable), Commit(Id(1))];
    assert steps[..2] == [AddDomain(7, 1), Begin(req, bindable)];
    RunTwo(INITIAL, AddDomain(7, 1), Begin(req, bindable));
  }

  lemma OnePort(reqs: seq<PortRequest>, port: PortMap, bindable: set<int>)
    requires reqs == [PortRequest(80, 0, Some(Tcp), false)] && bindable == {RANGE_START}
    requires port == PortMap(80, RANGE_START, Tcp, false)
    ensures MapPorts(reqs, {}, {}, bindable) == Ok([port])
  {
    assert Lowest(RANGE_START, {}, bindable);
    assert MapPort(reqs[0], {}, {}, bindable) == Ok(port);
    assert reqs[1..] == [] && [port] + [] == [port];
  }

  lemma {:induction false} RunConcat(s: State, a: seq<Step>, b: seq<Step>)
    ensures Run(s, a + b) == Run(Run(s, a), b)
  {
    if b == [] {
      assert a + b == a;
    } else {
      assert (a + b)[..|a + b| - 1] == a + b[..|b| - 1];
      RunConcat(s, a, b[..|b| - 1]);
    }
  }

  // ---------------------------------------------------------------- the operations, one at a time

  /** How the host and the store answer: docker installed, and which writes and commands succeed. */
  datatype Host = Host(installed: bool, inserts: bool, runs: bool, deletes: bool, writes: bool, applies: bool)

  /** How many containers a user has. */
  function Owned(containers: map<Id, Container>, user: int): nat {
    |set id | id in containers && containers[id].user == user|
  }

  /** The tables and the answer after a creation; quota is the package's limit, 0 for none. */
  ghost function CreateStep(s: State, req: Request, bindable: set<int>, id: Id, quota: nat, h: Host): (State, Result<Id>) {
    var c := Validate(s, req, bindable);
    if !h.installed then (s, Err(NotInstalled))
    else if quota > 0 && Owned(s.containers, req.user) >= quota then (s, Err(OverQuota))
    else if c.Err? then (s, Err(c.error))
    else LaunchStep(s, c.value, id, h)
  }

  /** The same from the insertion of the row on. */
  ghost function LaunchStep(s: State, c: Container, id: Id, h: Host): (State, Result<Id>) {
    var t := s.(containers := s.containers[id := c]);
    if !h.inserts then (s, Err(NotStored))
    else if !h.runs then (if h.deletes then s else t, Err(DidNotRun))
    else (if h.writes then Next(t, Apply(c)) else t,
          if c.domain == 0 || (h.writes && h.applies) then Ok(id) else Err(NotAttached))
  }

  /** The tables after a deletion. */
  ghost function DeleteStep(s: State, id: Id, h: Host): State
    requires id in s.containers
  {
    var mid := if h.writes then Next(s, Clear(s.containers[id].domain)) else s;
    if h.deletes then Next(mid, DropRow(id)) else mid
  }

  class Docker {
    var containers: map<Id, Container>
    var domains: map<int, Domain>

    ghost function Tables(): State reads this {
      State(containers, domains, None)
    }

    ghost predicate Valid() reads this {
      Safe(Tables())
    }

    constructor ()
      ensures Valid() && Tables() == INITIAL && ProxyOk(Tables())
    {
      containers, domains := map[], map[];
    }

    method UsedHostPorts() returns (used: set<int>)
      ensures used == Used(containers)
    {
      used := {};
      var rows := containers;
      while rows.Keys != {}
        invariant used + Used(rows) == Used(containers)
        decreases rows.Keys
      {
        var id :| id in rows.Keys;
        UsedWithout(rows, id);
        var ports := rows[id].ports;
        ghost var before := used;
        for i := 0 to |ports|
          invariant used == before + HostSet(ports[..i])
        {
          assert ports[..i + 1] == ports[..i] + [ports[i]];
          HostSetLast(ports[..i], ports[i]);
          used := used + {ports[i].host};
        }
        assert ports[..|ports|] == ports;
        rows := rows - {id};
      }
      assert Used(rows) == {};
    }

    method ValidatePorts(reqs: seq<PortRequest>, taken: set<int>, bindable: set<int>)
      returns (r: Result<seq<PortMap>>)
      ensures r == MapPorts(reqs, taken, {}, bindable)
    {
      var used, seen, ports := taken, {}, [];
      PrefixedNone(MapPorts(reqs, taken, {}, bindable));
      assert reqs[0..] == reqs;
      for i := 0 to |reqs|
        invariant Prefixed(ports, MapPorts(reqs[i..], used, seen, bindable)) == MapPorts(reqs, taken, {}, bindable)
      {
        var p := reqs[i];
        assert reqs[i..][0] == p && reqs[i..][1..] == reqs[i + 1..];
        if p.container < 1 || p.container > 65535 {
          return Err(BadContainerPort);
        }
        if p.container in seen {
          return Err(PortTwice);
        }
        if p.proto.None? {
          return Err(BadProto);
        }
        var host := p.host;
        if host == 0 {
          var free := AllocatePort(used, bindable);
          if free.None? {
            return Err(NoFreePort);
          }
          host := free.value;
        } else if !InRange(host) {
          return Err(OutOfRange);
        } else if host in used {
          return Err(HostPortUsed);
        }
        var m := PortMap(p.container, host, p.proto.value, p.public);
        PrefixedMore(ports, m, MapPorts(reqs[i + 1..], used + {host}, seen + {p.container}, bindable));
        used, seen, ports := used + {host}, seen + {p.container}, ports + [m];
      }
      assert reqs[|reqs|..] == [] && ports + [] == ports;
      return Ok(ports);
    }

    method ValidateRequest(req: Request, bindable: set<int>) returns (r: Result<Container>)
      ensures r == Validate(Tables(), req, bindable)
    {
      if !req.named {
        return Err(BadName);
      }
      if |req.ports| == 0 {
        return Err(NoPorts);
      }
      if |req.ports| > MAX_PORTS {
        return Err(TooManyPorts);
      }
      var used := UsedHostPorts();
      var ports := ValidatePorts(req.ports, used, bindable);
      if ports.Err? {
        return Err(ports.error);
      }
      if !req.limited {
        return Err(BadLimits);
      }
      var fault := CheckDomain(State(containers, domains, None), req);
      if fault.Some? {
        return Err(fault.value);
      }
      return Ok(Container(req.user, req.domain, ports.value, if req.domain == 0 then 0 else req.webPort));
    }

    /**
     * Points the domain at the row's web port; false if the port is not published, or if the store
     * does not take the write or the web server does not take the new configuration.
     */
    method ApplyDomainProxy(row: Container, h: Host) returns (ok: bool)
      modifies this`domains
      ensures Tables() == if h.writes then Next(old(Tables()), Apply(row)) else old(Tables())
      ensures ok <==> row.domain == 0 || row.webPort == 0 || (WebHost(row) != 0 && h.writes && h.applies)
    {
      if row.domain == 0 || row.webPort == 0 {
        return true;
      }
      var host := 0;
      for i := 0 to |row.ports|
        invariant HostPortOf(row.ports[i..], row.webPort) == HostPortOf(row.ports, row.webPort)
        invariant host == 0 && domains == old(domains)
      {
        assert row.ports[i..][0] == row.ports[i] && row.ports[i..][1..] == row.ports[i + 1..];
        if row.ports[i].container == row.webPort {
          host := row.ports[i].host;
          break;
        }
      }
      if host == 0 || !h.writes {
        return false;
      }
      domains := SetTarget(domains, row.domain, host);
      return h.applies;
    }

    method ClearDomainProxy(domain: int, h: Host) returns (ok: bool)
      modifies this`domains
      ensures Tables() == if h.writes then Next(old(Tables()), Clear(domain)) else old(Tables())
      ensures ok <==> domain == 0 || (h.writes && h.applies)
    {
      if domain == 0 {
        return true;
      }
      if !h.writes {
        return false;
      }
      domains := SetTarget(domains, domain, 0);
      return h.applies;
    }

    /** A creation that fails after the row was inserted takes it out again, unless that fails too. */
    method Create(req: Request, bindable: set<int>, id: Id, quota: nat, h: Host) returns (r: Result<Id>)
      requires Valid() && id !in containers
      modifies this
      ensures Valid() && (old(ProxyOk(Tables())) ==> ProxyOk(Tables()))
      ensures (Tables(), r) == CreateStep(old(Tables()), req, bindable, id, quota, h)
    {
      CreateKeeps(Tables(), req, bindable, id, quota, h);
      if !h.installed {
        return Err(NotInstalled);
      }
      if quota > 0 && Owned(containers, req.user) >= quota {
        return Err(OverQuota);
      }
      var c := ValidateRequest(req, bindable);
      if c.Err? {
        return Err(c.error);
      }
      r := Launch(c.value, id, h);
    }

    /** What follows an accepted request. */
    method Launch(c: Container, id: Id, h: Host) returns (r: Result<Id>)
      requires id !in containers && (c.domain != 0 ==> WebHost(c) != 0)
      modifies this
      ensures (Tables(), r) == LaunchStep(old(Tables()), c, id, h)
    {
      if !h.inserts {
        return Err(NotStored);
      }
      containers := containers[id := c];
      if !h.runs {
        if h.deletes {
          containers := containers - {id};
          assert containers == old(containers);
        }
        return Err(DidNotRun);
      }
      var attached := ApplyDomainProxy(c, h);
      return if attached then Ok(id) else Err(NotAttached);
    }

    /** Start, and the end of Recreate, on a row just read. */
    method Start(id: Id, h: Host) returns (ok: bool)
      requires Valid() && id in containers
      modifies this`domains
      ensures Valid() && (old(ProxyOk(Tables())) ==> ProxyOk(Tables()))
      ensures Tables() == if h.runs && h.writes then Next(old(Tables()), Apply(containers[id])) else old(Tables())
      ensures ok <==> h.runs && (containers[id].domain == 0 || (h.writes && h.applies))
    {
      if !h.runs {
        return false;
      }
      ApplyKeeps(Tables(), id);
      ok := ApplyDomainProxy(containers[id], h);
    }

    method Stop(id: Id, h: Host) returns (ok: bool)
      requires Valid() && id in containers
      modifies this`domains
      ensures Valid() && (old(ProxyOk(Tables())) ==> ProxyOk(Tables()))
      ensures Tables() == if h.runs && h.writes then Next(old(Tables()), Clear(containers[id].domain)) else old(Tables())
      ensures ok <==> h.runs && (containers[id].domain == 0 || (h.writes && h.applies))
    {
      if !h.runs {
        return false;
      }
      ClearKeeps(Tables(), containers[id].domain);
      ok := ClearDomainProxy(containers[id].domain, h);
    }

    /** The row goes even if the target could not be cleared: then, and only then, a target can be left over. */
    method Delete(id: Id, h: Host) returns (ok: bool)
      requires Valid() && id in containers
      modifies this
      ensures Valid() && (h.deletes ==> id !in containers)
      ensures Tables() == DeleteStep(old(Tables()), id, h)
      ensures ok <==> h.deletes && (old(containers)[id].domain == 0 || (h.writes && h.applies))
      ensures old(ProxyOk(Tables())) ==>
                (ProxyOk(Tables()) <==> h.writes || !h.deletes || Guard(old(Tables()), DropRow(id)))
    {
      DeleteKeeps(Tables(), id, h);
      ok := ClearDomainProxy(containers[id].domain, h);
      if !h.deletes {
        return false;
      }
      containers := containers - {id};
    }

    method DeleteDomain(domain: int)
      requires Valid() && domain != 0
      modifies this
      ensures Valid() && domain !in domains && !Attached(containers, domain)
      ensures old(ProxyOk(Tables())) ==> ProxyOk(Tables())
      ensures Tables() == Next(old(Tables()), DropDomain(domain))
    {
      StepSafe(Tables(), DropDomain(domain));
      if ProxyOk(Tables()) {
        StepProxyIff(Tables(), DropDomain(domain));
      }
      containers, domains := Detached(containers, domain), domains - {domain};
    }
  }

  /** The states a creation goes through are sound, and so is its proxy step. */
  lemma Created(s: State, req: Request, bindable: set<int>, id: Id)
    requires Safe(s) && s.pending.None? && id !in s.containers && Validate(s, req, bindable).Ok?
    ensures var c := Validate(s, req, bindable).value;
            var t := s.(containers := s.containers[id := c]);
            Safe(t) && (ProxyOk(s) ==> ProxyOk(t)) && (c.domain != 0 ==> WebHost(c) != 0)
  {
    var c := Validate(s, req, bindable).value;
    var begun := Next(s, Begin(req, bindable));
    StepSafe(s, Begin(req, bindable));
    StepSafe(begun, Commit(id));
    var t := s.(containers := s.containers[id := c]);
    assert t == Next(begun, Commit(id));
    if ProxyOk(s) {
      StepProxyIff(s, Begin(req, bindable));
      StepProxyIff(begun, Commit(id));
    }
    ValidatedOk(s, req, bindable);
  }

  lemma ApplyKeeps(s: State, id: Id)
    requires Safe(s) && id in s.containers
    ensures var t := Next(s, Apply(s.containers[id])); Safe(t) && (ProxyOk(s) ==> ProxyOk(t))
    ensures s.containers[id].domain != 0 ==> WebHost(s.containers[id]) != 0
  {
    StepSafe(s, Apply(s.containers[id]));
    if ProxyOk(s) {
      StepProxyIff(s, Apply(s.containers[id]));
    }
  }

  lemma ClearKeeps(s: State, domain: int)
    requires Safe(s)
    ensures Safe(Next(s, Clear(domain))) && (ProxyOk(s) ==> ProxyOk(Next(s, Clear(domain))))
  {
    StepSafe(s, Clear(domain));
    if ProxyOk(s) {
      StepProxyIff(s, Clear(domain));
    }
  }

  lemma CreateKeeps(s: State, req: Request, bindable: set<int>, id: Id, quota: nat, h: Host)
    requires Safe(s) && s.pending.None? && id !in s.containers
    ensures var t := CreateStep(s, req, bindable, id, quota, h).0; Safe(t) && (ProxyOk(s) ==> ProxyOk(t))
    ensures Validate(s, req, bindable).Ok? && Validate(s, req, bindable).value.domain != 0 ==>
              WebHost(Validate(s, req, bindable).value) != 0
  {
    var c := Validate(s, req, bindable);
    if c.Ok? {
      Created(s, req, bindable, id);
      ApplyKeeps(s.(containers := s.containers[id := c.value]), id);
    }
  }

  lemma DeleteKeeps(s: State, id: Id, h: Host)
    requires Safe(s) && id in s.containers
    ensures Safe(DeleteStep(s, id, h))
    ensures ProxyOk(s) ==>
              (ProxyOk(DeleteStep(s, id, h)) <==> h.writes || !h.deletes || Guard(s, DropRow(id)))
  {
    var d := s.containers[id].domain;
    var mid := if h.writes then Next(s, Clear(d)) else s;
    ClearKeeps(s, d);
    StepSafe(mid, DropRow(id));
    if ProxyOk(s) {
      StepProxyIff(mid, DropRow(id));
    }
  }

  lemma UsedWithout(rows: map<Id, Container>, id: Id)
    requires id in rows
    ensures Used(rows) == HostSet(rows[id].ports) + Used(rows - {id})
  {
    var rest := rows - {id};
    forall h | h in Used(rows) ensures h in HostSet(rows[id].ports) + Used(rest) {
      var k, p :| k in rows && p in rows[k].ports && p.host == h;
      assert k != id ==> k in rest && rest[k] == rows[k];
    }
    forall h | h in Used(rest) ensures h in Used(rows) {
      var k, p :| k in rest && p in rest[k].ports && p.host == h;
      assert k in rows && rows[k] == rest[k];
    }
  }

  lemma HostSetLast(ports: seq<PortMap>, p: PortMap)
    ensures HostSet(ports + [p]) == HostSet(ports) + {p.host}
  {
    assert forall q :: q in ports + [p] <==> q == p || q in ports;
  }

  ghost function Prefixed(ports: seq<PortMap>, r: Result<seq<PortMap>>): Result<seq<PortMap>> {
    if r.Ok? then Ok(ports + r.value) else r
  }

  lemma PrefixedNone(r: Result<seq<PortMap>>)
    ensures Prefixed([], r) == r
  {
    if r.Ok? {
      assert [] + r.value == r.value;
    }
  }

  lemma PrefixedMore(ports: seq<PortMap>, m: PortMap, r: Result<seq<PortMap>>)
    ensures r.Ok? ==> ports + ([m] + r.value) == (ports + [m]) + r.value
  {
  }
}
