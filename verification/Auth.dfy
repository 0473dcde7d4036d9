/**
 * Logging in: failed attempts and lockout, TOTP challenges and backup codes, sessions and
 * impersonation. Requests are handled one at a time; store writes succeed; random ids and
 * password hashes are fresh. Instants are nanoseconds, the store keeps whole seconds.
 */
module Auth {
  import opened Text

  const SECOND: int := 1_000_000_000
  const PAIR_LIMIT := 5       // failures of one username from one address
  const NAME_LIMIT := 15      // failures of one username from any address
  const ADDRESS_LIMIT := 30   // failures from one address
  const WINDOW := 900         // seconds a failure counts
  const KNOWN_WINDOW := 2_592_000  // seconds a success makes an address known
  const CHALLENGE_TTL: int := 300 * SECOND

  function Seconds(t: int): int {
    t / SECOND
  }

  // ---------------------------------------------------------------- attempts and lockout

  /** A row of login_attempts; checked is history: the second its limits were looked at. */
  datatype Attempt = Attempt(username: string, ip: string, success: bool, time: int, checked: int)

  /** What a count is over. */
  datatype Scope = Pair(username: string, ip: string) | Name(username: string) | Address(ip: string)

  predicate Covers(scope: Scope, a: Attempt) {
    !a.success &&
    match scope
    case Pair(username, ip) => a.username == username && a.ip == ip
    case Name(username) => a.username == username
    case Address(ip) => a.ip == ip
  }

  /** Failures of the scope after a cutoff. */
  function Count(attempts: seq<Attempt>, scope: Scope, since: int): nat {
    if attempts == [] then 0
    else
      var a := attempts[|attempts| - 1];
      Count(attempts[..|attempts| - 1], scope, since) + (if Covers(scope, a) && a.time > since then 1 else 0)
  }

  /** The address has logged in as this user after the cutoff. */
  predicate HasSuccess(attempts: seq<Attempt>, username: string, ip: string, since: int) {
    exists i :: 0 <= i < |attempts| && attempts[i].success && attempts[i].username == username
                && attempts[i].ip == ip && attempts[i].time > since
  }

  predicate Known(attempts: seq<Attempt>, username: string, ip: string, now: int) {
    HasSuccess(attempts, username, ip, now - KNOWN_WINDOW)
  }

  predicate LockedOut(attempts: seq<Attempt>, username: string, ip: string, now: int) {
    || Count(attempts, Pair(username, ip), now - WINDOW) >= PAIR_LIMIT
    || Count(attempts, Address(ip), now - WINDOW) >= ADDRESS_LIMIT
    || (Count(attempts, Name(username), now - WINDOW) >= NAME_LIMIT && !Known(attempts, username, ip, now))
  }

  /** The limits let this failure through when it was checked, not after it was recorded. */
  predicate Allowed(before: seq<Attempt>, a: Attempt) {
    a.success || (a.checked <= a.time && !LockedOut(before, a.username, a.ip, a.checked))
  }

  ghost predicate Guarded(attempts: seq<Attempt>) {
    attempts == [] ||
    (Guarded(attempts[..|attempts| - 1]) && Allowed(attempts[..|attempts| - 1], attempts[|attempts| - 1]))
  }

  /** Failures of the scope in the fifteen minutes after start. */
  function InWindow(attempts: seq<Attempt>, scope: Scope, start: int): nat {
    if attempts == [] then 0
    else
      var a := attempts[|attempts| - 1];
      InWindow(attempts[..|attempts| - 1], scope, start)
      + (if Covers(scope, a) && start < a.time <= start + WINDOW then 1 else 0)
  }

  /** Failures of the name in the window from addresses that were not known when checked. */
  function FromStrangers(attempts: seq<Attempt>, username: string, start: int): nat {
    if attempts == [] then 0
    else
      var before, a := attempts[..|attempts| - 1], attempts[|attempts| - 1];
      FromStrangers(before, username, start)
      + (if Covers(Name(username), a) && start < a.time <= start + WINDOW && !Known(before, username, a.ip, a.checked)
         then 1 else 0)
  }

  lemma {:induction false} WindowBelowCount(attempts: seq<Attempt>, scope: Scope, start: int, since: int)
    requires since <= start
    ensures InWindow(attempts, scope, start) <= Count(attempts, scope, since)
  {
    if attempts != [] {
      WindowBelowCount(attempts[..|attempts| - 1], scope, start, since);
    }
  }

  lemma {:induction false} StrangersBelowCount(attempts: seq<Attempt>, username: string, start: int, since: int)
    requires since <= start
    ensures FromStrangers(attempts, username, start) <= Count(attempts, Name(username), since)
  {
    if attempts != [] {
      StrangersBelowCount(attempts[..|attempts| - 1], username, start, since);
    }
  }

  function Limit(scope: Scope): nat {
    match scope
    case Pair(_, _) => PAIR_LIMIT
    case Name(_) => NAME_LIMIT
    case Address(_) => ADDRESS_LIMIT
  }

  /** No fifteen minutes hold more than 5 failures of a name and address, or 30 of an address. */
  lemma {:induction false} WindowBound(attempts: seq<Attempt>, scope: Scope, start: int)
    requires Guarded(attempts) && !scope.Name?
    ensures InWindow(attempts, scope, start) <= Limit(scope)
  {
    if attempts != [] {
      var before, a := attempts[..|attempts| - 1], attempts[|attempts| - 1];
      WindowBound(before, scope, start);
      if Covers(scope, a) && a.time <= start + WINDOW {
        WindowBelowCount(before, scope, start, a.checked - WINDOW);
      }
    }
  }

  /** No fifteen minutes hold more than 15 failures of a name from addresses not known to it. */
  lemma {:induction false} StrangerBound(attempts: seq<Attempt>, username: string, start: int)
    requires Guarded(attempts)
    ensures FromStrangers(attempts, username, start) <= NAME_LIMIT
  {
    if attempts != [] {
      var before, a := attempts[..|attempts| - 1], attempts[|attempts| - 1];
      StrangerBound(before, username, start);
      if Covers(Name(username), a) && a.time <= start + WINDOW && !Known(before, username, a.ip, a.checked) {
        StrangersBelowCount(before, username, start, a.checked - WINDOW);
      }
    }
  }

  /** The same counted by whether the address is known at the second of its record. */
  function StrangersWhenRecorded(attempts: seq<Attempt>, username: string, start: int): nat {
    if attempts == [] then 0
    else
      var before, a := attempts[..|attempts| - 1], attempts[|attempts| - 1];
      StrangersWhenRecorded(before, username, start)
      + (if Covers(Name(username), a) && start < a.time <= start + WINDOW && !Known(before, username, a.ip, a.time)
         then 1 else 0)
  }

  /** Failures of the name in the window from addresses that ceased to be known between check and record. */
  function Lapsed(attempts: seq<Attempt>, username: string, start: int): nat {
    if attempts == [] then 0
    else
      var before, a := attempts[..|attempts| - 1], attempts[|attempts| - 1];
      Lapsed(before, username, start)
      + (if Covers(Name(username), a) && start < a.time <= start + WINDOW
            && Known(before, username, a.ip, a.checked) && !Known(before, username, a.ip, a.time)
         then 1 else 0)
  }

  /** An address that is known when recorded was known when checked, so the two counts differ by the lapsed ones. */
  lemma {:induction false} RecordedStrangerBound(attempts: seq<Attempt>, username: string, start: int)
    requires Guarded(attempts)
    ensures StrangersWhenRecorded(attempts, username, start) ==
            FromStrangers(attempts, username, start) + Lapsed(attempts, username, start)
    ensures StrangersWhenRecorded(attempts, username, start) <= NAME_LIMIT + Lapsed(attempts, username, start)
  {
    StrangerBound(attempts, username, start);
    if attempts != [] {
      var before, a := attempts[..|attempts| - 1], attempts[|attempts| - 1];
      RecordedStrangerBound(before, username, start);
      assert Covers(Name(username), a) && Known(before, username, a.ip, a.time) ==>
               Known(before, username, a.ip, a.checked);
    }
  }

  // ---------------------------------------------------------------- tables and history

  datatype User = User(username: string, admin: bool, suspended: bool, totp: bool, secret: string, backup: seq<string>)

  /** A row of sessions or totp_challenges; the expiry is kept in whole seconds. */
  datatype Ticket = Ticket(user: int, expires: int)

  predicate Live(t: Ticket, now: int) {
    now <= t.expires * SECOND
  }

  datatype Origin =
    | ByPassword
    | ByCode(challenge: string)
    | ByBackup(challenge: string, hash: string)
    | Impersonated(admin: int)
    | Returned

  predicate FromChallenge(o: Origin) {
    o.ByCode? || o.ByBackup?
  }

  predicate SameChallenge(a: Origin, b: Origin) {
    FromChallenge(a) && FromChallenge(b) && a.challenge == b.challenge
  }

  /** History of a session: its owner, how it came about, and whether the owner had TOTP enabled then. */
  datatype Birth = Birth(user: int, origin: Origin, totp: bool)

  /** The tables, then history: ids and hashes drawn so far, sessions created and removed, codes spent. */
  datatype State = State(
    users: map<int, User>, attempts: seq<Attempt>, sessions: map<string, Ticket>, challenges: map<string, Ticket>,
    minted: set<string>, hashed: set<string>, births: map<string, Birth>, removed: set<string>, spent: multiset<string>)

  const INITIAL := State(map[], [], map[], map[], {}, {}, map[], {}, multiset{})

  /** Sessions are those created and not removed; none was made by password alone while TOTP was on. */
  ghost predicate SessionsOk(s: State) {
    && s.births.Keys == s.sessions.Keys + s.removed && s.sessions.Keys !! s.removed
    && s.births.Keys <= s.minted
    && (forall sid :: sid in s.sessions ==> s.sessions[sid].user == s.births[sid].user)
    && (forall sid :: sid in s.births && s.births[sid].totp ==> !s.births[sid].origin.ByPassword?)
  }

  /** A challenge that made a session is gone, and made no other. */
  ghost predicate ChallengesOk(s: State) {
    && s.challenges.Keys <= s.minted
    && (forall sid :: sid in s.births && FromChallenge(s.births[sid].origin) ==>
          s.births[sid].origin.challenge in s.minted && s.births[sid].origin.challenge !in s.challenges)
    && (forall a, b :: a in s.births && b in s.births && SameChallenge(s.births[a].origin, s.births[b].origin) ==> a == b)
  }

  /** No session came from this challenge. */
  ghost predicate Unused(births: map<string, Birth>, challenge: string) {
    forall b :: b in births && FromChallenge(births[b].origin) ==> births[b].origin.challenge != challenge
  }

  ghost predicate NoRepeats(hashes: seq<string>) {
    forall i, j :: 0 <= i < j < |hashes| ==> hashes[i] != hashes[j]
  }

  /** Unspent codes of all users are distinct, no spent one is among them, and none was spent twice. */
  ghost predicate CodesOk(s: State) {
    && (forall id :: id in s.users ==> NoRepeats(s.users[id].backup) && forall h :: h in s.users[id].backup ==> h in s.hashed)
    && (forall i, j, h :: i in s.users && j in s.users && h in s.users[i].backup && h in s.users[j].backup ==> i == j)
    && (forall h :: s.spent[h] <= 1)
    && (forall h :: h in s.spent ==> h in s.hashed && forall id :: id in s.users ==> h !in s.users[id].backup)
  }

  ghost predicate Inv(s: State) {
    Guarded(s.attempts) && SessionsOk(s) && ChallengesOk(s) && CodesOk(s)
  }

  // ---------------------------------------------------------------- single writes

  function Record(s: State, a: Attempt): State {
    s.(attempts := s.attempts + [a])
  }

  function Open(s: State, sid: string, user: int, origin: Origin, expires: int): State
    requires user in s.users
  {
    s.(sessions := s.sessions[sid := Ticket(user, expires)], minted := s.minted + {sid},
       births := s.births[sid := Birth(user, origin, s.users[user].totp)])
  }

  function Close(s: State, sids: set<string>): State {
    s.(sessions := s.sessions - sids, removed := s.removed + (sids * s.sessions.Keys))
  }

  function Challenge(s: State, cid: string, user: int, expires: int): State {
    s.(challenges := s.challenges[cid := Ticket(user, expires)], minted := s.minted + {cid})
  }

  function DropChallenges(s: State, cids: set<string>): State {
    s.(challenges := s.challenges - cids)
  }

  function WithoutAt(hashes: seq<string>, i: nat): seq<string>
    requires i < |hashes|
  {
    hashes[..i] + hashes[i + 1..]
  }

  function Spend(s: State, user: int, i: nat): State
    requires user in s.users && i < |s.users[user].backup|
  {
    var u := s.users[user];
    s.(users := s.users[user := u.(backup := WithoutAt(u.backup, i))], spent := s.spent + multiset{u.backup[i]})
  }

  function Enable(s: State, user: int, hashes: seq<string>): State
    requires user in s.users
  {
    s.(users := s.users[user := s.users[user].(totp := true, backup := hashes)],
       hashed := s.hashed + set h | h in hashes)
  }

  lemma RecordInv(s: State, a: Attempt)
    requires Inv(s) && Allowed(s.attempts, a)
    ensures Inv(Record(s, a))
  {
    assert (s.attempts + [a])[..|s.attempts|] == s.attempts;
  }

  /** The id is new, and the origin is one the account may have: no password alone under TOTP, a challenge spent. */
  ghost predicate CanOpen(s: State, sid: string, user: int, origin: Origin) {
    && sid !in s.minted && user in s.users && (s.users[user].totp ==> !origin.ByPassword?)
    && (FromChallenge(origin) ==>
          origin.challenge in s.minted && origin.challenge !in s.challenges && Unused(s.births, origin.challenge))
  }

  lemma OpenInv(s: State, sid: string, user: int, origin: Origin, expires: int)
    requires Inv(s) && CanOpen(s, sid, user, origin)
    ensures Inv(Open(s, sid, user, origin, expires))
  {
    var t := Open(s, sid, user, origin, expires);
    OpenSessions(s, sid, user, origin, expires);
    OpenChallenges(s, sid, user, origin, expires);
    assert CodesOk(t);
  }

  lemma OpenSessions(s: State, sid: string, user: int, origin: Origin, expires: int)
    requires SessionsOk(s) && sid !in s.minted && user in s.users
    requires s.users[user].totp ==> !origin.ByPassword?
    ensures SessionsOk(Open(s, sid, user, origin, expires))
  {
  }

  lemma OpenChallenges(s: State, sid: string, user: int, origin: Origin, expires: int)
    requires SessionsOk(s) && ChallengesOk(s) && sid !in s.minted && user in s.users
    requires FromChallenge(origin) ==> origin.challenge in s.minted && origin.challenge !in s.challenges
    requires FromChallenge(origin) ==> Unused(s.births, origin.challenge)
    ensures ChallengesOk(Open(s, sid, user, origin, expires))
  {
  }

  lemma CloseInv(s: State, sids: set<string>)
    requires Inv(s)
    ensures Inv(Close(s, sids))
  {
    var t := Close(s, sids);
    assert SessionsOk(t);
    assert ChallengesOk(t) && CodesOk(t);
  }

  lemma ChallengeInv(s: State, cid: string, user: int, expires: int)
    requires Inv(s) && cid !in s.minted
    ensures Inv(Challenge(s, cid, user, expires))
  {
    var t := Challenge(s, cid, user, expires);
    assert SessionsOk(t) && CodesOk(t);
    assert ChallengesOk(t);
  }

  lemma DropChallengesInv(s: State, cids: set<string>)
    requires Inv(s)
    ensures Inv(DropChallenges(s, cids))
  {
    var t := DropChallenges(s, cids);
    assert SessionsOk(t) && CodesOk(t);
    assert ChallengesOk(t);
  }

  lemma WithoutIs(hashes: seq<string>, i: nat)
    requires NoRepeats(hashes) && i < |hashes|
    ensures NoRepeats(WithoutAt(hashes, i)) && hashes[i] !in WithoutAt(hashes, i)
    ensures forall h :: h in WithoutAt(hashes, i) ==> h in hashes
  {
    var r := WithoutAt(hashes, i);
    forall k | 0 <= k < |r| ensures r[k] == hashes[if k < i then k else k + 1] {
    }
  }

  lemma SpendInv(s: State, user: int, i: nat)
    requires Inv(s) && user in s.users && i < |s.users[user].backup|
    ensures Inv(Spend(s, user, i))
  {
    var t := Spend(s, user, i);
    SpendCodes(s, user, i);
    assert SessionsOk(t) && ChallengesOk(t);
  }

  lemma SpendCodes(s: State, user: int, i: nat)
    requires CodesOk(s) && user in s.users && i < |s.users[user].backup|
    ensures CodesOk(Spend(s, user, i))
  {
    var t, codes, h := Spend(s, user, i), s.users[user].backup, s.users[user].backup[i];
    WithoutIs(codes, i);
    assert h in codes && h !in s.spent;
    forall id | id in t.users
      ensures NoRepeats(t.users[id].backup) && h !in t.users[id].backup
      ensures forall k :: k in t.users[id].backup ==> k in s.users[id].backup
    {
    }
  }

  // ---------------------------------------------------------------- the operations

  /** Successive readings of the clock during one request. */
  datatype Clock = Clock(asked: int, checked: int, recorded: int, begun: int)

  predicate Ticks(c: Clock) {
    c.asked <= c.checked <= c.recorded <= c.begun
  }

  datatype Reply =
    | Locked | Invalid | Suspended | TotpRequired(challenge: string) | LoggedIn(sid: string)
    | BadToken | BadCode | Accepted | Forbidden | NotFound | NotEnrolled | AlreadyEnabled | NotImpersonated

  /** What the signature check of a token yields; Subject, role and expiry play no part here. */
  datatype Claims = Claims(sid: string, impersonator: int)

  function Tried(name: string, ip: string, success: bool, clock: Clock): Attempt {
    Attempt(name, ip, success, Seconds(clock.recorded), Seconds(clock.checked))
  }

  /** who is the row found for the username. */
  predicate Finds(users: map<int, User>, name: string, who: Option<int>) {
    match who
    case None => forall id :: id in users ==> users[id].username != name
    case Some(id) => id in users && users[id].username == name
  }

  function LoginStep(s: State, ttl: int, name: string, ip: string, who: Option<int>, passwordOk: bool,
                 clock: Clock, drawn: string): (State, Reply)
    requires Finds(s.users, name, who)
  {
    if LockedOut(s.attempts, name, ip, Seconds(clock.checked)) then (s, Locked)
    else if who.None? || !passwordOk then (Record(s, Tried(name, ip, false, clock)), Invalid)
    else if s.users[who.value].suspended then (Record(s, Tried(name, ip, false, clock)), Suspended)
    else PasswordAccepted(Record(s, Tried(name, ip, true, clock)), ttl, who.value, clock, drawn)
  }

  /** A right password opens a session, or only a challenge when the account has TOTP enabled. */
  function PasswordAccepted(s: State, ttl: int, user: int, clock: Clock, drawn: string): (State, Reply)
    requires user in s.users
  {
    if s.users[user].totp
    then (Challenge(s, drawn, user, Seconds(clock.begun + CHALLENGE_TTL)), TotpRequired(drawn))
    else (Open(s, drawn, user, ByPassword, Seconds(clock.begun + ttl)), LoggedIn(drawn))
  }

  /** Position of the first hash the code matches, |hashes| if there is none. */
  function FirstMatch(hashes: seq<string>, matched: set<string>): (i: nat)
    ensures i <= |hashes|
    ensures i < |hashes| ==> hashes[i] in matched
    ensures forall j :: 0 <= j < i ==> hashes[j] !in matched
  {
    if hashes == [] || hashes[0] in matched then 0 else 1 + FirstMatch(hashes[1..], matched)
  }

  /** The attempt is recorded, the challenge dropped and a session begun. */
  function Admit(s: State, ttl: int, challenge: string, ip: string, user: int, origin: Origin,
                 clock: Clock, drawn: string): (State, Reply)
    requires user in s.users
  {
    var t := DropChallenges(Record(s, Tried(s.users[user].username, ip, true, clock)), {challenge});
    (Open(t, drawn, user, origin, Seconds(clock.begun + ttl)), LoggedIn(drawn))
  }

  /** codeOk is whether the six digits are right, matched the hashes the code answers to. */
  function VerifyTotp(s: State, ttl: int, challenge: string, ip: string, codeOk: bool, matched: set<string>,
                      clock: Clock, drawn: string): (State, Reply)
  {
    if challenge !in s.challenges || !Live(s.challenges[challenge], clock.asked) then (s, BadToken)
    else
      var user := s.challenges[challenge].user;
      if user !in s.users then (s, BadToken)
      else
        var u := s.users[user];
        if LockedOut(s.attempts, u.username, ip, Seconds(clock.checked)) then (s, Locked)
        else if u.suspended then (DropChallenges(s, {challenge}), Suspended)
        else if codeOk then Admit(s, ttl, challenge, ip, user, ByCode(challenge), clock, drawn)
        else
          var i := FirstMatch(u.backup, matched);
          if i < |u.backup|
          then Admit(Spend(s, user, i), ttl, challenge, ip, user, ByBackup(challenge, u.backup[i]), clock, drawn)
          else (Record(s, Tried(u.username, ip, false, clock)), BadCode)
  }

  function ConfirmPasswordStep(s: State, user: int, ip: string, passwordOk: bool, clock: Clock): (State, Reply)
    requires user in s.users
  {
    var name := s.users[user].username;
    if LockedOut(s.attempts, name, ip, Seconds(clock.checked)) then (s, Locked)
    else if !passwordOk then (Record(s, Tried(name, ip, false, clock)), Invalid)
    else (s, Accepted)
  }

  function ConfirmEnroll(s: State, user: int, codeOk: bool, hashes: seq<string>): (State, Reply) {
    if user !in s.users then (s, NotFound)
    else if s.users[user].totp then (s, AlreadyEnabled)
    else if s.users[user].secret == "" then (s, NotEnrolled)
    else if !codeOk then (s, BadCode)
    else (Enable(s, user, hashes), Accepted)
  }

  function DisableTotp(s: State, user: int, passwordOk: bool): (State, Reply) {
    if user !in s.users then (s, NotFound)
    else if !passwordOk then (s, Invalid)
    else (s.(users := s.users[user := s.users[user].(totp := false, secret := "", backup := [])]), Accepted)
  }

  function ImpersonateStep(s: State, ttl: int, admin: int, target: int, now: int, drawn: string): (State, Reply) {
    if admin !in s.users then (s, NotFound)
    else if !s.users[admin].admin then (s, Forbidden)
    else if target !in s.users then (s, NotFound)
    else if s.users[target].suspended then (s, Suspended)
    else (Open(s, drawn, target, Impersonated(admin), Seconds(now + ttl)), LoggedIn(drawn))
  }

  function UnimpersonateStep(s: State, ttl: int, claims: Option<Claims>, now: int, drawn: string): (State, Reply) {
    if claims.None? then (s, BadToken)
    else
      var t, admin := Close(s, {claims.value.sid}), claims.value.impersonator;
      if admin == 0 then (t, NotImpersonated)
      else if admin !in s.users then (t, NotFound)
      else (Open(t, drawn, admin, Returned, Seconds(now + ttl)), LoggedIn(drawn))
  }

  function LogoutStep(s: State, claims: Option<Claims>): State {
    if claims.None? then s else Close(s, {claims.value.sid})
  }

  function OwnedBy(tickets: map<string, Ticket>, user: int): set<string> {
    set id | id in tickets && tickets[id].user == user
  }

  function DeleteUser(s: State, user: int): State {
    var t := Close(DropChallenges(s, OwnedBy(s.challenges, user)), OwnedBy(s.sessions, user));
    t.(users := t.users - {user})
  }

  /** Who a token speaks for: only a session row that has not expired, of an account that is active. */
  function Verify(s: State, claims: Option<Claims>, now: int): Option<int> {
    if claims.None? || claims.value.sid !in s.sessions then None
    else
      var ticket := s.sessions[claims.value.sid];
      if !Live(ticket, now) || ticket.user !in s.users || s.users[ticket.user].suspended then None
      else Some(ticket.user)
  }

  // ---------------------------------------------------------------- every run

  datatype Op =
    | LoginOp(name: string, ip: string, who: Option<int>, passwordOk: bool, clock: Clock, drawn: string)
    | VerifyTotpOp(challenge: string, ip: string, codeOk: bool, matched: set<string>, clock: Clock, drawn: string)
    | ConfirmPasswordOp(user: int, ip: string, passwordOk: bool, clock: Clock)
    | BeginEnrollOp(user: int, secret: string)
    | ConfirmEnrollOp(user: int, codeOk: bool, hashes: seq<string>)
    | DisableTotpOp(user: int, passwordOk: bool)
    | ImpersonateOp(actor: int, target: int, now: int, drawn: string)
    | UnimpersonateOp(claims: Option<Claims>, now: int, drawn: string)
    | LogoutOp(claims: Option<Claims>)
    | CloseUserOp(user: int)
    | SetUserOp(user: int, admin: bool, suspended: bool)
    | AddUserOp(user: int, username: string, admin: bool)
    | DeleteUserOp(user: int)

  /** Drawn ids and hashes are new, the clock does not run backwards, rows named by the request exist. */
  ghost predicate Enabled(s: State, op: Op) {
    match op
    case LoginOp(name, _, who, _, clock, drawn) => Finds(s.users, name, who) && Ticks(clock) && drawn !in s.minted
    case VerifyTotpOp(_, _, _, _, clock, drawn) => Ticks(clock) && drawn !in s.minted
    case ConfirmPasswordOp(user, _, _, clock) => user in s.users && Ticks(clock)
    case BeginEnrollOp(user, _) => user in s.users
    case ConfirmEnrollOp(_, _, hashes) => NoRepeats(hashes) && forall h :: h in hashes ==> h !in s.hashed
    case ImpersonateOp(_, _, _, drawn) => drawn !in s.minted
    case UnimpersonateOp(_, _, drawn) => drawn !in s.minted
    case SetUserOp(user, _, _) => user in s.users
    case AddUserOp(user, _, _) => user !in s.users && user != 0
    case _ => true
  }

  ghost function Step(s: State, ttl: int, op: Op): State
    requires Enabled(s, op)
  {
    match op
    case LoginOp(name, ip, who, passwordOk, clock, drawn) => LoginStep(s, ttl, name, ip, who, passwordOk, clock, drawn).0
    case VerifyTotpOp(challenge, ip, codeOk, matched, clock, drawn) =>
      VerifyTotp(s, ttl, challenge, ip, codeOk, matched, clock, drawn).0
    case ConfirmPasswordOp(user, ip, passwordOk, clock) => ConfirmPasswordStep(s, user, ip, passwordOk, clock).0
    case BeginEnrollOp(user, secret) => s.(users := s.users[user := s.users[user].(secret := secret)])
    case ConfirmEnrollOp(user, codeOk, hashes) => ConfirmEnroll(s, user, codeOk, hashes).0
    case DisableTotpOp(user, passwordOk) => DisableTotp(s, user, passwordOk).0
    case ImpersonateOp(admin, target, now, drawn) => ImpersonateStep(s, ttl, admin, target, now, drawn).0
    case UnimpersonateOp(claims, now, drawn) => UnimpersonateStep(s, ttl, claims, now, drawn).0
    case LogoutOp(claims) => LogoutStep(s, claims)
    case CloseUserOp(user) => Close(s, OwnedBy(s.sessions, user))
    case SetUserOp(user, admin, suspended) =>
      s.(users := s.users[user := s.users[user].(admin := admin, suspended := suspended)])
    case AddUserOp(user, username, admin) =>
      s.(users := s.users[user := User(username, admin, false, false, "", [])])
    case DeleteUserOp(user) => DeleteUser(s, user)
  }

  lemma FailureAllowed(s: State, name: string, ip: string, success: bool, clock: Clock)
    requires Ticks(clock) && !LockedOut(s.attempts, name, ip, Seconds(clock.checked))
    ensures Allowed(s.attempts, Tried(name, ip, success, clock))
  {
  }

  lemma LoginInv(s: State, ttl: int, name: string, ip: string, who: Option<int>, passwordOk: bool, clock: Clock, drawn: string)
    requires Inv(s) && Finds(s.users, name, who) && Ticks(clock) && drawn !in s.minted
    ensures Inv(LoginStep(s, ttl, name, ip, who, passwordOk, clock, drawn).0)
  {
    if !LockedOut(s.attempts, name, ip, Seconds(clock.checked)) {
      TriedInv(s, name, ip, clock);
      if who.Some? && passwordOk && !s.users[who.value].suspended {
        PasswordAcceptedInv(Record(s, Tried(name, ip, true, clock)), ttl, who.value, clock, drawn);
      }
    }
  }

  lemma TriedInv(s: State, name: string, ip: string, clock: Clock)
    requires Inv(s) && Ticks(clock) && !LockedOut(s.attempts, name, ip, Seconds(clock.checked))
    ensures Inv(Record(s, Tried(name, ip, false, clock)))
    ensures Inv(Record(s, Tried(name, ip, true, clock)))
  {
    FailureAllowed(s, name, ip, false, clock);
    FailureAllowed(s, name, ip, true, clock);
    RecordInv(s, Tried(name, ip, false, clock));
    RecordInv(s, Tried(name, ip, true, clock));
  }

  lemma PasswordAcceptedInv(s: State, ttl: int, user: int, clock: Clock, drawn: string)
    requires Inv(s) && user in s.users && drawn !in s.minted
    ensures Inv(PasswordAccepted(s, ttl, user, clock, drawn).0)
  {
    var soon, late := Seconds(clock.begun + CHALLENGE_TTL), Seconds(clock.begun + ttl);
    var t := PasswordAccepted(s, ttl, user, clock, drawn).0;
    if s.users[user].totp {
      assert t == Challenge(s, drawn, user, soon);
      ChallengeInv(s, drawn, user, soon);
    } else {
      assert t == Open(s, drawn, user, ByPassword, late);
      PlainOpenInv(s, drawn, user, late);
    }
  }

  lemma PlainOpenInv(s: State, sid: string, user: int, expires: int)
    requires Inv(s) && user in s.users && sid !in s.minted && !s.users[user].totp
    ensures Inv(Open(s, sid, user, ByPassword, expires))
  {
    OpenInv(s, sid, user, ByPassword, expires);
  }

  lemma ChallengeUnused(s: State, challenge: string)
    requires ChallengesOk(s) && challenge in s.challenges
    ensures Unused(s.births, challenge) && challenge in s.minted
  {
  }

  lemma AdmitInv(s: State, ttl: int, challenge: string, ip: string, user: int, origin: Origin, clock: Clock, drawn: string)
    requires Inv(s) && user in s.users && drawn !in s.minted && challenge in s.challenges
    requires FromChallenge(origin) && origin.challenge == challenge
    ensures Inv(Admit(s, ttl, challenge, ip, user, origin, clock, drawn).0)
  {
    var a := Tried(s.users[user].username, ip, true, clock);
    var t := DropChallenges(Record(s, a), {challenge});
    RedeemInv(s, a, challenge, drawn, user, origin);
    BegunInv(t, drawn, user, origin, Seconds(clock.begun + ttl), Admit(s, ttl, challenge, ip, user, origin, clock, drawn).0);
  }

  lemma BegunInv(t: State, drawn: string, user: int, origin: Origin, expires: int, end: State)
    requires Inv(t) && CanOpen(t, drawn, user, origin) && end == Open(t, drawn, user, origin, expires)
    ensures Inv(end)
  {
    OpenInv(t, drawn, user, origin, expires);
  }

  lemma RedeemInv(s: State, a: Attempt, challenge: string, drawn: string, user: int, origin: Origin)
    requires Inv(s) && a.success && challenge in s.challenges && drawn !in s.minted && user in s.users
    requires FromChallenge(origin) && origin.challenge == challenge
    ensures var t := DropChallenges(Record(s, a), {challenge}); Inv(t) && CanOpen(t, drawn, user, origin)
  {
    RecordInv(s, a);
    DropChallengesInv(Record(s, a), {challenge});
    RedeemCanOpen(s, a, challenge, drawn, user, origin);
  }

  lemma RedeemCanOpen(s: State, a: Attempt, challenge: string, drawn: string, user: int, origin: Origin)
    requires ChallengesOk(s) && challenge in s.challenges && drawn !in s.minted && user in s.users
    requires FromChallenge(origin) && origin.challenge == challenge
    ensures CanOpen(DropChallenges(Record(s, a), {challenge}), drawn, user, origin)
  {
    ChallengeUnused(s, challenge);
  }

  lemma VerifyTotpInv(s: State, ttl: int, challenge: string, ip: string, codeOk: bool, matched: set<string>,
                      clock: Clock, drawn: string)
    requires Inv(s) && Ticks(clock) && drawn !in s.minted
    ensures Inv(VerifyTotp(s, ttl, challenge, ip, codeOk, matched, clock, drawn).0)
  {
    if challenge in s.challenges && s.challenges[challenge].user in s.users {
      var user := s.challenges[challenge].user;
      var u := s.users[user];
      if u.suspended {
        DropChallengesInv(s, {challenge});
      } else if codeOk {
        AdmitInv(s, ttl, challenge, ip, user, ByCode(challenge), clock, drawn);
      } else if !LockedOut(s.attempts, u.username, ip, Seconds(clock.checked)) {
        CodeInv(s, ttl, challenge, ip, user, FirstMatch(u.backup, matched), clock, drawn);
      }
    }
  }

  /** A code that is not right may still be the i-th backup code. */
  lemma CodeInv(s: State, ttl: int, challenge: string, ip: string, user: int, i: nat, clock: Clock, drawn: string)
    requires Inv(s) && user in s.users && drawn !in s.minted && challenge in s.challenges && Ticks(clock)
    requires !LockedOut(s.attempts, s.users[user].username, ip, Seconds(clock.checked))
    ensures Inv(Record(s, Tried(s.users[user].username, ip, false, clock)))
    ensures i < |s.users[user].backup| ==>
              var origin := ByBackup(challenge, s.users[user].backup[i]);
              Inv(Admit(Spend(s, user, i), ttl, challenge, ip, user, origin, clock, drawn).0)
  {
    TriedInv(s, s.users[user].username, ip, clock);
    if i < |s.users[user].backup| {
      BackupInv(s, ttl, challenge, ip, user, i, clock, drawn);
    }
  }

  lemma BackupInv(s: State, ttl: int, challenge: string, ip: string, user: int, i: nat, clock: Clock, drawn: string)
    requires Inv(s) && user in s.users && drawn !in s.minted && challenge in s.challenges && i < |s.users[user].backup|
    ensures var origin := ByBackup(challenge, s.users[user].backup[i]);
            Inv(Admit(Spend(s, user, i), ttl, challenge, ip, user, origin, clock, drawn).0)
  {
    SpendInv(s, user, i);
    AdmitInv(Spend(s, user, i), ttl, challenge, ip, user, ByBackup(challenge, s.users[user].backup[i]), clock, drawn);
  }

  lemma UnimpersonateInv(s: State, ttl: int, claims: Option<Claims>, now: int, drawn: string)
    requires Inv(s) && drawn !in s.minted
    ensures Inv(UnimpersonateStep(s, ttl, claims, now, drawn).0)
  {
    if claims.Some? {
      CloseInv(s, {claims.value.sid});
      if claims.value.impersonator in s.users {
        OpenInv(Close(s, {claims.value.sid}), drawn, claims.value.impersonator, Returned, Seconds(now + ttl));
      }
    }
  }

  /** Changing a user row without adding backup codes. */
  lemma UsersInv(s: State, users: map<int, User>)
    requires Inv(s)
    requires forall id :: id in users ==> users[id].backup == [] || (id in s.users && users[id].backup == s.users[id].backup)
    ensures Inv(s.(users := users))
  {
    var t := s.(users := users);
    assert SessionsOk(t) && ChallengesOk(t);
    assert CodesOk(t);
  }

  lemma EnableInv(s: State, user: int, hashes: seq<string>)
    requires Inv(s) && user in s.users
    requires NoRepeats(hashes) && forall h :: h in hashes ==> h !in s.hashed
    ensures Inv(Enable(s, user, hashes))
  {
    var t := Enable(s, user, hashes);
    assert SessionsOk(t) && ChallengesOk(t);
    assert CodesOk(t);
  }

  lemma StepInv(s: State, ttl: int, op: Op)
    requires Inv(s) && Enabled(s, op)
    ensures Inv(Step(s, ttl, op))
  {
    match op
    case LoginOp(name, ip, who, passwordOk, clock, drawn) => LoginInv(s, ttl, name, ip, who, passwordOk, clock, drawn);
    case VerifyTotpOp(challenge, ip, codeOk, matched, clock, drawn) =>
      VerifyTotpInv(s, ttl, challenge, ip, codeOk, matched, clock, drawn);
    case ConfirmPasswordOp(user, ip, passwordOk, clock) => ConfirmPasswordInv(s, user, ip, passwordOk, clock);
    case ConfirmEnrollOp(user, codeOk, hashes) => ConfirmEnrollInv(s, user, codeOk, hashes);
    case ImpersonateOp(admin, target, now, drawn) => ImpersonateInv(s, ttl, admin, target, now, drawn);
    case UnimpersonateOp(claims, now, drawn) => UnimpersonateInv(s, ttl, claims, now, drawn);
    case LogoutOp(claims) => LogoutInv(s, claims);
    case CloseUserOp(user) => CloseInv(s, OwnedBy(s.sessions, user));
    case DeleteUserOp(user) => DeleteUserInv(s, user);
    case _ => RowInv(s, ttl, op);
  }

  lemma RowInv(s: State, ttl: int, op: Op)
    requires Inv(s) && Enabled(s, op)
    requires op.BeginEnrollOp? || op.DisableTotpOp? || op.SetUserOp? || op.AddUserOp?
    ensures Inv(Step(s, ttl, op))
  {
    var t := Step(s, ttl, op);
    assert t == s.(users := t.users);
    UsersInv(s, t.users);
  }

  lemma ConfirmPasswordInv(s: State, user: int, ip: string, passwordOk: bool, clock: Clock)
    requires Inv(s) && user in s.users && Ticks(clock)
    ensures Inv(ConfirmPasswordStep(s, user, ip, passwordOk, clock).0)
  {
    if !LockedOut(s.attempts, s.users[user].username, ip, Seconds(clock.checked)) {
      TriedInv(s, s.users[user].username, ip, clock);
    }
  }

  lemma ConfirmEnrollInv(s: State, user: int, codeOk: bool, hashes: seq<string>)
    requires Inv(s) && NoRepeats(hashes) && forall h :: h in hashes ==> h !in s.hashed
    ensures Inv(ConfirmEnroll(s, user, codeOk, hashes).0)
  {
    if user in s.users {
      EnableInv(s, user, hashes);
    }
  }

  lemma ImpersonateInv(s: State, ttl: int, admin: int, target: int, now: int, drawn: string)
    requires Inv(s) && drawn !in s.minted
    ensures Inv(ImpersonateStep(s, ttl, admin, target, now, drawn).0)
  {
    if target in s.users {
      OpenInv(s, drawn, target, Impersonated(admin), Seconds(now + ttl));
    }
  }

  lemma LogoutInv(s: State, claims: Option<Claims>)
    requires Inv(s)
    ensures Inv(LogoutStep(s, claims))
  {
    if claims.Some? {
      CloseInv(s, {claims.value.sid});
    }
  }

  lemma DeleteUserInv(s: State, user: int)
    requires Inv(s)
    ensures Inv(DeleteUser(s, user))
  {
    DropChallengesInv(s, OwnedBy(s.challenges, user));
    var t := DropChallenges(s, OwnedBy(s.challenges, user));
    CloseInv(t, OwnedBy(s.sessions, user));
    UsersInv(Close(t, OwnedBy(s.sessions, user)), s.users - {user});
  }

  // ---------------------------------------------------------------- what holds in every run

  /** Operations that cannot happen in a state are passed over. */
  ghost function Run(ttl: int, ops: seq<Op>): State {
    if ops == [] then INITIAL
    else
      var s, op := Run(ttl, ops[..|ops| - 1]), ops[|ops| - 1];
      if Enabled(s, op) then Step(s, ttl, op) else s
  }

  lemma {:induction false} RunInv(ttl: int, ops: seq<Op>)
    ensures Inv(Run(ttl, ops))
  {
    if ops != [] {
      RunInv(ttl, ops[..|ops| - 1]);
      var s, op := Run(ttl, ops[..|ops| - 1]), ops[|ops| - 1];
      if Enabled(s, op) {
        StepInv(s, ttl, op);
      }
    }
  }

  /** In every run the three sliding windows hold at most 5, 30 and 15 failures. */
  lemma AttemptsBounded(ttl: int, ops: seq<Op>, username: string, ip: string, start: int)
    ensures var attempts := Run(ttl, ops).attempts;
            && InWindow(attempts, Pair(username, ip), start) <= 5
            && InWindow(attempts, Address(ip), start) <= 30
            && FromStrangers(attempts, username, start) <= 15
  {
    RunInv(ttl, ops);
    var attempts := Run(ttl, ops).attempts;
    WindowBound(attempts, Pair(username, ip), start);
    WindowBound(attempts, Address(ip), start);
    StrangerBound(attempts, username, start);
  }

  /** A session made while its owner had TOTP enabled came from an accepted code or from (un)impersonation. */
  lemma TotpSessionsNeedACode(ttl: int, ops: seq<Op>, sid: string)
    requires sid in Run(ttl, ops).births && Run(ttl, ops).births[sid].totp
    ensures var origin := Run(ttl, ops).births[sid].origin;
            FromChallenge(origin) || origin.Impersonated? || origin.Returned?
  {
    RunInv(ttl, ops);
  }

  /** A challenge yields at most one session. */
  lemma ChallengeYieldsOne(ttl: int, ops: seq<Op>, a: string, b: string)
    requires a in Run(ttl, ops).births && b in Run(ttl, ops).births
    requires SameChallenge(Run(ttl, ops).births[a].origin, Run(ttl, ops).births[b].origin)
    ensures a == b
  {
    RunInv(ttl, ops);
  }

  /** A backup code is spent at most once: once spent it is nobody's code any more. */
  lemma BackupSpentOnce(ttl: int, ops: seq<Op>, hash: string)
    ensures Run(ttl, ops).spent[hash] <= 1
    ensures hash in Run(ttl, ops).spent ==>
              forall id :: id in Run(ttl, ops).users ==> hash !in Run(ttl, ops).users[id].backup
  {
    RunInv(ttl, ops);
  }

  /** History only grows. */
  ghost predicate Grows(s: State, t: State) {
    && s.removed <= t.removed && s.spent <= t.spent
    && (forall sid :: sid in s.births ==> sid in t.births && t.births[sid] == s.births[sid])
  }

  lemma GrowsOn(s: State, t: State, u: State)
    requires Grows(s, t) && Grows(t, u)
    ensures Grows(s, u)
  {
  }

  lemma LoginGrows(s: State, ttl: int, name: string, ip: string, who: Option<int>, passwordOk: bool, clock: Clock, drawn: string)
    requires Inv(s) && Finds(s.users, name, who) && drawn !in s.minted
    ensures Grows(s, LoginStep(s, ttl, name, ip, who, passwordOk, clock, drawn).0)
  {
    assert drawn !in s.births;
  }

  lemma VerifyTotpGrows(s: State, ttl: int, challenge: string, ip: string, codeOk: bool, matched: set<string>,
                        clock: Clock, drawn: string)
    requires Inv(s) && drawn !in s.minted
    ensures Grows(s, VerifyTotp(s, ttl, challenge, ip, codeOk, matched, clock, drawn).0)
  {
    assert drawn !in s.births;
  }

  lemma ImpersonateGrows(s: State, ttl: int, admin: int, target: int, now: int, drawn: string)
    requires Inv(s) && drawn !in s.minted
    ensures Grows(s, ImpersonateStep(s, ttl, admin, target, now, drawn).0)
  {
    assert drawn !in s.births;
  }

  lemma UnimpersonateGrows(s: State, ttl: int, claims: Option<Claims>, now: int, drawn: string)
    requires Inv(s) && drawn !in s.minted
    ensures Grows(s, UnimpersonateStep(s, ttl, claims, now, drawn).0)
  {
    assert drawn !in s.births;
  }

  lemma StepGrows(s: State, ttl: int, op: Op)
    requires Inv(s) && Enabled(s, op)
    ensures Grows(s, Step(s, ttl, op))
  {
    match op
    case LoginOp(name, ip, who, passwordOk, clock, drawn) =>
      LoginGrows(s, ttl, name, ip, who, passwordOk, clock, drawn);
    case VerifyTotpOp(challenge, ip, codeOk, matched, clock, drawn) =>
      VerifyTotpGrows(s, ttl, challenge, ip, codeOk, matched, clock, drawn);
    case ImpersonateOp(admin, target, now, drawn) => ImpersonateGrows(s, ttl, admin, target, now, drawn);
    case UnimpersonateOp(claims, now, drawn) => UnimpersonateGrows(s, ttl, claims, now, drawn);
    case _ => OtherGrows(s, ttl, op);
  }

  lemma OtherGrows(s: State, ttl: int, op: Op)
    requires Enabled(s, op) && !op.LoginOp? && !op.VerifyTotpOp? && !op.ImpersonateOp? && !op.UnimpersonateOp?
    ensures Grows(s, Step(s, ttl, op))
  {
  }

  lemma {:induction false} RunGrows(ttl: int, ops: seq<Op>, more: seq<Op>)
    ensures Grows(Run(ttl, ops), Run(ttl, ops + more))
  {
    if more == [] {
      assert ops + more == ops;
    } else {
      var all := ops + more;
      var before := all[..|all| - 1];
      assert before == ops + more[..|more| - 1];
      RunGrows(ttl, ops, more[..|more| - 1]);
      LastGrows(ttl, all);
      GrowsOn(Run(ttl, ops), Run(ttl, before), Run(ttl, all));
    }
  }

  lemma LastGrows(ttl: int, ops: seq<Op>)
    requires ops != []
    ensures Grows(Run(ttl, ops[..|ops| - 1]), Run(ttl, ops))
  {
    RunInv(ttl, ops[..|ops| - 1]);
    var s := Run(ttl, ops[..|ops| - 1]);
    if Enabled(s, ops[|ops| - 1]) {
      StepGrows(s, ttl, ops[|ops| - 1]);
    }
  }

  /** The account exists and is not suspended. */
  predicate Active(s: State, user: int) {
    user in s.users && !s.users[user].suspended
  }

  /** The challenge was open, live and of an active account that is not locked out. */
  predicate Redeems(s: State, op: Op, challenge: string, user: int) {
    && op.VerifyTotpOp? && op.challenge == challenge && challenge in s.challenges
    && s.challenges[challenge].user == user && Live(s.challenges[challenge], op.clock.asked) && Active(s, user)
    && !LockedOut(s.attempts, s.users[user].username, op.ip, Seconds(op.clock.checked))
  }

  /** The request that opened a session in state s: whose it was and what it presented for this origin. */
  predicate Explains(s: State, op: Op, sid: string, user: int, origin: Origin) {
    match origin
    case ByPassword =>
      && op.LoginOp? && op.drawn == sid && op.passwordOk && op.who == Some(user)
      && Active(s, user) && s.users[user].username == op.name && !s.users[user].totp
      && !LockedOut(s.attempts, op.name, op.ip, Seconds(op.clock.checked))
    case ByCode(challenge) => Redeems(s, op, challenge, user) && op.drawn == sid && op.codeOk
    case ByBackup(challenge, hash) =>
      Redeems(s, op, challenge, user) && op.drawn == sid && !op.codeOk && hash in op.matched && hash in s.users[user].backup
    case Impersonated(admin) =>
      && op.ImpersonateOp? && op.drawn == sid && op.actor == admin && op.target == user
      && admin in s.users && s.users[admin].admin && Active(s, user)
    case Returned =>
      && op.UnimpersonateOp? && op.drawn == sid && op.claims.Some?
      && op.claims.value.impersonator == user && user != 0 && user in s.users
  }

  ghost predicate Opens(s: State, ttl: int, op: Op, sid: string) {
    Enabled(s, op) && sid !in s.births && sid in Step(s, ttl, op).births
  }

  lemma LoginBirth(s: State, ttl: int, op: Op, sid: string)
    requires op.LoginOp? && Opens(s, ttl, op, sid)
    ensures var b := Step(s, ttl, op).births[sid]; Explains(s, op, sid, b.user, b.origin)
  {
  }

  lemma VerifyTotpBirth(s: State, ttl: int, op: Op, sid: string)
    requires op.VerifyTotpOp? && Opens(s, ttl, op, sid)
    ensures var b := Step(s, ttl, op).births[sid]; Explains(s, op, sid, b.user, b.origin)
  {
  }

  lemma StepBirth(s: State, ttl: int, op: Op, sid: string)
    requires Opens(s, ttl, op, sid)
    ensures var b := Step(s, ttl, op).births[sid]; Explains(s, op, sid, b.user, b.origin)
  {
    match op
    case LoginOp(_, _, _, _, _, _) => LoginBirth(s, ttl, op, sid);
    case VerifyTotpOp(_, _, _, _, _, _) => VerifyTotpBirth(s, ttl, op, sid);
    case _ =>
  }

  /**
   * Every session of a run was opened by a request of that run, which in the state it met presented
   * what the origin says for the session's owner.
   */
  lemma {:induction false} EverySessionExplained(ttl: int, ops: seq<Op>, sid: string) returns (i: nat)
    requires sid in Run(ttl, ops).births
    ensures i < |ops| && sid !in Run(ttl, ops[..i]).births
    ensures var b := Run(ttl, ops).births[sid]; Explains(Run(ttl, ops[..i]), ops[i], sid, b.user, b.origin)
  {
    var before := ops[..|ops| - 1];
    if sid in Run(ttl, before).births {
      i := EverySessionExplained(ttl, before, sid);
      assert before[..i] == ops[..i];
      LastGrows(ttl, ops);
    } else {
      i := |ops| - 1;
      StepBirth(Run(ttl, before), ttl, ops[i], sid);
    }
  }

  /** A token the panel issued: it names a session, and as impersonator who opened it. */
  ghost predicate Genuine(s: State, claims: Claims) {
    && claims.sid in s.births
    && (claims.impersonator != 0 ==> s.births[claims.sid].origin == Impersonated(claims.impersonator))
  }

  /** A session begun by leaving an impersonation is of one who was an administrator when it began. */
  lemma ReturnedWasAdmin(ttl: int, ops: seq<Op>, sid: string) returns (i: nat, j: nat)
    requires sid in Run(ttl, ops).births && Run(ttl, ops).births[sid].origin.Returned?
    requires forall k :: 0 <= k < |ops| && ops[k].UnimpersonateOp? && ops[k].claims.Some? ==>
               Genuine(Run(ttl, ops[..k]), ops[k].claims.value)
    ensures var user := Run(ttl, ops).births[sid].user;
            && j < i < |ops| && ops[i].UnimpersonateOp? && ops[j].ImpersonateOp? && ops[j].actor == user
            && ops[i].claims.Some? && ops[j].drawn == ops[i].claims.value.sid
            && user in Run(ttl, ops[..j]).users && Run(ttl, ops[..j]).users[user].admin
  {
    i := EverySessionExplained(ttl, ops, sid);
    j := EverySessionExplained(ttl, ops[..i], ops[i].claims.value.sid);
    assert ops[..i][..j] == ops[..j];
  }

  /** Once the row of a session is gone, its token is refused for ever, whatever happens next. */
  lemma DeletedNeverVerifies(ttl: int, ops: seq<Op>, later: seq<Op>, end: seq<Op>, claims: Claims, now: int)
    requires claims.sid in Run(ttl, ops).sessions && claims.sid !in Run(ttl, ops + later).sessions
    ensures Verify(Run(ttl, ops + later + end), Some(claims), now).None?
  {
    RunInv(ttl, ops);
    RunInv(ttl, ops + later);
    RunInv(ttl, ops + later + end);
    RunGrows(ttl, ops, later);
    RunGrows(ttl, ops + later, end);
    assert claims.sid in Run(ttl, ops + later).removed;
  }

  /** An accepted token stands for a session the run created for that user and has not removed. */
  lemma VerifiedSessionExists(ttl: int, ops: seq<Op>, claims: Option<Claims>, now: int)
    requires Verify(Run(ttl, ops), claims, now).Some?
    ensures var s, user := Run(ttl, ops), Verify(Run(ttl, ops), claims, now).value;
            && claims.Some? && claims.value.sid in s.births && claims.value.sid !in s.removed
            && s.births[claims.value.sid].user == user
            && user in s.users && !s.users[user].suspended && Live(s.sessions[claims.value.sid], now)
  {
    RunInv(ttl, ops);
  }

  // ---------------------------------------------------------------- the manager

  class Manager {
    const ttl: int
    var users: map<int, User>
    var attempts: seq<Attempt>
    var sessions: map<string, Ticket>
    var challenges: map<string, Ticket>
    ghost var minted: set<string>
    ghost var hashed: set<string>
    ghost var births: map<string, Birth>
    ghost var removed: set<string>
    ghost var spent: multiset<string>

    ghost function Now(): State reads this {
      State(users, attempts, sessions, challenges, minted, hashed, births, removed, spent)
    }

    constructor (ttl: int)
      ensures this.ttl == ttl && Now() == INITIAL && Inv(Now())
    {
      this.ttl := ttl;
      users, attempts, sessions, challenges := map[], [], map[], map[];
      minted, hashed, births, removed, spent := {}, {}, map[], {}, multiset{};
    }

    method RecordLoginAttempt(a: Attempt)
      modifies this`attempts
      ensures attempts == old(attempts) + [a]
    {
      attempts := attempts + [a];
    }

    method CreateSession(sid: string, user: int, origin: Origin, expires: int)
      requires user in users
      modifies this`sessions, this`minted, this`births
      ensures Now() == Open(old(Now()), sid, user, origin, expires)
    {
      sessions := sessions[sid := Ticket(user, expires)];
      minted, births := minted + {sid}, births[sid := Birth(user, origin, users[user].totp)];
    }

    method DeleteSession(sid: string)
      modifies this`sessions, this`removed
      ensures Now() == Close(old(Now()), {sid})
    {
      removed := removed + ({sid} * sessions.Keys);
      sessions := sessions - {sid};
    }

    /** The loop over the stored hashes; on a match the list is rewritten without it. */
    method ConsumeBackupCode(user: int, matched: set<string>) returns (ok: bool, ghost i: nat)
      requires user in users
      modifies this`users, this`spent
      ensures i == FirstMatch(old(users)[user].backup, matched)
      ensures ok <==> i < |old(users)[user].backup|
      ensures Now() == if ok then Spend(old(Now()), user, i) else old(Now())
    {
      var hashes := users[user].backup;
      for k := 0 to |hashes|
        invariant FirstMatch(hashes, matched) == k + FirstMatch(hashes[k..], matched)
        invariant users == old(users) && spent == old(spent)
      {
        assert hashes[k..][0] == hashes[k] && hashes[k..][1..] == hashes[k + 1..];
        if hashes[k] in matched {
          users := users[user := users[user].(backup := WithoutAt(hashes, k))];
          spent := spent + multiset{hashes[k]};
          return true, k;
        }
      }
      return false, |hashes|;
    }

    method Login(name: string, ip: string, who: Option<int>, passwordOk: bool, clock: Clock, drawn: string)
      returns (r: Reply)
      requires Inv(Now()) && Finds(users, name, who) && Ticks(clock) && drawn !in minted
      modifies this
      ensures Inv(Now()) && (Now(), r) == LoginStep(old(Now()), ttl, name, ip, who, passwordOk, clock, drawn)
    {
      LoginInv(Now(), ttl, name, ip, who, passwordOk, clock, drawn);
      if LockedOut(attempts, name, ip, Seconds(clock.checked)) {
        return Locked;
      }
      if who.None? || !passwordOk {
        RecordLoginAttempt(Tried(name, ip, false, clock));
        return Invalid;
      }
      if users[who.value].suspended {
        RecordLoginAttempt(Tried(name, ip, false, clock));
        return Suspended;
      }
      RecordLoginAttempt(Tried(name, ip, true, clock));
      r := AcceptPassword(who.value, clock, drawn);
    }

    method AcceptPassword(user: int, clock: Clock, drawn: string) returns (r: Reply)
      requires user in users
      modifies this
      ensures (Now(), r) == PasswordAccepted(old(Now()), ttl, user, clock, drawn)
    {
      if users[user].totp {
        challenges := challenges[drawn := Ticket(user, Seconds(clock.begun + CHALLENGE_TTL))];
        minted := minted + {drawn};
        return TotpRequired(drawn);
      }
      CreateSession(drawn, user, ByPassword, Seconds(clock.begun + ttl));
      return LoggedIn(drawn);
    }

    method VerifyTOTPLogin(challenge: string, ip: string, codeOk: bool, matched: set<string>, clock: Clock, drawn: string)
      returns (r: Reply)
      requires Inv(Now()) && Ticks(clock) && drawn !in minted
      modifies this
      ensures Inv(Now()) && (Now(), r) == VerifyTotp(old(Now()), ttl, challenge, ip, codeOk, matched, clock, drawn)
    {
      VerifyTotpInv(Now(), ttl, challenge, ip, codeOk, matched, clock, drawn);
      if challenge !in challenges || !Live(challenges[challenge], clock.asked) {
        return BadToken;
      }
      var user := challenges[challenge].user;
      if user !in users {
        return BadToken;
      }
      var u := users[user];
      if LockedOut(attempts, u.username, ip, Seconds(clock.checked)) {
        return Locked;
      }
      if u.suspended {
        challenges := challenges - {challenge};
        return Suspended;
      }
      if codeOk {
        r := CompleteLogin(challenge, ip, user, ByCode(challenge), clock, drawn);
        return;
      }
      var ok, i := ConsumeBackupCode(user, matched);
      if ok {
        ghost var origin := ByBackup(challenge, u.backup[i]);
        r := CompleteLogin(challenge, ip, user, origin, clock, drawn);
        return;
      }
      RecordLoginAttempt(Tried(u.username, ip, false, clock));
      return BadCode;
    }

    /** What follows an accepted code. */
    method CompleteLogin(challenge: string, ip: string, user: int, ghost origin: Origin, clock: Clock, drawn: string)
      returns (r: Reply)
      requires user in users
      modifies this
      ensures (Now(), r) == Admit(old(Now()), ttl, challenge, ip, user, origin, clock, drawn)
    {
      RecordLoginAttempt(Tried(users[user].username, ip, true, clock));
      challenges := challenges - {challenge};
      sessions := sessions[drawn := Ticket(user, Seconds(clock.begun + ttl))];
      minted, births := minted + {drawn}, births[drawn := Birth(user, origin, users[user].totp)];
      return LoggedIn(drawn);
    }

    method ConfirmPassword(user: int, ip: string, passwordOk: bool, clock: Clock) returns (r: Reply)
      requires Inv(Now()) && user in users && Ticks(clock)
      modifies this`attempts
      ensures Inv(Now()) && (Now(), r) == ConfirmPasswordStep(old(Now()), user, ip, passwordOk, clock)
    {
      ConfirmPasswordInv(Now(), user, ip, passwordOk, clock);
      var name := users[user].username;
      if LockedOut(attempts, name, ip, Seconds(clock.checked)) {
        return Locked;
      }
      if !passwordOk {
        RecordLoginAttempt(Tried(name, ip, false, clock));
        return Invalid;
      }
      return Accepted;
    }

    method Impersonate(admin: int, target: int, now: int, drawn: string) returns (r: Reply)
      requires Inv(Now()) && drawn !in minted
      modifies this
      ensures Inv(Now()) && (Now(), r) == ImpersonateStep(old(Now()), ttl, admin, target, now, drawn)
    {
      ImpersonateInv(Now(), ttl, admin, target, now, drawn);
      if admin !in users {
        return NotFound;
      }
      if !users[admin].admin {
        return Forbidden;
      }
      if target !in users {
        return NotFound;
      }
      if users[target].suspended {
        return Suspended;
      }
      CreateSession(drawn, target, Impersonated(admin), Seconds(now + ttl));
      return LoggedIn(drawn);
    }

    method Unimpersonate(claims: Option<Claims>, now: int, drawn: string) returns (r: Reply)
      requires Inv(Now()) && drawn !in minted
      modifies this
      ensures Inv(Now()) && (Now(), r) == UnimpersonateStep(old(Now()), ttl, claims, now, drawn)
    {
      UnimpersonateInv(Now(), ttl, claims, now, drawn);
      if claims.None? {
        return BadToken;
      }
      r := Leave(claims.value, now, drawn);
    }

    /** What follows once the token was parsed. */
    method Leave(claims: Claims, now: int, drawn: string) returns (r: Reply)
      modifies this
      ensures (Now(), r) == UnimpersonateStep(old(Now()), ttl, Some(claims), now, drawn)
    {
      DeleteSession(claims.sid);
      if claims.impersonator == 0 {
        return NotImpersonated;
      }
      if claims.impersonator !in users {
        return NotFound;
      }
      CreateSession(drawn, claims.impersonator, Returned, Seconds(now + ttl));
      return LoggedIn(drawn);
    }

    method Logout(claims: Option<Claims>)
      requires Inv(Now())
      modifies this`sessions, this`removed
      ensures Inv(Now()) && Now() == LogoutStep(old(Now()), claims)
    {
      LogoutInv(Now(), claims);
      if claims.Some? {
        DeleteSession(claims.value.sid);
      }
    }
  }
}
