/** The authentication service as a labelled transition system. Every request
    is a program counter, every `await` on the database is one atomic step, and
    steps of different requests interleave freely; a request may die at any
    point. `History` is written by the steps and read by none of them. */
module AuthProtocol {
  import opened Options
  import opened SessionTable
  import opened AuthTokens

  const WINDOW: nat := 15 * 60 * 1000
  const MAX_PER_EMAIL: nat := 5
  const MAX_PER_IP: nat := 20

  datatype Status = Active | Inactive | Blocked

  datatype User = User(email: string, status: Status, hasPassword: bool)

  /** Everything shared: the database, the clock, and what was ever signed. */
  datatype World = World(
    sessions: Table,
    attempts: seq<Attempt>,
    users: map<UserId, User>,
    clock: Time,
    issued: set<Claims>,
    used: set<Uuid>)

  datatype Pc =
    // refresh
    | Presented(claims: Claims)                     // verified, before findByJti
    | Found(row: Row)                               // before revokeByJti
    | Reused(row: Row)                              // lost the revoke, before revokeFamily
    | Won(row: Row)                                 // won the revoke, before findById
    | ActiveUser(row: Row)                          // before signing
    | InactiveUser(row: Row)                        // before revokeFamily
    // logout
    | LoggingOut(claims: Claims)
    // login
    | CountingEmail(email: string, ip: Option<string>, since: int)
    | CountingIp(email: string, ip: Option<string>, since: int, byEmail: nat)
    | Admitted(email: string, ip: Option<string>)   // passed both limits
    | Failing(email: string, ip: Option<string>)    // before recordLoginAttempt
    | Clearing(email: string, user: UserId)         // before clearLoginAttempts
    // any request that issues tokens
    | Opening(user: UserId)
    | Storing(row: Row, parent: Option<Uuid>)

  datatype Minted = Minted(userId: UserId, familyId: Uuid, expiresAt: int, parent: Option<Uuid>)

  datatype History = History(
    minted: map<Uuid, Minted>, // every refresh jti ever signed, with the jti it replaces
    stored: set<Uuid>,         // every row ever inserted
    purged: set<Uuid>,
    rotated: set<Uuid>,        // every row ever revoked by a refresh that won it
    succeeded: set<Uuid>,      // those whose refresh stored a successor
    abandoned: set<Uuid>)      // those whose refresh was rejected or died

  type RequestId = nat

  datatype State = State(w: World, reqs: map<RequestId, Pc>, hist: History)

  datatype Step =
    | Tick(to: Time)
    | SetUser(user: UserId, record: Option<User>)
    | Crash(r: RequestId)
    | VerifyRefresh(r: RequestId, token: Claims)
    | FindSession(r: RequestId)
    | RevokePresented(r: RequestId)
    | RevokeReused(r: RequestId)
    | LookUpUser(r: RequestId)
    | RevokeInactive(r: RequestId)
    | SignRotation(r: RequestId, mint: Mint)
    | VerifyLogout(r: RequestId, token: Claims)
    | RevokeLogout(r: RequestId)
    | RevokeAll(user: UserId)
    | BeginLogin(r: RequestId, newEmail: string, newIp: Option<string>)
    | CountByEmail(r: RequestId)
    | CountByIp(r: RequestId)
    | CheckPassword(r: RequestId, found: Option<UserId>, matches: bool)
    | RecordAttempt(r: RequestId)
    | ClearAttempts(r: RequestId)
    | BeginOpen(r: RequestId, user: UserId)
    | SignOpening(r: RequestId, mint: Mint)
    | StoreRow(r: RequestId)
    | PurgeSessionRows(before: int)
    | PurgeAttemptRows(before: int)

  // ------------------------------------------------------------ observations

  /** The family a request may still add a row to or has exclusive claim on:
      it won the revoke, or it opened the family, and has not finished. */
  function Holds(pc: Pc): Option<Uuid> {
    match pc
    case Won(row) => Some(row.familyId)
    case ActiveUser(row) => Some(row.familyId)
    case InactiveUser(row) => Some(row.familyId)
    case Storing(row, _) => Some(row.familyId)
    case _ => None
  }

  /** The jti a rotation in flight has spent. */
  function Spent(pc: Pc): Option<Uuid> {
    match pc
    case Won(row) => Some(row.jti)
    case ActiveUser(row) => Some(row.jti)
    case InactiveUser(row) => Some(row.jti)
    case Storing(_, parent) => parent
    case _ => None
  }

  predicate ActiveRow(s: State, j: Uuid) {
    j in s.w.sessions && s.w.sessions[j].Active()
  }

  function NoIp(ip: Option<string>): bool {
    ip.None? || ip.value == ""
  }

  function IpCount(w: World, ip: Option<string>, since: int): nat {
    if NoIp(ip) then 0 else CountSince(w.attempts, Ip(ip.value), since)
  }

  predicate Limited(byEmail: nat, byIp: nat) {
    byEmail >= MAX_PER_EMAIL || byIp >= MAX_PER_IP
  }

  predicate IsLookup(w: World, email: string, found: Option<UserId>) {
    match found
    case Some(u) => u in w.users && w.users[u].email == email
    case None => forall u <- w.users :: w.users[u].email != email
  }

  /** The three conditions a login has to meet once it is past the limiter. */
  predicate Accepts(w: World, found: Option<UserId>, matches: bool) {
    && found.Some?
    && found.value in w.users
    && w.users[found.value].hasPassword
    && w.users[found.value].status == Active
    && matches
  }

  predicate UserEnabled(w: World, u: UserId) {
    u in w.users && w.users[u].status == Active
  }

  /** The UUIDs a signer draws: pairwise different and never drawn before. */
  predicate Fresh(w: World, m: Mint) {
    && m.jti !in w.used && m.familyId !in w.used && m.accessJti !in w.used
    && m.jti != m.familyId && m.jti != m.accessJti && m.familyId != m.accessJti
  }

  // ------------------------------------------------------------------- steps

  function Goto(s: State, r: RequestId, pc: Pc): State {
    s.(reqs := s.reqs[r := pc])
  }

  /** The request ends without success; a rotation it had won is abandoned. */
  function End(s: State, r: RequestId): State
    requires r in s.reqs
  {
    var spent := Spent(s.reqs[r]);
    State(s.w, s.reqs - {r},
          if spent.Some? then s.hist.(abandoned := s.hist.abandoned + {spent.value}) else s.hist)
  }

  function Update(s: State, sel: Selector, reason: Reason): State {
    s.(w := s.w.(sessions := RevokeWhere(s.w.sessions, sel, s.w.clock, reason)))
  }

  /** revokeByJti of refresh: it decides between rotation and reuse. */
  function DoRevokePresented(s: State, r: RequestId, row: Row): State {
    var sel := ByJti(row.jti, None);
    if HitSet(s.w.sessions, sel) != {} then
      var t := Goto(Update(s, sel, Rotated), r, Won(row));
      t.(hist := t.hist.(rotated := t.hist.rotated + {row.jti}))
    else Goto(s, r, Reused(row))
  }

  /** signTokenPair inside buildTokenResponse, for a new or a kept family. */
  function DoSign(s: State, r: RequestId, user: UserId, familyId: Option<Uuid>, parent: Option<Uuid>, m: Mint): State
    requires r in s.reqs
  {
    var pair := SignTokenPair(user, familyId, m, s.w.clock);
    if pair.None? then End(s, r)
    else
      var p := pair.value;
      var row := RowOf(user, p);
      State(s.w.(issued := s.w.issued + {p.access, p.refresh},
                 used := s.w.used + {m.jti, m.familyId, m.accessJti}),
            s.reqs[r := Storing(row, parent)],
            s.hist.(minted := s.hist.minted[row.jti := Minted(user, row.familyId, row.expiresAt, parent)]))
  }

  /** INSERT; the unique index on jti turns a clash into an exception. */
  function DoStore(s: State, r: RequestId, row: Row, parent: Option<Uuid>): State
    requires r in s.reqs
  {
    if row.jti in s.w.sessions then End(s, r)
    else
      State(s.w.(sessions := s.w.sessions[row.jti := row]),
            s.reqs - {r},
            s.hist.(stored := s.hist.stored + {row.jti},
                    succeeded := s.hist.succeeded + if parent.Some? then {parent.value} else {}))
  }

  function DoPurge(s: State, before: int): State {
    var kept := PurgeSessions(s.w.sessions, before);
    State(s.w.(sessions := kept), s.reqs,
          s.hist.(purged := s.hist.purged + (s.w.sessions.Keys - kept.Keys)))
  }

  // The limiter reads its two counts in two statements, then decides.

  function DoCountEmail(s: State, r: RequestId, pc: Pc): State
    requires pc.CountingEmail?
  {
    Goto(s, r, CountingIp(pc.email, pc.ip, pc.since, CountSince(s.w.attempts, Email(pc.email), pc.since)))
  }

  function DoCountIp(s: State, r: RequestId, pc: Pc): State
    requires r in s.reqs && pc.CountingIp?
  {
    if Limited(pc.byEmail, IpCount(s.w, pc.ip, pc.since)) then End(s, r)
    else Goto(s, r, Admitted(pc.email, pc.ip))
  }

  function DoCheckPassword(s: State, r: RequestId, pc: Pc, found: Option<UserId>, matches: bool): State
    requires pc.Admitted?
  {
    Goto(s, r, if Accepts(s.w, found, matches) then Clearing(pc.email, found.value)
               else Failing(pc.email, pc.ip))
  }

  function DoRecord(s: State, r: RequestId, pc: Pc): State
    requires r in s.reqs && pc.Failing?
  {
    End(s.(w := s.w.(attempts := s.w.attempts + [Attempt(pc.email, pc.ip, s.w.clock)])), r)
  }

  function DoClear(s: State, r: RequestId, pc: Pc): State
    requires pc.Clearing?
  {
    Goto(s.(w := s.w.(attempts := ClearEmail(s.w.attempts, pc.email))), r, Opening(pc.user))
  }

  predicate At(s: State, step: Step) {
    match step
    case Tick(to) => s.w.clock <= to
    case SetUser(_, _) => true
    case Crash(r) => r in s.reqs
    case VerifyRefresh(r, _) => r !in s.reqs
    case FindSession(r) => r in s.reqs && s.reqs[r].Presented?
    case RevokePresented(r) => r in s.reqs && s.reqs[r].Found?
    case RevokeReused(r) => r in s.reqs && s.reqs[r].Reused?
    case LookUpUser(r) => r in s.reqs && s.reqs[r].Won?
    case RevokeInactive(r) => r in s.reqs && s.reqs[r].InactiveUser?
    case SignRotation(r, m) => r in s.reqs && s.reqs[r].ActiveUser? && Fresh(s.w, m)
    case VerifyLogout(r, _) => r !in s.reqs
    case RevokeLogout(r) => r in s.reqs && s.reqs[r].LoggingOut?
    case RevokeAll(_) => true
    case BeginLogin(r, _, _) => r !in s.reqs
    case CountByEmail(r) => r in s.reqs && s.reqs[r].CountingEmail?
    case CountByIp(r) => r in s.reqs && s.reqs[r].CountingIp?
    case CheckPassword(r, found, _) =>
      r in s.reqs && s.reqs[r].Admitted? && IsLookup(s.w, s.reqs[r].email, found)
    case RecordAttempt(r) => r in s.reqs && s.reqs[r].Failing?
    case ClearAttempts(r) => r in s.reqs && s.reqs[r].Clearing?
    case BeginOpen(r, u) => r !in s.reqs && u in s.w.users
    case SignOpening(r, m) => r in s.reqs && s.reqs[r].Opening? && Fresh(s.w, m)
    case StoreRow(r) => r in s.reqs && s.reqs[r].Storing?
    case PurgeSessionRows(_) => true
    case PurgeAttemptRows(_) => true
  }

  function Next(s: State, step: Step): State
    requires At(s, step)
  {
    match step
    case Tick(to) => s.(w := s.w.(clock := to))
    case SetUser(u, record) =>
      s.(w := s.w.(users := if record.Some? then s.w.users[u := record.value] else s.w.users - {u}))
    case Crash(r) => End(s, r)
    case VerifyRefresh(r, token) =>
      var c := Verify(s.w.issued, token, Refresh, s.w.clock);
      if c.Some? then Goto(s, r, Presented(c.value)) else s
    case FindSession(r) =>
      var row := Find(s.w.sessions, s.reqs[r].claims.jti);
      if row.Some? then Goto(s, r, Found(row.value)) else End(s, r)
    case RevokePresented(r) => DoRevokePresented(s, r, s.reqs[r].row)
    case RevokeReused(r) =>
      End(Update(s, ByFamily(s.reqs[r].row.familyId), ReuseDetected), r)
    case LookUpUser(r) =>
      var row := s.reqs[r].row;
      Goto(s, r, if UserEnabled(s.w, row.userId) then ActiveUser(row) else InactiveUser(row))
    case RevokeInactive(r) =>
      End(Update(s, ByFamily(s.reqs[r].row.familyId), Reason.UserInactive), r)
    case SignRotation(r, m) =>
      var row := s.reqs[r].row;
      DoSign(s, r, row.userId, Some(row.familyId), Some(row.jti), m)
    case VerifyLogout(r, token) =>
      var c := Verify(s.w.issued, token, Refresh, s.w.clock);
      if c.Some? then Goto(s, r, LoggingOut(c.value)) else s
    case RevokeLogout(r) =>
      End(Update(s, ByJti(s.reqs[r].claims.jti, None), LoggedOut), r)
    case RevokeAll(u) => Update(s, ByUser(u), LoggedOutAll)
    case BeginLogin(r, email, ip) => Goto(s, r, CountingEmail(email, ip, s.w.clock - WINDOW))
    case CountByEmail(r) => DoCountEmail(s, r, s.reqs[r])
    case CountByIp(r) => DoCountIp(s, r, s.reqs[r])
    case CheckPassword(r, found, matches) => DoCheckPassword(s, r, s.reqs[r], found, matches)
    case RecordAttempt(r) => DoRecord(s, r, s.reqs[r])
    case ClearAttempts(r) => DoClear(s, r, s.reqs[r])
    case BeginOpen(r, u) => Goto(s, r, Opening(u))
    case SignOpening(r, m) => DoSign(s, r, s.reqs[r].user, None, None, m)
    case StoreRow(r) => DoStore(s, r, s.reqs[r].row, s.reqs[r].parent)
    case PurgeSessionRows(before) => DoPurge(s, before)
    case PurgeAttemptRows(before) => s.(w := s.w.(attempts := PurgeAttempts(s.w.attempts, before)))
  }

  // -------------------------------------------------------------------- runs

  predicate Init(s: State) {
    && s.w.sessions == map[] && s.w.attempts == [] && s.w.issued == {} && s.w.used == {}
    && s.reqs == map[]
    && s.hist == History(map[], {}, {}, {}, {}, {})
  }

  predicate Runs(s: State, steps: seq<Step>)
    decreases |steps|
  {
    steps == [] || (At(s, steps[0]) && Runs(Next(s, steps[0]), steps[1..]))
  }

  function Run(s: State, steps: seq<Step>): State
    requires Runs(s, steps)
    decreases |steps|
  {
    if steps == [] then s else Run(Next(s, steps[0]), steps[1..])
  }

  lemma {:induction false} RunAppend(s: State, a: seq<Step>, b: seq<Step>)
    requires Runs(s, a) && Runs(Run(s, a), b)
    ensures Runs(s, a + b) && Run(s, a + b) == Run(Run(s, a), b)
    decreases |a|
  {
    if a == [] {
      assert a + b == b;
    } else {
      RunAppend(Next(s, a[0]), a[1..], b);
      assert (a + b)[0] == a[0] && (a + b)[1..] == a[1..] + b;
    }
  }
}
