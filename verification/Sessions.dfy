/** Bearer tokens as claim records: the renewal chain that cannot outlive its session, and the
    version counter that retires what was issued before a sign-out or a new password. */
module Sessions {
  import opened Prelude
  import opened Orders

  const SECOND: int := 1_000_000

  datatype Kind = AdminToken | RiderToken | CustomerToken

  /** The claims of a token. Tokens older than the version and session claims lack them. */
  datatype Claims = Claims(sub: string, typ: Kind, ver: Option<int>, ait: Option<int>, iat: int, exp: int)

  /** Token lifetime in minutes and session length in hours. */
  datatype Limits = Limits(lifetime: nat, sessionHours: nat)

  function Second(t: Time): int {
    t / SECOND
  }

  function Lifetime(l: Limits): int { l.lifetime * 60 }
  function SessionLength(l: Limits): int { l.sessionHours * 3600 }

  /** create_access_token. */
  function Mint(l: Limits, kind: Kind, subject: string, version: nat, started: Option<Time>, now: Time): Claims {
    Claims(subject, kind, Some(version), Some(Second(if started.Some? then started.value else now)),
           Second(now), Second(now + Lifetime(l) * SECOND))
  }

  /** session_started: a zero or missing claim falls back to the time of issue. */
  function SessionStarted(c: Claims): Time {
    SECOND * if c.ait.Some? && c.ait.value != 0 then c.ait.value else c.iat
  }

  /** A token is good strictly before its expiry, and not before its issue. */
  predicate Current(c: Claims, now: Time) {
    now < c.exp * SECOND && c.iat * SECOND <= now
  }

  /** The replacement for a token that is current, unless the session has run too long. */
  function Renewed(l: Limits, c: Claims, subject: string, version: nat, now: Time): Option<Claims> {
    if !Current(c, now) || now - SessionStarted(c) > SessionLength(l) * SECOND then None
    else Some(Mint(l, c.typ, subject, version, Some(SessionStarted(c)), now))
  }

  // ------------------------------------------------------------------------
  // The renewal chain
  // ------------------------------------------------------------------------

  /** One renewal: what the account row said, and when. */
  datatype Renewal = Renewal(subject: string, version: nat, now: Time)

  function Chain(l: Limits, first: Claims, renewals: seq<Renewal>): Option<Claims> {
    if renewals == [] then Some(first)
    else match Chain(l, first, renewals[..|renewals| - 1])
      case None => None
      case Some(c) =>
        var last := renewals[|renewals| - 1];
        Renewed(l, c, last.subject, last.version, last.now)
  }

  lemma WholeSeconds(t: Time, seconds: int)
    ensures Second(t + seconds * SECOND) == Second(t) + seconds
    ensures Second(seconds * SECOND) == seconds
    ensures Second(t) * SECOND <= t < (Second(t) + 1) * SECOND
  {
  }

  /** One renewal keeps the session's start to the second and stays under its ceiling. */
  lemma RenewalKeepsStart(l: Limits, c: Claims, subject: string, version: nat, now: Time)
    requires Renewed(l, c, subject, version, now).Some?
    ensures var n := Renewed(l, c, subject, version, now).value;
      && n.ait == Some(SessionStarted(c) / SECOND)
      && (SessionStarted(c) != 0 ==> SessionStarted(n) == SessionStarted(c))
      && n.exp * SECOND <= SessionStarted(c) + (SessionLength(l) + Lifetime(l)) * SECOND
  {
    var start := if c.ait.Some? && c.ait.value != 0 then c.ait.value else c.iat;
    WholeSeconds(0, start);
    WholeSeconds(now, Lifetime(l));
  }

  /** However often a session is renewed, its start never moves, and no token of it is good past
      the start plus the session limit plus one token's lifetime. */
  lemma {:induction false} ChainIsBounded(l: Limits, first: Claims, renewals: seq<Renewal>)
    requires Chain(l, first, renewals).Some? && SessionStarted(first) != 0
    requires first.exp * SECOND <= SessionStarted(first) + (SessionLength(l) + Lifetime(l)) * SECOND
    ensures var c := Chain(l, first, renewals).value;
      && SessionStarted(c) == SessionStarted(first)
      && (renewals != [] ==> c.ait == Some(SessionStarted(first) / SECOND))
      && c.exp * SECOND <= SessionStarted(first) + (SessionLength(l) + Lifetime(l)) * SECOND
      && (forall now :: SessionStarted(first) + (SessionLength(l) + Lifetime(l)) * SECOND <= now ==> !Current(c, now))
    decreases |renewals|
  {
    if renewals != [] {
      var init, last := renewals[..|renewals| - 1], renewals[|renewals| - 1];
      ChainIsBounded(l, first, init);
      RenewalKeepsStart(l, Chain(l, first, init).value, last.subject, last.version, last.now);
    }
  }

  /** A token fresh from a sign-in meets the ceiling its chain is held to. */
  lemma SignInStartsSession(l: Limits, kind: Kind, subject: string, version: nat, now: Time)
    requires SECOND <= now
    ensures var c := Mint(l, kind, subject, version, None, now);
      && c.ait == Some(Second(now)) && SessionStarted(c) == Second(now) * SECOND != 0
      && c.exp * SECOND <= SessionStarted(c) + (SessionLength(l) + Lifetime(l)) * SECOND
      && (0 < l.lifetime ==> Current(c, now))
  {
    WholeSeconds(now, Lifetime(l));
  }

  // ------------------------------------------------------------------------
  // Accounts
  // ------------------------------------------------------------------------

  /** A row of one of the three account tables: its sign-in name, its version, and whether it may
      sign in at all. */
  datatype Account = Account(kind: Kind, subject: string, version: nat, active: bool)

  type Accounts = map<nat, Account>

  predicate Holds(a: Accounts, kind: Kind, subject: string, id: nat) {
    id in a && a[id].kind == kind && a[id].subject == subject && a[id].active
  }

  /** The unique sign-in names of the account tables. */
  predicate SubjectsUnique(a: Accounts) {
    forall i, j :: i in a && j in a && a[i].kind == a[j].kind && a[i].subject == a[j].subject ==> i == j
  }

  /** Somebody other than this account goes by the subject. */
  predicate TakenByOther(a: Accounts, kind: Kind, subject: string, id: nat) {
    exists other :: other in a && other != id && a[other].kind == kind && a[other].subject == subject
  }

  /** resolve: the account a subject names, if it may sign in. */
  function Resolve(a: Accounts, kind: Kind, subject: string): (r: Option<nat>)
    ensures r.Some? ==> Holds(a, kind, subject, r.value)
    ensures r.None? ==> forall id :: id in a ==> !Holds(a, kind, subject, id)
  {
    var holders := set id | id in a && Holds(a, kind, subject, id);
    if holders == {} then
      assert forall id :: id in a && Holds(a, kind, subject, id) ==> id in holders;
      None
    else
      Some(Min(holders))
  }

  /** A token without a version, issued before there were any, is of generation zero. */
  function Generation(c: Claims): int {
    if c.ver.Some? then c.ver.value else 0
  }

  /** authenticate: the account a token speaks for, if it is current and of that account's
      present generation. */
  function AcceptedAs(a: Accounts, c: Claims, now: Time): Option<nat> {
    if !Current(c, now) then None
    else match Resolve(a, c.typ, c.sub)
      case None => None
      case Some(id) => if Generation(c) == a[id].version then Some(id) else None
  }

  /** A token on record: whom it was issued to. */
  datatype Issued = Issued(claims: Claims, holder: nat)

  /** The account tables, and every token ever signed. */
  datatype State = State(accounts: Accounts, nextId: nat, issued: set<Issued>)

  datatype Request =
    | SignIn(kind: Kind, subject: string, proved: bool)
    | Refresh(token: Claims)
    | SignOut(token: Claims)
    | ChangePassword(token: Claims, proved: bool)
    | ResetCredential(id: nat)
    | EditAccount(id: nat, subject: string, active: bool)
    | AddAccount(kind: Kind, subject: string, active: bool)
    | RemoveAccount(id: nat)

  /** Only a signed token is read at all. */
  predicate Signed(s: State, c: Claims) {
    exists i :: i in s.issued && i.claims == c
  }

  function Caller(s: State, c: Claims, now: Time): Option<nat> {
    if Signed(s, c) then AcceptedAs(s.accounts, c, now) else None
  }

  function Bumped(s: State, id: nat): State
    requires id in s.accounts
  {
    s.(accounts := s.accounts[id := s.accounts[id].(version := s.accounts[id].version + 1)])
  }

  function Handed(l: Limits, s: State, id: nat, started: Option<Time>, now: Time): (State, Option<Claims>)
    requires id in s.accounts
  {
    var account := s.accounts[id];
    var token := Mint(l, account.kind, account.subject, account.version, started, now);
    (s.(issued := s.issued + {Issued(token, id)}), Some(token))
  }

  /** One request, alone: the state after it and the token it hands back, if any. A subject in
      use is refused to anybody else; customers are never removed, keep their number, and change
      their password only themselves; only staff rows are ever deleted. */
  function Step(l: Limits, s: State, req: Request, now: Time): (State, Option<Claims>) {
    match req
    case SignIn(kind, subject, proved) =>
      (match Resolve(s.accounts, kind, subject)
       case None => (s, None)
       case Some(id) => if proved then Handed(l, s, id, None, now) else (s, None))
    case Refresh(token) =>
      (match Caller(s, token, now)
       case None => (s, None)
       case Some(id) =>
         if now - SessionStarted(token) > SessionLength(l) * SECOND then (s, None)
         else Handed(l, s, id, Some(SessionStarted(token)), now))
    case SignOut(token) =>
      (match Caller(s, token, now)
       case None => (s, None)
       case Some(id) => (Bumped(s, id), None))
    case ChangePassword(token, proved) =>
      (match Caller(s, token, now)
       case None => (s, None)
       case Some(id) =>
         if token.typ == CustomerToken && proved then Handed(l, Bumped(s, id), id, None, now) else (s, None))
    case ResetCredential(id) =>
      if id in s.accounts && s.accounts[id].kind != CustomerToken then (Bumped(s, id), None) else (s, None)
    case EditAccount(id, subject, active) =>
      if id !in s.accounts then (s, None)
      else if s.accounts[id].kind == CustomerToken && subject != s.accounts[id].subject then (s, None)
      else if TakenByOther(s.accounts, s.accounts[id].kind, subject, id) then (s, None)
      else
        (s.(accounts := s.accounts[id := s.accounts[id].(subject := subject, active := active)]), None)
    case AddAccount(kind, subject, active) =>
      if TakenByOther(s.accounts, kind, subject, s.nextId) then (s, None)
      else
        (s.(accounts := s.accounts[s.nextId := Account(kind, subject, 0, active)], nextId := s.nextId + 1), None)
    case RemoveAccount(id) =>
      if id in s.accounts && s.accounts[id].kind == RiderToken then (s.(accounts := s.accounts - {id}), None)
      else (s, None)
  }

  datatype Call = Call(req: Request, now: Time)

  function Run(l: Limits, s: State, calls: seq<Call>): State {
    if calls == [] then s
    else Step(l, Run(l, s, calls[..|calls| - 1]), calls[|calls| - 1].req, calls[|calls| - 1].now).0
  }

  // ------------------------------------------------------------------------
  // Generations
  // ------------------------------------------------------------------------

  predicate IssueOk(s: State, i: Issued) {
    && i.holder < s.nextId
    && 0 <= Generation(i.claims)
    && (i.holder in s.accounts ==>
          var account := s.accounts[i.holder];
          && Generation(i.claims) <= account.version
          && i.claims.typ == account.kind
          && (account.kind == CustomerToken ==> i.claims.sub == account.subject))
  }

  /** No token on record is of a later generation than its account, and no two accounts of a kind
      go by the same subject. */
  ghost predicate StateOk(s: State) {
    && (forall id :: id in s.accounts ==> id < s.nextId)
    && (forall i :: i in s.issued ==> IssueOk(s, i))
    && SubjectsUnique(s.accounts)
  }

  /** A later table: versions have only grown, nobody changed kind, who left is gone for good, and
      customers are where they were. */
  ghost predicate Succeeds(s: State, n: State) {
    && s.nextId <= n.nextId && s.issued <= n.issued
    && (forall id :: id in n.accounts && id < s.nextId ==>
          && id in s.accounts
          && s.accounts[id].version <= n.accounts[id].version
          && s.accounts[id].kind == n.accounts[id].kind)
    && (forall id :: id in s.accounts && s.accounts[id].kind == CustomerToken ==>
          id in n.accounts && n.accounts[id].subject == s.accounts[id].subject)
  }

  lemma BumpKeepsState(s: State, id: nat)
    requires StateOk(s) && id in s.accounts
    ensures StateOk(Bumped(s, id)) && Succeeds(s, Bumped(s, id))
  {
    forall i | i in s.issued ensures IssueOk(Bumped(s, id), i) {
      assert IssueOk(s, i);
    }
  }

  lemma HandingKeepsState(l: Limits, s: State, id: nat, started: Option<Time>, now: Time)
    requires StateOk(s) && id in s.accounts
    ensures StateOk(Handed(l, s, id, started, now).0) && Succeeds(s, Handed(l, s, id, started, now).0)
  {
    var n := Handed(l, s, id, started, now).0;
    forall i | i in s.issued ensures IssueOk(n, i) {
      assert IssueOk(s, i);
    }
  }

  /** Changes to the rows other than a version. */
  lemma RowsKeepState(l: Limits, s: State, req: Request, now: Time)
    requires StateOk(s) && (req.EditAccount? || req.AddAccount? || req.RemoveAccount?)
    ensures StateOk(Step(l, s, req, now).0) && Succeeds(s, Step(l, s, req, now).0)
  {
    var n := Step(l, s, req, now).0;
    forall i | i in s.issued ensures IssueOk(n, i) {
      assert IssueOk(s, i);
    }
  }

  lemma StepKeepsState(l: Limits, s: State, req: Request, now: Time)
    requires StateOk(s)
    ensures StateOk(Step(l, s, req, now).0) && Succeeds(s, Step(l, s, req, now).0)
  {
    match req
    case SignIn(kind, subject, proved) =>
      var id := Resolve(s.accounts, kind, subject);
      if id.Some? {
        HandingKeepsState(l, s, id.value, None, now);
      }
    case Refresh(token) =>
      var id := Caller(s, token, now);
      if id.Some? {
        HandingKeepsState(l, s, id.value, Some(SessionStarted(token)), now);
      }
    case SignOut(token) =>
      var id := Caller(s, token, now);
      if id.Some? {
        BumpKeepsState(s, id.value);
      }
    case ChangePassword(token, proved) =>
      var id := Caller(s, token, now);
      if id.Some? {
        BumpKeepsState(s, id.value);
        HandingKeepsState(l, Bumped(s, id.value), id.value, None, now);
      }
    case ResetCredential(id) =>
      if id in s.accounts {
        BumpKeepsState(s, id);
      }
    case _ => RowsKeepState(l, s, req, now);
  }

  /** On every run an account's version only grows, an account that is gone does not come back,
      and subjects stay unique. */
  lemma {:induction false} VersionsOnlyGrow(l: Limits, s: State, calls: seq<Call>)
    requires StateOk(s)
    ensures StateOk(Run(l, s, calls)) && Succeeds(s, Run(l, s, calls))
    decreases |calls|
  {
    if calls != [] {
      VersionsOnlyGrow(l, s, calls[..|calls| - 1]);
      var mid := Run(l, s, calls[..|calls| - 1]);
      StepKeepsState(l, mid, calls[|calls| - 1].req, calls[|calls| - 1].now);
    }
  }

  /** Does this request retire the account's tokens? */
  predicate Retires(l: Limits, s: State, req: Request, now: Time, id: nat) {
    id in s.accounts && id in Step(l, s, req, now).0.accounts
    && Step(l, s, req, now).0.accounts[id].version > s.accounts[id].version
  }

  /** Signing out, changing the password and resetting the credential each retire everything the
      account holds. */
  lemma WhatRetires(l: Limits, s: State, token: Claims, id: nat, now: Time)
    requires Caller(s, token, now) == Some(id)
    ensures Retires(l, s, SignOut(token), now, id)
    ensures token.typ == CustomerToken ==> Retires(l, s, ChangePassword(token, true), now, id)
    ensures token.typ != CustomerToken ==> Retires(l, s, ResetCredential(id), now, id)
    ensures !Retires(l, s, ChangePassword(token, false), now, id) && !Retires(l, s, Refresh(token), now, id)
  {
  }

  /** Once an account signs out or its credential changes, no token issued to it before is ever
      accepted as that account again, whatever happens afterwards. */
  lemma RetiredForGood(l: Limits, s: State, call: Call, later: seq<Call>, old_: Issued, at: Time)
    requires StateOk(s) && old_ in s.issued && Retires(l, s, call.req, call.now, old_.holder)
    ensures AcceptedAs(Run(l, Step(l, s, call.req, call.now).0, later).accounts, old_.claims, at) != Some(old_.holder)
  {
    assert IssueOk(s, old_);
    var after := Step(l, s, call.req, call.now).0;
    StepKeepsState(l, s, call.req, call.now);
    VersionsOnlyGrow(l, after, later);
  }

  /** The token handed back by a password change is good at once, on the account that asked, and
      the one that asked is not. */
  lemma PasswordChangeKeepsThisDevice(l: Limits, s: State, token: Claims, id: nat, now: Time)
    requires StateOk(s) && 0 < l.lifetime && SECOND <= now
    requires Caller(s, token, now) == Some(id) && token.typ == CustomerToken
    ensures var (after, given) := Step(l, s, ChangePassword(token, true), now);
      && given.Some?
      && Caller(after, given.value, now) == Some(id)
      && AcceptedAs(after.accounts, token, now) == None
      && given.value.ait == Some(Second(now))
  {
    var (after, given) := Step(l, s, ChangePassword(token, true), now);
    assert Holds(s.accounts, CustomerToken, token.sub, id);
    SignInStartsSession(l, CustomerToken, token.sub, s.accounts[id].version + 1, now);
    assert Issued(given.value, id) in after.issued;
    assert Holds(after.accounts, CustomerToken, token.sub, id);
    forall other | other in after.accounts && Holds(after.accounts, CustomerToken, token.sub, other)
      ensures other == id {
      assert other in s.accounts && s.accounts[other].kind == CustomerToken && s.accounts[other].subject == token.sub;
    }
  }

  // ------------------------------------------------------------------------
  // The requests as the views run them
  // ------------------------------------------------------------------------

  /** A token handed out for a row that may sign in is accepted at once, as that row. */
  lemma HandedIsAccepted(l: Limits, s: State, id: nat, started: Option<Time>, now: Time)
    requires StateOk(s) && id in s.accounts && s.accounts[id].active && 0 < l.lifetime
    ensures var (n, given) := Handed(l, s, id, started, now);
      given.Some? && Caller(n, given.value, now) == Some(id)
  {
    var (n, given) := Handed(l, s, id, started, now);
    WholeSeconds(now, Lifetime(l));
    assert Issued(given.value, id) in n.issued;
    assert Holds(n.accounts, s.accounts[id].kind, s.accounts[id].subject, id);
  }

  /** Moving a version on leaves nothing issued to the account before acceptable as that account,
      and the token of the one who asked acceptable to nobody. */
  lemma BumpRetires(s: State, id: nat)
    requires StateOk(s) && id in s.accounts
    ensures forall i, at :: i in s.issued && i.holder == id ==>
      AcceptedAs(Bumped(s, id).accounts, i.claims, at) != Some(id)
    ensures forall c: Claims, at, now :: Caller(s, c, now) == Some(id) ==>
      AcceptedAs(Bumped(s, id).accounts, c, at).None?
  {
    var n := Bumped(s, id).accounts;
    forall i, at | i in s.issued && i.holder == id ensures AcceptedAs(n, i.claims, at) != Some(id) {
      assert IssueOk(s, i);
    }
    forall c: Claims, at, now | Caller(s, c, now) == Some(id) ensures AcceptedAs(n, c, at).None? {
      assert Holds(s.accounts, c.typ, c.sub, id);
      assert forall other :: other in n && Holds(n, c.typ, c.sub, other) ==> other == id;
    }
  }

  /** A token handed out lives one lifetime to the second, from the second it was issued. */
  lemma TokenLife(l: Limits, kind: Kind, subject: string, version: nat, started: Option<Time>, now: Time, at: Time)
    ensures Current(Mint(l, kind, subject, version, started, now), at) <==>
      Second(now) * SECOND <= at < (Second(now) + l.lifetime * 60) * SECOND
  {
    WholeSeconds(now, Lifetime(l));
  }

  /** A token from before the session and version claims keeps working: its session began when it was
      issued, and it is of generation zero. */
  lemma OldTokensRead(c: Claims)
    requires c.ait.None? && c.ver.None?
    ensures SessionStarted(c) == c.iat * SECOND && Generation(c) == 0
  {
  }

  /** A sign-in hands out a token exactly when the subject names an account that may sign in and the
      credential was proved; the token is that account's, and the session starts now. */
  lemma SignInIffProved(l: Limits, s: State, kind: Kind, subject: string, proved: bool, now: Time)
    requires StateOk(s) && 0 < l.lifetime && SECOND <= now
    ensures var (n, given) := Step(l, s, SignIn(kind, subject, proved), now);
      && (given.Some? <==> proved && exists id :: id in s.accounts && Holds(s.accounts, kind, subject, id))
      && n.accounts == s.accounts && n.nextId == s.nextId
      && (given.None? ==> n == s)
      && (given.Some? ==>
            var who := Caller(n, given.value, now);
            && who.Some? && Holds(s.accounts, kind, subject, who.value)
            && SessionStarted(given.value) == Second(now) * SECOND)
  {
    var id := Resolve(s.accounts, kind, subject);
    if id.Some? && proved {
      HandedIsAccepted(l, s, id.value, None, now);
      SignInStartsSession(l, kind, subject, s.accounts[id.value].version, now);
    }
  }

  /** What the requests on the account rows themselves write, and exactly when: a reset moves a staff
      version on; an edit renames or switches a row unless the name is in use or a customer's; an
      addition starts at generation zero unless the name is in use; only staff rows leave. */
  lemma RowRequestsWrite(l: Limits, s: State, id: nat, kind: Kind, subject: string, active: bool, now: Time)
    requires StateOk(s)
    ensures var n := Step(l, s, ResetCredential(id), now).0;
      n == if id in s.accounts && s.accounts[id].kind != CustomerToken
           then s.(accounts := s.accounts[id := s.accounts[id].(version := s.accounts[id].version + 1)])
           else s
    ensures var n := Step(l, s, EditAccount(id, subject, active), now).0;
      n == if id in s.accounts
              && !(s.accounts[id].kind == CustomerToken && subject != s.accounts[id].subject)
              && (forall x :: x in s.accounts && x != id && s.accounts[x].kind == s.accounts[id].kind ==>
                    s.accounts[x].subject != subject)
           then s.(accounts := s.accounts[id := s.accounts[id].(subject := subject, active := active)])
           else s
    ensures var n := Step(l, s, AddAccount(kind, subject, active), now).0;
      n == if forall x :: x in s.accounts && s.accounts[x].kind == kind ==> s.accounts[x].subject != subject
           then s.(accounts := s.accounts[s.nextId := Account(kind, subject, 0, active)], nextId := s.nextId + 1)
           else s
    ensures var n := Step(l, s, RemoveAccount(id), now).0;
      n == if id in s.accounts && s.accounts[id].kind == RiderToken then s.(accounts := s.accounts - {id}) else s
  {
  }

  /** The refresh hands out exactly the links of the renewal chain. */
  lemma RefreshIsRenewal(l: Limits, s: State, token: Claims, id: nat, now: Time)
    requires Caller(s, token, now) == Some(id)
    ensures Step(l, s, Refresh(token), now).1
      == Renewed(l, token, s.accounts[id].subject, s.accounts[id].version, now)
  {
    assert Holds(s.accounts, token.typ, token.sub, id);
  }

  /** The account tables, and the requests that hand out tokens or retire them. */
  class Directory {
    const limits: Limits
    var accounts: Accounts
    var nextId: nat
    var issued: set<Issued>

    function Now(): State reads this {
      State(accounts, nextId, issued)
    }

    /** A token response for a row as it stands: on record, accepted at once as that row, and
        with the session start it was given, or its own moment. */
    method TokenResponse(id: nat, started: Option<Time>, now: Time) returns (token: Claims)
      requires StateOk(Now()) && id in accounts && accounts[id].active && 0 < limits.lifetime
      modifies this`issued
      ensures StateOk(Now()) && issued == old(issued) + {Issued(token, id)}
      ensures Caller(Now(), token, now) == Some(id)
      ensures started.None? && SECOND <= now ==> SessionStarted(token) == Second(now) * SECOND
      ensures started.Some? && started.value % SECOND == 0 && started.value != 0 ==>
        SessionStarted(token) == started.value
      ensures token.exp * SECOND <= now + Lifetime(limits) * SECOND
      ensures (Now(), Some(token)) == Handed(limits, old(Now()), id, started, now)
    {
      HandedIsAccepted(limits, Now(), id, started, now);
      HandingKeepsState(limits, Now(), id, started, now);
      WholeSeconds(now, Lifetime(limits));
      token := Mint(limits, accounts[id].kind, accounts[id].subject, accounts[id].version, started, now);
      issued := issued + {Issued(token, id)};
    }

    /** A sign-out: the caller's version moves on and nothing else; the token that asked is
        accepted by nobody any more, and no token of the account as that account. */
    method SignOut(token: Claims, now: Time)
      requires StateOk(Now())
      modifies this
      ensures StateOk(Now()) && issued == old(issued) && nextId == old(nextId)
      ensures var who := old(Caller(Now(), token, now));
        if who.None? then accounts == old(accounts)
        else
          && who.value in old(accounts)
          && accounts ==
               old(accounts)[who.value := old(accounts)[who.value].(version := old(accounts)[who.value].version + 1)]
          && (forall at :: AcceptedAs(accounts, token, at).None?)
          && (forall i, at :: i in issued && i.holder == who.value ==> AcceptedAs(accounts, i.claims, at) != who)
      ensures (Now(), None) == Step(limits, old(Now()), Request.SignOut(token), now)
    {
      var caller := Caller(Now(), token, now);
      if caller.Some? {
        BumpKeepsState(Now(), caller.value);
        BumpRetires(Now(), caller.value);
        accounts := accounts[caller.value := accounts[caller.value].(version := accounts[caller.value].version + 1)];
      }
    }

    /** The refresh: exactly a caller whose session has not run its length gets a token, which is
        accepted as the same account, keeps the session's start, and ends by its ceiling. */
    method Refresh(token: Claims, now: Time) returns (given: Option<Claims>)
      requires StateOk(Now()) && 0 < limits.lifetime
      modifies this`issued
      ensures StateOk(Now()) && old(issued) <= issued
      ensures given.Some? <==>
        old(Caller(Now(), token, now)).Some? && now - SessionStarted(token) <= SessionLength(limits) * SECOND
      ensures given.Some? ==>
        && Caller(Now(), given.value, now) == old(Caller(Now(), token, now))
        && (SessionStarted(token) != 0 ==> SessionStarted(given.value) == SessionStarted(token))
        && given.value.exp * SECOND <= SessionStarted(token) + (SessionLength(limits) + Lifetime(limits)) * SECOND
      ensures (Now(), given) == Step(limits, old(Now()), Request.Refresh(token), now)
    {
      var caller := Caller(Now(), token, now);
      if caller.None? {
        return None;
      }
      var started := SessionStarted(token);
      if now - started > SessionLength(limits) * SECOND {
        return None;
      }
      var renewed := TokenResponse(caller.value, Some(started), now);
      return Some(renewed);
    }

    /** A password change: exactly a customer who proved the current one gets a token, of the new
        generation and accepted at once; no other token of theirs is accepted as them. */
    method ChangePassword(token: Claims, proved: bool, now: Time) returns (given: Option<Claims>)
      requires StateOk(Now()) && 0 < limits.lifetime
      modifies this
      ensures StateOk(Now()) && nextId == old(nextId)
      ensures given.Some? <==> old(Caller(Now(), token, now)).Some? && token.typ == CustomerToken && proved
      ensures given.None? ==> Now() == old(Now())
      ensures given.Some? ==>
        var who := old(Caller(Now(), token, now)).value;
        && Caller(Now(), given.value, now) == Some(who)
        && (forall i, at :: i in old(issued) && i.holder == who ==> AcceptedAs(accounts, i.claims, at) != Some(who))
        && (forall id :: id in old(accounts) && id != who ==> id in accounts && accounts[id] == old(accounts)[id])
      ensures (Now(), given) == Step(limits, old(Now()), Request.ChangePassword(token, proved), now)
    {
      var caller := Caller(Now(), token, now);
      if caller.None? || token.typ != CustomerToken || !proved {
        return None;
      }
      BumpKeepsState(Now(), caller.value);
      BumpRetires(Now(), caller.value);
      accounts := accounts[caller.value := accounts[caller.value].(version := accounts[caller.value].version + 1)];
      var replacement := TokenResponse(caller.value, None, now);
      return Some(replacement);
    }
  }

  // ------------------------------------------------------------------------
  // When a retired token comes to life again
  // ------------------------------------------------------------------------

  /** The request gives a subject to an account of a kind other than this one. */
  predicate GivesSubject(s: State, req: Request, kind: Kind, subject: string, holder: nat) {
    match req
    case AddAccount(k, name, _) => k == kind && name == subject
    case EditAccount(id, name, _) =>
      id in s.accounts && id != holder && s.accounts[id].kind == kind && name == subject
    case _ => false
  }

  /** No request of a run gives the subject to anybody else. */
  predicate NobodyTakesOver(l: Limits, s: State, calls: seq<Call>, kind: Kind, subject: string, holder: nat) {
    calls == [] ||
    (NobodyTakesOver(l, s, calls[..|calls| - 1], kind, subject, holder) &&
     !GivesSubject(Run(l, s, calls[..|calls| - 1]), calls[|calls| - 1].req, kind, subject, holder))
  }

  lemma {:induction false} SubjectStaysFree(l: Limits, s: State, calls: seq<Call>, kind: Kind, subject: string,
                                            holder: nat)
    requires StateOk(s) && holder < s.nextId
    requires !TakenByOther(s.accounts, kind, subject, holder)
    requires NobodyTakesOver(l, s, calls, kind, subject, holder)
    ensures !TakenByOther(Run(l, s, calls).accounts, kind, subject, holder)
    decreases |calls|
  {
    if calls != [] {
      SubjectStaysFree(l, s, calls[..|calls| - 1], kind, subject, holder);
    }
  }

  /** A retired token whose subject nobody else goes by is accepted by nobody, whatever requests
      follow, as long as none of them gives its subject to another account of its kind. */
  lemma RetiredStaysDead(l: Limits, s: State, call: Call, later: seq<Call>, old_: Issued, at: Time)
    requires StateOk(s) && old_ in s.issued && Retires(l, s, call.req, call.now, old_.holder)
    requires var after := Step(l, s, call.req, call.now).0;
      && !TakenByOther(after.accounts, old_.claims.typ, old_.claims.sub, old_.holder)
      && NobodyTakesOver(l, after, later, old_.claims.typ, old_.claims.sub, old_.holder)
    ensures AcceptedAs(Run(l, Step(l, s, call.req, call.now).0, later).accounts, old_.claims, at).None?
  {
    var after := Step(l, s, call.req, call.now).0;
    StepKeepsState(l, s, call.req, call.now);
    assert IssueOk(after, old_);
    SubjectStaysFree(l, after, later, old_.claims.typ, old_.claims.sub, old_.holder);
    RetiredForGood(l, s, call, later, old_, at);
  }

  /** A customer's retired token is accepted by nobody ever again, without any condition: a
      customer keeps their number, and nobody else can be given it. */
  lemma CustomersStayRetired(l: Limits, s: State, call: Call, later: seq<Call>, old_: Issued, at: Time)
    requires StateOk(s) && old_ in s.issued && Retires(l, s, call.req, call.now, old_.holder)
    requires old_.claims.typ == CustomerToken
    ensures AcceptedAs(Run(l, Step(l, s, call.req, call.now).0, later).accounts, old_.claims, at).None?
  {
    assert IssueOk(s, old_);
    var after := Step(l, s, call.req, call.now).0;
    StepKeepsState(l, s, call.req, call.now);
    VersionsOnlyGrow(l, after, later);
    RetiredForGood(l, s, call, later, old_, at);
  }

  /** The requests that bring a retired token back: its holder makes way, by leaving or by taking
      another name, the subject is given to a new account, and that account's credential is reset
      once for each generation of the token. */
  function TakeOver(kind: Kind, subject: string, holder: nat, leaves: bool, away: string, newId: nat, resets: nat,
                    at: Time)
    : seq<Call>
  {
    if resets > 0 then
      TakeOver(kind, subject, holder, leaves, away, newId, resets - 1, at) + [Call(ResetCredential(newId), at)]
    else
      [Call(if leaves then RemoveAccount(holder) else EditAccount(holder, away, true), at),
       Call(AddAccount(kind, subject, true), at)]
  }

  lemma {:induction false} TakeOverWorks(l: Limits, s: State, kind: Kind, subject: string, holder: nat, leaves: bool,
                                         away: string, resets: nat, at: Time)
    requires StateOk(s) && kind != CustomerToken && holder in s.accounts && s.accounts[holder].kind == kind
    requires !TakenByOther(s.accounts, kind, subject, holder)
    requires if leaves then kind == RiderToken else away != subject && !TakenByOther(s.accounts, kind, away, holder)
    ensures var end := Run(l, s, TakeOver(kind, subject, holder, leaves, away, s.nextId, resets, at));
      s.nextId in end.accounts && end.accounts[s.nextId] == Account(kind, subject, resets, true)
    decreases resets
  {
    var calls := TakeOver(kind, subject, holder, leaves, away, s.nextId, resets, at);
    if resets > 0 {
      var init := TakeOver(kind, subject, holder, leaves, away, s.nextId, resets - 1, at);
      assert calls[..|calls| - 1] == init;
      TakeOverWorks(l, s, kind, subject, holder, leaves, away, resets - 1, at);
    } else {
      var first, second := calls[0], calls[1];
      assert calls[..1] == [first] && [first][..0] == [];
      var gone := Step(l, s, first.req, at).0;
      assert Run(l, s, []) == s && Run(l, s, [first]) == gone;
      assert gone.nextId == s.nextId;
      assert !TakenByOther(gone.accounts, kind, subject, s.nextId);
    }
  }

  /** There is always a name nobody goes by. */
  lemma UnusedName(names: set<string>) returns (name: string)
    ensures name !in names
  {
    var longest := LongerThanAll(names);
    name := seq(longest, i => 'x');
  }

  lemma {:induction false} LongerThanAll(names: set<string>) returns (n: nat)
    ensures forall name :: name in names ==> |name| < n
    decreases |names|
  {
    n := 0;
    if names != {} {
      var some :| some in names;
      n := LongerThanAll(names - {some});
      if |some| >= n {
        n := |some| + 1;
      }
      assert forall name :: name in names ==> name == some || name in names - {some};
    }
  }

  /** Exactly whose retired tokens can come to life again. As long as the token is current and
      nobody else goes by its subject, there are requests after which it is accepted if and only
      if it is not a customer's: for a rider or an Admin, the subject can pass to a new account,
      which counts its generations from zero. */
  lemma RevivableIff(l: Limits, s: State, call: Call, old_: Issued, at: Time)
    requires StateOk(s) && old_ in s.issued && Retires(l, s, call.req, call.now, old_.holder)
    requires Current(old_.claims, at)
    requires !TakenByOther(Step(l, s, call.req, call.now).0.accounts, old_.claims.typ, old_.claims.sub, old_.holder)
    ensures (exists later: seq<Call> ::
             AcceptedAs(Run(l, Step(l, s, call.req, call.now).0, later).accounts, old_.claims, at).Some?)
      <==> old_.claims.typ != CustomerToken
  {
    var after := Step(l, s, call.req, call.now).0;
    StepKeepsState(l, s, call.req, call.now);
    assert IssueOk(after, old_);
    var kind, subject, holder := old_.claims.typ, old_.claims.sub, old_.holder;
    if kind == CustomerToken {
      forall later: seq<Call> ensures AcceptedAs(Run(l, after, later).accounts, old_.claims, at).None? {
        CustomersStayRetired(l, s, call, later, old_, at);
      }
    } else {
      var away := UnusedName((set id | id in after.accounts :: after.accounts[id].subject) + {subject});
      var later := TakeOver(kind, subject, holder, false, away, after.nextId, Generation(old_.claims), at);
      TakeOverWorks(l, after, kind, subject, holder, false, away, Generation(old_.claims), at);
      VersionsOnlyGrow(l, after, later);
      var end := Run(l, after, later).accounts;
      assert Holds(end, kind, subject, after.nextId);
      assert Resolve(end, kind, subject) == Some(after.nextId);
    }
  }

  /** It does happen: a number that is removed and signed up again starts at generation zero, and
      a token of the first account's generation zero is read as the second's. */
  lemma ReusedNumberRevivesToken()
    ensures var l := Limits(720, 168);
      var token := Mint(l, RiderToken, "+91", 0, None, SECOND);
      var s := State(map[0 := Account(RiderToken, "+91", 0, true)], 1, {Issued(token, 0)});
      var calls := [Call(SignOut(token), SECOND), Call(RemoveAccount(0), SECOND),
                    Call(AddAccount(RiderToken, "+91", true), SECOND)];
      && StateOk(s)
      && Retires(l, s, calls[0].req, SECOND, 0)
      && AcceptedAs(Run(l, s, calls).accounts, token, SECOND) == Some(1)
  {
    var l := Limits(720, 168);
    var token := Mint(l, RiderToken, "+91", 0, None, SECOND);
    var s := State(map[0 := Account(RiderToken, "+91", 0, true)], 1, {Issued(token, 0)});
    var out, gone, back :=
      Call(SignOut(token), SECOND), Call(RemoveAccount(0), SECOND), Call(AddAccount(RiderToken, "+91", true), SECOND);
    SignInStartsSession(l, RiderToken, "+91", 0, SECOND);
    assert Issued(token, 0) in s.issued && Holds(s.accounts, RiderToken, "+91", 0);
    assert Caller(s, token, SECOND) == Some(0);
    var s1 := Step(l, s, out.req, SECOND).0;
    var s2 := Step(l, s1, gone.req, SECOND).0;
    var s3 := Step(l, s2, back.req, SECOND).0;
    assert s3.accounts == map[1 := Account(RiderToken, "+91", 0, true)];
    assert Holds(s3.accounts, RiderToken, "+91", 1);
    assert [out, gone, back][..2] == [out, gone] && [out, gone][..1] == [out] && [out][..0] == [];
    assert Run(l, s, []) == s && Run(l, s, [out]) == s1 && Run(l, s, [out, gone]) == s2;
  }
}
