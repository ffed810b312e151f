/** Console accounts: the guards that keep the console administrable, over both writers of
    roles, and what the row lock does and does not buy. */
module Admins {
  import opened Prelude

  datatype Role = Admin | Manager

  datatype Account = Account(email: string, role: Role, active: bool)

  type Accounts = map<nat, Account>

  predicate Administers(account: Account) {
    account.role == Admin && account.active
  }

  predicate ActiveAdmin(t: Accounts, id: nat) {
    id in t && Administers(t[id])
  }

  /** other_active_admins. */
  predicate OtherActiveAdmin(t: Accounts, id: nat) {
    exists other :: other in t && other != id && ActiveAdmin(t, other)
  }

  /** Somebody can still administer the console. */
  predicate Administrable(t: Accounts) {
    exists id :: id in t && ActiveAdmin(t, id)
  }

  datatype Refused = Missing | OwnRole | OwnAccess | LastAdmin | Rejected

  /** Somebody else signs in with this email. */
  predicate EmailTaken(t: Accounts, email: string, id: nat) {
    exists other :: other in t && other != id && t[other].email == email
  }

  /** The PUT under its row lock: omitted fields keep their value, and an email is its owner's. The
      caller was authenticated earlier, so it may be any id, whatever has become of that account
      since. */
  function Put(t: Accounts, caller: nat, id: nat, email: Option<string>, role: Option<Role>, active: Option<bool>)
    : Result<Accounts, Refused>
  {
    if id !in t then Failure(Missing)
    else if email.Some? && EmailTaken(t, email.value, id) then Failure(Rejected)
    else
      var account := t[id];
      var newRole := if role.Some? then role.value else account.role;
      var newActive := if active.Some? then active.value else account.active;
      if id == caller && newRole != account.role then Failure(OwnRole)
      else if id == caller && !newActive then Failure(OwnAccess)
      else if account.role == Admin && (newRole != Admin || !newActive)
        && !OtherActiveAdmin(t, id) then Failure(LastAdmin)
      else
        var newEmail := if email.Some? then email.value else account.email;
        Success(t[id := account.(email := newEmail, role := newRole, active := newActive)])
  }

  /** DELETE deactivates. */
  function Delete(t: Accounts, caller: nat, id: nat): Result<Accounts, Refused> {
    if id !in t then Failure(Missing)
    else if id == caller then Failure(OwnAccess)
    else if t[id].role == Admin && !OtherActiveAdmin(t, id) then Failure(LastAdmin)
    else Success(t[id := t[id].(active := false)])
  }

  /** POST adds an account under an id the database has not used. */
  function Create(t: Accounts, id: nat, account: Account): Result<Accounts, Refused> {
    if id in t || (exists other :: other in t && t[other].email == account.email) then Failure(Rejected)
    else Success(t[id := account])
  }

  function Holders(t: Accounts, email: string): set<nat> {
    set id | id in t && t[id].email == email
  }

  /** The account an email finds first. */
  function Holder(t: Accounts, email: string): (id: nat)
    requires exists id :: id in t && t[id].email == email
    ensures id in t && t[id].email == email
  {
    assert Holders(t, email) != {} by {
      var some :| some in t && t[some].email == email;
      assert some in Holders(t, email);
    }
    Min(Holders(t, email))
  }

  function Seeded(t: Accounts, newId: nat, email: string, role: Role, deactivate: bool, password: bool)
    : Result<Accounts, Refused>
  {
    if exists id :: id in t && t[id].email == email then
      var id := Holder(t, email);
      if t[id].role == Admin && (role != Admin || deactivate) && !OtherActiveAdmin(t, id) then Failure(LastAdmin)
      else Success(t[id := t[id].(role := role, active := !deactivate)])
    else if !password then Failure(Rejected)
    else Success(t[newId := Account(email, role, !deactivate)])
  }

  /** The table after a request is the one promised, and a refused one changed nothing. */
  predicate Answered(promised: Result<Accounts, Refused>, before: Accounts, after: Accounts, refused: Option<Refused>) {
    match promised
    case Failure(e) => refused == Some(e) && after == before
    case Success(t) => refused.None? && after == t
  }

  // ------------------------------------------------------------------------
  // Runs
  // ------------------------------------------------------------------------

  datatype Request =
    | PutAccount(caller: nat, id: nat, email: Option<string>, role: Option<Role>, active: Option<bool>)
    | DeleteAccount(caller: nat, id: nat)
    | CreateAccount(id: nat, account: Account)
    | SeedAccount(newId: nat, sought: string, given: Role, deactivate: bool, password: bool)

  function Answer(t: Accounts, req: Request): Result<Accounts, Refused> {
    match req
    case PutAccount(caller, id, email, role, active) => Put(t, caller, id, email, role, active)
    case DeleteAccount(caller, id) => Delete(t, caller, id)
    case CreateAccount(id, account) => Create(t, id, account)
    case SeedAccount(newId, email, role, deactivate, password) =>
      if newId in t then Failure(Rejected) else Seeded(t, newId, email, role, deactivate, password)
  }

  /** The existing row a request writes, if it writes one. */
  function Target(t: Accounts, req: Request): Option<nat> {
    match req
    case PutAccount(_, id, _, _, _) => if id in t then Some(id) else None
    case DeleteAccount(_, id) => if id in t then Some(id) else None
    case CreateAccount(_, _) => None
    case SeedAccount(_, email, _, _, _) =>
      if exists id :: id in t && t[id].email == email then Some(Holder(t, email)) else None
  }

  /** That row as the request asks for it. */
  function Becomes(t: Accounts, req: Request): Account
    requires Target(t, req).Some?
  {
    var account := t[Target(t, req).value];
    match req
    case PutAccount(_, _, email, role, active) =>
      account.(email := if email.Some? then email.value else account.email,
               role := if role.Some? then role.value else account.role,
               active := if active.Some? then active.value else account.active)
    case DeleteAccount(_, _) => account.(active := false)
    case SeedAccount(_, _, role, deactivate, _) => account.(role := role, active := !deactivate)
    case CreateAccount(_, _) => account
  }

  /** An accepted request for an existing row writes that row and no other. */
  lemma AnswerWrites(t: Accounts, req: Request)
    requires Target(t, req).Some? && Answer(t, req).Success?
    ensures Answer(t, req).value == t[Target(t, req).value := Becomes(t, req)]
  {
  }

  function Run(t: Accounts, requests: seq<Request>): Accounts {
    if requests == [] then t
    else
      var before := Run(t, requests[..|requests| - 1]);
      match Answer(before, requests[|requests| - 1])
      case Failure(_) => before
      case Success(after) => after
  }

  /** Writing one account leaves the others as they were. */
  lemma OthersStand(t: Accounts, id: nat, account: Account)
    ensures OtherActiveAdmin(t, id) ==> Administrable(t[id := account])
    ensures ActiveAdmin(t[id := account], id) ==> Administrable(t[id := account])
    ensures Administrable(t) && !ActiveAdmin(t, id) ==> Administrable(t[id := account])
  {
    var after := t[id := account];
    if OtherActiveAdmin(t, id) {
      var other :| other in t && other != id && ActiveAdmin(t, other);
      assert other in after && ActiveAdmin(after, other);
    }
    if ActiveAdmin(after, id) {
      assert id in after;
    }
    if Administrable(t) && !ActiveAdmin(t, id) {
      var other :| other in t && ActiveAdmin(t, other);
      assert other in after && ActiveAdmin(after, other);
    }
  }

  /** Any one request leaves an active Admin if there was one, whoever sent it. */
  lemma RequestKeepsAdministrable(t: Accounts, req: Request)
    requires Administrable(t) && Answer(t, req).Success?
    ensures Administrable(Answer(t, req).value)
  {
    var after := Answer(t, req).value;
    match req
    case PutAccount(caller, id, email, role, active) => OthersStand(t, id, after[id]);
    case DeleteAccount(caller, id) => OthersStand(t, id, after[id]);
    case CreateAccount(id, account) => OthersStand(t, id, account);
    case SeedAccount(newId, email, role, deactivate, password) =>
      var id := if exists i :: i in t && t[i].email == email then Holder(t, email) else newId;
      OthersStand(t, id, after[id]);
  }

  /** An account is created exactly under an unused id with an unused email, and as asked. */
  lemma CreateMeaning(t: Accounts, id: nat, account: Account)
    ensures Create(t, id, account).Success? <==> id !in t && forall x :: x in t ==> t[x].email != account.email
    ensures Create(t, id, account).Success? ==> Create(t, id, account).value == t[id := account]
  {
  }

  /** Once there is an active Admin there always is one, on every run of creates, edits,
      deletions and management commands, by any callers. */
  lemma {:induction false} AlwaysAdministrable(t: Accounts, requests: seq<Request>)
    requires Administrable(t)
    ensures Administrable(Run(t, requests))
    decreases |requests|
  {
    if requests != [] {
      AlwaysAdministrable(t, requests[..|requests| - 1]);
      var before := Run(t, requests[..|requests| - 1]);
      if Answer(before, requests[|requests| - 1]).Success? {
        RequestKeepsAdministrable(before, requests[|requests| - 1]);
      }
    }
  }

  /** While the caller is still an active Admin the last-Admin refusal never fires: the guards on
      one's own account already suffice. A deletion meets it exactly when it aims at an Admin
      beside whom there is no active one. */
  lemma LastAdminNeedsStaleCaller(t: Accounts, caller: nat, id: nat, email: Option<string>, role: Option<Role>,
                                  active: Option<bool>)
    ensures ActiveAdmin(t, caller) ==> Put(t, caller, id, email, role, active) != Failure(LastAdmin)
    ensures ActiveAdmin(t, caller) ==> Delete(t, caller, id) != Failure(LastAdmin)
    ensures Delete(t, caller, id) == Failure(LastAdmin) <==>
      id in t && id != caller && t[id].role == Admin &&
      forall other :: other in t && ActiveAdmin(t, other) ==> other == id
  {
    assert ActiveAdmin(t, caller) && id != caller ==> OtherActiveAdmin(t, id);
  }

  /** The third guard is not idle: a caller demoted after authenticating would otherwise take the
      last Admin down. */
  lemma StaleCallerIsStopped()
    ensures var t: Accounts := map[1 := Account("a", Admin, true), 2 := Account("b", Manager, true)];
      && Administrable(t)
      && Put(t, 2, 1, None, Some(Manager), None) == Failure(LastAdmin)
      && !Administrable(t[1 := t[1].(role := Manager)])
  {
    var t: Accounts := map[1 := Account("a", Admin, true), 2 := Account("b", Manager, true)];
    assert ActiveAdmin(t, 1) && 1 in t;
    var after := t[1 := t[1].(role := Manager)];
    assert after[1].role == Manager && after[2].role == Manager;
    assert after.Keys == {1, 2};
  }

  // ------------------------------------------------------------------------
  // The requests as they run
  // ------------------------------------------------------------------------

  /** No two accounts sign in with the same email. */
  predicate EmailsUnique(t: Accounts) {
    forall i, j :: i in t && j in t && t[i].email == t[j].email ==> i == j
  }

  /** On every run each email stays one account's, so the command finds the account it means. */
  lemma {:induction false} EmailsStayUnique(t: Accounts, requests: seq<Request>)
    requires EmailsUnique(t)
    ensures EmailsUnique(Run(t, requests))
    decreases |requests|
  {
    if requests != [] {
      EmailsStayUnique(t, requests[..|requests| - 1]);
    }
  }

  /** The only row that differs is this one. */
  predicate OnlyRow(before: Accounts, after: Accounts, id: nat) {
    id in before && id in after && after == before[id := after[id]]
  }

  /** The request asks for an email that is somebody else's. */
  predicate Clashes(t: Accounts, req: Request) {
    req.PutAccount? && req.email.Some? && EmailTaken(t, req.email.value, req.id)
  }

  /** In a table with an active Admin, somebody else's row is refused exactly when the edit asks for
      a taken email or would leave nobody to administer the table. */
  lemma RefusedIffLast(t: Accounts, req: Request)
    requires Administrable(t) && Target(t, req).Some?
    requires req.PutAccount? || req.DeleteAccount? ==> req.caller != req.id
    requires req.SeedAccount? ==> req.newId !in t
    ensures var after := t[Target(t, req).value := Becomes(t, req)];
      && (Answer(t, req) == Failure(Rejected) <==> Clashes(t, req))
      && (Answer(t, req) == Failure(LastAdmin) <==> !Clashes(t, req) && !Administrable(after))
      && (Answer(t, req).Failure? ==> Answer(t, req).error in {Rejected, LastAdmin})
  {
    var id := Target(t, req).value;
    var after := t[id := Becomes(t, req)];
    OthersStand(t, id, Becomes(t, req));
    if Administrable(after) && !ActiveAdmin(after, id) {
      var other :| other in after && ActiveAdmin(after, other);
      assert other != id && other in t && ActiveAdmin(t, other);
      assert OtherActiveAdmin(t, id);
    }
  }

  /** The account table, and its two writers of roles. */
  class Console {
    var accounts: Accounts

    /** PUT on a locked row. An email is its owner's, and nobody changes their own role or locks
        themselves out; another row is refused exactly for a taken email or when the edit would
        leave no active Admin; otherwise that row, and only that row, is as asked. */
    method PutAccount(caller: nat, id: nat, email: Option<string>, role: Option<Role>, active: Option<bool>)
      returns (refused: Option<Refused>)
      modifies this
      ensures old(Administrable(accounts)) ==> Administrable(accounts)
      ensures old(EmailsUnique(accounts)) ==> EmailsUnique(accounts)
      ensures refused.Some? ==> accounts == old(accounts)
      ensures refused.None? ==>
        && OnlyRow(old(accounts), accounts, id)
        && accounts[id].email == (if email.Some? then email.value else old(accounts)[id].email)
        && accounts[id].role == (if role.Some? then role.value else old(accounts)[id].role)
        && accounts[id].active == (if active.Some? then active.value else old(accounts)[id].active)
      ensures id == caller && refused.None? ==> accounts[id].role == old(accounts)[id].role && accounts[id].active
      ensures id == caller && id in old(accounts) && refused != Some(Rejected) ==>
        (refused.None? <==>
          && (role.Some? ==> role.value == old(accounts)[id].role)
          && (if active.Some? then active.value else old(accounts)[id].active))
      ensures refused == Some(Missing) <==> id !in old(accounts)
      ensures refused == Some(Rejected) <==>
        id in old(accounts) && email.Some? && EmailTaken(old(accounts), email.value, id)
      ensures old(Administrable(accounts)) && id in old(accounts) && id != caller && refused != Some(Rejected) ==>
        var req := Request.PutAccount(caller, id, email, role, active);
        refused.Some? <==> !Administrable(old(accounts)[id := Becomes(old(accounts), req)])
      ensures Answered(Put(old(accounts), caller, id, email, role, active), old(accounts), accounts, refused)
    {
      ghost var before, req := accounts, Request.PutAccount(caller, id, email, role, active);
      assert Answer(before, req) == Put(before, caller, id, email, role, active);
      if Administrable(before) && id in before {
        if id != caller {
          RefusedIffLast(before, req);
        }
        if Answer(before, req).Success? {
          RequestKeepsAdministrable(before, req);
        }
      }
      if id !in accounts {
        return Some(Missing);
      }
      if email.Some? && EmailTaken(accounts, email.value, id) {
        return Some(Rejected);
      }
      var account := accounts[id];
      var newEmail := if email.Some? then email.value else account.email;
      var newRole := if role.Some? then role.value else account.role;
      var newActive := if active.Some? then active.value else account.active;
      var isSelf := id == caller;
      if isSelf && newRole != account.role {
        return Some(OwnRole);
      }
      if isSelf && !newActive {
        return Some(OwnAccess);
      }
      var losingAdmin := account.role == Admin && (newRole != Admin || !newActive);
      if losingAdmin && !OtherActiveAdmin(accounts, id) {
        return Some(LastAdmin);
      }
      accounts := accounts[id := account.(email := newEmail, role := newRole, active := newActive)];
      return None;
    }

    /** DELETE. Nobody deactivates themselves; another row is refused exactly when that would leave
        no active Admin; otherwise it is inactive, and keeps its role. */
    method DeleteAccount(caller: nat, id: nat) returns (refused: Option<Refused>)
      modifies this
      ensures old(Administrable(accounts)) ==> Administrable(accounts)
      ensures refused.Some? ==> accounts == old(accounts)
      ensures refused.None? ==>
        id != caller && OnlyRow(old(accounts), accounts, id)
        && accounts[id] == old(accounts)[id].(active := false)
      ensures refused == Some(Missing) <==> id !in old(accounts)
      ensures id in old(accounts) && id == caller ==> refused == Some(OwnAccess)
      ensures old(Administrable(accounts)) && id in old(accounts) && id != caller ==>
        (refused.Some? <==> !Administrable(old(accounts)[id := old(accounts)[id].(active := false)]))
      ensures Answered(Delete(old(accounts), caller, id), old(accounts), accounts, refused)
    {
      ghost var before, req := accounts, Request.DeleteAccount(caller, id);
      assert Answer(before, req) == Delete(before, caller, id);
      if Administrable(before) && id in before && id != caller {
        RefusedIffLast(before, req);
        if Answer(before, req).Success? {
          RequestKeepsAdministrable(before, req);
        }
      }
      if id !in accounts {
        return Some(Missing);
      }
      if id == caller {
        return Some(OwnAccess);
      }
      if accounts[id].role == Admin && !OtherActiveAdmin(accounts, id) {
        return Some(LastAdmin);
      }
      accounts := accounts[id := accounts[id].(active := false)];
      return None;
    }

    /** The management command. An unused email gets a new account if a password is given; the
        account of a used one gets the role and access asked for, refused exactly when that would
        leave no active Admin. */
    method SeedAdmin(newId: nat, email: string, role: Role, deactivate: bool, password: bool)
      returns (refused: Option<Refused>)
      requires newId !in accounts
      modifies this
      ensures old(Administrable(accounts)) ==> Administrable(accounts)
      ensures refused.Some? ==> accounts == old(accounts)
      ensures (forall id :: id in old(accounts) ==> old(accounts)[id].email != email) ==>
        && (refused.Some? <==> !password)
        && (refused.None? ==> accounts == old(accounts)[newId := Account(email, role, !deactivate)])
      ensures (exists id :: id in old(accounts) && old(accounts)[id].email == email) ==>
        var id := Holder(old(accounts), email);
        && (refused.None? ==> OnlyRow(old(accounts), accounts, id))
        && (refused.None? ==> accounts[id] == old(accounts)[id].(role := role, active := !deactivate))
        && (old(Administrable(accounts)) ==>
              (refused.Some? <==>
                !Administrable(old(accounts)[id := old(accounts)[id].(role := role, active := !deactivate)])))
      ensures Answered(Seeded(old(accounts), newId, email, role, deactivate, password),
                      old(accounts), accounts, refused)
    {
      ghost var before, req := accounts, Request.SeedAccount(newId, email, role, deactivate, password);
      assert Answer(before, req) == Seeded(before, newId, email, role, deactivate, password);
      if Administrable(before) {
        if Target(before, req).Some? {
          RefusedIffLast(before, req);
        }
        if Answer(before, req).Success? {
          RequestKeepsAdministrable(before, req);
        }
      }
      var creating := !(exists id :: id in accounts && accounts[id].email == email);
      if creating && !password {
        return Some(Rejected);
      }
      var id := newId;
      var account := Account(email, Manager, true);
      if !creating {
        id := Holder(accounts, email);
        account := accounts[id];
      }
      var losingAdmin := !creating && account.role == Admin && (role != Admin || deactivate);
      if losingAdmin && !OtherActiveAdmin(accounts, id) {
        return Some(LastAdmin);
      }
      account := account.(role := role);
      account := account.(active := !deactivate);
      accounts := accounts[id := account];
      return None;
    }
  }
}
