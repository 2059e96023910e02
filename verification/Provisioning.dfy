// Create-or-reload: first logins racing to provision the same customer.
module Provisioning {
  import opened Common

  // phone_number is UNIQUE, but NULL (None) never equals anything.
  datatype User = User(phone: Option<string>)

  // account_number is UNIQUE NOT NULL.
  datatype Account = Account(number: string, user: nat)

  datatype Result = Provisioned(account: nat) | Error

  datatype Pc =
    | FindAccount
    | FindUser
    | CreateUser
    | RefindUser
    | CreateAccount(user: nat)
    | RefindAccount
    | Done(result: Result)

  // faulted records that one of the call's own queries has failed.
  datatype Call = Call(phone: Option<string>, number: string, pc: Pc, faulted: bool)

  datatype State = State(users: seq<User>, accounts: seq<Account>, calls: seq<Call>)

  // Query(p, ok): the next query of call p is answered, or fails.
  datatype Step = Arrive(customerId: string, number: string) | Query(p: nat, ok: bool)

  // An empty customer id is looked up, and stored, as NULL.
  function PhoneOf(customerId: string): Option<string> { if customerId == "" then None else Some(customerId) }

  predicate HasUser(s: State, phone: Option<string>) {
    phone.Some? && exists u :: 0 <= u < |s.users| && s.users[u].phone == phone
  }

  predicate HasAccount(s: State, number: string) { exists a :: 0 <= a < |s.accounts| && s.accounts[a].number == number }

  function UserAt(users: seq<User>, phone: Option<string>): (u: nat)
    requires exists k :: 0 <= k < |users| && users[k].phone == phone
    ensures u < |users| && users[u].phone == phone
  {
    if users[|users| - 1].phone == phone then |users| - 1 else UserAt(users[..|users| - 1], phone)
  }

  function AccountAt(accounts: seq<Account>, number: string): (a: nat)
    requires exists k :: 0 <= k < |accounts| && accounts[k].number == number
    ensures a < |accounts| && accounts[a].number == number
  {
    if accounts[|accounts| - 1].number == number then |accounts| - 1 else AccountAt(accounts[..|accounts| - 1], number)
  }

  predicate Enabled(s: State, step: Step) {
    match step
    case Arrive(_, _) => true
    case Query(p, _) => p < |s.calls| && !s.calls[p].pc.Done?
  }

  function Goto(s: State, p: nat, ok: bool): Pc
    requires p < |s.calls| && !s.calls[p].pc.Done?
  {
    var c := s.calls[p];
    match c.pc
    case FindAccount =>
      if !ok then Done(Error)
      else if HasAccount(s, c.number) then Done(Provisioned(AccountAt(s.accounts, c.number))) else FindUser
    case FindUser =>
      if !ok then Done(Error)
      else if HasUser(s, c.phone) then CreateAccount(UserAt(s.users, c.phone)) else CreateUser
    case CreateUser => if ok && !HasUser(s, c.phone) then CreateAccount(|s.users|) else RefindUser
    case RefindUser => if ok && HasUser(s, c.phone) then CreateAccount(UserAt(s.users, c.phone)) else Done(Error)
    case CreateAccount(_) => if ok && !HasAccount(s, c.number) then Done(Provisioned(|s.accounts|)) else RefindAccount
    case RefindAccount =>
      if ok && HasAccount(s, c.number) then Done(Provisioned(AccountAt(s.accounts, c.number))) else Done(Error)
  }

  function NewUsers(s: State, p: nat, ok: bool): seq<User>
    requires p < |s.calls|
  {
    if s.calls[p].pc.CreateUser? && ok && !HasUser(s, s.calls[p].phone) then [User(s.calls[p].phone)] else []
  }

  function NewAccounts(s: State, p: nat, ok: bool): seq<Account>
    requires p < |s.calls|
  {
    if s.calls[p].pc.CreateAccount? && ok && !HasAccount(s, s.calls[p].number) then
      [Account(s.calls[p].number, s.calls[p].pc.user)]
    else []
  }

  function Apply(s: State, step: Step): State
    requires Enabled(s, step)
  {
    match step
    case Arrive(customerId, number) => s.(calls := s.calls + [Call(PhoneOf(customerId), number, FindAccount, false)])
    case Query(p, ok) =>
      var c := s.calls[p];
      State(s.users + NewUsers(s, p, ok), s.accounts + NewAccounts(s, p, ok),
            s.calls[p := c.(pc := Goto(s, p, ok), faulted := c.faulted || !ok)])
  }

  predicate Follows(s: State, step: Step, s': State) { Enabled(s, step) && s' == Apply(s, step) }

  // A run; states[k] is the state before steps[k].
  datatype Run = Run(states: seq<State>, steps: seq<Step>)

  ghost predicate ValidRun(r: Run) {
    && |r.states| == |r.steps| + 1
    && r.states[0] == State([], [], [])
    && forall k :: 0 <= k < |r.steps| ==> StepAt(r, k)
  }

  predicate StepAt(r: Run, k: nat) {
    k < |r.steps| && k + 1 < |r.states| && Follows(r.states[k], r.steps[k], r.states[k + 1])
  }

  ghost predicate CallOk(s: State, c: Call) {
    match c.pc
    case CreateAccount(u) => u < |s.users| && s.users[u].phone == c.phone
    case RefindUser => c.faulted || HasUser(s, c.phone)
    case RefindAccount => c.faulted || HasAccount(s, c.number)
    case Done(Provisioned(a)) => a < |s.accounts| && s.accounts[a].number == c.number
    case Done(Error) => c.faulted
    case _ => true
  }

  ghost predicate TablesOk(s: State) {
    && (forall a, b :: 0 <= a < b < |s.accounts| ==> s.accounts[a].number != s.accounts[b].number)
    && (forall u, v :: 0 <= u < v < |s.users| && s.users[u].phone.Some? ==> s.users[u].phone != s.users[v].phone)
    && (forall a :: 0 <= a < |s.accounts| ==> s.accounts[a].user < |s.users|)
  }

  ghost predicate Inv(s: State) {
    TablesOk(s) && forall p :: 0 <= p < |s.calls| ==> CallOk(s, s.calls[p])
  }

  lemma TablesStep(s: State, p: nat, ok: bool)
    requires Inv(s) && Enabled(s, Query(p, ok))
    ensures TablesOk(Apply(s, Query(p, ok)))
  {
    assert CallOk(s, s.calls[p]);
  }

  lemma CallGrows(s: State, s': State, c: Call)
    requires CallOk(s, c) && s.users <= s'.users && s.accounts <= s'.accounts
    ensures CallOk(s', c)
  {
    if HasUser(s, c.phone) {
      var u :| 0 <= u < |s.users| && s.users[u].phone == c.phone;
      assert s'.users[u].phone == c.phone;
    }
    if HasAccount(s, c.number) {
      var a :| 0 <= a < |s.accounts| && s.accounts[a].number == c.number;
      assert s'.accounts[a].number == c.number;
    }
  }

  lemma ActorStep(s: State, p: nat, ok: bool)
    requires Inv(s) && Enabled(s, Query(p, ok))
    ensures
      var c := s.calls[p];
      CallOk(State(s.users + NewUsers(s, p, ok), s.accounts + NewAccounts(s, p, ok), s.calls),
             c.(pc := Goto(s, p, ok), faulted := c.faulted || !ok))
  {
    var c := s.calls[p];
    assert CallOk(s, c);
    var s' := State(s.users + NewUsers(s, p, ok), s.accounts + NewAccounts(s, p, ok), s.calls);
    if HasUser(s, c.phone) {
      var u :| 0 <= u < |s.users| && s.users[u].phone == c.phone;
      assert s'.users[u].phone == c.phone;
    }
    if HasAccount(s, c.number) {
      var a :| 0 <= a < |s.accounts| && s.accounts[a].number == c.number;
      assert s'.accounts[a].number == c.number;
    }
  }

  lemma StepKeeps(s: State, step: Step)
    requires Inv(s) && Enabled(s, step)
    ensures Inv(Apply(s, step))
  {
    var s' := Apply(s, step);
    if step.Query? {
      TablesStep(s, step.p, step.ok);
      ActorStep(s, step.p, step.ok);
      forall q | 0 <= q < |s'.calls| ensures CallOk(s', s'.calls[q]) {
        if q == step.p {
          CallGrows(State(s'.users, s'.accounts, s.calls), s', s'.calls[q]);
        } else {
          CallGrows(s, s', s.calls[q]);
        }
      }
    } else {
      forall q | 0 <= q < |s'.calls| ensures CallOk(s', s'.calls[q]) {
        if q < |s.calls| {
          CallGrows(s, s', s.calls[q]);
        }
      }
    }
  }

  lemma {:induction false} RunKeeps(r: Run, n: nat)
    requires ValidRun(r) && n < |r.states|
    ensures Inv(r.states[n])
    decreases n
  {
    if n > 0 {
      RunKeeps(r, n - 1);
      assert StepAt(r, n - 1);
      StepKeeps(r.states[n - 1], r.steps[n - 1]);
    }
  }

  // However logins interleave, an account number has at most one account, a
  // customer id at most one user, every successful call returns the account of
  // its number, and so any two successful calls for a number agree.
  lemma ProvisioningConverges(r: Run, n: nat, p: nat, q: nat)
    requires ValidRun(r) && n < |r.states|
    requires Succeeded(r.states[n], p) && Succeeded(r.states[n], q)
    ensures
      var s := r.states[n];
      var a, b := s.calls[p].pc.result.account, s.calls[q].pc.result.account;
      && TablesOk(s)
      && a < |s.accounts| && s.accounts[a].number == s.calls[p].number
      && (a == b <==> s.calls[p].number == s.calls[q].number)
  {
    RunKeeps(r, n);
    var s := r.states[n];
    assert CallOk(s, s.calls[p]) && CallOk(s, s.calls[q]);
  }

  predicate Succeeded(s: State, p: nat) { p < |s.calls| && s.calls[p].pc.Done? && s.calls[p].pc.result.Provisioned? }

  // Losing a race is not an error: a call fails only if a query of its own did.
  lemma RacesAreNotErrors(r: Run, n: nat, p: nat)
    requires ValidRun(r) && n < |r.states| && p < |r.states[n].calls| && r.states[n].calls[p].pc == Done(Error)
    ensures exists k :: 0 <= k < n && r.steps[k] == Query(p, false)
  {
    RunKeeps(r, n);
    assert CallOk(r.states[n], r.states[n].calls[p]);
    FaultHasAQuery(r, n, p);
  }

  lemma {:induction false} FaultHasAQuery(r: Run, n: nat, p: nat)
    requires ValidRun(r) && n < |r.states| && p < |r.states[n].calls| && r.states[n].calls[p].faulted
    ensures exists k :: 0 <= k < n && r.steps[k] == Query(p, false)
    decreases n
  {
    assert n > 0 && StepAt(r, n - 1);
    if p < |r.states[n - 1].calls| && r.states[n - 1].calls[p].faulted {
      FaultHasAQuery(r, n - 1, p);
    } else {
      assert r.steps[n - 1] == Query(p, false);
    }
  }

  /******* Whose account it is *******/

  // Some login of the customer with this phone asked for the number.
  ghost predicate AskedFor(r: Run, n: nat, phone: Option<string>, number: string) {
    exists k, customerId :: 0 <= k < n <= |r.steps| && r.steps[k] == Arrive(customerId, number) &&
      phone == if customerId == "" then None else Some(customerId)
  }

  lemma {:induction false} CallWasAsked(r: Run, n: nat, p: nat)
    requires ValidRun(r) && n < |r.states| && p < |r.states[n].calls|
    ensures AskedFor(r, n, r.states[n].calls[p].phone, r.states[n].calls[p].number)
    decreases n
  {
    assert n > 0 && StepAt(r, n - 1);
    if p < |r.states[n - 1].calls| {
      CallWasAsked(r, n - 1, p);
      var k, customerId :| 0 <= k < n - 1 && r.steps[k] == Arrive(customerId, r.states[n - 1].calls[p].number) &&
        r.states[n - 1].calls[p].phone == if customerId == "" then None else Some(customerId);
      assert 0 <= k < n && r.steps[k] == Arrive(customerId, r.states[n].calls[p].number);
    } else {
      var customerId := r.steps[n - 1].customerId;
      assert r.steps[n - 1] == Arrive(customerId, r.states[n].calls[p].number);
    }
  }

  // An account belongs to the user of a customer whose login asked for it.
  lemma {:induction false} AccountHasItsUser(r: Run, n: nat, a: nat)
    requires ValidRun(r) && n < |r.states| && a < |r.states[n].accounts|
    ensures r.states[n].accounts[a].user < |r.states[n].users|
    ensures AskedFor(r, n, r.states[n].users[r.states[n].accounts[a].user].phone, r.states[n].accounts[a].number)
    decreases n
  {
    assert n > 0 && StepAt(r, n - 1);
    var s, s' := r.states[n - 1], r.states[n];
    RunKeeps(r, n - 1);
    if a < |s.accounts| {
      AccountHasItsUser(r, n - 1, a);
      AskedStays(r, n - 1, s.users[s.accounts[a].user].phone, s.accounts[a].number);
      assert s'.accounts[a] == s.accounts[a] && s'.users[s.accounts[a].user] == s.users[s.accounts[a].user];
    } else {
      var p := r.steps[n - 1].p;
      assert CallOk(s, s.calls[p]);
      CallWasAsked(r, n - 1, p);
      AskedStays(r, n - 1, s.calls[p].phone, s.calls[p].number);
    }
  }

  lemma AskedStays(r: Run, n: nat, phone: Option<string>, number: string)
    requires AskedFor(r, n, phone, number) && n < |r.steps|
    ensures AskedFor(r, n + 1, phone, number)
  {
    var k, customerId :| 0 <= k < n && r.steps[k] == Arrive(customerId, number) &&
      phone == if customerId == "" then None else Some(customerId);
    assert 0 <= k < n + 1 && r.steps[k] == Arrive(customerId, number);
  }

  /******* The procedure itself, beside concurrent inserts *******/

  // A row some other call inserts; a duplicate is refused by the table.
  datatype Insert = InsertUser(phone: Option<string>) | InsertAccount(number: string, user: nat)

  // The account is among the first n inserts.
  ghost predicate Listed(inserts: seq<Insert>, n: nat, account: Account) {
    exists i :: 0 <= i < n <= |inserts| && inserts[i] == InsertAccount(account.number, account.user)
  }

  // Another call inserts an account of this number.
  ghost predicate OthersInsert(others: nat -> seq<Insert>, number: string) {
    exists k, i :: 0 <= i < |others(k)| && others(k)[i].InsertAccount? && others(k)[i].number == number
  }

  class Directory {
    var users: seq<User>
    var accounts: seq<Account>

    function Snapshot(): State
      reads this
    {
      State(users, accounts, [])
    }

    method LetOthersInsert(inserts: seq<Insert>)
      requires TablesOk(Snapshot())
      modifies this
      ensures TablesOk(Snapshot()) && old(users) <= users && old(accounts) <= accounts
      ensures forall a :: |old(accounts)| <= a < |accounts| ==>
                Listed(inserts, |inserts|, accounts[a])
    {
      for k := 0 to |inserts|
        invariant TablesOk(Snapshot()) && old(users) <= users && old(accounts) <= accounts
        invariant forall a :: |old(accounts)| <= a < |accounts| ==>
                    Listed(inserts, k, accounts[a])
      {
        match inserts[k] {
          case InsertUser(phone) =>
            if !HasUser(Snapshot(), phone) {
              users := users + [User(phone)];
            }
          case InsertAccount(number, user) =>
            if user < |users| && !HasAccount(Snapshot(), number) {
              accounts := accounts + [Account(number, user)];
              assert inserts[k] == InsertAccount(number, user);
            }
        }
      }
    }

    // The user of the customer: found, created, or found after all.
    method EnsureUser(phone: Option<string>, ok: nat -> bool, others: nat -> seq<Insert>) returns (user: Option<nat>)
      requires TablesOk(Snapshot())
      modifies this
      ensures TablesOk(Snapshot()) && old(users) <= users && old(accounts) <= accounts
      ensures user.Some? ==> user.value < |users| && users[user.value].phone == phone
      ensures user.None? ==> !ok(1) || !ok(2) || !ok(3)
      ensures forall a :: |old(accounts)| <= a < |accounts| ==> OthersInsert(others, accounts[a].number)
    {
      LetOthersInsert(others(1));
      if !ok(1) {
        return None;
      }
      if HasUser(Snapshot(), phone) {
        return Some(UserAt(users, phone));
      }
      LetOthersInsert(others(2));
      if ok(2) && !HasUser(Snapshot(), phone) {
        users := users + [User(phone)];
        return Some(|users| - 1);
      }
      ghost var lost := HasUser(Snapshot(), phone);
      ghost var seen := users;
      LetOthersInsert(others(3));
      if ok(3) && HasUser(Snapshot(), phone) {
        return Some(UserAt(users, phone));
      }
      if lost {
        var u :| 0 <= u < |seen| && seen[u].phone == phone;
        assert users[u].phone == phone;
      }
      return None;
    }

    // Insert the account, or load the one that is there after all.
    method CreateOrReload(number: string, user: nat, ok: nat -> bool, others: nat -> seq<Insert>) returns (result: Result)
      requires TablesOk(Snapshot()) && user < |users|
      modifies this
      ensures TablesOk(Snapshot()) && old(users) <= users && old(accounts) <= accounts
      ensures result.Provisioned? ==> result.account < |accounts| && accounts[result.account].number == number
      ensures result.Error? ==> !ok(4) || !ok(5)
      ensures forall a :: |old(accounts)| <= a < |accounts| ==>
                OthersInsert(others, accounts[a].number) || accounts[a] == Account(number, user)
    {
      LetOthersInsert(others(4));
      if ok(4) && !HasAccount(Snapshot(), number) {
        accounts := accounts + [Account(number, user)];
        return Provisioned(|accounts| - 1);
      }
      ghost var lost := HasAccount(Snapshot(), number);
      ghost var seen := accounts;
      LetOthersInsert(others(5));
      if ok(5) && HasAccount(Snapshot(), number) {
        return Provisioned(AccountAt(accounts, number));
      }
      if lost {
        var a :| 0 <= a < |seen| && seen[a].number == number;
        assert accounts[a].number == number;
      }
      return Error;
    }

    // ensureAccountProvisioned. ok(k) says whether its k-th query succeeds and
    // others(k) what is inserted just before it. Success is the one account of
    // the number; failure means one of the call's own queries failed. Unless the
    // account was there or another call inserts it, it is the customer's own.
    method EnsureAccountProvisioned(customerId: string, number: string, ok: nat -> bool, others: nat -> seq<Insert>)
      returns (result: Result)
      requires TablesOk(Snapshot())
      modifies this
      ensures TablesOk(Snapshot()) && old(users) <= users && old(accounts) <= accounts
      ensures result.Provisioned? ==> result.account < |accounts| && accounts[result.account].number == number
      ensures result.Error? ==> exists k :: 0 <= k <= 5 && !ok(k)
      ensures result.Provisioned? && !OthersInsert(others, number) && (forall a :: 0 <= a < |old(accounts)| ==> old(accounts)[a].number != number) ==>
                && accounts[result.account].user < |users|
                && users[accounts[result.account].user].phone == if customerId == "" then None else Some(customerId)
    {
      LetOthersInsert(others(0));
      if !ok(0) {
        return Error;
      }
      if HasAccount(Snapshot(), number) {
        return Provisioned(AccountAt(accounts, number));
      }
      var user := EnsureUser(PhoneOf(customerId), ok, others);
      if user.None? {
        return Error;
      }
      result := CreateOrReload(number, user.value, ok, others);
    }
  }
}
