/** The account store behind accounts/views.py: users, their profiles, the
    rider-info rows keyed by rider id, incomes, expenses and mutual funds, held
    as maps keyed by id, and the request handlers that read and change them.

    The pure part (resolving a rider id, the cascade on delete, the dual write
    of an email change, the checks of a personal-info update, the ownership
    guard on funds, the rider lookups) is stated as functions over the maps;
    the handlers of class `AccountStore` apply them to its fields. */
module Store {
  import opened Common
  import opened Text
  import opened Models
  import opened Serializers
  import opened Ledger

  // ---- get_user_by_rider_id

  /** `Profile.rider_id` is declared unique: no two profiles share a rider id. */
  ghost predicate RiderIdsUnique(profiles: map<UserId, Profile>)
  {
    forall u, v :: u in profiles && v in profiles && u != v && profiles[u].riderId.Some? ==>
      profiles[u].riderId != profiles[v].riderId
  }

  /** The rider ids currently held by some profile. */
  function ProfileRiderIds(profiles: map<UserId, Profile>): set<string>
  {
    set u | u in profiles && profiles[u].riderId.Some? :: profiles[u].riderId.value
  }

  /** The users whose profile carries `rid`. */
  function OwnersOf(profiles: map<UserId, Profile>, rid: string): (r: set<UserId>)
    ensures forall u :: u in r <==> u in profiles && profiles[u].riderId == Some(rid)
  {
    set u | u in profiles && profiles[u].riderId == Some(rid)
  }

  lemma SingletonMembers<T>(s: set<T>)
    requires |s| == 1
    ensures forall a, b :: a in s && b in s ==> a == b
  {
    var x :| x in s;
    assert |s - {x}| == 0;
    assert s == {x};
  }

  /** `get_user_by_rider_id`: `Profile.objects.get(rider_id=rid)`. No match is
      the None the views turn into a 404; several matches would raise, which the
      uniqueness of rider ids rules out. */
  function UserByRiderId(profiles: map<UserId, Profile>, rid: string): (r: Result<UserId>)
    ensures r.Ok? ==> OwnersOf(profiles, rid) == {r.value}
    ensures r == Err(NotFound) <==> forall u :: u in profiles ==> profiles[u].riderId != Some(rid)
    ensures r.Err? ==> r.error == NotFound || r.error == ServerError
    ensures r == Err(ServerError) ==> !RiderIdsUnique(profiles)
  {
    var owners := OwnersOf(profiles, rid);
    if owners == {} then Err(NotFound)
    else if |owners| == 1 then
      SingletonMembers(owners);
      var u :| u in owners;
      Ok(u)
    else
      assert !RiderIdsUnique(profiles) by {
        var u :| u in owners;
        assert owners != {u};
        var v :| v in owners && v != u;
      }
      Err(ServerError)
  }

  /** The prologue every rider-scoped view shares: `if not rider_id` is a 400,
      an unknown rider id a 404. */
  function Resolve(profiles: map<UserId, Profile>, rid: string): (r: Result<UserId>)
    ensures rid == [] ==> r == Err(Validation({RiderIdField}))
    ensures rid != [] ==> r == UserByRiderId(profiles, rid)
  {
    if rid == [] then Err(Validation({RiderIdField})) else UserByRiderId(profiles, rid)
  }

  /** With unique rider ids, a non-empty rider id resolves exactly when some
      profile holds it, and then to that profile's user. */
  lemma ResolveIffHeld(profiles: map<UserId, Profile>, rid: string, u: UserId)
    requires RiderIdsUnique(profiles) && rid != []
    ensures Resolve(profiles, rid).Ok? <==> rid in ProfileRiderIds(profiles)
    ensures u in profiles && profiles[u].riderId == Some(rid) ==> Resolve(profiles, rid) == Ok(u)
  {
    var owners := OwnersOf(profiles, rid);
    if u in profiles && profiles[u].riderId == Some(rid) {
      assert owners == {u};
    }
    if rid in ProfileRiderIds(profiles) {
      var v :| v in profiles && profiles[v].riderId == Some(rid);
      assert owners == {v};
    }
  }

  // ---- ChangeEmailView.post: the dual write

  /** The emails of all users, the set the email checks search. */
  function Emails(users: map<UserId, User>): set<string>
  {
    set u | u in users :: users[u].email
  }

  function Usernames(users: map<UserId, User>): set<string>
  {
    set u | u in users :: users[u].username
  }

  /** `rider_info.email = new_email` on the user's rider-info row. */
  function RiderInfosWithEmail(infos: map<string, RiderInfo>, u: UserId, email: string): (r: map<string, RiderInfo>)
    ensures r.Keys == infos.Keys
    ensures forall rid :: rid in r && infos[rid].user == u ==> r[rid].email == email
    ensures forall rid :: rid in r ==> r[rid].user == infos[rid].user && r[rid].username == infos[rid].username
                                       && r[rid].isActive == infos[rid].isActive
    ensures forall rid :: rid in r && infos[rid].user != u ==> r[rid] == infos[rid]
  {
    map rid | rid in infos :: if infos[rid].user == u then infos[rid].(email := email) else infos[rid]
  }

  // ---- verify_rider_email

  /** `RiderInfo.objects.get(rider_id=rid, email=email)` behind the check that
      both were supplied. */
  function VerifyRiderEmail(infos: map<string, RiderInfo>, rid: string, email: string): (r: Result<RiderInfo>)
    ensures r.Ok? <==> rid != [] && email != [] && rid in infos && infos[rid].email == email
    ensures r.Ok? ==> r.value == infos[rid]
    ensures (rid == [] || email == []) ==> r == Err(Validation({NonField}))
    ensures rid != [] && email != [] && r.Err? ==> r.error == NotFound
  {
    if rid == [] || email == [] then Err(Validation({NonField}))
    else if rid in infos && infos[rid].email == email then Ok(infos[rid])
    else Err(NotFound)
  }

  /** After an email change, every rider id of that user verifies with the new
      email, and, when the email really changed, no longer with the old one. */
  lemma ChangedEmailVerifies(infos: map<string, RiderInfo>, u: UserId, oldEmail: string, newEmail: string, rid: string)
    requires rid in infos && rid != [] && infos[rid].user == u && newEmail != []
    ensures VerifyRiderEmail(RiderInfosWithEmail(infos, u, newEmail), rid, newEmail).Ok?
    ensures oldEmail != newEmail ==> !VerifyRiderEmail(RiderInfosWithEmail(infos, u, newEmail), rid, oldEmail).Ok?
  {
    var r := RiderInfosWithEmail(infos, u, newEmail);
    assert r[rid].email == newEmail;
  }

  // ---- get_all_riders

  datatype RiderCounts = RiderCounts(total: nat, active: nat)

  function ActiveRiders(infos: map<string, RiderInfo>): (r: set<string>)
    ensures forall rid :: rid in r <==> rid in infos && infos[rid].isActive
  {
    set rid | rid in infos && infos[rid].isActive
  }

  /** The `total_riders` and `active_riders` of `get_all_riders`: one entry per
      rider-info row, the active ones among them. */
  function AllRiders(infos: map<string, RiderInfo>): (c: RiderCounts)
    ensures c.total == |infos.Keys| && c.active == |ActiveRiders(infos)|
    ensures c.active <= c.total
    ensures c.active == c.total <==> forall rid :: rid in infos ==> infos[rid].isActive
  {
    var active := ActiveRiders(infos);
    ActiveBound(infos);
    RiderCounts(|infos.Keys|, |active|)
  }

  lemma ActiveBound(infos: map<string, RiderInfo>)
    ensures |ActiveRiders(infos)| <= |infos.Keys|
    ensures |ActiveRiders(infos)| == |infos.Keys| <==> forall rid :: rid in infos ==> infos[rid].isActive
  {
    var active := ActiveRiders(infos);
    if forall rid :: rid in infos ==> infos[rid].isActive {
      assert active == infos.Keys;
    } else {
      var rid :| rid in infos && !infos[rid].isActive;
      SubsetCardinality(active, infos.Keys - {rid});
    }
  }

  /** `get_all_riders` as written: for each row it reads `profile.created_at`,
      a field `Profile` does not have, so as soon as one row's user has a
      profile the handler's catch-all turns the request into a 500. */
  function AllRidersAsWritten(infos: map<string, RiderInfo>, profiles: map<UserId, Profile>): (r: Result<RiderCounts>)
    ensures r.Ok? <==> forall rid :: rid in infos ==> infos[rid].user !in profiles
    ensures r.Ok? ==> r.value == AllRiders(infos)
    ensures r.Err? ==> r.error == ServerError
  {
    if exists rid :: rid in infos && infos[rid].user in profiles then Err(ServerError)
    else Ok(AllRiders(infos))
  }

  /** The discrepancy: a store with one user, its profile and its rider-info
      row, which the intended counts describe as one active rider. */
  lemma AllRidersAsWrittenFails()
    ensures AllRiders(map["12345678" := RiderInfo(1, "a@b.c", "ab", true)]) == RiderCounts(1, 1)
    ensures AllRidersAsWritten(map["12345678" := RiderInfo(1, "a@b.c", "ab", true)],
                               map[1 := Profile("", Some("12345678"))]) == Err(ServerError)
  {
    var infos := map["12345678" := RiderInfo(1, "a@b.c", "ab", true)];
    assert infos.Keys == {"12345678"};
    assert ActiveRiders(infos) == {"12345678"};
    assert "12345678" in infos && infos["12345678"].user in map[1 := Profile("", Some("12345678"))];
  }

  // ---- update_personal_info

  /** Python truthiness of an optional string: present and non-empty. */
  predicate Supplied(name: Option<string>)
  {
    name.Some? && name.value != []
  }

  /** A supplied name is rejected when it is blank or over 150 characters once stripped. */
  predicate BadName(name: Option<string>)
  {
    name.Some? && (Strip(name.value) == [] || |Strip(name.value)| > MaxNameLength)
  }

  /** The checks and the update of `update_personal_info`: at least one name
      must be given, every given name must be non-blank and at most 150
      characters after stripping; a given name is stored stripped, an omitted
      one is left alone. */
  function PersonalInfoUpdate(user: User, first: Option<string>, last: Option<string>): (r: Result<User>)
    ensures r == Err(Validation({NonField})) <==> !Supplied(first) && !Supplied(last)
    ensures r.Ok? <==> (Supplied(first) || Supplied(last)) && !BadName(first) && !BadName(last)
    ensures r.Err? ==> r.error.Validation?
    ensures r.Err? && (Supplied(first) || Supplied(last)) ==>
              (FirstName in r.error.fields <==> BadName(first)) && (LastName in r.error.fields <==> BadName(last))
    ensures r.Ok? ==> r.value.firstName == (if first.Some? then Strip(first.value) else user.firstName)
    ensures r.Ok? ==> r.value.lastName == (if last.Some? then Strip(last.value) else user.lastName)
    ensures r.Ok? ==> r.value.username == user.username && r.value.email == user.email
                      && r.value.credential == user.credential
  {
    if !Supplied(first) && !Supplied(last) then Err(Validation({NonField}))
    else
      var errs := (if BadName(first) then {FirstName} else {}) + (if BadName(last) then {LastName} else {});
      if errs != {} then Err(Validation(errs))
      else
        Ok(user.(firstName := if first.Some? then Strip(first.value) else user.firstName,
                 lastName := if last.Some? then Strip(last.value) else user.lastName))
  }

  /** Sending the same names again changes nothing more. */
  lemma PersonalInfoIdempotent(user: User, first: Option<string>, last: Option<string>)
    requires PersonalInfoUpdate(user, first, last).Ok?
    ensures PersonalInfoUpdate(PersonalInfoUpdate(user, first, last).value, first, last)
            == PersonalInfoUpdate(user, first, last)
  {
    var u1 := PersonalInfoUpdate(user, first, last).value;
    var u2 := PersonalInfoUpdate(u1, first, last).value;
    assert u2.firstName == u1.firstName;
    assert u2.lastName == u1.lastName;
  }

  // ---- DeleteAccountView.delete: the cascade of the foreign keys

  /** The rows of one table left once `u` is deleted: every row whose owner,
      as `owner` reads it off the row, is `u` goes. */
  function WithoutUser<K(!new), T>(m: map<K, T>, owner: T -> UserId, u: UserId): (r: map<K, T>)
    ensures forall k :: k in r <==> k in m && owner(m[k]) != u
    ensures forall k :: k in r ==> r[k] == m[k]
  {
    map k | k in m && owner(m[k]) != u :: m[k]
  }

  function EntryOwner(e: Entry): UserId { e.user }
  function FundOwner(f: Fund): UserId { f.user }
  function RiderInfoOwner(i: RiderInfo): UserId { i.user }

  /** After the cascade the deleted user owns no rows, so the dashboard of that
      user would be all zeros. */
  lemma DeletedUserHasNoRows(m: map<nat, Entry>, u: UserId, kind: TxKind, n: nat)
    ensures RowsOf(WithoutUser(m, EntryOwner, u), u, kind, n) == []
    ensures Sum(RowsOf(WithoutUser(m, EntryOwner, u), u, kind, n)) == 0
  {
    RowsOfNone(WithoutUser(m, EntryOwner, u), u, kind, n);
  }

  /** ... and no funds, so that user's portfolio would be all zeros. */
  lemma DeletedUserHasNoFunds(m: map<nat, Fund>, u: UserId, n: nat)
    ensures FundsOf(WithoutUser(m, FundOwner, u), u, n) == []
    ensures PortfolioSummary(FundsOf(WithoutUser(m, FundOwner, u), u, n)).totalInvested == 0
    ensures PortfolioSummary(FundsOf(WithoutUser(m, FundOwner, u), u, n)).totalCurrentValue == 0
  {
    FundsOfNone(WithoutUser(m, FundOwner, u), u, n);
  }

  /** ... and every other user's rows are listed exactly as before. */
  lemma {:induction false} CascadeKeepsOthers(m: map<nat, Entry>, u: UserId, v: UserId, kind: TxKind, n: nat)
    requires u != v
    ensures RowsOf(WithoutUser(m, EntryOwner, u), v, kind, n) == RowsOf(m, v, kind, n)
  {
    if n > 0 {
      CascadeKeepsOthers(m, u, v, kind, n - 1);
    }
  }

  lemma FundCascadeKeepsOthers(m: map<nat, Fund>, u: UserId, v: UserId, n: nat)
    requires u != v
    ensures FundsOf(WithoutUser(m, FundOwner, u), v, n) == FundsOf(m, v, n)
  {
    FundsOfAgree(m, WithoutUser(m, FundOwner, u), v, n);
  }

  // ---- update_fund_api and delete_fund_api: the ownership guard

  /** `MutualFund.objects.get(id=fund_id, user=user)`. */
  predicate OwnsFund(funds: map<nat, Fund>, u: UserId, fundId: int)
  {
    fundId >= 0 && fundId in funds && funds[fundId].user == u
  }

  /** A partial update of one of `u`'s funds. */
  function UpdateOwnedFund(funds: map<nat, Fund>, u: UserId, fundId: int, f: FundFields): (r: Result<map<nat, Fund>>)
    ensures !OwnsFund(funds, u, fundId) ==> r == Err(NotFound)
    ensures OwnsFund(funds, u, fundId) ==> (r.Ok? <==> FundErrors(f, true) == {})
    ensures OwnsFund(funds, u, fundId) && r.Err? ==> r.error == Validation(FundErrors(f, true))
    ensures r.Ok? ==> r.value.Keys == funds.Keys && r.value[fundId] == ApplyFundFields(funds[fundId], f)
    ensures r.Ok? ==> forall k :: k in funds && k != fundId ==> r.value[k] == funds[k]
  {
    if !OwnsFund(funds, u, fundId) then Err(NotFound)
    else if FundErrors(f, true) != {} then Err(Validation(FundErrors(f, true)))
    else Ok(funds[fundId as nat := ApplyFundFields(funds[fundId], f)])
  }

  /** `fund.delete()` on one of `u`'s funds. */
  function DeleteOwnedFund(funds: map<nat, Fund>, u: UserId, fundId: int): (r: Result<map<nat, Fund>>)
    ensures r.Ok? <==> OwnsFund(funds, u, fundId)
    ensures r.Err? ==> r.error == NotFound
    ensures r.Ok? ==> fundId !in r.value && |r.value| == |funds| - 1
    ensures r.Ok? ==> forall k :: k in r.value <==> k in funds && k != fundId
    ensures r.Ok? ==> forall k :: k in r.value ==> r.value[k] == funds[k]
  {
    if OwnsFund(funds, u, fundId) then Ok(funds - {fundId as nat}) else Err(NotFound)
  }

  /** Nobody else's funds move: whatever the outcome, the portfolio of any other
      user is the same afterwards. */
  lemma FundChangeKeepsOthers(funds: map<nat, Fund>, funds': map<nat, Fund>, u: UserId, v: UserId, n: nat)
    requires u != v
    requires forall k :: k in funds' <==> k in funds
    requires forall k :: k in funds && funds[k].user != u ==> funds'[k] == funds[k]
    requires forall k :: k in funds ==> funds'[k].user == funds[k].user
    ensures FundsOf(funds', v, n) == FundsOf(funds, v, n)
  {
    FundsOfAgree(funds, funds', v, n);
  }

  // ---- ProfileView.get / post / patch

  /** The fields `UserProfileSerializer` shows. */
  datatype ProfileData = ProfileData(username: string, email: string, firstName: string, lastName: string)

  /** The writable fields a profile request may try to set. */
  datatype ProfileRequest = ProfileRequest(username: Option<string>, email: Option<string>,
                                           firstName: Option<string>, lastName: Option<string>)

  /** `ProfileView.post`/`patch`: every field of `UserProfileSerializer` is
      read-only, so validation always passes, the save writes nothing and the
      response is the stored data, whatever the request asked for. */
  function ProfileUpdate(users: map<UserId, User>, profiles: map<UserId, Profile>, rid: string,
                         request: ProfileRequest): (r: Result<ProfileData>)
    ensures Resolve(profiles, rid).Err? ==> r == Err(Resolve(profiles, rid).error)
    ensures r.Ok? <==> Resolve(profiles, rid).Ok? && Resolve(profiles, rid).value in users
    ensures Resolve(profiles, rid).Ok? && Resolve(profiles, rid).value !in users ==> r == Err(NotFound)
    ensures r.Ok? ==> var u := Resolve(profiles, rid).value;
                      u in users && r.value.username == users[u].username && r.value.email == users[u].email
                      && r.value.firstName == users[u].firstName && r.value.lastName == users[u].lastName
  {
    match Resolve(profiles, rid)
    case Err(e) => Err(e)
    case Ok(u) =>
      if u in users then
        var user := users[u];
        Ok(ProfileData(user.username, user.email, user.firstName, user.lastName))
      else Err(NotFound)
  }

  /** In a consistent store every profile has its user, so a rider id that
      resolves always gets the stored data back. */
  lemma ProfileUpdateSucceeds(t: Tables, rid: string, request: ProfileRequest)
    requires Consistent(t)
    ensures ProfileUpdate(t.users, t.profiles, rid, request).Ok? <==> Resolve(t.profiles, rid).Ok?
  {
    if Resolve(t.profiles, rid).Ok? {
      assert Resolve(t.profiles, rid).value in t.profiles;
    }
  }

  /** The request does not matter. */
  lemma ProfileUpdateIgnoresRequest(users: map<UserId, User>, profiles: map<UserId, Profile>, rid: string,
                                    a: ProfileRequest, b: ProfileRequest)
    ensures ProfileUpdate(users, profiles, rid, a) == ProfileUpdate(users, profiles, rid, b)
  {
  }

  // ---- The store

  datatype Registered = Registered(user: UserId, username: string, riderId: string)

  class AccountStore {
    var users: map<UserId, User>
    var profiles: map<UserId, Profile>
    var riderInfos: map<string, RiderInfo>
    var incomes: map<nat, Entry>
    var expenses: map<nat, Entry>
    var funds: map<nat, Fund>
    var nextUserId: nat
    var nextIncomeId: nat
    var nextExpenseId: nat
    var nextFundId: nat

    ghost predicate Valid()
      reads this
    {
      Consistent(Tables(users, profiles, riderInfos, incomes, expenses, funds,
                        nextUserId, nextIncomeId, nextExpenseId, nextFundId))
    }

    constructor ()
      ensures Valid()
      ensures users == map[] && profiles == map[] && riderInfos == map[]
      ensures incomes == map[] && expenses == map[] && funds == map[]
    {
      users, profiles, riderInfos := map[], map[], map[];
      incomes, expenses, funds := map[], map[], map[];
      nextUserId, nextIncomeId, nextExpenseId, nextFundId := 1, 1, 1, 1;
    }

    // ---- The writes: `create`, `save` and `delete` on the tables

    /** `User.objects.create_user` and the profile `create_user_profile` adds:
        the user takes the next id. */
    method InsertUser(user: User, rid: string) returns (u: UserId)
      requires Valid() && rid !in ProfileRiderIds(profiles)
      modifies this
      ensures Valid()
      ensures u == old(nextUserId) && u !in old(users) && nextUserId == u + 1
      ensures users == old(users)[u := user] && profiles == old(profiles)[u := Profile("", Some(rid))]
      ensures riderInfos == old(riderInfos) && incomes == old(incomes) && expenses == old(expenses) && funds == old(funds)
      ensures nextIncomeId == old(nextIncomeId) && nextExpenseId == old(nextExpenseId) && nextFundId == old(nextFundId)
    {
      ConsistentAfterRegister(Tables(users, profiles, riderInfos, incomes, expenses, funds,
                                     nextUserId, nextIncomeId, nextExpenseId, nextFundId), user, rid);
      u := nextUserId;
      users, profiles, nextUserId := users[u := user], profiles[u := Profile("", Some(rid))], nextUserId + 1;
    }

    /** `user.save()` after a change to the user's own columns. */
    method SaveUser(u: UserId, user: User)
      requires Valid() && u in users
      modifies this
      ensures Valid()
      ensures users == old(users)[u := user]
      ensures profiles == old(profiles) && riderInfos == old(riderInfos)
      ensures incomes == old(incomes) && expenses == old(expenses) && funds == old(funds)
      ensures nextUserId == old(nextUserId) && nextIncomeId == old(nextIncomeId)
      ensures nextExpenseId == old(nextExpenseId) && nextFundId == old(nextFundId)
    {
      ConsistentAfterUserEdit(Tables(users, profiles, riderInfos, incomes, expenses, funds,
                                     nextUserId, nextIncomeId, nextExpenseId, nextFundId), u, user);
      users := users[u := user];
    }

    /** `user.save()` and `rider_info.save()` with the new email. */
    method SaveEmail(u: UserId, email: string)
      requires Valid() && u in users
      modifies this
      ensures Valid()
      ensures users == old(users)[u := old(users)[u].(email := email)]
      ensures riderInfos == RiderInfosWithEmail(old(riderInfos), u, email)
      ensures profiles == old(profiles) && incomes == old(incomes) && expenses == old(expenses) && funds == old(funds)
      ensures nextUserId == old(nextUserId) && nextIncomeId == old(nextIncomeId)
      ensures nextExpenseId == old(nextExpenseId) && nextFundId == old(nextFundId)
    {
      ConsistentAfterEmailChange(Tables(users, profiles, riderInfos, incomes, expenses, funds,
                                        nextUserId, nextIncomeId, nextExpenseId, nextFundId), u, email);
      users, riderInfos := users[u := users[u].(email := email)], RiderInfosWithEmail(riderInfos, u, email);
    }

    /** `user.delete()`: the cascade of every foreign key to `User` removes the
        user's profile, rider-info rows, incomes, expenses and funds. */
    method RemoveUser(u: UserId)
      requires Valid()
      modifies this
      ensures Valid()
      ensures users == old(users) - {u} && profiles == old(profiles) - {u}
      ensures riderInfos == WithoutUser(old(riderInfos), RiderInfoOwner, u)
      ensures incomes == WithoutUser(old(incomes), EntryOwner, u) && expenses == WithoutUser(old(expenses), EntryOwner, u)
      ensures funds == WithoutUser(old(funds), FundOwner, u)
      ensures nextUserId == old(nextUserId) && nextIncomeId == old(nextIncomeId)
      ensures nextExpenseId == old(nextExpenseId) && nextFundId == old(nextFundId)
    {
      ConsistentAfterDelete(Tables(users, profiles, riderInfos, incomes, expenses, funds,
                                   nextUserId, nextIncomeId, nextExpenseId, nextFundId), u);
      users, profiles, riderInfos, incomes, expenses, funds :=
        users - {u}, profiles - {u}, WithoutUser(riderInfos, RiderInfoOwner, u),
        WithoutUser(incomes, EntryOwner, u), WithoutUser(expenses, EntryOwner, u), WithoutUser(funds, FundOwner, u);
    }

    /** `Income.objects.create` (kind IncomeTx) or `Expense.objects.create`. */
    method InsertEntry(kind: TxKind, e: Entry) returns (id: nat)
      requires Valid() && e.user in users && FitsDecimal(e.amount, LedgerMaxDigits)
      modifies this
      ensures Valid()
      ensures kind == IncomeTx ==> id == old(nextIncomeId) && id !in old(incomes) && incomes == old(incomes)[id := e]
                                   && nextIncomeId == id + 1
                                   && expenses == old(expenses) && nextExpenseId == old(nextExpenseId)
      ensures kind == ExpenseTx ==> id == old(nextExpenseId) && id !in old(expenses) && expenses == old(expenses)[id := e]
                                    && nextExpenseId == id + 1
                                    && incomes == old(incomes) && nextIncomeId == old(nextIncomeId)
      ensures users == old(users) && profiles == old(profiles) && riderInfos == old(riderInfos) && funds == old(funds)
      ensures nextUserId == old(nextUserId) && nextFundId == old(nextFundId)
    {
      ghost var t := Tables(users, profiles, riderInfos, incomes, expenses, funds,
                            nextUserId, nextIncomeId, nextExpenseId, nextFundId);
      if kind == IncomeTx {
        ConsistentAfterAddIncome(t, e);
        id := nextIncomeId;
        incomes, nextIncomeId := incomes[id := e], nextIncomeId + 1;
      } else {
        ConsistentAfterAddExpense(t, e);
        id := nextExpenseId;
        expenses, nextExpenseId := expenses[id := e], nextExpenseId + 1;
      }
    }

    /** `MutualFund.objects.create`. */
    method InsertFund(fund: Fund) returns (id: nat)
      requires Valid() && fund.user in users
      requires FitsDecimal(fund.invested, FundMaxDigits) && FitsDecimal(fund.current, FundMaxDigits)
      modifies this
      ensures Valid()
      ensures id == old(nextFundId) && id !in old(funds) && funds == old(funds)[id := fund] && nextFundId == id + 1
      ensures users == old(users) && profiles == old(profiles) && riderInfos == old(riderInfos)
      ensures incomes == old(incomes) && expenses == old(expenses)
      ensures nextUserId == old(nextUserId) && nextIncomeId == old(nextIncomeId) && nextExpenseId == old(nextExpenseId)
    {
      ConsistentAfterAddFund(Tables(users, profiles, riderInfos, incomes, expenses, funds,
                                    nextUserId, nextIncomeId, nextExpenseId, nextFundId), fund);
      id := nextFundId;
      funds, nextFundId := funds[id := fund], nextFundId + 1;
    }

    /** `serializer.save()` on one of `u`'s funds. */
    method SaveFund(u: UserId, fundId: int, f: FundFields)
      requires Valid() && UpdateOwnedFund(funds, u, fundId, f).Ok?
      modifies this
      ensures Valid()
      ensures funds == UpdateOwnedFund(old(funds), u, fundId, f).value
      ensures users == old(users) && profiles == old(profiles) && riderInfos == old(riderInfos)
      ensures incomes == old(incomes) && expenses == old(expenses)
      ensures nextUserId == old(nextUserId) && nextIncomeId == old(nextIncomeId)
      ensures nextExpenseId == old(nextExpenseId) && nextFundId == old(nextFundId)
    {
      ConsistentAfterFundUpdate(Tables(users, profiles, riderInfos, incomes, expenses, funds,
                                       nextUserId, nextIncomeId, nextExpenseId, nextFundId), u, fundId, f);
      funds := UpdateOwnedFund(funds, u, fundId, f).value;
    }

    /** `fund.delete()` on one of `u`'s funds. */
    method RemoveFund(u: UserId, fundId: int)
      requires Valid() && DeleteOwnedFund(funds, u, fundId).Ok?
      modifies this
      ensures Valid()
      ensures funds == old(funds) - {fundId as nat}
      ensures users == old(users) && profiles == old(profiles) && riderInfos == old(riderInfos)
      ensures incomes == old(incomes) && expenses == old(expenses)
      ensures nextUserId == old(nextUserId) && nextIncomeId == old(nextIncomeId)
      ensures nextExpenseId == old(nextExpenseId) && nextFundId == old(nextFundId)
    {
      ConsistentAfterFundDelete(Tables(users, profiles, riderInfos, incomes, expenses, funds,
                                       nextUserId, nextIncomeId, nextExpenseId, nextFundId), u, fundId);
      funds := DeleteOwnedFund(funds, u, fundId).value;
    }

    /** `RiderInfo.objects.create`, the create branch of `get_or_create`. */
    method CreateRiderInfo(rid: string, info: RiderInfo)
      requires Valid() && info.user in users
      modifies this
      ensures Valid()
      ensures riderInfos == old(riderInfos)[rid := info]
      ensures users == old(users) && profiles == old(profiles)
      ensures incomes == old(incomes) && expenses == old(expenses) && funds == old(funds)
      ensures nextUserId == old(nextUserId) && nextIncomeId == old(nextIncomeId)
      ensures nextExpenseId == old(nextExpenseId) && nextFundId == old(nextFundId)
    {
      ConsistentAfterRiderInfo(Tables(users, profiles, riderInfos, incomes, expenses, funds,
                                      nextUserId, nextIncomeId, nextExpenseId, nextFundId), rid, info);
      riderInfos := riderInfos[rid := info];
    }

    /** `rider_info.save()` after copying a user's email and username. */
    method SyncRiderInfo(rid: string, email: string, username: string)
      requires Valid() && rid in riderInfos
      modifies this
      ensures Valid()
      ensures riderInfos == old(riderInfos)[rid := old(riderInfos)[rid].(email := email, username := username)]
      ensures users == old(users) && profiles == old(profiles)
      ensures incomes == old(incomes) && expenses == old(expenses) && funds == old(funds)
      ensures nextUserId == old(nextUserId) && nextIncomeId == old(nextIncomeId)
      ensures nextExpenseId == old(nextExpenseId) && nextFundId == old(nextFundId)
    {
      ConsistentAfterRiderSync(Tables(users, profiles, riderInfos, incomes, expenses, funds,
                                      nextUserId, nextIncomeId, nextExpenseId, nextFundId), rid, email, username);
      riderInfos := riderInfos[rid := riderInfos[rid].(email := email, username := username)];
    }

    /** `profile.rider_id = rid; profile.save()` with a rider id no profile holds. */
    method SetRiderId(u: UserId, rid: string)
      requires Valid() && u in profiles && rid !in ProfileRiderIds(profiles)
      modifies this
      ensures Valid()
      ensures profiles == old(profiles)[u := old(profiles)[u].(riderId := Some(rid))]
      ensures users == old(users) && riderInfos == old(riderInfos)
      ensures incomes == old(incomes) && expenses == old(expenses) && funds == old(funds)
      ensures nextUserId == old(nextUserId) && nextIncomeId == old(nextIncomeId)
      ensures nextExpenseId == old(nextExpenseId) && nextFundId == old(nextFundId)
    {
      ConsistentAfterRiderIdChange(Tables(users, profiles, riderInfos, incomes, expenses, funds,
                                          nextUserId, nextIncomeId, nextExpenseId, nextFundId), u, rid);
      profiles := profiles[u := profiles[u].(riderId := Some(rid))];
    }

    // ---- The request handlers

    /** `RegisterView.post`: validation, username allocation, then the user and,
        through `create_user_profile`, its profile with a fresh rider id drawn
        from `draws`. */
    method Register(email: string, password: string, confirm: string, first: string, last: string,
                    draws: seq<seq<Digit>>) returns (r: Result<Registered>)
      requires Valid()
      requires forall i :: 0 <= i < |draws| ==> IsDraw(draws[i])
      modifies this
      ensures Valid()
      ensures r.Err? ==> unchanged(this)
      ensures ValidateRegistration(Emails(old(users)), email, password, confirm, first, last).Err? ==>
                r == Err(ValidateRegistration(Emails(old(users)), email, password, confirm, first, last).error)
      ensures r.Ok? ==> ValidateRegistration(Emails(old(users)), email, password, confirm, first, last).Ok?
      ensures r.Ok? ==> nextUserId == old(nextUserId) + 1
      ensures nextIncomeId == old(nextIncomeId) && nextExpenseId == old(nextExpenseId) && nextFundId == old(nextFundId)
      ensures ValidateRegistration(Emails(old(users)), email, password, confirm, first, last).Ok? && r.Err? ==>
                && r.error == CandidatesExhausted
                && forall i :: 0 <= i < |draws| ==> Render(draws[i]) in ProfileRiderIds(old(profiles))
      ensures (ValidateRegistration(Emails(old(users)), email, password, confirm, first, last).Ok?
              && (exists i :: 0 <= i < |draws| && Render(draws[i]) !in ProfileRiderIds(old(profiles)))) ==> r.Ok?
      ensures r.Ok? ==>
                && r.value.user == old(nextUserId) && r.value.user !in old(users)
                && r.value.username !in Usernames(old(users))
                && (exists k: nat :: && r.value.username == Candidate(BaseUsername(first, last), k)
                                     && forall j: nat :: j < k ==> Candidate(BaseUsername(first, last), j) in Usernames(old(users)))
                && (exists i :: && 0 <= i < |draws| && r.value.riderId == Render(draws[i])
                                && forall j :: 0 <= j < i ==> Render(draws[j]) in ProfileRiderIds(old(profiles)))
                && users == old(users)[r.value.user := User(r.value.username, Lower(email), first, last,
                                                            SetPassword(password))]
                && IsRiderId(r.value.riderId) && r.value.riderId !in ProfileRiderIds(old(profiles))
                && profiles == old(profiles)[r.value.user := Profile("", Some(r.value.riderId))]
                && riderInfos == old(riderInfos) && incomes == old(incomes)
                && expenses == old(expenses) && funds == old(funds)
    {
      var v := ValidateRegistration(Emails(users), email, password, confirm, first, last);
      if v.Err? {
        return Err(v.error);
      }
      var username := AllocateUsername(BaseUsername(first, last), Usernames(users));
      var rid := DrawRiderId(draws);
      if rid.None? {
        return Err(CandidatesExhausted);
      }
      var u := InsertUser(User(username, Lower(email), first, last, SetPassword(password)), rid.value);
      r := Ok(Registered(u, username, rid.value));
    }

    /** The retry loop of `create_user_profile` against the current profiles:
        the first draw that is no profile's rider id, or None when every draw is
        one already. */
    method DrawRiderId(draws: seq<seq<Digit>>) returns (rid: Option<string>)
      requires forall i :: 0 <= i < |draws| ==> IsDraw(draws[i])
      ensures rid.Some? ==> IsRiderId(rid.value) && rid.value !in ProfileRiderIds(profiles)
      ensures rid.Some? ==> exists i :: && 0 <= i < |draws| && rid.value == Render(draws[i])
                                        && forall j :: 0 <= j < i ==> Render(draws[j]) in ProfileRiderIds(profiles)
      ensures rid.None? <==> forall i :: 0 <= i < |draws| ==> Render(draws[i]) in ProfileRiderIds(profiles)
    {
      var used;
      rid, used := GenerateRiderId(ProfileRiderIds(profiles), draws);
    }

    /** `ChangeEmailView.post`: the new email goes to the user and to the user's
        rider-info row together; a failed check changes neither. */
    method ChangeEmail(rid: string, currentPassword: string, newEmail: string) returns (o: Outcome)
      requires Valid()
      modifies this
      ensures Valid()
      ensures o.Failed? ==> unchanged(this)
      ensures old(Resolve(profiles, rid)).Err? ==> o == Failed(old(Resolve(profiles, rid)).error)
      ensures old(Resolve(profiles, rid)).Ok? ==>
                var u := old(Resolve(profiles, rid)).value;
                var errs := ChangeEmailErrors(old(users)[u].credential, currentPassword, newEmail, Emails(old(users)));
                && (errs != {} ==> o == Failed(Validation(errs)))
                && (errs == {} ==> o == Done
                                   && users == old(users)[u := old(users)[u].(email := newEmail)]
                                   && riderInfos == RiderInfosWithEmail(old(riderInfos), u, newEmail))
      ensures profiles == old(profiles) && incomes == old(incomes) && expenses == old(expenses) && funds == old(funds)
      ensures nextUserId == old(nextUserId) && nextIncomeId == old(nextIncomeId)
      ensures nextExpenseId == old(nextExpenseId) && nextFundId == old(nextFundId)
    {
      var res := Resolve(profiles, rid);
      if res.Err? {
        return Failed(res.error);
      }
      var u := res.value;
      var errs := ChangeEmailErrors(users[u].credential, currentPassword, newEmail, Emails(users));
      if errs != {} {
        return Failed(Validation(errs));
      }
      SaveEmail(u, newEmail);
      o := Done;
    }

    /** `ChangePasswordView.put`. */
    method ChangePassword(rid: string, oldPassword: string, newPassword: string, confirm: string) returns (o: Outcome)
      requires Valid()
      modifies this
      ensures Valid()
      ensures o.Failed? ==> unchanged(this)
      ensures old(Resolve(profiles, rid)).Err? ==> o == Failed(old(Resolve(profiles, rid)).error)
      ensures old(Resolve(profiles, rid)).Ok? ==>
                var u := old(Resolve(profiles, rid)).value;
                && o == ValidateChangePassword(old(users)[u].credential, oldPassword, newPassword, confirm)
                && (o.Done? ==> users == old(users)[u := old(users)[u].(credential := SetPassword(newPassword))])
      ensures profiles == old(profiles) && riderInfos == old(riderInfos)
      ensures incomes == old(incomes) && expenses == old(expenses) && funds == old(funds)
      ensures nextUserId == old(nextUserId) && nextIncomeId == old(nextIncomeId)
      ensures nextExpenseId == old(nextExpenseId) && nextFundId == old(nextFundId)
    {
      var res := Resolve(profiles, rid);
      if res.Err? {
        return Failed(res.error);
      }
      var u := res.value;
      o := ValidateChangePassword(users[u].credential, oldPassword, newPassword, confirm);
      if o.Done? {
        SaveUser(u, users[u].(credential := SetPassword(newPassword)));
      }
    }

    /** `DeleteAccountView.delete`: the user and everything it owns go; no
        password is asked for. */
    method DeleteAccount(rid: string) returns (o: Outcome)
      requires Valid()
      modifies this
      ensures Valid()
      ensures o.Failed? ==> unchanged(this)
      ensures old(Resolve(profiles, rid)).Err? ==> o == Failed(old(Resolve(profiles, rid)).error)
      ensures old(Resolve(profiles, rid)).Ok? ==>
                var u := old(Resolve(profiles, rid)).value;
                && o == Done
                && users == old(users) - {u} && profiles == old(profiles) - {u}
                && riderInfos == WithoutUser(old(riderInfos), RiderInfoOwner, u)
                && incomes == WithoutUser(old(incomes), EntryOwner, u)
                && expenses == WithoutUser(old(expenses), EntryOwner, u)
                && funds == WithoutUser(old(funds), FundOwner, u)
      ensures nextUserId == old(nextUserId) && nextIncomeId == old(nextIncomeId)
      ensures nextExpenseId == old(nextExpenseId) && nextFundId == old(nextFundId)
    {
      var res := Resolve(profiles, rid);
      if res.Err? {
        return Failed(res.error);
      }
      RemoveUser(res.value);
      o := Done;
    }

    /** `update_personal_info`. The rider-info row is saved only to touch its
        timestamp, which is not modelled. */
    method UpdatePersonalInfo(rid: string, first: Option<string>, last: Option<string>) returns (o: Outcome)
      requires Valid()
      modifies this
      ensures Valid()
      ensures o.Failed? ==> unchanged(this)
      ensures old(Resolve(profiles, rid)).Err? ==> o == Failed(old(Resolve(profiles, rid)).error)
      ensures old(Resolve(profiles, rid)).Ok? ==>
                var u := old(Resolve(profiles, rid)).value;
                match PersonalInfoUpdate(old(users)[u], first, last)
                case Err(e) => o == Failed(e)
                case Ok(user) => o == Done && users == old(users)[u := user]
      ensures profiles == old(profiles) && riderInfos == old(riderInfos)
      ensures incomes == old(incomes) && expenses == old(expenses) && funds == old(funds)
      ensures nextUserId == old(nextUserId) && nextIncomeId == old(nextIncomeId)
      ensures nextExpenseId == old(nextExpenseId) && nextFundId == old(nextFundId)
    {
      var res := Resolve(profiles, rid);
      if res.Err? {
        return Failed(res.error);
      }
      var u := res.value;
      var upd := PersonalInfoUpdate(users[u], first, last);
      if upd.Err? {
        return Failed(upd.error);
      }
      SaveUser(u, upd.value);
      o := Done;
    }

    /** `add_income` (kind IncomeTx) and `add_expense` (kind ExpenseTx). */
    method AddEntry(kind: TxKind, rid: string, category: string, amount: Option<int>, date: Option<int>,
                    notes: Option<string>)
      returns (r: Result<nat>)
      requires Valid()
      modifies this
      ensures Valid()
      ensures r.Err? ==> unchanged(this)
      ensures old(Resolve(profiles, rid)).Err? ==> r == Err(old(Resolve(profiles, rid)).error)
      ensures old(Resolve(profiles, rid)).Ok? && EntryErrors(category, amount, date) != {} ==>
                r == Err(Validation(EntryErrors(category, amount, date)))
      ensures old(Resolve(profiles, rid)).Ok? && EntryErrors(category, amount, date) == {} ==> r.Ok?
      ensures r.Ok? ==> old(Resolve(profiles, rid)).Ok? && EntryErrors(category, amount, date) == {}
      ensures r.Ok? ==>
                var e := Entry(old(Resolve(profiles, rid)).value, category, amount.value, date.value, notes);
                && (kind == IncomeTx ==> r.value == old(nextIncomeId) && r.value !in old(incomes)
                                         && incomes == old(incomes)[r.value := e] && expenses == old(expenses))
                && (kind == ExpenseTx ==> r.value == old(nextExpenseId) && r.value !in old(expenses)
                                          && expenses == old(expenses)[r.value := e] && incomes == old(incomes))
      ensures r.Ok? && kind == IncomeTx ==> nextIncomeId == r.value + 1 && nextExpenseId == old(nextExpenseId)
      ensures r.Ok? && kind == ExpenseTx ==> nextExpenseId == r.value + 1 && nextIncomeId == old(nextIncomeId)
      ensures users == old(users) && profiles == old(profiles) && riderInfos == old(riderInfos) && funds == old(funds)
      ensures nextUserId == old(nextUserId) && nextFundId == old(nextFundId)
    {
      var res := Resolve(profiles, rid);
      if res.Err? {
        return Err(res.error);
      }
      var errs := EntryErrors(category, amount, date);
      if errs != {} {
        return Err(Validation(errs));
      }
      var id := InsertEntry(kind, Entry(res.value, category, amount.value, date.value, notes));
      r := Ok(id);
    }

    /** `add_fund_api`: every fund field is required on creation. */
    method AddFund(rid: string, f: FundFields) returns (r: Result<nat>)
      requires Valid()
      modifies this
      ensures Valid()
      ensures r.Err? ==> unchanged(this)
      ensures old(Resolve(profiles, rid)).Err? ==> r == Err(old(Resolve(profiles, rid)).error)
      ensures old(Resolve(profiles, rid)).Ok? && FundErrors(f, false) != {} ==>
                r == Err(Validation(FundErrors(f, false)))
      ensures old(Resolve(profiles, rid)).Ok? && FundErrors(f, false) == {} ==> r.Ok?
      ensures r.Ok? ==>
                && old(Resolve(profiles, rid)).Ok? && FundErrors(f, false) == {}
                && r.value == old(nextFundId) && r.value !in old(funds)
                && funds == old(funds)[r.value := Fund(old(Resolve(profiles, rid)).value, f.name.value,
                                                      f.fundType.value, f.invested.value, f.current.value)]
      ensures users == old(users) && profiles == old(profiles) && riderInfos == old(riderInfos)
      ensures r.Ok? ==> nextFundId == r.value + 1
      ensures incomes == old(incomes) && expenses == old(expenses)
      ensures nextUserId == old(nextUserId) && nextIncomeId == old(nextIncomeId) && nextExpenseId == old(nextExpenseId)
    {
      var res := Resolve(profiles, rid);
      if res.Err? {
        return Err(res.error);
      }
      var errs := FundErrors(f, false);
      if errs != {} {
        return Err(Validation(errs));
      }
      var id := InsertFund(Fund(res.value, f.name.value, f.fundType.value, f.invested.value, f.current.value));
      r := Ok(id);
    }

    /** `update_fund_api`. */
    method UpdateFund(rid: string, fundId: int, f: FundFields) returns (o: Outcome)
      requires Valid()
      modifies this
      ensures Valid()
      ensures o.Failed? ==> unchanged(this)
      ensures old(Resolve(profiles, rid)).Err? ==> o == Failed(old(Resolve(profiles, rid)).error)
      ensures old(Resolve(profiles, rid)).Ok? ==>
                match UpdateOwnedFund(old(funds), old(Resolve(profiles, rid)).value, fundId, f)
                case Err(e) => o == Failed(e)
                case Ok(m) => o == Done && funds == m
      ensures users == old(users) && profiles == old(profiles) && riderInfos == old(riderInfos)
      ensures incomes == old(incomes) && expenses == old(expenses)
      ensures nextUserId == old(nextUserId) && nextIncomeId == old(nextIncomeId)
      ensures nextExpenseId == old(nextExpenseId) && nextFundId == old(nextFundId)
    {
      var res := Resolve(profiles, rid);
      if res.Err? {
        return Failed(res.error);
      }
      var upd := UpdateOwnedFund(funds, res.value, fundId, f);
      if upd.Err? {
        return Failed(upd.error);
      }
      SaveFund(res.value, fundId, f);
      o := Done;
    }

    /** `delete_fund_api`: both ids are checked for presence before the rider
        is looked up. */
    method DeleteFund(rid: string, fundId: int) returns (o: Outcome)
      requires Valid()
      modifies this
      ensures Valid()
      ensures o.Failed? ==> unchanged(this)
      ensures rid == [] ==> o == Failed(Validation({RiderIdField}))
      ensures rid != [] && fundId == 0 ==> o == Failed(Validation({FundIdField}))
      ensures rid != [] && fundId != 0 && old(Resolve(profiles, rid)).Err? ==>
                o == Failed(old(Resolve(profiles, rid)).error)
      ensures o.Done? <==> rid != [] && fundId != 0 && old(Resolve(profiles, rid)).Ok?
                           && OwnsFund(old(funds), old(Resolve(profiles, rid)).value, fundId)
      ensures o.Done? ==> funds == old(funds) - {fundId as nat}
      ensures users == old(users) && profiles == old(profiles) && riderInfos == old(riderInfos)
      ensures incomes == old(incomes) && expenses == old(expenses)
      ensures nextUserId == old(nextUserId) && nextIncomeId == old(nextIncomeId)
      ensures nextExpenseId == old(nextExpenseId) && nextFundId == old(nextFundId)
    {
      if rid == [] {
        return Failed(Validation({RiderIdField}));
      }
      if fundId == 0 {
        return Failed(Validation({FundIdField}));
      }
      var res := Resolve(profiles, rid);
      if res.Err? {
        return Failed(res.error);
      }
      if !OwnsFund(funds, res.value, fundId) {
        return Failed(NotFound);
      }
      RemoveFund(res.value, fundId);
      o := Done;
    }

    /** The user's incomes or expenses, in id order. */
    function Entries(u: UserId, kind: TxKind): seq<Tx>
      reads this
    {
      if kind == IncomeTx then RowsOf(incomes, u, IncomeTx, nextIncomeId)
      else RowsOf(expenses, u, ExpenseTx, nextExpenseId)
    }

    /** `dashboard_data`. */
    function Dashboard(rid: string): (r: Result<Totals>)
      reads this
      ensures Resolve(profiles, rid).Err? ==> r == Err(Resolve(profiles, rid).error)
      ensures r.Ok? ==> r.value.balance == r.value.totalIncome - r.value.totalExpense
      ensures Resolve(profiles, rid).Ok? ==>
                var u := Resolve(profiles, rid).value;
                r == Ok(DashboardTotals(Entries(u, IncomeTx), Entries(u, ExpenseTx)))
    {
      match Resolve(profiles, rid)
      case Err(e) => Err(e)
      case Ok(u) => Ok(DashboardTotals(Entries(u, IncomeTx), Entries(u, ExpenseTx)))
    }

    /** `recent_transactions`: at most five of each kind, merged newest first. */
    method RecentTransactions(rid: string) returns (r: Result<seq<Tx>>)
      ensures Resolve(profiles, rid).Err? ==> r == Err(Resolve(profiles, rid).error)
      ensures r.Ok? ==> var u := Resolve(profiles, rid).value;
                        r.value == Recent(Entries(u, IncomeTx), Entries(u, ExpenseTx))
      ensures r.Ok? ==> |r.value| <= 2 * RecentLimit && SortedDesc(r.value)
      ensures Resolve(profiles, rid).Ok? ==>
                var u := Resolve(profiles, rid).value;
                r == Ok(Recent(Entries(u, IncomeTx), Entries(u, ExpenseTx)))
    {
      var res := Resolve(profiles, rid);
      if res.Err? {
        return Err(res.error);
      }
      var merged := MergeRecent(Entries(res.value, IncomeTx), Entries(res.value, ExpenseTx));
      r := Ok(merged);
    }

    /** `portfolio_summary_api`. */
    function Portfolio(rid: string): (r: Result<Summary>)
      reads this
      ensures Resolve(profiles, rid).Err? ==> r == Err(Resolve(profiles, rid).error)
      ensures r.Ok? ==> r.value.totalGainLoss == r.value.totalCurrentValue - r.value.totalInvested
      ensures Resolve(profiles, rid).Ok? ==>
                r == Ok(PortfolioSummary(FundsOf(funds, Resolve(profiles, rid).value, nextFundId)))
    {
      match Resolve(profiles, rid)
      case Err(e) => Err(e)
      case Ok(u) => Ok(PortfolioSummary(FundsOf(funds, u, nextFundId)))
    }
  }

  /** The six tables and the next id each one hands out. */
  datatype Tables = Tables(users: map<UserId, User>, profiles: map<UserId, Profile>,
                           riderInfos: map<string, RiderInfo>,
                           incomes: map<nat, Entry>, expenses: map<nat, Entry>, funds: map<nat, Fund>,
                           nextUserId: nat, nextIncomeId: nat, nextExpenseId: nat, nextFundId: nat)

  /** Every user has exactly one profile, rider ids are unique, every row
      points at an existing user, ids are below the next id handed out, and
      the money columns are within their decimal bounds. */
  ghost predicate Consistent(t: Tables)
  {
    && t.profiles.Keys == t.users.Keys
    && RiderIdsUnique(t.profiles)
    && 0 < t.nextUserId && 0 < t.nextIncomeId && 0 < t.nextExpenseId && 0 < t.nextFundId
    && (forall u :: u in t.users ==> 0 < u < t.nextUserId)
    && (forall rid :: rid in t.riderInfos ==> t.riderInfos[rid].user in t.users)
    && EntriesValid(t.incomes, t.users, t.nextIncomeId)
    && EntriesValid(t.expenses, t.users, t.nextExpenseId)
    && FundsValid(t.funds, t.users, t.nextFundId)
  }

  ghost predicate EntriesValid(m: map<nat, Entry>, users: map<UserId, User>, next: nat)
  {
    forall k :: k in m ==> 0 < k < next && m[k].user in users && FitsDecimal(m[k].amount, LedgerMaxDigits)
  }

  ghost predicate FundsValid(m: map<nat, Fund>, users: map<UserId, User>, next: nat)
  {
    forall k :: k in m ==> 0 < k < next && m[k].user in users
                           && FitsDecimal(m[k].invested, FundMaxDigits) && FitsDecimal(m[k].current, FundMaxDigits)
  }

  /** The cascade leaves no row pointing at the deleted user. */
  lemma ConsistentAfterDelete(t: Tables, u: UserId)
    requires Consistent(t)
    ensures Consistent(t.(users := t.users - {u}, profiles := t.profiles - {u},
                          riderInfos := WithoutUser(t.riderInfos, RiderInfoOwner, u),
                          incomes := WithoutUser(t.incomes, EntryOwner, u),
                          expenses := WithoutUser(t.expenses, EntryOwner, u),
                          funds := WithoutUser(t.funds, FundOwner, u)))
  {
    EntriesValidWithout(t.incomes, t.users, t.nextIncomeId, u);
    EntriesValidWithout(t.expenses, t.users, t.nextExpenseId, u);
    FundsValidWithout(t.funds, t.users, t.nextFundId, u);
  }

  lemma EntriesValidWithout(m: map<nat, Entry>, users: map<UserId, User>, next: nat, u: UserId)
    requires EntriesValid(m, users, next)
    ensures EntriesValid(WithoutUser(m, EntryOwner, u), users - {u}, next)
  {
  }

  lemma FundsValidWithout(m: map<nat, Fund>, users: map<UserId, User>, next: nat, u: UserId)
    requires FundsValid(m, users, next)
    ensures FundsValid(WithoutUser(m, FundOwner, u), users - {u}, next)
  {
  }

  /** A new user with a fresh rider id gets the next user id and its profile. */
  lemma ConsistentAfterRegister(t: Tables, user: User, rid: string)
    requires Consistent(t) && rid !in ProfileRiderIds(t.profiles)
    ensures Consistent(t.(users := t.users[t.nextUserId := user],
                          profiles := t.profiles[t.nextUserId := Profile("", Some(rid))],
                          nextUserId := t.nextUserId + 1))
  {
  }

  /** Rewriting one user's own columns keeps every reference intact. */
  lemma ConsistentAfterUserEdit(t: Tables, u: UserId, user: User)
    requires Consistent(t) && u in t.users
    ensures Consistent(t.(users := t.users[u := user]))
  {
  }

  lemma ConsistentAfterEmailChange(t: Tables, u: UserId, email: string)
    requires Consistent(t) && u in t.users
    ensures Consistent(t.(users := t.users[u := t.users[u].(email := email)],
                          riderInfos := RiderInfosWithEmail(t.riderInfos, u, email)))
  {
  }

  /** A validated income or expense of an existing user can take the next id of
      either table. */
  lemma ConsistentAfterAddIncome(t: Tables, e: Entry)
    requires Consistent(t) && e.user in t.users && FitsDecimal(e.amount, LedgerMaxDigits)
    ensures Consistent(t.(incomes := t.incomes[t.nextIncomeId := e], nextIncomeId := t.nextIncomeId + 1))
  {
  }

  lemma ConsistentAfterAddExpense(t: Tables, e: Entry)
    requires Consistent(t) && e.user in t.users && FitsDecimal(e.amount, LedgerMaxDigits)
    ensures Consistent(t.(expenses := t.expenses[t.nextExpenseId := e], nextExpenseId := t.nextExpenseId + 1))
  {
  }

  lemma ConsistentAfterAddFund(t: Tables, fund: Fund)
    requires Consistent(t) && fund.user in t.users
    requires FitsDecimal(fund.invested, FundMaxDigits) && FitsDecimal(fund.current, FundMaxDigits)
    ensures Consistent(t.(funds := t.funds[t.nextFundId := fund], nextFundId := t.nextFundId + 1))
  {
  }

  /** A validated partial update keeps the fund's owner and its money columns in bounds. */
  lemma ConsistentAfterFundUpdate(t: Tables, u: UserId, fundId: int, f: FundFields)
    requires Consistent(t) && UpdateOwnedFund(t.funds, u, fundId, f).Ok?
    ensures Consistent(t.(funds := UpdateOwnedFund(t.funds, u, fundId, f).value))
  {
    assert FundErrors(f, true) == {};
    FundsValidReplace(t.funds, t.users, t.nextFundId, fundId, ApplyFundFields(t.funds[fundId], f));
  }

  lemma FundsValidReplace(m: map<nat, Fund>, users: map<UserId, User>, next: nat, k: nat, fund: Fund)
    requires FundsValid(m, users, next) && k in m && fund.user in users
    requires FitsDecimal(fund.invested, FundMaxDigits) && FitsDecimal(fund.current, FundMaxDigits)
    ensures FundsValid(m[k := fund], users, next)
  {
  }

  lemma ConsistentAfterFundDelete(t: Tables, u: UserId, fundId: int)
    requires Consistent(t) && DeleteOwnedFund(t.funds, u, fundId).Ok?
    ensures Consistent(t.(funds := DeleteOwnedFund(t.funds, u, fundId).value))
  {
  }

  /** A rider-info row may be added or replaced as long as its user exists. */
  lemma ConsistentAfterRiderInfo(t: Tables, rid: string, info: RiderInfo)
    requires Consistent(t) && info.user in t.users
    ensures Consistent(t.(riderInfos := t.riderInfos[rid := info]))
  {
  }

  lemma ConsistentAfterRiderSync(t: Tables, rid: string, email: string, username: string)
    requires Consistent(t) && rid in t.riderInfos
    ensures Consistent(t.(riderInfos := t.riderInfos[rid := t.riderInfos[rid].(email := email, username := username)]))
  {
    ConsistentAfterRiderInfo(t, rid, t.riderInfos[rid].(email := email, username := username));
  }

  /** Giving a profile a rider id nobody holds keeps rider ids unique. */
  lemma ConsistentAfterRiderIdChange(t: Tables, u: UserId, rid: string)
    requires Consistent(t) && u in t.profiles && rid !in ProfileRiderIds(t.profiles)
    ensures Consistent(t.(profiles := t.profiles[u := t.profiles[u].(riderId := Some(rid))]))
  {
    var p := t.profiles[u := t.profiles[u].(riderId := Some(rid))];
    forall v, w | v in p && w in p && v != w && p[v].riderId.Some?
      ensures p[v].riderId != p[w].riderId
    {
      if v == u {
        assert t.profiles[w].riderId.Some? ==> t.profiles[w].riderId.value in ProfileRiderIds(t.profiles);
      } else if w == u {
        assert p[v].riderId.value in ProfileRiderIds(t.profiles);
      }
    }
  }
}
