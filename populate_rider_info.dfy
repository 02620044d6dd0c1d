/** The management command accounts/management/commands/populate_rider_info.py:
    for every profile with a rider id, `get_or_create` the rider-info row of
    that rider id and bring its email and username in line with the user,
    counting the rows created and the rows updated.

    The profiles are visited in user-id order. The loop is specified by the
    function `Populated`, the table after the first `n` visits; the lemmas
    below say what that table is. */
module PopulateRiderInfo {
  import opened Common
  import opened Models
  import opened Store

  /** A rider-info row agrees with the user it describes. */
  predicate InSync(info: RiderInfo, user: User)
  {
    info.email == user.email && info.username == user.username
  }

  /** `Profile.objects.filter(rider_id__isnull=False)`: the profiles the command visits. */
  predicate Processed(users: map<UserId, User>, profiles: map<UserId, Profile>, u: UserId)
  {
    u in profiles && u in users && profiles[u].riderId.Some?
  }

  /** One pass of the loop body, on the profile of user `u`: a missing row is
      created active and owned by `u`; an existing row out of sync gets the
      user's email and username and keeps its owner and its active flag; any
      other row is left alone. */
  function Visit(users: map<UserId, User>, profiles: map<UserId, Profile>, infos: map<string, RiderInfo>,
                 u: UserId): (r: map<string, RiderInfo>)
    ensures !Processed(users, profiles, u) ==> r == infos
    ensures Processed(users, profiles, u) ==>
              var rid := profiles[u].riderId.value;
              && rid in r && InSync(r[rid], users[u])
              && r == infos[rid := r[rid]]
              && (rid !in infos ==> r[rid] == RiderInfo(u, users[u].email, users[u].username, true))
              && (rid in infos ==> r[rid].user == infos[rid].user && r[rid].isActive == infos[rid].isActive)
              && (rid in infos && InSync(infos[rid], users[u]) ==> r == infos)
  {
    if !Processed(users, profiles, u) then infos
    else
      var rid := profiles[u].riderId.value;
      var user := users[u];
      if rid !in infos then infos[rid := RiderInfo(u, user.email, user.username, true)]
      else if !InSync(infos[rid], user) then infos[rid := infos[rid].(email := user.email, username := user.username)]
      else infos
  }

  /** The rider-info table once the profiles of users 0 .. n-1 have been visited. */
  function Populated(users: map<UserId, User>, profiles: map<UserId, Profile>, infos: map<string, RiderInfo>,
                     n: nat): (r: map<string, RiderInfo>)
    ensures infos.Keys <= r.Keys
  {
    if n == 0 then infos else Visit(users, profiles, Populated(users, profiles, infos, n - 1), n - 1)
  }

  /** The visited profiles whose rider id had no row at the start. */
  function NewRows(users: map<UserId, User>, profiles: map<UserId, Profile>, infos: map<string, RiderInfo>,
                   n: nat): set<UserId>
  {
    set u | 0 <= u < n && Processed(users, profiles, u) && profiles[u].riderId.value !in infos
  }

  /** The visited profiles whose rider id had a row out of sync at the start. */
  function StaleRows(users: map<UserId, User>, profiles: map<UserId, Profile>, infos: map<string, RiderInfo>,
                     n: nat): set<UserId>
  {
    set u | 0 <= u < n && Processed(users, profiles, u) && profiles[u].riderId.value in infos
                      && !InSync(infos[profiles[u].riderId.value], users[u])
  }

  /** `Command.handle`: returns `created_count` and `updated_count`. */
  method Handle(s: AccountStore) returns (created: nat, updated: nat)
    requires s.Valid()
    modifies s
    ensures s.Valid()
    ensures s.riderInfos == Populated(old(s.users), old(s.profiles), old(s.riderInfos), old(s.nextUserId))
    ensures created == |NewRows(old(s.users), old(s.profiles), old(s.riderInfos), old(s.nextUserId))|
    ensures updated == |StaleRows(old(s.users), old(s.profiles), old(s.riderInfos), old(s.nextUserId))|
    ensures s.users == old(s.users) && s.profiles == old(s.profiles)
    ensures s.incomes == old(s.incomes) && s.expenses == old(s.expenses) && s.funds == old(s.funds)
    ensures s.nextUserId == old(s.nextUserId) && s.nextIncomeId == old(s.nextIncomeId)
    ensures s.nextExpenseId == old(s.nextExpenseId) && s.nextFundId == old(s.nextFundId)
  {
    ghost var users, profiles, infos := s.users, s.profiles, s.riderInfos;
    assert RiderIdsUnique(profiles);
    created, updated := 0, 0;
    var u: nat := 0;
    while u < s.nextUserId
      invariant u <= s.nextUserId
      invariant s.Valid()
      invariant s.users == users && s.profiles == profiles
      invariant s.incomes == old(s.incomes) && s.expenses == old(s.expenses) && s.funds == old(s.funds)
      invariant s.nextUserId == old(s.nextUserId) && s.nextIncomeId == old(s.nextIncomeId)
      invariant s.nextExpenseId == old(s.nextExpenseId) && s.nextFundId == old(s.nextFundId)
      invariant s.riderInfos == Populated(users, profiles, infos, u)
      invariant created == |NewRows(users, profiles, infos, u)|
      invariant updated == |StaleRows(users, profiles, infos, u)|
    {
      CountStep(users, profiles, infos, u);
      if u in s.profiles && u in s.users && s.profiles[u].riderId.Some? {
        var rid := s.profiles[u].riderId.value;
        var user := s.users[u];
        VisitSeesStart(users, profiles, infos, u);
        if rid !in s.riderInfos {
          s.CreateRiderInfo(rid, RiderInfo(u, user.email, user.username, true));
          created := created + 1;
        } else if s.riderInfos[rid].email != user.email || s.riderInfos[rid].username != user.username {
          s.SyncRiderInfo(rid, user.email, user.username);
          updated := updated + 1;
        }
      }
      u := u + 1;
    }
  }

  /** Each visit adds at most its own user to the two counted sets. */
  lemma CountStep(users: map<UserId, User>, profiles: map<UserId, Profile>, infos: map<string, RiderInfo>, u: nat)
    ensures |NewRows(users, profiles, infos, u + 1)| == |NewRows(users, profiles, infos, u)|
              + (if Processed(users, profiles, u) && profiles[u].riderId.value !in infos then 1 else 0)
    ensures |StaleRows(users, profiles, infos, u + 1)| == |StaleRows(users, profiles, infos, u)|
              + (if Processed(users, profiles, u) && profiles[u].riderId.value in infos
                    && !InSync(infos[profiles[u].riderId.value], users[u]) then 1 else 0)
  {
    NewRowsStep(users, profiles, infos, u);
    StaleRowsStep(users, profiles, infos, u);
  }

  lemma NewRowsStep(users: map<UserId, User>, profiles: map<UserId, Profile>, infos: map<string, RiderInfo>, u: nat)
    ensures NewRows(users, profiles, infos, u + 1) ==
              NewRows(users, profiles, infos, u)
              + (if Processed(users, profiles, u) && profiles[u].riderId.value !in infos then {u} else {})
    ensures u !in NewRows(users, profiles, infos, u)
  {
  }

  lemma StaleRowsStep(users: map<UserId, User>, profiles: map<UserId, Profile>, infos: map<string, RiderInfo>, u: nat)
    ensures StaleRows(users, profiles, infos, u + 1) ==
              StaleRows(users, profiles, infos, u)
              + (if Processed(users, profiles, u) && profiles[u].riderId.value in infos
                    && !InSync(infos[profiles[u].riderId.value], users[u]) then {u} else {})
    ensures u !in StaleRows(users, profiles, infos, u)
  {
  }

  /** With unique rider ids, when the loop reaches user `u` the row of `u`'s
      rider id is still the one the command started with. */
  lemma VisitSeesStart(users: map<UserId, User>, profiles: map<UserId, Profile>, infos: map<string, RiderInfo>,
                       u: nat)
    requires RiderIdsUnique(profiles) && Processed(users, profiles, u)
    ensures var rid := profiles[u].riderId.value;
            && (rid in Populated(users, profiles, infos, u) <==> rid in infos)
            && (rid in infos ==> Populated(users, profiles, infos, u)[rid] == infos[rid])
  {
    PopulatedElsewhere(users, profiles, infos, u, profiles[u].riderId.value);
  }

  /** A rider id no visited profile holds keeps its row, or its absence. */
  lemma {:induction false} PopulatedElsewhere(users: map<UserId, User>, profiles: map<UserId, Profile>,
                                              infos: map<string, RiderInfo>, n: nat, rid: string)
    requires forall v :: 0 <= v < n && Processed(users, profiles, v) ==> profiles[v].riderId.value != rid
    ensures rid in Populated(users, profiles, infos, n) <==> rid in infos
    ensures rid in infos ==> Populated(users, profiles, infos, n)[rid] == infos[rid]
  {
    if n > 0 {
      PopulatedElsewhere(users, profiles, infos, n - 1, rid);
    }
  }

  /** After the run every visited profile's rider id has a row in sync with its user. */
  lemma {:induction false} PopulatedSyncs(users: map<UserId, User>, profiles: map<UserId, Profile>,
                                          infos: map<string, RiderInfo>, n: nat)
    requires RiderIdsUnique(profiles)
    ensures forall v :: 0 <= v < n && Processed(users, profiles, v) ==>
              profiles[v].riderId.value in Populated(users, profiles, infos, n)
              && InSync(Populated(users, profiles, infos, n)[profiles[v].riderId.value], users[v])
  {
    if n > 0 {
      PopulatedSyncs(users, profiles, infos, n - 1);
      var before := Populated(users, profiles, infos, n - 1);
      forall v | 0 <= v < n - 1 && Processed(users, profiles, v)
        ensures profiles[v].riderId.value in Populated(users, profiles, infos, n)
                && InSync(Populated(users, profiles, infos, n)[profiles[v].riderId.value], users[v])
      {
        if Processed(users, profiles, n - 1) {
          assert profiles[v].riderId != profiles[n - 1].riderId;
        }
      }
    }
  }

  /** Rows that existed keep their owner and active flag; rows the run
      created are active and belong to the profile holding their rider id. */
  lemma {:induction false} PopulatedRows(users: map<UserId, User>, profiles: map<UserId, Profile>,
                                         infos: map<string, RiderInfo>, n: nat)
    ensures forall rid :: rid in Populated(users, profiles, infos, n) && rid in infos ==>
              Populated(users, profiles, infos, n)[rid].user == infos[rid].user
              && Populated(users, profiles, infos, n)[rid].isActive == infos[rid].isActive
    ensures forall rid :: rid in Populated(users, profiles, infos, n) && rid !in infos ==>
              var owner := Populated(users, profiles, infos, n)[rid].user;
              Populated(users, profiles, infos, n)[rid].isActive
              && owner < n && Processed(users, profiles, owner) && profiles[owner].riderId == Some(rid)
  {
    if n > 0 {
      PopulatedRows(users, profiles, infos, n - 1);
    }
  }

  /** A table in which every visited profile's row is in sync is left as it is. */
  lemma {:induction false} PopulatedFixed(users: map<UserId, User>, profiles: map<UserId, Profile>,
                                          infos: map<string, RiderInfo>, n: nat)
    requires forall v :: 0 <= v < n && Processed(users, profiles, v) ==>
               profiles[v].riderId.value in infos && InSync(infos[profiles[v].riderId.value], users[v])
    ensures Populated(users, profiles, infos, n) == infos
  {
    if n > 0 {
      PopulatedFixed(users, profiles, infos, n - 1);
    }
  }

  /** Running the command a second time creates nothing, updates nothing and
      changes nothing. */
  lemma PopulateIdempotent(users: map<UserId, User>, profiles: map<UserId, Profile>,
                           infos: map<string, RiderInfo>, n: nat)
    requires RiderIdsUnique(profiles)
    ensures var once := Populated(users, profiles, infos, n);
            && Populated(users, profiles, once, n) == once
            && NewRows(users, profiles, once, n) == {}
            && StaleRows(users, profiles, once, n) == {}
  {
    PopulatedSyncs(users, profiles, infos, n);
    PopulatedFixed(users, profiles, Populated(users, profiles, infos, n), n);
  }
}
