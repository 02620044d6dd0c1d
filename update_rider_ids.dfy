/** The management command accounts/management/commands/update_rider_ids.py:
    every profile whose rider id is missing or not eight decimal digits gets a
    fresh one, drawn by the same retry loop as `create_user_profile` against
    the rider ids the profiles hold at that moment.

    The profiles are visited in user-id order. The random digits come from
    the caller as `draws`, consumed across the whole run; when they run out
    the command stops and reports it instead of retrying forever. */
module UpdateRiderIds {
  import opened Common
  import opened Text
  import opened Models
  import opened Serializers
  import opened Store

  /** `not rider_id or len(rider_id) != 8 or not rider_id.isdigit()`. */
  predicate NeedsNewId(p: Profile)
  {
    p.riderId.None? || p.riderId.value == [] || |p.riderId.value| != RiderIdLength || !AllDigits(p.riderId.value)
  }

  /** The command's test rejects exactly what the generator does not produce. */
  lemma NeedsNewIdIffNotRiderId(p: Profile)
    ensures NeedsNewId(p) <==> p.riderId.None? || !IsRiderId(p.riderId.value)
  {
  }

  /** The profiles the command must rewrite. */
  function InvalidProfiles(profiles: map<UserId, Profile>): set<UserId>
  {
    set u | u in profiles && NeedsNewId(profiles[u])
  }

  /** Those among the users 0 .. n-1. */
  function InvalidBelow(profiles: map<UserId, Profile>, n: nat): set<UserId>
  {
    set u | 0 <= u < n && u in profiles && NeedsNewId(profiles[u])
  }

  /** `Command.handle`: returns `updated_count`, and whether the draws ran out. */
  method Handle(s: AccountStore, draws: seq<seq<Digit>>) returns (updated: nat, exhausted: bool)
    requires s.Valid()
    requires forall i :: 0 <= i < |draws| ==> IsDraw(draws[i])
    modifies s
    ensures s.Valid()
    ensures Repaired(old(s.profiles), s.profiles)
    ensures !exhausted ==> Complete(old(s.profiles), s.profiles)
    ensures !exhausted ==> updated == |InvalidProfiles(old(s.profiles))|
    ensures exhausted ==> updated < |InvalidProfiles(old(s.profiles))|
    ensures exhausted ==> HeldBelow(draws, |draws|, s.profiles)
    ensures s.users == old(s.users) && s.riderInfos == old(s.riderInfos)
    ensures s.incomes == old(s.incomes) && s.expenses == old(s.expenses) && s.funds == old(s.funds)
    ensures s.nextUserId == old(s.nextUserId) && s.nextIncomeId == old(s.nextIncomeId)
    ensures s.nextExpenseId == old(s.nextExpenseId) && s.nextFundId == old(s.nextFundId)
  {
    ghost var start := s.profiles;
    var next: nat := 0;
    updated, exhausted := 0, false;
    var u: nat := 0;
    while u < s.nextUserId
      invariant u <= s.nextUserId
      invariant s.Valid()
      invariant next <= |draws| && HeldBelow(draws, next, s.profiles)
      invariant Progress(start, s.profiles, u)
      invariant updated == InvalidCount(start, u)
      invariant s.users == old(s.users) && s.riderInfos == old(s.riderInfos)
      invariant s.incomes == old(s.incomes) && s.expenses == old(s.expenses) && s.funds == old(s.funds)
      invariant s.nextUserId == old(s.nextUserId) && s.nextIncomeId == old(s.nextIncomeId)
      invariant s.nextExpenseId == old(s.nextExpenseId) && s.nextFundId == old(s.nextFundId)
    {
      var rewritten, from := false, next;
      ghost var before := s.profiles;
      rewritten, exhausted, next := Visit(s, start, u, draws, from);
      HeldStep(draws, from, next, before, s.profiles);
      if exhausted {
        InvalidCountIsSize(start, u);
        ExhaustedCount(start, u);
        break;
      }
      if rewritten {
        updated := updated + 1;
      }
      u := u + 1;
    }
    ProgressRepaired(start, s.profiles, u);
    if !exhausted {
      InvalidCountIsSize(start, u);
      assert forall v :: v in start ==> v < u by {
        UsersBelowNext(s);
      }
      InvalidBelowAll(start, u);
      ProgressComplete(start, s.profiles, u);
    }
  }

  /** One pass of the loop body, on the profile of user `u`: an invalid one
      gets a fresh rider id, unless the draws run out first. The draws from
      position `from` on are still unused; `next` is the first one left unused. */
  method Visit(s: AccountStore, ghost start: map<UserId, Profile>, u: nat, draws: seq<seq<Digit>>, from: nat)
    returns (rewritten: bool, exhausted: bool, next: nat)
    requires s.Valid() && Progress(start, s.profiles, u)
    requires forall i :: 0 <= i < |draws| ==> IsDraw(draws[i])
    requires from <= |draws|
    modifies s
    ensures s.Valid()
    ensures from <= next <= |draws|
    ensures KeepsRiderIds(old(s.profiles), s.profiles)
    ensures forall i :: from <= i < next ==> Render(draws[i]) in ProfileRiderIds(s.profiles)
    ensures exhausted ==> next == |draws|
    ensures rewritten <==> !exhausted && u in start && NeedsNewId(start[u])
    ensures exhausted ==> u in start && NeedsNewId(start[u]) && s.profiles == old(s.profiles)
    ensures !exhausted ==> Progress(start, s.profiles, u + 1)
    ensures s.users == old(s.users) && s.riderInfos == old(s.riderInfos)
    ensures s.incomes == old(s.incomes) && s.expenses == old(s.expenses) && s.funds == old(s.funds)
    ensures s.nextUserId == old(s.nextUserId) && s.nextIncomeId == old(s.nextIncomeId)
    ensures s.nextExpenseId == old(s.nextExpenseId) && s.nextFundId == old(s.nextFundId)
  {
    next := from;
    rewritten, exhausted := false, false;
    if u in s.profiles && NeedsNewId(s.profiles[u]) {
      var rid;
      rid, next := Draw(ProfileRiderIds(s.profiles), draws, from);
      if rid.None? {
        exhausted := true;
        return;
      }
      RewriteHolds(s.profiles, u, rid.value, draws, from, next);
      FreshAgainstStart(start, s.profiles, u, rid.value);
      ProgressRewrite(start, s.profiles, u, rid.value);
      s.SetRiderId(u, rid.value);
      rewritten := true;
    } else {
      ProgressSkip(start, s.profiles, u);
    }
  }

  /** The draws before position `n` all render to rider ids some profile holds. */
  predicate HeldBelow(draws: seq<seq<Digit>>, n: nat, profiles: map<UserId, Profile>)
    requires n <= |draws|
  {
    forall i :: 0 <= i < n ==> Render(draws[i]) in ProfileRiderIds(profiles)
  }

  /** Every well-formed rider id held in `p` is still held in `q`. */
  ghost predicate KeepsRiderIds(p: map<UserId, Profile>, q: map<UserId, Profile>)
  {
    forall x :: x in ProfileRiderIds(p) && IsRiderId(x) ==> x in ProfileRiderIds(q)
  }

  /** Giving the invalid profile of `u` the draw at `next - 1`, the draws from
      `from` up to it being held already, leaves all of them held and every
      well-formed id in place: the id it replaces was not well-formed. */
  lemma RewriteHolds(p: map<UserId, Profile>, u: UserId, rid: string, draws: seq<seq<Digit>>, from: nat, next: nat)
    requires u in p && NeedsNewId(p[u])
    requires from < next <= |draws| && Render(draws[next - 1]) == rid
    requires forall i :: from <= i < next - 1 ==> Render(draws[i]) in ProfileRiderIds(p)
    requires forall i :: 0 <= i < |draws| ==> IsDraw(draws[i])
    ensures KeepsRiderIds(p, p[u := p[u].(riderId := Some(rid))])
    ensures forall i :: from <= i < next ==> Render(draws[i]) in ProfileRiderIds(p[u := p[u].(riderId := Some(rid))])
  {
    var q := p[u := p[u].(riderId := Some(rid))];
    forall x | x in ProfileRiderIds(p) && IsRiderId(x)
      ensures x in ProfileRiderIds(q)
    {
      var v :| v in p && p[v].riderId == Some(x);
      assert v != u && q[v] == p[v];
    }
    forall i | from <= i < next
      ensures Render(draws[i]) in ProfileRiderIds(q)
    {
      if i < next - 1 {
        assert IsRiderId(Render(draws[i]));
      } else {
        assert q[u].riderId == Some(rid);
      }
    }
  }

  /** The draws held before a visit stay held, and with those the visit
      consumed they are all the draws before its `next`. */
  lemma HeldStep(draws: seq<seq<Digit>>, from: nat, next: nat, p: map<UserId, Profile>, q: map<UserId, Profile>)
    requires from <= next <= |draws|
    requires forall i :: 0 <= i < |draws| ==> IsDraw(draws[i])
    requires HeldBelow(draws, from, p) && KeepsRiderIds(p, q)
    requires forall i :: from <= i < next ==> Render(draws[i]) in ProfileRiderIds(q)
    ensures HeldBelow(draws, next, q)
  {
    forall i | 0 <= i < from
      ensures Render(draws[i]) in ProfileRiderIds(q)
    {
      assert IsRiderId(Render(draws[i]));
    }
  }

  /** Every profile belongs to a user id below the next one to be issued. */
  lemma UsersBelowNext(s: AccountStore)
    requires s.Valid()
    ensures forall v :: v in s.profiles ==> v < s.nextUserId
  {
  }

  /** The profile table after the users 0 .. u-1 have been visited: the same
      users, the profiles not yet visited and the valid ones untouched, and
      each invalid one visited so far given a fresh rider id and nothing else. */
  ghost predicate Progress(start: map<UserId, Profile>, current: map<UserId, Profile>, u: nat)
  {
    && current.Keys == start.Keys
    && (forall v :: v in start && (v >= u || !NeedsNewId(start[v])) ==> current[v] == start[v])
    && (forall v :: v in start && v < u && NeedsNewId(start[v]) ==>
          && current[v] == start[v].(riderId := current[v].riderId)
          && current[v].riderId.Some? && IsRiderId(current[v].riderId.value)
          && current[v].riderId.value !in ProfileRiderIds(start))
  }

  /** Rewriting the invalid profile of user `u` with a fresh id moves the visit on. */
  lemma ProgressRewrite(start: map<UserId, Profile>, current: map<UserId, Profile>, u: nat, rid: string)
    requires Progress(start, current, u) && u in start && NeedsNewId(start[u])
    requires IsRiderId(rid) && rid !in ProfileRiderIds(start)
    ensures Progress(start, current[u := current[u].(riderId := Some(rid))], u + 1)
  {
  }

  /** Passing over a valid or missing profile moves the visit on. */
  lemma ProgressSkip(start: map<UserId, Profile>, current: map<UserId, Profile>, u: nat)
    requires Progress(start, current, u) && !(u in current && NeedsNewId(current[u]))
    ensures Progress(start, current, u + 1)
  {
  }

  /** The command's promise wherever it stops: the same users have profiles,
      valid profiles are untouched, and a changed profile only received a
      well-formed rider id that no profile held at the start. */
  ghost predicate Repaired(start: map<UserId, Profile>, current: map<UserId, Profile>)
  {
    && current.Keys == start.Keys
    && (forall v :: v in start && !NeedsNewId(start[v]) ==> current[v] == start[v])
    && (forall v :: v in start && current[v] != start[v] ==>
          && current[v] == start[v].(riderId := current[v].riderId)
          && current[v].riderId.Some? && IsRiderId(current[v].riderId.value)
          && current[v].riderId.value !in ProfileRiderIds(start))
  }

  /** The promise of a run that went through: no invalid profile is left, and
      exactly the invalid ones changed. */
  ghost predicate Complete(start: map<UserId, Profile>, current: map<UserId, Profile>)
    requires current.Keys == start.Keys
  {
    && (forall v :: v in current ==> !NeedsNewId(current[v]))
    && (forall v :: v in start ==> (current[v] != start[v] <==> NeedsNewId(start[v])))
  }

  /** Wherever the visit stops, the profiles are repaired so far. */
  lemma ProgressRepaired(start: map<UserId, Profile>, current: map<UserId, Profile>, u: nat)
    requires Progress(start, current, u)
    ensures Repaired(start, current)
  {
  }

  /** A visit past every user completes the repair. */
  lemma ProgressComplete(start: map<UserId, Profile>, current: map<UserId, Profile>, n: nat)
    requires Progress(start, current, n)
    requires forall v :: v in start ==> v < n
    ensures Complete(start, current)
  {
  }

  /** The retry loop of lines 16-20 against the rider ids held now, reading
      the draws from position `from` on; `next` is the first draw left for the
      next profile. */
  method Draw(taken: set<string>, draws: seq<seq<Digit>>, from: nat) returns (rid: Option<string>, next: nat)
    requires forall i :: 0 <= i < |draws| ==> IsDraw(draws[i])
    requires from <= |draws|
    ensures from <= next <= |draws|
    ensures forall i :: from <= i < next - 1 ==> Render(draws[i]) in taken
    ensures rid.Some? ==> from < next && rid.value == Render(draws[next - 1])
    ensures rid.Some? ==> IsRiderId(rid.value) && rid.value !in taken
    ensures rid.None? ==> next == |draws| && forall i :: from <= i < |draws| ==> Render(draws[i]) in taken
  {
    var used;
    rid, used := GenerateRiderId(taken, draws[from..]);
    next := from + used;
    assert forall i :: from <= i < |draws| ==> draws[from..][i - from] == draws[i];
  }

  /** The number of invalid profiles among the users 0 .. n-1, counted one
      user at a time as the loop does. */
  function InvalidCount(profiles: map<UserId, Profile>, n: nat): nat
  {
    if n == 0 then 0
    else InvalidCount(profiles, n - 1) + (if n - 1 in profiles && NeedsNewId(profiles[n - 1]) then 1 else 0)
  }

  /** The running count is the size of the set it counts. */
  lemma {:induction false} InvalidCountIsSize(profiles: map<UserId, Profile>, n: nat)
    ensures InvalidCount(profiles, n) == |InvalidBelow(profiles, n)|
  {
    if n > 0 {
      InvalidCountIsSize(profiles, n - 1);
      InvalidStep(profiles, n - 1);
    }
  }

  /** Visiting user `u` adds at most `u` to the counted set. */
  lemma InvalidStep(profiles: map<UserId, Profile>, u: nat)
    ensures |InvalidBelow(profiles, u + 1)| ==
              |InvalidBelow(profiles, u)| + (if u in profiles && NeedsNewId(profiles[u]) then 1 else 0)
  {
    var a, b := InvalidBelow(profiles, u), InvalidBelow(profiles, u + 1);
    assert u !in a;
    if u in profiles && NeedsNewId(profiles[u]) {
      assert b == a + {u};
    } else {
      assert b == a;
    }
  }

  /** Below a bound on every user id, the counted set is all invalid profiles. */
  lemma InvalidBelowAll(profiles: map<UserId, Profile>, n: nat)
    requires forall v :: v in profiles ==> v < n
    ensures InvalidBelow(profiles, n) == InvalidProfiles(profiles)
  {
  }

  /** Stopping at an invalid profile leaves it, at least, uncounted. */
  lemma ExhaustedCount(profiles: map<UserId, Profile>, u: nat)
    requires u in profiles && NeedsNewId(profiles[u])
    ensures |InvalidBelow(profiles, u)| < |InvalidProfiles(profiles)|
  {
    SubsetCardinality(InvalidBelow(profiles, u), InvalidProfiles(profiles) - {u});
  }

  /** A fresh eight-digit id no current profile holds was held by no profile
      at the start either: the profiles rewritten so far held invalid ids,
      and every valid one is still in place. */
  lemma FreshAgainstStart(start: map<UserId, Profile>, current: map<UserId, Profile>, u: nat, rid: string)
    requires IsRiderId(rid) && rid !in ProfileRiderIds(current)
    requires Progress(start, current, u)
    ensures rid !in ProfileRiderIds(start)
  {
  }
}
