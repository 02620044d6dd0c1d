/** The rows of the account store (accounts/models.py), the fixed-point bounds
    of their money columns, and the generation of a rider id when a user's
    profile is created. */
module Models {
  import opened Common
  import opened Text

  type UserId = nat

  /** A stored password. Hashing is not modelled: a credential accepts exactly
      the password it was set from. */
  datatype Credential = Credential(secret: string)

  function SetPassword(password: string): Credential
  {
    Credential(password)
  }

  predicate CheckPassword(c: Credential, password: string)
  {
    c.secret == password
  }

  datatype User = User(username: string, email: string, firstName: string, lastName: string,
                       credential: Credential)

  /** One per user; `riderId` is nullable and unique among profiles. */
  datatype Profile = Profile(location: string, riderId: Option<string>)

  /** The denormalised row keyed by rider id (the store's map key). */
  datatype RiderInfo = RiderInfo(user: UserId, email: string, username: string, isActive: bool)

  /** An Income (category = its source) or an Expense. */
  datatype Entry = Entry(user: UserId, category: string, amount: int, date: int, notes: Option<string>)

  datatype Fund = Fund(user: UserId, name: string, fundType: string, invested: int, current: int)

  // ---- Money: DecimalField(max_digits = d, decimal_places = 2), held as integer cents.

  const LedgerMaxDigits: nat := 10
  const FundMaxDigits: nat := 12

  function Pow10(n: nat): (p: nat)
    ensures p >= 1
  {
    if n == 0 then 1 else 10 * Pow10(n - 1)
  }

  /** A value with two fraction digits fits `maxDigits` digits in all exactly
      when its count of cents has at most `maxDigits` digits. */
  predicate FitsDecimal(cents: int, maxDigits: nat)
  {
    -(Pow10(maxDigits) as int) < cents < Pow10(maxDigits)
  }

  // ---- Rider ids

  const RiderIdLength: nat := 8

  predicate IsRiderId(s: string)
  {
    |s| == RiderIdLength && AllDigits(s)
  }

  /** A result of `random.randint(0, 9)`. */
  type Digit = d: int | 0 <= d <= 9

  /** One candidate: eight such results. */
  predicate IsDraw(ds: seq<Digit>)
  {
    |ds| == RiderIdLength
  }

  /** `''.join(str(d) for d in ds)`. */
  function Render(ds: seq<Digit>): (r: string)
    ensures |r| == |ds|
    ensures forall i :: 0 <= i < |r| ==> IsDigit(r[i])
  {
    if ds == [] then []
    else Render(ds[..|ds| - 1]) + NatToString(ds[|ds| - 1])
  }

  /** The retry loop of `create_user_profile`: draw candidates until one is not
      already a profile's rider id. The random source is the sequence `draws`;
      `used` counts the draws consumed. When every supplied draw is taken the
      result is None (the source would keep drawing). */
  method GenerateRiderId(taken: set<string>, draws: seq<seq<Digit>>) returns (rid: Option<string>, used: nat)
    requires forall i :: 0 <= i < |draws| ==> IsDraw(draws[i])
    ensures used <= |draws|
    ensures forall i :: 0 <= i < used - 1 ==> Render(draws[i]) in taken
    ensures rid.Some? ==> 1 <= used && rid.value == Render(draws[used - 1])
    ensures rid.Some? ==> IsRiderId(rid.value) && rid.value !in taken
    ensures rid.None? ==> used == |draws| && forall i :: 0 <= i < |draws| ==> Render(draws[i]) in taken
  {
    if |draws| == 0 {
      return None, 0;
    }
    var candidate := Render(draws[0]);
    used := 1;
    while candidate in taken
      invariant 1 <= used <= |draws|
      invariant candidate == Render(draws[used - 1])
      invariant forall i :: 0 <= i < used - 1 ==> Render(draws[i]) in taken
      decreases |draws| - used
    {
      if used == |draws| {
        return None, used;
      }
      candidate := Render(draws[used]);
      used := used + 1;
    }
    rid := Some(candidate);
  }
}
