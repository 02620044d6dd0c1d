/** The request validation of accounts/serializers.py and the username
    allocation loop of `UserSerializer.create`.

    Django REST framework semantics that the model keeps: every field-level
    check runs and all failing fields are reported together; the object-level
    `validate` runs only when no field failed. */
module Serializers {
  import opened Common
  import opened Text
  import opened Models

  const MinPasswordLength: nat := 6
  const MaxNameLength: nat := 150
  const MaxLedgerCategoryLength: nat := 100
  const MaxFundNameLength: nat := 255
  const MaxFundTypeLength: nat := 50

  /** `User.objects.filter(email__iexact=email).exists()`. */
  predicate EmailTaken(existing: set<string>, email: string)
  {
    exists e :: e in existing && Lower(e) == Lower(email)
  }

  /** `UserSerializer.validate_email`: a case-insensitive clash is rejected, an
      accepted email is returned lower-cased. */
  function ValidateEmail(existing: set<string>, email: string): (r: Result<string>)
    ensures r.Ok? <==> !EmailTaken(existing, email)
    ensures r.Ok? ==> r.value == Lower(email) && Lower(r.value) == r.value
    ensures r.Err? ==> r.error == Validation({Email})
  {
    LowerIdempotent(email);
    if EmailTaken(existing, email) then Err(Validation({Email})) else Ok(Lower(email))
  }

  /** Once an accepted email is stored, every casing of it is taken. */
  lemma StoredEmailBlocksEveryCasing(existing: set<string>, email: string, other: string)
    requires ValidateEmail(existing, email).Ok?
    requires Lower(other) == Lower(email)
    ensures EmailTaken(existing + {ValidateEmail(existing, email).value}, other)
  {
    var stored := ValidateEmail(existing, email).value;
    assert stored in existing + {stored} && Lower(stored) == Lower(other);
  }

  /** A registration that passed validation. */
  datatype Registration = Registration(email: string, password: string, firstName: string, lastName: string)

  /** The field-level errors of `UserSerializer`: required email that is not
      taken, passwords of at least six characters, names present and at most
      150 characters. */
  function RegistrationFieldErrors(existing: set<string>, email: string, password: string,
                                   confirm: string, first: string, last: string): set<Field>
  {
    (if email == [] || EmailTaken(existing, email) then {Email} else {})
    + (if |password| < MinPasswordLength then {Password} else {})
    + (if |confirm| < MinPasswordLength then {ConfirmPassword} else {})
    + (if first == [] || |first| > MaxNameLength then {FirstName} else {})
    + (if last == [] || |last| > MaxNameLength then {LastName} else {})
  }

  /** `RegisterView.post` up to `serializer.save()`: the view's exact-match email
      check, then the serializer's field checks, then password confirmation. */
  function ValidateRegistration(existing: set<string>, email: string, password: string,
                                confirm: string, first: string, last: string): (r: Result<Registration>)
    ensures r.Ok? <==>
      && email != [] && !EmailTaken(existing, email)
      && |password| >= MinPasswordLength && password == confirm
      && 0 < |first| <= MaxNameLength && 0 < |last| <= MaxNameLength
    ensures r.Ok? ==> r.value == Registration(Lower(email), password, first, last)
    ensures r.Err? ==> r.error.Validation? && r.error.fields != {}
    ensures EmailTaken(existing, email) ==> r == Err(Validation({Email})) || (r.Err? && Email in r.error.fields)
    ensures |password| < MinPasswordLength ==> r.Err?
    ensures password != confirm ==> r.Err?
  {
    if email != [] && email in existing then
      assert Lower(email) == Lower(email);
      Err(Validation({Email}))
    else
      var errs := RegistrationFieldErrors(existing, email, password, confirm, first, last);
      if errs != {} then Err(Validation(errs))
      else if password != confirm then Err(Validation({ConfirmPassword}))
      else Ok(Registration(Lower(email), password, first, last))
  }

  /** The base username: first and last name concatenated, lower-cased, with
      every space removed; "user" when nothing is left. */
  function BaseUsername(first: string, last: string): (r: string)
    ensures r != []
    ensures ' ' !in r
    ensures forall i :: 0 <= i < |r| ==> !('A' <= r[i] <= 'Z')
    ensures r != "user" ==> forall c :: c != ' ' ==> multiset(r)[c] == multiset(Lower(first + last))[c]
    ensures RemoveSpaces(Lower(first + last)) == [] ==> r == "user"
    ensures RemoveSpaces(Lower(first + last)) != [] ==> r == RemoveSpaces(Lower(first + last))
  {
    var b := RemoveSpaces(Lower(first + last));
    if b == [] then "user" else b
  }

  /** Where the spaces were does not matter: a space added between the first and
      the last name leaves the base username as it was. */
  lemma BaseUsernameIgnoresSpaces(first: string, last: string)
    ensures BaseUsername(first + " ", last) == BaseUsername(first, last)
  {
    var a, b := Lower(first), Lower(last);
    assert Lower(first + " " + last) == a + " " + b;
    assert Lower(first + last) == a + b;
    RemoveSpacesAppend(a + " ", b);
    RemoveSpacesAppend(a, " ");
    RemoveSpacesAppend(a, b);
  }

  /** The k-th name tried: the base itself, then base1, base2, ... */
  function Candidate(base: string, k: nat): string
  {
    if k == 0 then base else base + NatToString(k)
  }

  lemma CandidateInjective(base: string, i: nat, j: nat)
    requires Candidate(base, i) == Candidate(base, j)
    ensures i == j
  {
    if i != 0 && j != 0 {
      assert NatToString(i) == Candidate(base, i)[|base|..];
      assert NatToString(j) == Candidate(base, j)[|base|..];
      NatToStringInjective(i, j);
    }
  }

  /** The uniqueness loop of `UserSerializer.create`: the first candidate that
      no existing user has. It terminates because every rejected candidate is a
      distinct member of the finite set `taken`. */
  method AllocateUsername(base: string, taken: set<string>) returns (username: string)
    ensures username !in taken
    ensures exists k: nat :: username == Candidate(base, k)
                             && forall j: nat :: j < k ==> Candidate(base, j) in taken
  {
    username := base;
    var counter: nat := 1;
    ghost var rejected: set<string> := {};
    while username in taken
      invariant counter >= 1
      invariant username == Candidate(base, counter - 1)
      invariant forall j: nat :: j < counter - 1 ==> Candidate(base, j) in taken
      invariant rejected <= taken && |rejected| == counter - 1
      invariant forall s :: s in rejected ==> exists j: nat :: j < counter - 1 && s == Candidate(base, j)
      decreases |taken| - |rejected|
    {
      assert username !in rejected by {
        if username in rejected {
          var j: nat :| j < counter - 1 && username == Candidate(base, j);
          CandidateInjective(base, j, counter - 1);
        }
      }
      SubsetCardinality(rejected + {username}, taken);
      rejected := rejected + {username};
      username := base + NatToString(counter);
      counter := counter + 1;
    }
  }

  lemma {:induction false} SubsetCardinality<T>(a: set<T>, b: set<T>)
    requires a <= b
    ensures |a| <= |b|
    decreases a
  {
    if a != {} {
      var x :| x in a;
      SubsetCardinality(a - {x}, b - {x});
    }
  }

  /** `ChangeEmailSerializer`: the current password must be right and the new
      email must not belong to any user, the caller included, in any casing. */
  function ChangeEmailErrors(credential: Credential, currentPassword: string, newEmail: string,
                             existing: set<string>): (errs: set<Field>)
    ensures errs <= {CurrentPassword, NewEmail}
    ensures CurrentPassword in errs <==> currentPassword == [] || !CheckPassword(credential, currentPassword)
    ensures NewEmail in errs <==> newEmail == [] || EmailTaken(existing, newEmail)
  {
    (if currentPassword == [] || !CheckPassword(credential, currentPassword) then {CurrentPassword} else {})
    + (if newEmail == [] || EmailTaken(existing, newEmail) then {NewEmail} else {})
  }

  /** `ChangePasswordSerializer`: the old password is checked at field level, the
      match of the two new passwords only once every field passed. */
  function ValidateChangePassword(credential: Credential, oldPassword: string, newPassword: string,
                                  confirm: string): (r: Outcome)
    ensures r.Done? <==> oldPassword != [] && CheckPassword(credential, oldPassword)
                          && newPassword != [] && newPassword == confirm
    ensures r.Failed? ==> r.error.Validation?
    ensures oldPassword != [] && !CheckPassword(credential, oldPassword) ==> r.Failed? && OldPassword in r.error.fields
    ensures (oldPassword != [] && CheckPassword(credential, oldPassword) && newPassword != [] && confirm != []
             && newPassword != confirm) ==> r == Failed(Validation({NewPassword}))
  {
    var errs := (if oldPassword == [] || !CheckPassword(credential, oldPassword) then {OldPassword} else {})
                + (if newPassword == [] then {NewPassword} else {})
                + (if confirm == [] then {ConfirmNewPassword} else {});
    if errs != {} then Failed(Validation(errs))
    else if newPassword != confirm then Failed(Validation({NewPassword}))
    else Done
  }

  /** `IncomeSerializer` / `ExpenseSerializer` on a new row: the source or
      category, the amount and the date are all required (None = not supplied). */
  function EntryErrors(category: string, amount: Option<int>, date: Option<int>): (errs: set<Field>)
    ensures Label in errs <==> category == [] || |category| > MaxLedgerCategoryLength
    ensures Amount in errs <==> amount.None? || !FitsDecimal(amount.value, LedgerMaxDigits)
    ensures EntryDate in errs <==> date.None?
    ensures errs <= {Label, Amount, EntryDate}
    ensures errs == {} <==> && 0 < |category| <= MaxLedgerCategoryLength
                            && amount.Some? && FitsDecimal(amount.value, LedgerMaxDigits) && date.Some?
  {
    (if category == [] || |category| > MaxLedgerCategoryLength then {Label} else {})
    + (if amount.None? || !FitsDecimal(amount.value, LedgerMaxDigits) then {Amount} else {})
    + (if date.None? then {EntryDate} else {})
  }

  /** The fields a fund request may carry; None = not supplied. */
  datatype FundFields = FundFields(name: Option<string>, fundType: Option<string>,
                                   invested: Option<int>, current: Option<int>)

  /** `MutualFundSerializer` on the supplied fields (all are required on create). */
  function FundErrors(f: FundFields, partial: bool): (errs: set<Field>)
    ensures FundName in errs <==> (if f.name.Some? then f.name.value == [] || |f.name.value| > MaxFundNameLength else !partial)
    ensures FundType in errs <==> (if f.fundType.Some? then f.fundType.value == [] || |f.fundType.value| > MaxFundTypeLength else !partial)
    ensures InvestedAmount in errs <==> (if f.invested.Some? then !FitsDecimal(f.invested.value, FundMaxDigits) else !partial)
    ensures CurrentValue in errs <==> (if f.current.Some? then !FitsDecimal(f.current.value, FundMaxDigits) else !partial)
    ensures errs <= {FundName, FundType, InvestedAmount, CurrentValue}
  {
    (if (if f.name.Some? then f.name.value == [] || |f.name.value| > MaxFundNameLength else !partial) then {FundName} else {})
    + (if (if f.fundType.Some? then f.fundType.value == [] || |f.fundType.value| > MaxFundTypeLength else !partial) then {FundType} else {})
    + (if (if f.invested.Some? then !FitsDecimal(f.invested.value, FundMaxDigits) else !partial) then {InvestedAmount} else {})
    + (if (if f.current.Some? then !FitsDecimal(f.current.value, FundMaxDigits) else !partial) then {CurrentValue} else {})
  }

  /** A fund after a partial update: supplied fields replaced, the rest (and the
      owner) kept. */
  function ApplyFundFields(fund: Fund, f: FundFields): (r: Fund)
    ensures r.user == fund.user
    ensures r.name == (if f.name.Some? then f.name.value else fund.name)
    ensures r.fundType == (if f.fundType.Some? then f.fundType.value else fund.fundType)
    ensures r.invested == (if f.invested.Some? then f.invested.value else fund.invested)
    ensures r.current == (if f.current.Some? then f.current.value else fund.current)
  {
    Fund(fund.user,
         if f.name.Some? then f.name.value else fund.name,
         if f.fundType.Some? then f.fundType.value else fund.fundType,
         if f.invested.Some? then f.invested.value else fund.invested,
         if f.current.Some? then f.current.value else fund.current)
  }
}
