# Account store of a personal-finance backend, in Dafny

This project models the `accounts` application of a Django expense tracker.
Riders register, change their email, password and personal details, record
incomes and expenses, track mutual funds, and read a dashboard, their recent
transactions and a portfolio summary. Two maintenance commands bring the
rider-info table in line with the users and repair malformed rider ids.

The database is replaced by one object, `Store.AccountStore`. It holds the six
tables as maps keyed by id: users, profiles (one per user), rider-info rows
keyed by rider id, incomes, expenses and mutual funds. It also holds the next
id each table hands out. Its invariant `Valid()` (`Store.Consistent`) says:

- every user has exactly one profile;
- rider ids are unique;
- every row points at an existing user;
- every id is positive and below the next one;
- every money column fits its `DecimalField`.

Every request handler is a method of that class. It keeps the invariant and
states its whole new state, and a failed request leaves the store unchanged.
The validation rules, the lookups and the aggregates are pure functions over
the maps, with lemmas stating what they guarantee.

Modules, in dependency order:

- `Common` (common.dfy): `Option`, `Result` and the error outcomes.
  - `Validation` carries the offending fields (HTTP 400).
  - `NotFound` is a 404, `ServerError` a 500.
  - `CandidatesExhausted` means the supplied random draws ran out.
- `Text` (text.dfy): Python's `strip`, ASCII `lower`, `replace(' ', '')`, `isdigit` and `str(n)`.
- `Models` (models.dfy): the rows, money as integer cents with decimal bounds, and rider-id generation.
- `Serializers` (serializers.dfy): the request validation and the username allocation loop.
- `Ledger` (ledger.dfy): the dashboard totals, and the merge and stable in-place sort of recent transactions.
  It also holds the portfolio summary.
- `Store` (store.dfy): rider-id resolution, the cascade on delete, the dual email write and the fund ownership guard.
  It also holds the rider lookups and the class `AccountStore`.
- `PopulateRiderInfo` (populate_rider_info.dfy): the `populate_rider_info` command.
  Its loop is specified by the function `Populated`.
- `UpdateRiderIds` (update_rider_ids.dfy): the `update_rider_ids` command.

Inputs the program takes from its environment:

- Randomness: `random.randint` is a parameter, a finite sequence of eight-digit draws.
- The request body is passed as parameters. `None` stands for an absent field, and an empty string for a falsy one.
- Dates are integer day numbers.

Password hashing is an abstract `Credential` that accepts exactly the password
it was set from.

## Model

| member | source | states |
|---|---|---|
| Models.GenerateRiderId | accounts/models.py:57-62 | The id returned is eight decimal digits and held by no profile. It is the first draw not taken, every earlier draw being taken. None only when every draw is taken. |
| Text.Strip | accounts/views.py:646-648 | The result is the slice of the input between its leading and trailing whitespace. It is empty exactly when the input is all whitespace, and never starts or ends with whitespace. |
| Text.StripIdempotent | accounts/views.py:661-664 | Stripping a stripped name changes nothing. |
| Text.Lower | accounts/serializers.py:29 | Same length, no upper-case letter left, each character lowered on its own. |
| Text.LowerIdempotent | accounts/serializers.py:29 | A lower-cased email is its own lower case. |
| Text.RemoveSpaces | accounts/serializers.py:60 | No space is left. Every other character keeps its number of occurrences. |
| Text.RemoveSpacesAppend | accounts/serializers.py:60 | Removing spaces distributes over concatenation, drops a lone space and keeps any other lone character, so the characters kept stay in their order. |
| Text.RemoveSpacesNoSpace | accounts/serializers.py:60 | A string without spaces is returned as it is. |
| Text.NatToString | accounts/serializers.py:69 | `str(n)` is all digits and reads back as n. It starts with 0 only for n = 0, and is a single digit exactly for n < 10. |
| Text.NatToStringInjective | accounts/serializers.py:69 | Distinct counters print as distinct suffixes. |
| Serializers.ValidateEmail | accounts/serializers.py:23-29 | Accepted exactly when no existing email matches case-insensitively. An accepted email is returned lower-cased. |
| Serializers.StoredEmailBlocksEveryCasing | accounts/serializers.py:27-29 | Once an accepted email is stored, every other casing of it is rejected. |
| Serializers.ValidateRegistration | accounts/serializers.py:13-47 | Accepted exactly when: the email is present and not taken in any casing; the password has at least 6 characters and equals the confirmation; both names are present and at most 150 characters. A taken email or a short or mismatched password is always rejected. An accepted registration carries the lower-cased email. |
| Serializers.BaseUsername | accounts/serializers.py:59-63 | The lower-cased first and last names run together with every space removed, or "user" when nothing is left. It is never empty and has no space and no upper-case letter. |
| Serializers.BaseUsernameIgnoresSpaces | accounts/serializers.py:59 | A space between the names does not change the base username. |
| Serializers.CandidateInjective | accounts/serializers.py:65-70 | The names `base`, `base1`, `base2`, ... are pairwise distinct. |
| Serializers.AllocateUsername | accounts/serializers.py:65-70 | The name returned is not taken. It is the k-th candidate for some k, and every earlier candidate is taken, so it is the first free one. The loop terminates because each rejected candidate is a distinct member of the finite set of names. |
| Serializers.ChangeEmailErrors | accounts/serializers.py:95-109 | The current password is rejected exactly when it is missing or wrong. The new email is rejected exactly when it is missing or used by any user in any casing, the caller included. |
| Serializers.ValidateChangePassword | accounts/serializers.py:115-130 | Succeeds exactly when the old password is right and both new passwords are present and equal. A wrong old password is always reported. The mismatch of the new passwords is reported alone, and only once every field passed. |
| Serializers.EntryErrors | accounts/serializers.py:133-142 | The category, amount and date fields are each reported exactly when wrong: a source or category that is empty or over 100 characters, an amount that is missing or does not fit 10 digits with 2 places, a missing date. No error exactly when none of these holds. |
| Serializers.FundErrors | accounts/serializers.py:144-147 | Each fund field is reported exactly when it is supplied but out of bounds, or absent on a create. |
| Serializers.ApplyFundFields | accounts/views.py:439-441 | A partial update replaces each supplied field (name, fund type, invested amount, current value) and keeps the others and the owner. |
| Ledger.RowsOf | accounts/views.py:353-354 | Every row of the table that the user owns, below the next id, is listed once. The list is in increasing id order, and each row has its own category, amount and date. |
| Ledger.SumAppend | accounts/views.py:353-354 | The total of two lists is the sum of their totals. |
| Ledger.DashboardTotals | accounts/views.py:353-356 | The income and expense totals are the sums of the listed amounts. `total_saving` is `total_income - total_expense` and `balance` equals it. An empty list sums to 0. |
| Ledger.DashboardAddIncome | accounts/views.py:353-356 | One more income raises the income total and the balance by its amount. |
| Ledger.DashboardAddExpense | accounts/views.py:353-356 | One more expense raises the expense total and lowers the balance by its amount. |
| Ledger.InsertDescPermutes | accounts/views.py:385 | Inserting adds exactly the element. |
| Ledger.SortDescPermutes | accounts/views.py:385 | Sorting is a permutation. |
| Ledger.SortDescSorted | accounts/views.py:385 | The sort puts dates in non-increasing order. |
| Ledger.SortDescStable | accounts/views.py:385 | The sort is stable: on each date, elements keep their relative order. |
| Ledger.InsertInPlace | accounts/views.py:385 | One in-place insertion step turns the array prefix into the sorted insertion and leaves the rest alone. |
| Ledger.MoveBackPastOlder | accounts/views.py:385 | The element moves back past exactly the elements older than it, and stops behind one dated on or after it. |
| Ledger.SortByDateDesc | accounts/views.py:385 | The in-place sort leaves the array equal to the stable descending sort of its old contents. |
| Ledger.Latest | accounts/views.py:377-378 | The five newest rows, or all of them when there are fewer, newest first, drawn from the input. No row left out is newer than a row kept. |
| Ledger.RecentProperties | accounts/views.py:377-385 | At most ten rows, newest first. They are exactly the rows `Latest` keeps of the incomes and of the expenses, reordered. On each date the incomes come before the expenses. |
| Ledger.MergeRecent | accounts/views.py:384-385 | The merged, sorted array is the list specified by `Recent`. |
| Ledger.SortedList | accounts/views.py:385 | The list sorted in place comes back as the stable newest-first sort of its contents. |
| Ledger.FundIdsOf | accounts/views.py:508 | The ids listed are ids of the user's funds below the next id, in strictly increasing order. |
| Ledger.FundIdsOfComplete | accounts/views.py:508 | Every id of a fund the user owns below the next id is listed, so there are exactly as many ids as owned funds. |
| Ledger.FundsOf | accounts/views.py:508 | Entry j is the fund stored under the j-th owned id, in increasing id order: every fund the user owns below the next id appears once, and no other fund appears. |
| Ledger.FundIdsOfAgree | accounts/views.py:508 | Two tables that agree on which ids below the next id the user owns list the same ids. |
| Ledger.FundsOfAgree | accounts/views.py:508 | Two tables that also agree on those funds give the user the same portfolio. |
| Ledger.GainLossPercentage | accounts/views.py:523-527 | With something invested, percentage times invested is gain times 100. Otherwise, a negative total included, it is exactly 0. |
| Ledger.PercentageSign | accounts/views.py:521-527 | With something invested, the percentage has the sign of the gain. |
| Ledger.RoundHalfEven | accounts/views.py:534 | Within one half of the input, and even on a tie. |
| Ledger.RoundIsNearest | accounts/views.py:534 | No integer is closer to the input than its rounding. |
| Ledger.TotalsAppend | accounts/views.py:512-515 | The invested and current totals of two lists are the sums of their totals. |
| Ledger.PortfolioSummary | accounts/views.py:512-535 | The totals are the sums of the funds' invested amounts and current values, and `total_gain_loss` is current minus invested. The percentage follows the division-by-zero guard. No funds gives zeros. The rounded figure is within half a hundredth of the exact one. |
| Ledger.PortfolioAddFund | accounts/views.py:512-521 | One more fund raises the invested total, the current total and the gain by its own amounts. |
| Store.UserByRiderId | accounts/views.py:22-27 | Returns the user whose profile holds the rider id, as the only such user. Not found exactly when no profile holds it. A 500 (several matches) only when rider ids are not unique. |
| Store.Resolve | accounts/views.py:205-211 | A missing rider id is a 400 on that field. Otherwise the lookup decides. |
| Store.ResolveIffHeld | accounts/views.py:22-27 | With unique rider ids, a non-empty rider id resolves exactly when some profile holds it, and then to that profile's user. |
| Store.RiderInfosWithEmail | accounts/views.py:227-233 | Every rider-info row of the user gets the new email. All other columns and all other rows stay. |
| Store.VerifyRiderEmail | accounts/views.py:787-811 | Verified exactly when both values are given and the row of that rider id carries that email. Anything else given is a 404, and a missing value is a 400. |
| Store.ChangedEmailVerifies | accounts/views.py:224-233 | After an email change the user's rider id verifies with the new email, and no longer with the old one. |
| Store.AllRiders | accounts/views.py:743-747 | `total_riders` is the number of rider-info rows and `active_riders` the number of active ones. They are equal exactly when every row is active. |
| Store.ActiveBound | accounts/views.py:744-745 | There are never more active riders than riders. |
| Store.AllRidersAsWritten | accounts/views.py:712-750 | As written: a 500 exactly when some row's user has a profile, since reading `profile.created_at` fails. Otherwise the intended counts. |
| Store.AllRidersAsWrittenFails | accounts/views.py:720-726 | A store with one user, its profile and its active row: the intended counts are (1, 1), and the handler as written gives a 500. |
| Store.PersonalInfoUpdate | accounts/views.py:634-666 | Rejected without change when neither name is given. Otherwise rejected exactly when a given name is blank or over 150 characters once stripped, naming exactly those fields. On success a given name is stored stripped, an omitted one kept, and nothing else changes. |
| Store.PersonalInfoIdempotent | accounts/views.py:661-666 | Sending the same names again gives the same user. |
| Store.WithoutUser | accounts/models.py:9-33 | After the cascade of `user.delete()`, exactly the other users' rows of a table remain, unchanged: incomes, expenses, funds and rider-info rows alike. |
| Store.DeletedUserHasNoRows | accounts/views.py:294 | A deleted user has no rows left and totals 0. |
| Store.DeletedUserHasNoFunds | accounts/models.py:33 | A deleted user has no funds left, so its portfolio totals are 0. |
| Store.CascadeKeepsOthers | accounts/models.py:21 | Every other user's incomes and expenses are listed exactly as before the cascade. |
| Store.FundCascadeKeepsOthers | accounts/models.py:33 | Every other user's portfolio is the same after the cascade. |
| Store.UpdateOwnedFund | accounts/views.py:434-443 | A fund not owned by the user is a 404. An owned one is updated exactly when the partial fields are valid, with only that fund changed. |
| Store.DeleteOwnedFund | accounts/views.py:483-492 | Succeeds exactly when the user owns the fund, and removes that fund alone. Otherwise a 404. |
| Store.FundChangeKeepsOthers | accounts/views.py:485-492 | Changing one user's funds leaves every other user's portfolio as it was. |
| Store.ProfileUpdate | accounts/views.py:152-195 | Errors are those of the rider lookup. It succeeds exactly when the rider id resolves to a stored user, and then returns that user's stored username, email and names. |
| Store.ProfileUpdateSucceeds | accounts/views.py:152-195 | In a consistent store every resolved rider id gets a 200, whatever the request. |
| Store.ProfileUpdateIgnoresRequest | accounts/views.py:168-195 | Two requests for the same rider id get the same response: the read-only fields ignore what was sent. |
| Store.ConsistentAfterDelete | accounts/models.py:44 | The cascade keeps the store consistent: no row is left pointing at the deleted user. |
| Store.ConsistentAfterRiderIdChange | accounts/models.py:47 | Giving a profile a rider id no profile holds keeps rider ids unique. |
| Store.AccountStore.InsertUser | accounts/models.py:55-64 | The user gets the next id and, through the signal, a profile with the fresh rider id. Nothing else changes. |
| Store.AccountStore.SaveUser | accounts/views.py:268-269 | Only that user's row changes. |
| Store.AccountStore.SaveEmail | accounts/views.py:224-233 | The user's email and the email of the user's rider-info row change together, and nothing else. |
| Store.AccountStore.RemoveUser | accounts/views.py:294 | The user, its profile and every row it owns go. Nothing else changes. |
| Store.AccountStore.InsertEntry | accounts/views.py:315 | The entry takes the next id of its table. Nothing else changes. |
| Store.AccountStore.InsertFund | accounts/views.py:403 | The fund takes the next fund id. Nothing else changes. |
| Store.AccountStore.SaveFund | accounts/views.py:441 | Only that fund changes, as `ApplyFundFields` says. |
| Store.AccountStore.RemoveFund | accounts/views.py:492 | Exactly that fund goes. |
| Store.AccountStore.CreateRiderInfo | accounts/management/commands/populate_rider_info.py:21-29 | The row is added under its rider id. Nothing else changes. |
| Store.AccountStore.SyncRiderInfo | accounts/management/commands/populate_rider_info.py:41-49 | Only the email and username of that row change. |
| Store.AccountStore.SetRiderId | accounts/management/commands/update_rider_ids.py:22-24 | Only that profile's rider id changes, and the invariant (unique rider ids) holds. |
| Store.AccountStore.Register | accounts/views.py:33-54 | A registration the rules reject changes nothing and reports their error. An accepted one fails, changing nothing, exactly when every draw is already a profile's rider id. Otherwise it adds exactly the new user under the next user id and advances that counter by one. The other counters never move. The user has the first candidate username no existing user has, the lower-cased email and the password. It also gets a profile whose rider id is the first draw no profile holds. |
| Store.AccountStore.DrawRiderId | accounts/models.py:58-62 | The id returned is the first draw no profile holds, and eight digits. None exactly when every draw is held. |
| Store.AccountStore.ChangeEmail | accounts/views.py:204-239 | Lookup and validation failures change nothing. On success the user's email and the user's rider-info rows get the new email, and nothing else changes, the id counters included. |
| Store.AccountStore.ChangePassword | accounts/views.py:248-275 | The outcome is the serializer's. Only a success changes the store, and only that user's password. No id counter moves. |
| Store.AccountStore.DeleteAccount | accounts/views.py:284-299 | A resolved rider id deletes the user, its profile and all its rows, and nothing else: the id counters stay, so deleted ids are not reused. An unresolved one changes nothing. |
| Store.AccountStore.UpdatePersonalInfo | accounts/views.py:622-684 | The outcome is `PersonalInfoUpdate`'s. Only a success writes, and only that user's names. No id counter moves. |
| Store.AccountStore.AddEntry | accounts/views.py:304-340 | A lookup or field error changes nothing; a missing amount or date is a 400 naming that field. A resolved rider id with valid fields always succeeds, adding exactly the new income or expense under the next id of its table. That table's counter advances past the new id, and no other counter moves. |
| Store.AccountStore.AddFund | accounts/views.py:391-405 | Every field is required. A resolved rider id with valid fields always succeeds, adding exactly the new fund under the next fund id. The fund counter advances past it, and no other counter moves. |
| Store.AccountStore.UpdateFund | accounts/views.py:425-443 | The outcome and the new fund table are those of `UpdateOwnedFund`. No id counter moves. |
| Store.AccountStore.DeleteFund | accounts/views.py:447-494 | The presence checks come before the lookup. It succeeds exactly when the resolved user owns the fund, and then removes that one fund. No id counter moves. |
| Store.AccountStore.Dashboard | accounts/views.py:344-363 | Lookup errors pass through. A resolved user gets `DashboardTotals` of exactly that user's incomes and expenses, so the balance is income minus expense. |
| Store.AccountStore.RecentTransactions | accounts/views.py:368-387 | Lookup errors pass through. A resolved rider id always succeeds with the user's recent list as `Recent` defines it: at most ten rows, newest first. |
| Store.AccountStore.Portfolio | accounts/views.py:498-537 | Lookup errors pass through. A resolved user gets `PortfolioSummary` of exactly that user's funds. |
| PopulateRiderInfo.Visit | accounts/management/commands/populate_rider_info.py:17-55 | A profile without a rider id changes nothing. Otherwise the row of its rider id ends in sync with the user. A new row is active and owned by the user. An existing row keeps its owner and active flag. A row already in sync is left alone. |
| PopulateRiderInfo.Populated | accounts/management/commands/populate_rider_info.py:14-55 | No row is ever removed. |
| PopulateRiderInfo.Handle | accounts/management/commands/populate_rider_info.py:9-55 | The rider-info table ends as `Populated` over all users. `created_count` and `updated_count` are the numbers of rows missing and out of sync at the start. Nothing else changes. |
| PopulateRiderInfo.CountStep | accounts/management/commands/populate_rider_info.py:31-55 | Each visit adds at most one to each counter. |
| PopulateRiderInfo.VisitSeesStart | accounts/management/commands/populate_rider_info.py:21-29 | With unique rider ids, each visit sees the row its rider id had at the start. |
| PopulateRiderInfo.PopulatedElsewhere | accounts/management/commands/populate_rider_info.py:21-55 | A rider id no visited profile holds keeps its row, or its absence. |
| PopulateRiderInfo.PopulatedSyncs | accounts/management/commands/populate_rider_info.py:21-47 | Afterwards every processed profile's rider id has a row in sync with its user. |
| PopulateRiderInfo.PopulatedRows | accounts/management/commands/populate_rider_info.py:21-29 | Existing rows keep owner and active flag. Created rows are active and owned by the profile holding their rider id. |
| PopulateRiderInfo.PopulatedFixed | accounts/management/commands/populate_rider_info.py:40-48 | A table already in sync is left exactly as it is. |
| PopulateRiderInfo.PopulateIdempotent | accounts/management/commands/populate_rider_info.py:21-55 | A second run changes nothing and creates and updates nothing. |
| UpdateRiderIds.NeedsNewIdIffNotRiderId | accounts/management/commands/update_rider_ids.py:14 | The command's test rejects exactly what is not an eight-digit id. |
| UpdateRiderIds.Handle | accounts/management/commands/update_rider_ids.py:9-31 | Valid profiles are untouched. A changed profile only gets an eight-digit id that no profile held at the start. A full run leaves every profile valid, changes exactly the invalid ones and counts them all. A run stops early only after using every draw, each one then a rider id some profile holds, and it has counted fewer. |
| UpdateRiderIds.Visit | accounts/management/commands/update_rider_ids.py:14-31 | One profile: an invalid one is rewritten unless the draws run out, and a valid one is passed over. Every draw it consumes is held afterwards, and every eight-digit id stays held. Running out consumes every draw. |
| UpdateRiderIds.Draw | accounts/management/commands/update_rider_ids.py:16-20 | The id returned is the first draw from the current position that no profile holds now, and eight digits. The draws skipped were held. None only when every remaining draw is held. |
| UpdateRiderIds.RewriteHolds | accounts/management/commands/update_rider_ids.py:16-24 | Giving an invalid profile a drawn id keeps every eight-digit id held, and leaves every draw used for it held. |
| UpdateRiderIds.HeldStep | accounts/management/commands/update_rider_ids.py:13-24 | The draws held before a visit stay held after it, so every draw used so far is held. |
| UpdateRiderIds.FreshAgainstStart | accounts/management/commands/update_rider_ids.py:16-20 | An id fresh against the current profiles was held by no profile at the start either. |
| UpdateRiderIds.ProgressRewrite | accounts/management/commands/update_rider_ids.py:22-24 | Rewriting the current invalid profile moves the repair on by one user. |
| UpdateRiderIds.ProgressSkip | accounts/management/commands/update_rider_ids.py:13-14 | Passing over a valid or missing profile moves the repair on by one user. |
| UpdateRiderIds.ProgressRepaired | accounts/management/commands/update_rider_ids.py:13-24 | Wherever the run stops, valid profiles are untouched and changed ones only received a fresh id. |
| UpdateRiderIds.ProgressComplete | accounts/management/commands/update_rider_ids.py:13-24 | A run past every user leaves no invalid profile and changes exactly the invalid ones. |
| UpdateRiderIds.InvalidCountIsSize | accounts/management/commands/update_rider_ids.py:31 | The running count is the number of invalid profiles visited. |
| UpdateRiderIds.InvalidStep | accounts/management/commands/update_rider_ids.py:31 | Each visit adds one exactly for an invalid profile. |
| UpdateRiderIds.InvalidBelowAll | accounts/management/commands/update_rider_ids.py:13 | Past every user id, the visited invalid profiles are all the invalid ones. |
| UpdateRiderIds.ExhaustedCount | accounts/management/commands/update_rider_ids.py:19-20 | A run stopped at an invalid profile has counted fewer than all the invalid ones. |

## Left out

- Login (`LoginView`), `get_personal_info`, `get_user_info`, `get_rider_by_email` and `funds_list_api` are left out. They are read-only lookups whose fields overlap the handlers above.
- `market_data_api` is left out: it proxies an outside service over the network.
- Page-rendering views, `home` and URL routing are left out.
- Timestamps (`created_at`, `last_activity`, `date_joined`, `last_login`) and the profile picture are left out. Ordering by date uses an integer day number.
- Password hashing is left out. `check_password` and `set_password` act on an abstract credential.
- Strings: `lower()` and `isdigit()` are modelled on ASCII only. Python's Unicode case mapping and Unicode digits are not modelled.
- Whitespace trimming by the serializer's `CharField` and the format check of `EmailField` are left out. Any non-empty string counts as an email.
- Exact `Decimal` arithmetic: money is integer cents, and the percentage is an exact rational with its rounding to two places stated separately.
- Iteration order: the commands visit profiles in user-id order, where the database gives no order.
- Models.GenerateRiderId, Store.AccountStore.DrawRiderId, UpdateRiderIds.Draw: the retry loop draws for ever in the source. The model takes a finite sequence of draws.
  - An accepted registration fails with `CandidatesExhausted` exactly when every draw is already a profile's rider id, and then changes nothing.
  - `update_rider_ids` stops and reports it once the draws run out. By then every draw is a rider id that some profile holds.
- Ledger.RowsOf, Ledger.Latest, Ledger.Recent: `order_by('-date')` leaves the order of rows with the same date to the database. The model lists rows in id order, and the stable sort keeps that order among equal dates. Which of several rows sharing a date make the five latest, and their order in the response, is therefore fixed by id here, where the source leaves it open.
- The `RiderInfo` model is not part of this model's sources. Its fields (rider id, user, email, username, is active) are inferred from their use.
  - One-to-one uniqueness of `RiderInfo.user` is not modelled. An email change therefore rewrites every row of the user.
  - Deleting a user removes its rider-info rows, on the assumption that the missing foreign key cascades like the others.
- Transactions and concurrent requests are left out: each handler runs alone.
- Error responses for a `fund_id` that is not an integer are left out. The id is an `int`, and 0 stands for an absent one: stored ids start at 1.
- Responses from unexpected exceptions (the catch-all 500s) are left out, except where the code itself raises one (see Findings).
- Registration: the source catches any exception of `serializer.save()`. The model has none, except draw exhaustion.
- Output written to stdout by the commands is left out.
- Where the code differs from the project's own description and client scripts, the model follows the code:
  - deleting an account asks for no password;
  - registration creates no rider-info row;
  - a wrong current or old password is a validation error (400), not an authentication failure;
  - rider-id freshness is checked against profiles only, not rider-info rows.

## Findings

| source | as written | input that shows it | evidently intended | confidence | as-written member | corrected member |
|---|---|---|---|---|---|---|
| accounts/views.py:723 | `get_all_riders` reads `profile.created_at`, but `Profile` (accounts/models.py:43-47) has no such field. The `AttributeError` is caught at line 749 and the whole request becomes a 500. | One user with its profile and one active rider-info row. | Return the rider list with `total_riders` = 1 and `active_riders` = 1. | medium (the models file does not define `RiderInfo` either, so it may be incomplete); not executed | Store.AllRidersAsWritten, Store.AllRidersAsWrittenFails | Store.AllRiders |
