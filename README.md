# Daily Expense Tracker: the record logic of the FastAPI backend, in Dafny

This project models the routers of the Daily Expense Tracker backend over its
MongoDB collections. The parts modelled are:

- **Funds ledger and reconciler** (`router/funds.py`). The reconciler
  `update_user_funds` sets `spent = min(sum of the user's expense amounts,
  total_funds)` and `balance = total_funds - spent`. When the user has no
  record, it creates a zeroed one first. Four routes run on top of it:
  - `allocate_funds` adds to the total.
  - `update_funds` overwrites the total.
  - `get_funds` reads without creating a record.
  - `delete_funds` zeroes the three figures.

  Every funds route keys on the email after `strip().lower()`.
- **Expenses** (`router/expenses.py`):
  - insertion with the category stored as `strip().capitalize()`;
  - the listing, with an optional inclusive date range and a case-insensitive
    category;
  - the monthly summary (group by year and month, sum, newest first,
    `YYYY-MM` labels);
  - the top-three categories by total.
- **Name registries** (`router/categories.py`, `router/roles.py`). A name is
  normalised and refused when a stored name equals it ignoring case. Otherwise
  it is inserted.
- **Users** (`router/users.py`):
  - registration refuses a duplicate email;
  - login checks the password as plain text or through the bcrypt check;
  - partial update builds a patch from the allowed, non-empty fields;
  - delete removes by id.
- **Serialisers** (`serializers.py`).

The collections are fields of one `Database.Db` object: the expenses,
categories, roles and users are sequences in insertion order, and the funds
collection is a map from email to record. The unique index on `email_id`
(database.py:13) is what makes the funds collection a map. Each route is a
method that changes only the fields its collection lives in. The invariant
`Db.Valid` holds for every funds record: its total is non-negative, its spend
is at most its total, and its balance is the difference (hence never negative).
`Db.Valid` also requires that ObjectIds are handed out fresh and that user ids
are distinct.

Between a route's own write and the reconciler's, the one record just written
may be out of step. The predicate `Database.Pending` describes that
intermediate state, and `Funds.ReconcileKey` settles it.

Python's string operations are modelled explicitly:

- `Text.Strip` uses the full `str.isspace` set.
- `Text.Lower` and `Text.Capitalize` work on ASCII letters.
- `Dates.ParseYmd` follows the `%Y-%m-%d` pattern of `datetime.strptime`.
- `ObjectIds` models BSON ObjectIds: `str(oid)` is 24 lower-case hex digits,
  and `ObjectId.is_valid` accepts 24 hex digits.

Things the model takes as parameters:

- Clock readings (`datetime.utcnow()`) are `int` parameters. A route that reconciles passes two: its own reading `now` and the reconciler's later reading `reconciledAt`.
- bcrypt's `hashpw` and `checkpw` are function parameters.
- FastAPI's body validation (`gt=0`, `ge=0`) becomes an `Unprocessable` error
  that leaves the store unchanged.
- An `HTTPException` raised inside a `try` whose `except Exception` re-raises
  it as a 500 is modelled as `Internal` with the detail `str(e)`, e.g.
  `"404: Funds record not found"`.

Amounts are integers (minor units).

In the code, expenses carry no owner when added through the API, and
adding an expense neither checks nor reconciles funds. The code has no expense
update or delete route. The listing is not filtered by owner.

## Model

| member | source | states |
|---|---|---|
| Text.Strip | router/funds.py:19 | `strip()` leaves no white space at either end and never lengthens the string |
| Text.StripRemovesEnds | router/funds.py:19 | the stripped string is a contiguous slice of the input with only white space before and after it |
| Text.NormalizeEmailIdempotent | router/funds.py:19 | `strip().lower()` of a key already in that form is the key itself, so every funds route and the reconciler it calls use the same key |
| Text.LowerOfNormalizedName | router/categories.py:17-21 | lower-casing `strip().capitalize()` gives `strip().lower()`: capitalisation never changes a case-insensitive comparison |
| Text.NormalizeNameIdempotent | router/categories.py:17 | normalising a stored name again leaves it unchanged |
| Text.NormalizeNameShape | router/expenses.py:24 | a stored category has no surrounding white space, no lower-case first letter, no upper-case letter after the first, and equals the stripped input ignoring case |
| Text.AppendKeepsNoCaseDuplicates | router/categories.py:19-27 | inserting a name that no stored name matches ignoring case keeps all names pairwise distinct ignoring case |
| Text.Decimal | router/expenses.py:102 | `str(n)` is a non-empty string of digits with a single digit exactly when `n < 10` |
| Text.Pad2 | router/expenses.py:102 | `f"{n:02d}"` has at least two digits, exactly two below 100 |
| Text.DecimalRoundTrip | router/expenses.py:102 | `int(str(n)) == n` |
| Text.Pad2RoundTrip | router/expenses.py:102 | reading back `f"{n:02d}"` gives `n` |
| Text.DecimalInjective | router/expenses.py:102 | distinct years render as distinct strings |
| Text.DecimalOfFourDigits | serializers.py:9 | a year from 1000 to 9999 renders in four digits |
| ObjectIds.ToHex | serializers.py:6 | `str(oid)` has exactly the given number of hex digits |
| ObjectIds.Parse | router/users.py:75-76 | `ObjectId(s)` succeeds exactly when `ObjectId.is_valid(s)` |
| ObjectIds.HexValueBound | router/users.py:108 | a string of n hex digits denotes a number below 16^n |
| ObjectIds.ToHexRoundTrip | serializers.py:6 | reading back the hex digits of `n` gives `n` when it fits |
| ObjectIds.ParseIdString | serializers.py:6 | every ObjectId's string is valid and parses back to that ObjectId |
| ObjectIds.FromHexRoundTrip | router/users.py:108 | rendering the number a hex string denotes gives that string in lower case |
| ObjectIds.ParseValid | router/users.py:75-76 | a valid id string denotes an ObjectId whose string form is the input in lower case |
| Dates.MonthFieldLength | router/expenses.py:56 | the `%m` field found is one or two digits followed by '-', never longer |
| Dates.DayFieldLength | router/expenses.py:56 | the `%d` field found is one or two characters |
| Dates.ParseYmd | router/expenses.py:56-57 | a string `strptime` accepts gives a valid date at midnight |
| Dates.Pad2Digits | serializers.py:9 | a month or day renders as its tens digit and its units digit |
| Dates.MonthDayFields | serializers.py:9 | the `%m-%d` text `strftime` writes is read back as a two-character month, '-', and a two-character day |
| Dates.ParseFormatRoundTrip | serializers.py:9 | `strptime(strftime(t, "%Y-%m-%d"), "%Y-%m-%d")` is midnight of `t`'s day for four-digit years |
| Grouping.AddToSpec | router/expenses.py:82-88 | adding an amount for a key adds that key only when it is missing, and adds the amount to that key's total and to no other |
| Grouping.GroupSumSpec | router/expenses.py:82-88 | `$group` with `$sum` yields each key of the input exactly once, and each key's total is the sum of its amounts |
| Grouping.InsertSpec | router/expenses.py:91 | inserting a group into a list sorted by descending rank keeps it sorted and adds exactly that group |
| Grouping.SortDescSpec | router/expenses.py:91 | the `$sort` result is in non-increasing rank and is a permutation of its input |
| Grouping.RankedGroups | router/expenses.py:80-93 | grouping then sorting gives distinct keys, each the sum of its amounts, every key of the input present, in descending order |
| Grouping.Take | router/expenses.py:160 | `$limit n` keeps the first n groups, or all of them when there are fewer |
| Database.WritePending | router/funds.py:89-100 | a route writing a record with a non-negative total leaves every other record consistent |
| Database.Settle | router/funds.py:52-59 | writing a consistent record for the pending key restores the invariant for all records |
| Database.StoreFund | router/funds.py:159-162 | writing a consistent record keeps the invariant |
| Database.Db.constructor | database.py:8-13 | the collections start empty and valid |
| Database.Db.NewId | router/expenses.py:27 | `insert_one` takes the counter's value as the new ObjectId and advances the counter; under `Db.Valid` no stored document has that id |
| Serializers.ExpenseSerializerFaithful | serializers.py:4-10 | the id reads back as the document's ObjectId; amount and category are copied; the date is present exactly when stored and reads back as that day; a missing description is `""` |
| Serializers.CategorySerializerFaithful | serializers.py:12-16 | the id reads back as the category's ObjectId and the name is copied |
| Funds.Min | router/funds.py:48 | `min` is at most both arguments and is one of them |
| Funds.Reconciled | router/funds.py:35-59 | the reconciled record keeps email, total and creation time; has the new update time; and has spend `min(sum, total)` and balance `total - spend >= 0` |
| Funds.ReconcileKey | router/funds.py:21-60 | a missing record is first created zeroed; only that user's record changes, to the reconciled record; the answer carries its figures; all records end consistent |
| Funds.Reconcile | router/funds.py:13-60 | as `ReconcileKey` for the key `strip().lower()` of the given email |
| Funds.ReconcileIdempotent | router/funds.py:14-17 | reconciling twice with no expense change gives the same total, spent and balance |
| Funds.Allocated | router/funds.py:79-100 | the record written before reconciling has total `old total + amount`, or `amount` for a new record, under the user's email |
| Funds.AllocateFunds | router/funds.py:72-105 | a non-positive amount is refused with nothing written; otherwise the user's record becomes the allocated record stamped with the handler's clock reading, reconciled at the reconciler's own reading, and nothing else changes |
| Funds.UpdateFunds | router/funds.py:132-151 | a negative total is refused; a missing record fails with the 500 wrapping the 404; otherwise the total is overwritten (not added) and stamped with the handler's clock reading, then reconciled at the reconciler's own reading, clamping the spend to the new total |
| Funds.GetFunds | router/funds.py:109-128 | an unknown user reads zeros without timestamps and the store is unchanged; a known one reads its stored figures; either way balance `>= 0` and spend `<=` total |
| Funds.DeleteFunds | router/funds.py:155-168 | an existing record has total, spent and balance zeroed without reconciling; a missing one fails with the 500 wrapping the 404 |
| Funds.AllocateTwice | router/funds.py:73-102 | allocating 50 then 30 to a new user without expenses reports total 80, spent 0, balance 80 |
| Funds.LowerTotalBelowSpend | router/funds.py:133-148 | with 60 spent, allocating 100 then setting the total to 40 reports total 40, spent 40, balance 0 |
| Expenses.AddExpense | router/expenses.py:17-28 | exactly one document is appended, with the category stripped and capitalised and the other fields as given; its fresh id is returned as a string and the id counter advances by one; no other collection changes |
| Expenses.BuildQuery | router/expenses.py:52-65 | the range applies only when both bounds are given and fails when one does not parse; the category applies when given |
| Expenses.Filter | router/expenses.py:67 | `find(query)` never returns more documents than are stored |
| Expenses.FilterMembers | router/expenses.py:67 | a document is returned exactly when it is stored and matches the query |
| Expenses.FilterAppend | router/expenses.py:67 | filtering a concatenation is the concatenation of the filtered parts, so the store order is kept |
| Expenses.FilterOne | router/expenses.py:67 | a single document is returned exactly when it matches the query |
| Expenses.FilterAll | router/expenses.py:67 | a query every document matches returns the whole store in order |
| Expenses.GetExpenses | router/expenses.py:45-74 | the listing fails with "Something went wrong" exactly when both bounds are given and one does not parse; otherwise it has at most as many entries as the store |
| Expenses.GetExpensesSpec | router/expenses.py:55-70 | the listing serialises, in store order, exactly the stored documents dated within both bounds inclusive (when both are given) and of the given category in any letter case |
| Expenses.NoFilterListsAll | router/expenses.py:52-70 | without both bounds and without a category every expense is listed in store order |
| Expenses.CategoryFoundInAnyCase | router/expenses.py:61-65 | a category stored from an input is found by a query naming it in any letter case |
| Expenses.EndDayIsExclusiveAfterMidnight | router/expenses.py:56-58 | an expense later than midnight on the end day is not listed, because the end bound is midnight |
| Expenses.MonthlyTotals | router/expenses.py:80-89 | each bucket is a real month that some stored expense is dated in, with the sum of that month's amounts |
| Expenses.MonthlyCovers | router/expenses.py:80-89 | every month some expense is dated in has a bucket |
| Expenses.MonthlyNewestFirst | router/expenses.py:90-92 | buckets run from the newest month to the oldest, each month once |
| Expenses.MonthLabelInjective | router/expenses.py:102 | distinct months get distinct `YYYY-MM` labels |
| Expenses.MonthlySummary | router/expenses.py:77-112 | the loop labels every bucket `YYYY-MM` with its total, in bucket order; an undated expense makes the `:02d` format fail with a 500 |
| Expenses.SummaryMonthsDistinct | router/expenses.py:99-106 | the summary names each month once |
| Expenses.TopCategoriesSpec | router/expenses.py:149-171 | at most three entries, distinct categories, each one some stored expense's category, each total the sum of that category's amounts, totals non-increasing |
| Expenses.TopCategoriesCutoff | router/expenses.py:159-160 | a stored category left out means three are listed and it spent no more than the third |
| Categories.AddCategory | router/categories.py:12-33 | a name matching a stored one ignoring case is refused with "Category '<name>' already exists." and nothing written; otherwise exactly the normalised name is inserted under a fresh id and returned with it; names stay distinct ignoring case |
| Categories.GetAllCategories | router/categories.py:35-38 | one entry per stored category, in store order, the serialised name |
| Categories.AddTwice | router/categories.py:17-24 | adding " food" after "FOOD" is refused |
| Roles.AddRole | router/roles.py:11-31 | a role name matching a stored one ignoring case is refused with "Role '<name>' already exists." and nothing written; otherwise exactly the normalised name is inserted and returned with its fresh id; role names stay distinct ignoring case |
| Roles.GetAllRoles | router/roles.py:34-37 | one entry per stored role, in store order |
| Users.FirstWithEmail | router/users.py:18 | the first user with the email, or none exactly when no user has it |
| Users.PositionOfId | router/users.py:108 | the user with the id, or none exactly when no user has it |
| Users.RegisterUser | router/users.py:13-28 | an email already stored is refused with nothing written; otherwise exactly one user is appended with the hashed password, and its fresh id is returned |
| Users.LoginUser | router/users.py:31-63 | an unknown email fails with 404; the login succeeds exactly when the password equals the stored value or passes the hash check, answering with the record without its password; a failed check is a 401 |
| Users.PatchKeys | router/users.py:113 | one key per patched field, each the key of the field at that position |
| Users.FieldNameInjective | router/users.py:80-103 | the six fields have six different keys |
| Users.PatchKeysSpec | router/users.py:113 | the answer lists the key of every patched field and no other key, each once |
| Users.SetFieldsSpec | router/users.py:78-103 | the field filter keeps exactly the set fields of its list, each once when the list has no repeats |
| Users.AllFieldsListed | router/users.py:80-103 | all six allowed fields are considered, each once |
| Users.PatchFieldsSpec | router/users.py:78-103 | the patch's keys are exactly its set fields, each once |
| Users.PatchOfSpec | router/users.py:80-103 | the patch sets exactly the allowed fields supplied non-empty; a password is stored as its hash, every other value as given |
| Users.PatchIgnoresOtherKeys | router/users.py:78-103 | keys other than the six allowed names do not affect the patch |
| Users.BuildPatch | router/users.py:78-103 | the field-by-field construction builds exactly that patch |
| Users.PatchUserWithId | router/users.py:108-111 | only the user with the id changes, by the patch; none with it is a 404 |
| Users.UpdateUser | router/users.py:73-113 | a malformed id is a 400 before anything else; an empty patch is a 400; a missing user is a 404; otherwise only that user's patched fields change and the answer lists exactly the patched keys |
| Users.ReplaceKeepsIds | router/users.py:108 | updating a user keeps ids distinct and handed out |
| Users.RemoveKeepsIds | router/users.py:121 | removing a user keeps ids distinct and leaves none with its id |
| Users.DeleteUser | router/users.py:116-126 | a malformed id is a 400; a missing user is a 404; otherwise exactly that user is removed and no user with its id remains |

## Left out

- Funds, roles and users routers: they import `fund_serializer`, `role_serializer`, `user_serializer`, `Role` and `User`, which serializers.py and models.py do not define. main.py mounts only the expenses and categories routers. These routers are modelled as their code reads; the field shapes come from how the code uses them.
- `get_all_users` (router/users.py:66-69) is not modelled: `user_serializer` is not defined, so its output is unknown.
- The weekly summary (router/expenses.py:114-147) is not modelled: it depends on Mongo's ISO week computation.
- Mongo regular-expression semantics: names are compared by case-insensitive equality. Regex metacharacters in a name, which the routers do not escape, are not modelled.
- Case mapping is ASCII-only: `lower()` and `capitalize()` of non-ASCII letters are not modelled.
- Floating point: amounts are integers, so `float` rounding is not modelled.
- Concurrency: each route runs alone. The read-then-write races between concurrent requests are not modelled.
- Failures of the store itself are not modelled. This covers the reconciler's `{"error": ...}` answer on a store exception, traceback printing and the log output.
- Request values in `update_user` are strings. Non-string JSON values and their truthiness are not modelled.
- Authentication (auth.py, JWT) and the Streamlit client are not part of this model.
- bcrypt is a pair of function parameters: hashing is not modelled beyond being applied to the password.
- Funds.DeleteFunds: answers with the normalised email its message names, rather than the message text `"Funds record reset for <email>"`.
- Funds.ReconcileKey, Funds.AllocateFunds and Funds.UpdateFunds: the reconciler's answer is modelled as its three figures; the `"message"` entry is left out.
- Expenses.AddExpense, Users.RegisterUser, Users.LoginUser, Users.UpdateUser and Users.DeleteUser: the constant `"message"` entries of their answers ("Expense added", "User registered successfully", "Login successful", "User updated successfully", "User deleted successfully") are left out; the answers are modelled by their other entries.
- Dates.ParseFormatRoundTrip: stated for four-digit years only, because `%Y` reads exactly four digits while `Dates.FormatYmd` writes shorter years unpadded, as CPython before 3.13 does on glibc (3.13 pads `%Y` to four digits).
- Expenses.TopCategoriesSpec: categories with equal totals come out in reverse order of first occurrence, because `Grouping.SortDesc` inserts each earlier group after the later groups of equal rank; the contract states only that totals do not increase, since Mongo's order among equal totals is unspecified.
- ObjectIds are unbounded counters: a real ObjectId is 12 bytes, below 16^24, but neither `ObjectIds.ObjectId` nor `Database.Db.Valid` bounds the counter, so `Serializers.ExpenseSerializerFaithful` and `Serializers.CategorySerializerFaithful` keep their `id < 16^24` requirement rather than deriving it for stored documents.
- Funds.GetFunds: for a known user the route answers `fund_serializer(fund_doc)`, which is not defined anywhere; the answer's shape (total, spent, balance, creation and update times) is taken from the commented-out response at router/funds.py:116-122, not from how the code uses the function.
- Timestamps are integer clock readings passed in as parameters. BSON stores datetimes to the millisecond and converts offset-aware datetimes to UTC; `Expenses.ExpenseDocOf` stores the date unchanged, so that truncation and conversion are not modelled.
- Dates.ParseYmd: accepts ASCII digits only, while the `\d` of `strptime` also accepts other Unicode decimal digits; dates written with those are not modelled.
- ObjectIds.IsValid: `ObjectId.is_valid` checks a 24-character string with `bytes.fromhex`, which skips ASCII white space between digit pairs, so such a string with white space in it is accepted; the model requires 24 hex digits and does not model those strings.
