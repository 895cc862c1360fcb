# Expense tracker core, modelled in Dafny

This project models the logic of a personal expense tracker. The backend is a GraphQL server over a relational store. The frontend shows one user's transactions a page at a time. The model covers:

- the transaction resolver: owner-scoped listing, lookup by id, create, partial update, delete, and per-category statistics built by a grouping loop;
- the user resolver: `users`, `user`, `signUp`, plain-text `login`, constant `logout`;
- the passport configuration: the local-strategy verify callback and the session's serialize/deserialize pair;
- the tag resolver: tags, the user–tag association and custom tags (a name with a saved search term);
- the paging and filter state of the transaction list component (`Cards`) with its handlers, its data effect and its button guards.

Each store table is a field of type `seq` in a class, in id order. Each table has an auto-increment counter, and its `Valid()` keeps ids strictly increasing and below the counter. Operations that change a table are methods with `modifies` clauses. Reads are functions over the table's rows. The session's user is an `Option<User>` parameter. Ids reach the resolvers as strings and go through JavaScript's `parseInt`. `JsNumber.ParseInt` models that conversion: leading white space, sign, `0x` prefix and longest digit prefix, with `None` for NaN. `JsNumber.Show` is the decimal rendering, and the two round-trip.

Where the GraphQL schema and the resolvers disagree, the model follows the resolvers:

- `transactions` takes no arguments. It returns the user's whole list, although the schema declares `offset`/`limit`/`filter` and a `{transactions, total}` page.
- There is no filter compiler, no amount validation and no ownership check on update or delete.
- `signUp` stores the password as given, does no duplicate check and opens no session. The `login` resolver compares plain text. The passport strategy compares against a hash (`bcrypt.compare`, a parameter here). Nothing in the code connects the two.
- The tag resolver is not merged into the server's resolvers (backend/resolvers/index.ts:6). It is modelled as written.

The modules are `Wrappers`, `Domain`, `JsNumber`, `UserResolver`, `Passport`, `TransactionResolver`, `TagResolver` and `Cards`.

## Model

| member | source | states |
|---|---|---|
| JsNumber.ParseInt | backend/resolvers/transaction.resolver.ts:27 | JavaScript `parseInt` without a radix, as applied to every id argument: NaN exactly when, after leading white space and one sign, there is no decimal digit (or, after a `0x` prefix, no hex digit); a leading minus gives a value <= 0, otherwise >= 0 |
| JsNumber.ParseIntShow | backend/resolvers/transaction.resolver.ts:27 | parseInt of an id's decimal rendering gives back that id, so an id shown by the API finds its row again |
| JsNumber.ParseIntDigitRun | backend/resolvers/transaction.resolver.ts:27 | text that starts with a run of decimal digits (no `0x` prefix) parses to the run's value, negated after a minus, whatever non-digit follows |
| JsNumber.ParseIntMinus | backend/resolvers/transaction.resolver.ts:27 | a minus sign in front of text that has no leading white space or sign negates what parseInt reads, and leaves NaN as NaN |
| TransactionResolver.OwnedBy | backend/resolvers/transaction.resolver.ts:16-18 | the rows returned are exactly the stored rows whose userId is the given one, each as many times as it is stored (as a multiset) |
| TransactionResolver.ListTransactions | backend/resolvers/transaction.resolver.ts:10-23 | fails, with 'Error getting transactions' and never 'Unauthorized', exactly when there is no current user; otherwise returns exactly the current user's rows, each as many times as it is stored, and no others |
| TransactionResolver.TransactionById | backend/resolvers/transaction.resolver.ts:26-28 | finds a stored row with that id, and finds nothing exactly when no row has it |
| TransactionResolver.FindTransaction | backend/resolvers/transaction.resolver.ts:24-34 | fails with 'Error getting transaction' exactly when the id does not parse; every parsed id succeeds with the row with that id, or null when none has it |
| TransactionResolver.TransactionUser | backend/resolvers/transaction.resolver.ts:114-125 | the owner field of a transaction is the stored user with its userId, or null when none has it |
| TransactionResolver.CategoryTotalAbsent | backend/resolvers/transaction.resolver.ts:47-52 | a category that never occurs among the transactions totals 0 |
| TransactionResolver.FirstSeenMembers | backend/resolvers/transaction.resolver.ts:47-56 | the grouped categories are exactly the categories present among the transactions, each once |
| TransactionResolver.StatisticsCategories | backend/resolvers/transaction.resolver.ts:45-57 | there is an entry for every category present among the user's transactions and no entry for an absent one |
| TransactionResolver.StatisticsUnique | backend/resolvers/transaction.resolver.ts:47-56 | no category has two entries, and each entry's total is the sum of the amounts of that category |
| TransactionResolver.StatisticsConserveTotal | backend/resolvers/transaction.resolver.ts:47-52 | the entries' totals add up to the sum of all the user's amounts: no amount is lost or counted twice |
| TransactionResolver.SumOverAppend | backend/resolvers/transaction.resolver.ts:47-52 | adding one transaction adds its amount exactly once to the sum over distinct categories that include its own |
| TransactionResolver.SumOverCovering | backend/resolvers/transaction.resolver.ts:47-52 | the sum of category totals over distinct categories covering every transaction is the grand total |
| TransactionResolver.SumOfTotalsIsSumOver | backend/resolvers/transaction.resolver.ts:54-57 | the listed entries' totals add up to the sum of category totals over the listed categories |
| TransactionResolver.FirstSeenOrder | backend/resolvers/transaction.resolver.ts:47-56 | entries are listed in the order in which their categories first occur in the fetched list (object key insertion order) |
| TransactionResolver.GroupByCategory | backend/resolvers/transaction.resolver.ts:45-57 | the grouping loop, falsy reset of a zero sum included, yields exactly the category statistics of its input |
| TransactionResolver.TransactionTable.constructor | backend/resolvers/transaction.resolver.ts:6 | the transaction table behind the store client starts empty with its id counter at 1, ids ascending |
| TransactionResolver.TransactionTable.CategoryStatistics | backend/resolvers/transaction.resolver.ts:35-61 | fails with 'Internal server error' without a current user; otherwise returns the statistics of exactly the current user's rows |
| TransactionResolver.TransactionTable.CreateTransaction | backend/resolvers/transaction.resolver.ts:65-83 | with a current user, appends one row with a fresh id, the input's fields, the user's id and location "" when the input has none; without one, fails with 'Error creating transaction' and changes nothing |
| TransactionResolver.Patch | backend/resolvers/transaction.resolver.ts:86-96 | every supplied field takes the input's value, every other field keeps its old value, and id and userId never change |
| TransactionResolver.TransactionTable.UpdateTransaction | backend/resolvers/transaction.resolver.ts:84-102 | fails with 'Error updating transaction' exactly when the id does not parse or names no row, changing nothing; otherwise replaces only that row by its patched version and returns it |
| TransactionResolver.UniqueIdsFound | backend/resolvers/transaction.resolver.ts:105-107 | in an id-ordered table the position and the row found by a row's id are that row's own, so the deleted row is the one the id names |
| TransactionResolver.RemoveAtRemovesId | backend/resolvers/transaction.resolver.ts:105-107 | in an id-ordered table, taking out the row at a position removes exactly the rows with its id and keeps every other row |
| TransactionResolver.RemoveAt | backend/resolvers/transaction.resolver.ts:105-107 | the table one row shorter, rows before the position unchanged and rows after it moved down by one |
| TransactionResolver.TransactionTable.DeleteTransaction | backend/resolvers/transaction.resolver.ts:103-112 | fails with 'Error deleting transaction' exactly when the id does not parse or names no row, changing nothing; otherwise takes out the row at the position of that id, keeping the others in order and the ids ascending, and returns the removed row |
| UserResolver.UserById | backend/resolvers/user.resolover.ts:15-17 | finds a stored user with that id, and finds nothing exactly when no user has it |
| UserResolver.UserByUsername | backend/resolvers/user.resolover.ts:36-38 | finds the first stored user with that username, and finds nothing exactly when no user has it |
| UserResolver.UserByIdFinds | backend/resolvers/user.resolover.ts:15-17 | with unique ids, the lookup by a stored user's id finds that user |
| UserResolver.AllUsers | backend/resolvers/user.resolover.ts:11-13 | `users` returns every stored user |
| UserResolver.FindUser | backend/resolvers/user.resolover.ts:14-18 | fails exactly when the id does not parse; otherwise returns the user with the parsed id, or null when none has it |
| UserResolver.FindUserByShownId | backend/resolvers/user.resolover.ts:14-18 | a stored user is found by the id string the API shows for it |
| UserResolver.Login | backend/resolvers/user.resolover.ts:34-43 | succeeds exactly when a user with that username exists and its stored password equals the given one, returning that user; every failure is the single message 'Invalid credentials' |
| UserResolver.LoginIffStored | backend/resolvers/user.resolover.ts:34-43 | with unique usernames, login succeeds exactly for a stored (username, password) pair |
| UserResolver.Logout | backend/resolvers/user.resolover.ts:44-49 | always answers status 'SUCCESS' with 'Logged out successfully' and reads no table, so repeated calls answer the same |
| UserResolver.UserTable.constructor | backend/resolvers/user.resolover.ts:6 | the user table behind the store client starts empty with its id counter at 1, ids ascending |
| UserResolver.UserTable.SignUp | backend/resolvers/user.resolover.ts:22-33 | appends one user with a fresh id, the given username, name, password (unchanged) and gender, and an empty profile picture |
| Passport.Verify | backend/passport.config.ts:25-44 | authenticates exactly when both arguments are strings, the lookup does not throw, the username is stored and the compare answers true, returning the row found by username whose hash was compared; every rejection carries 'Invalid credentials'; a thrown lookup error or compare error is passed on as the same error, not turned into a rejection |
| Passport.RejectionsIndistinguishable | backend/passport.config.ts:27-38 | a non-string argument, an unknown username and a wrong password all give the identical verdict |
| Passport.Without | backend/passport.config.ts:30-33 | removing a username's rows keeps exactly the other rows (used to state the unknown-username case) |
| Passport.WithoutHasNo | backend/passport.config.ts:30-33 | after removing a username's rows, the lookup by that username finds nothing |
| Passport.SerializeUser | backend/passport.config.ts:9-12 | the session keeps the user's id |
| Passport.DeserializeUser | backend/passport.config.ts:14-22 | a thrown lookup is passed on; otherwise returns the stored user with that id, or null |
| Passport.SessionRoundTrip | backend/passport.config.ts:9-22 | deserializing a serialized stored user gives back the same user, and null once no stored user has that id |
| TagResolver.TagById | backend/resolvers/tag.resolver.ts:41 | finds a stored tag with that id, and nothing exactly when no tag has it |
| TagResolver.TagsOfUser | backend/resolvers/tag.resolver.ts:12-18 | a tag is listed for a user exactly when an association row links that user to it |
| TagResolver.UserTags | backend/resolvers/tag.resolver.ts:12-19 | fails exactly when the id does not parse; returns [] for an unknown user; for a known user returns exactly that user's linked tags in association order (TagsOfUser); lists only stored tags |
| TagResolver.TagByIdExtends | backend/resolvers/tag.resolver.ts:27-32 | adding a tag with a fresh id leaves every earlier tag lookup as it was |
| TagResolver.TagTables.constructor | backend/resolvers/tag.resolver.ts:4 | the tag, association and custom-tag tables start empty with both id counters at 1, every association resolving |
| TagResolver.TagTables.AllTags | backend/resolvers/tag.resolver.ts:8-11 | `tags` returns every stored tag, each exactly as often as it is stored (same multiset) |
| TagResolver.TagTables.AllCustomTags | backend/resolvers/tag.resolver.ts:20-23 | `customTags` returns every stored custom tag, each exactly as often as it is stored (same multiset) |
| TagResolver.TagTables.CreateTag | backend/resolvers/tag.resolver.ts:27-32 | appends one tag with that name and a fresh id and returns it; no other table changes |
| TagResolver.TagTables.CreateCustomTag | backend/resolvers/tag.resolver.ts:54-59 | stores and returns the (name, searchTerm) pair unchanged, and `customTags` then includes it |
| TagResolver.TagTables.AddUserTag | backend/resolvers/tag.resolver.ts:34-52 | fails and changes nothing on a non-numeric id, an unknown user or an unknown tag; otherwise appends the association and returns the user whose tags, like `userTags` of that user, include the tag |
| Cards.PageCount | frontend/src/components/shared/custom/Cards.tsx:59 | the page count is the ceiling of total / 6: enough pages for every row and no empty last page |
| Cards.PageOf | frontend/src/components/shared/custom/Cards.tsx:60 | the current page is floor(offset / 6) + 1, at least 1, the page the offset falls on |
| Cards.SettledOffset | frontend/src/components/shared/custom/Cards.tsx:62-64 | an offset on an existing row is kept; afterwards offset < total when total > 0, offset = 0 when total = 0, and a moved offset's six-row window reaches the last row |
| Cards.SettledOffsetIsFixedPoint | frontend/src/components/shared/custom/Cards.tsx:54-66 | the effect's second run, caused by its own offset change, changes the offset no more |
| Cards.PageWithinCount | frontend/src/components/shared/custom/Cards.tsx:59-60 | once the offset is on an existing row, the current page is between 1 and the page count |
| Cards.NextShownIffEnabled | frontend/src/components/shared/custom/Cards.tsx:211-215 | on a whole-page offset, Next is rendered exactly when it is enabled |
| Cards.ClampLeavesPartialPage | frontend/src/components/shared/custom/Cards.tsx:62-64 | 12 rows shrinking to 10 settles on offset 4, page 1 of 2, where Prev is hidden though rows 0 to 3 are not shown |
| Cards.CategoryFilter | frontend/src/components/shared/custom/Cards.tsx:92 | a category button's filter is the first three characters of the category name |
| Cards.CategoryFilters | frontend/src/components/shared/custom/Cards.tsx:91-95 | the buttons apply 'inv', 'sav' and 'exp', and no two categories apply the same filter |
| Cards.Pager.constructor | frontend/src/components/shared/custom/Cards.tsx:26-36 | offset 0, empty filters and page, total 0, one page, page 1 |
| Cards.Pager.Variables | frontend/src/components/shared/custom/Cards.tsx:45-47 | the variables object passed to useQuery and refetch is always {offset, limit 6, filter: appliedFilter} |
| Cards.Pager.FilterChange | frontend/src/components/shared/custom/Cards.tsx:74-75 | typing changes only the typed filter |
| Cards.Pager.FilterSubmit | frontend/src/components/shared/custom/Cards.tsx:77-82 | copies the typed filter into the applied one, sets offset to 0 and refetches exactly the new variables |
| Cards.Pager.FilterReset | frontend/src/components/shared/custom/Cards.tsx:84-89 | empties both filters, sets offset to 0 and refetches exactly the new variables |
| Cards.Pager.CategoryClick | frontend/src/components/shared/custom/Cards.tsx:91-96 | applies the category's three-letter filter, keeps the typed one, sets offset to 0 and refetches exactly the new variables |
| Cards.Pager.AllCategoriesClick | frontend/src/components/shared/custom/Cards.tsx:98-102 | empties the applied filter, keeps the typed one, sets offset to 0 and refetches exactly the new variables |
| Cards.Pager.CustomTagClick | frontend/src/components/shared/custom/Cards.tsx:104-108 | applies the tag's search term, sets offset to 0 and refetches exactly the new variables |
| Cards.Pager.LoadMore | frontend/src/components/shared/custom/Cards.tsx:110-115 | next adds 6 to the offset; prev sets max(0, offset - 6), so the offset never goes negative; only the offset changes |
| Cards.Pager.DataArrived | frontend/src/components/shared/custom/Cards.tsx:54-66 | stores the page and total, sets totalPages = ceil(total / 6) and currentPage = floor(offset / 6) + 1, then clamps the offset so that offset < total when total > 0 and offset = 0 when total = 0 |
| Cards.Pager.CustomTagsArrived | frontend/src/components/shared/custom/Cards.tsx:68-72 | stores the fetched custom tags and nothing else |
| Cards.Pager.ShowsPagination | frontend/src/components/shared/custom/Cards.tsx:193 | render guard `totalPages > 1` of the pagination bar: once the page count is computed from the total, it holds exactly when there are more than six rows |
| Cards.Pager.ShowsPrev | frontend/src/components/shared/custom/Cards.tsx:196 | render guard `currentPage > 1` of Prev, rendered only inside the bar; PaginationGuards proves it holds exactly when the bar shows and the offset is past the first page |
| Cards.Pager.PrevDisabled | frontend/src/components/shared/custom/Cards.tsx:200 | disabled guard `offset === 0` of Prev: holds exactly when a Prev click would leave the offset unchanged; PaginationGuards proves a rendered Prev is never disabled |
| Cards.Pager.ShowsNext | frontend/src/components/shared/custom/Cards.tsx:211 | render guard `currentPage < totalPages` of Next, rendered only inside the bar; ConsistentControls proves it matches the enabled state on whole-page offsets |
| Cards.Pager.NextDisabled | frontend/src/components/shared/custom/Cards.tsx:215 | disabled guard `offset + limit >= totalTransactions` of Next: holds exactly when the offset a Next click asks for lies past the last row, so the data effect would pull it back |
| Cards.Pager.PaginationGuards | frontend/src/components/shared/custom/Cards.tsx:193-219 | after the data effect, the bar shows exactly with more than six rows, Prev exactly past the first page, and a rendered Prev is enabled |
| Cards.Pager.ConsistentControls | frontend/src/components/shared/custom/Cards.tsx:193-219 | on a settled whole-page offset, a rendered Prev is enabled, Next is rendered exactly when it is enabled, and a rendered bar holds an enabled button (off whole pages this fails, see ClampLeavesPartialPage) |

## Left out

- The store (Prisma over MySQL), the session store, and the Express/Apollo bootstrap are replaced by in-memory tables. Asynchronous steps become sequential.
- Store faults are modelled only in the passport callback and `deserializeUser`. Elsewhere a store fault would surface as the resolver's wrapped message, or as the store's own error where nothing catches it.
- The store's own error texts are stand-ins: `InvalidId` for a NaN id and `RecordNotFound` for a missing row in `addUserTag`.
- A lookup by username is the first row with that username. The store schema, and any unique constraint in it, is not part of this model.
- Amounts are whole numbers (cents). GraphQL `Float`, a null amount, NaN sums and rounding are not modelled.
- In `updateTransaction`, an explicit `null` field is not distinguished from an absent one. Both keep the old value.
- JsNumber.ParseInt: precision loss past 2^53 is not modelled.
- Cards.Pager.Variables: the `GET_TRANSACTIONS` query declares only `$offset` and `$limit` (frontend/src/graphql/queries/transaction.query.ts:4-5), so the `filter` variable the component passes is not declared by the query and no filter reaches the `transactions` field; the model keeps it in the variables object as the component builds it.
- `findMany` is taken to return rows in id order. The store does not promise an order, so the statistics order property holds relative to the fetched order.
- The association table is modelled without a composite key, so a repeated `addUserTag` adds a second association row.
- Logging (`console.log` in the session callbacks, `console.error` in the transaction lookup and update) has no effect on results and is not modelled.
- bcrypt hashing is a foreign call. It is the `compare` parameter of Passport.Verify.
- The `context.getUser()` accessor is the `current` parameter. Sessions are not established by `login` or `signUp` in the code.
- Cards: rendering, translations, toasts, the custom-tag dialog's open/close flags and the loading indicator are not modelled. React's batching of state updates is not modelled either. Each handler is one atomic step, and the data effect is one run of the effect body.
- The schema's `offset`/`limit`/`filter` arguments and the `{transactions, total}` page are not implemented by the resolver, so they are not modelled. Neither are server-side filtering, amount validation, duplicate-username rejection or ownership checks; there is no bulk delete.
