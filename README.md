# Template persistence and quota metering of coldmail.io

This project models the server actions of coldmail.io that save, edit,
delete and list a user's cold-email templates, and the usage metering that a
save performs. The database is an in-memory store: a class `EmailStore`
holding a map of users (tier, `totalEmails` created since the last tier change, current `savedEmails`,
the sticky `maxCapacity` latch), a map of email rows keyed by id, and the
set of workspace memberships.

- `Quota` is the pure capacity calculation done inside a save: the new total
  is the old one plus one (a missing user reads as 0), and the latch, once on,
  stays on; from off it turns on when the new total reaches 8 on `free` or 20
  on `pro`, and never on any other tier. Lemmas follow it over any number of
  saves.
- `Store` holds the writes. `HandleSave` checks workspace membership when a
  non-empty workspace id is given, reads the user's snapshot, then inserts the
  row and updates the counters in one atomic step. `HandleDelete`,
  `EditTemplate` and `OnPaymentSuccess` cover the other writes. The reads are
  `GetWithId`, `GetWithUniqueId` and `FetchUserDetails`.
- `Listing` is the paginated query. It filters by author, and by category
  unless the category is `"All"`. It orders by id, descending, then skips
  `(page-1)*itemsPerPage` rows and takes `itemsPerPage`. It reports
  `totalPages = ceil(totalCount/itemsPerPage)`.

Boundaries are explicit parameters. The session's user id is an
`Option<UserId>`. The id the database gives a new row and the share token
that `nanoid()` generates are parameters too; each must be fresh.

Behaviour the model keeps from the code:
- A save is never refused because `maxCapacity` is already on. The code
  computes the latch and nothing checks it before writing.
- A delete decrements `savedEmails` of the session's user, not of the row's
  author.
- A delete is two separate writes. If the counter update fails (no session,
  or no user row), the row stays deleted and no counter changes.
- `savedEmails` has no floor at zero.

JavaScript truthiness is modelled where the code relies on it. An empty
workspace id counts as "not given": there is no membership check, the
stored workspace is null and `isPublic` is false. An empty session id
lists nothing.

## Model

| member | source | states |
|---|---|---|
| Quota.NextUsage | actions/actions.ts:39-54 | the new total is the snapshot's plus one (0 for a missing user); the latch stays on once on, and is on exactly when it was on or the new total reaches the tier's ceiling (8 free, 20 pro); tiers without a ceiling keep it as it was |
| Quota.SavesCounters | actions/actions.ts:39-54 | after n saves the tier is kept, the total has grown by exactly n, and the latch is on iff it was on or the final total reaches the ceiling |
| Quota.SavesAfterReset | actions/actions.ts:42-54 | from total 0 with the latch off, the latch is on after n saves exactly when n >= 8 (free), n >= 20 (pro), and never for any other tier |
| Quota.LatchSticky | actions/actions.ts:40-54 | a latch that is on stays on through any number of further saves |
| Store.Counted | actions/actions.ts:69-76 | the user row a save writes: same tier, total and saved count each one more, latch on iff it was on or the ceiling is reached |
| Store.RepeatedSaves | actions/actions.ts:39-77 | n saves add n to savedEmails and move tier, total and latch exactly as n steps of the quota calculation |
| Store.SavesAfterPayment | actions/actions.ts:216-224 | after a tier change and n saves, total is n, savedEmails grew by n, and the latch is on iff n reaches the new tier's ceiling |
| Store.EmailStore.HandleSave | actions/actions.ts:7-84 | succeeds iff there is a session user, a given workspace has a membership for that user, and the user row exists; on failure nothing changes and the error says which check failed; on success exactly one row is added with the caller as author, the inputs as content/subject/category, the workspace or null, isPublic iff a workspace was given, the fresh token (then found by GetWithUniqueId); only the caller's user row changes, to Counted; no refusal for an on latch |
| Store.EmailStore.HandleDelete | actions/actions.ts:111-136 | a missing id changes nothing; an existing row is removed; the session user's savedEmails drops by exactly 1, unclamped, and no other user changes; without a session user the row is still removed and no counter changes |
| Store.EmailStore.EditTemplate | actions/actions.ts:152-172 | only subject and content of the row change; author, category, workspace, isPublic and token stay; a missing id changes nothing; users untouched |
| Store.EmailStore.OnPaymentSuccess | actions/actions.ts:213-230 | the user's row becomes the new tier with total 0 and latch off, savedEmails kept; emails untouched; a missing user changes nothing |
| Store.EmailStore.GetWithId | actions/actions.ts:138-150 | the row with that id, or nothing when there is none |
| Store.EmailStore.GetWithUniqueId | actions/actions.ts:232-243 | the row carrying the token, exactly when one exists; a save's row is found again by its token |
| Store.EmailStore.FetchUserDetails | actions/actions.ts:193-211 | the session user's counters and tier, or nothing without a session or row; after a save, a delete or a tier change it reads the row that write left |
| Listing.Descending | actions/actions.ts:284-286 | the ids of a set, each once, in strictly descending order |
| Listing.GetTemplatesPaginated | actions/actions.ts:246-303 | no session or a page below 1 gives an empty page with counts 0; otherwise at most itemsPerPage templates, each the caller's and (unless "All") of the category, in descending id order, exactly the page's slice of the filtered ordering; totalCount is the filtered count and totalPages its ceiling over itemsPerPage; currentPage is the page asked for; page, itemsPerPage and category default to 1, 8 and "All" |
| Listing.PageIdsSelected | actions/actions.ts:258-289 | a page's ids number at most itemsPerPage, all pass the filter, in strictly descending order |
| Listing.CeilDivIsCeiling | actions/actions.ts:291 | totalPages is the least page count whose pages hold all the filtered rows, and 0 exactly when there are none |
| Listing.PageLength | actions/actions.ts:258-289 | a page holds itemsPerPage rows, the remainder on the last page, and none past it |
| Listing.BeyondLastPage | actions/actions.ts:258-297 | a page past totalPages is empty while totalCount is still the filtered count |
| Listing.EachMatchOnOnePage | actions/actions.ts:258-291 | every filtered row appears on some page between 1 and totalPages, and on no other page |

## Left out

- Session lookup (`auth.api.getSession`, `headers()`): the user id is an explicit optional parameter.
- The database layer (Prisma queries and `$transaction`): it is replaced by maps. The insert and the counter update are one atomic method. Isolation between concurrent requests is not modelled.
- `nanoid()` and the database's id generation: the new token and row id are parameters that must be unused.
- Store.EmailStore.HandleSave: requires the new row id and token to be unused, which the database and the token generator guarantee in the source.
- Email ids are strings in the source. Here they are natural numbers, and "order by id" is the order on naturals.
- `console.log` and error swallowing: failures are `Err`/`None` results. The TypeScript return value `undefined` becomes `None`.
- Listing.GetTemplatesPaginated: requires `itemsPerPage > 0`. Also, `page` and `itemsPerPage` are integers here, not JavaScript numbers. `Math.ceil` on a float quotient becomes integer ceiling division.
- Listing.GetTemplatesPaginated: a page below 1 gives the empty result. This assumes the database rejects a negative `skip`, and the catch branch then answers the empty result.
- `handleGet` (a user with all its emails) and `getLimitStatus` (session-or-id read of the counters): projection reads with no rule. The `getLimitStatus` call inside `onPaymentSuccess` discards its result and is left out too.
- The selected-field projection of `fetchUserDetails` (four fields of the user row): the model returns the whole user record, which holds exactly those four fields.
