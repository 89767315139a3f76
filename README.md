# Mail dispatcher dashboard: a verified model of its core

The dashboard is a multi-tenant (Next.js and Prisma) application. The users of an organisation
keep contacts and reusable e-mail templates. They send a campaign to a selection of contacts
and browse the history of their campaigns. People get in through magic links and invitations.
This project models the server-side core of that application in Dafny and proves properties
of the model:

- the compose page's helpers and its `sendAction` (`Compose`, `Dispatch`): parsing the
  selected ids, placeholder rendering, validation, the campaign snapshot, one recipient row per
  contact, the delivery loop and the final aggregate;
- the campaign history page (`Campaigns`): the query-string sanitisers, the Prisma filter, the
  count, the newest-first and failed-first listings, and the paging links;
- the template actions (`Templates`): create, update, archive, restore;
- the contacts API (`Contacts`), the magic-link request and landing routes (`RequestLink`,
  `Verify`), and invitation creation and acceptance (`Invite`, `Accept`).

The database is one `Db` object (`Store`) with one `seq` field per table. Each route that
writes is a method whose `modifies` clause names the tables it changes. Each query is a
function over those sequences, and the order of a sequence stands for the order the database
returns rows in. The imperative routes are proved against functions of the tables they read
(`Verify.VerifyOf`, `Accept.AcceptOf`, `Dispatch.Dispatch`), and the promised properties are
lemmas about those functions. Several values are parameters of the operations:

- the clock (`now`);
- fresh ids;
- random tokens;
- SHA-256 (`hash`);
- the mail gateway (`gateway(k)` is the outcome of the k-th `sendEmail` call of a dispatch);
- the outcome of a template write.

The JavaScript built-ins the core relies on are modelled in `Strings`, `Emails` and
`Numbers`: `trim`, ASCII case mapping, `includes`, `split`/`join`, `replaceAll` and `Number`.

## Model

| member | source | states |
|---|---|---|
| Strings.Trim | src/app/dashboard/compose/page.tsx:23 | the result has no ECMAScript whitespace at either end, a trimmed string is its own trim, and the result is empty exactly when every character is whitespace |
| Strings.TrimIsInfix | src/app/dashboard/compose/page.tsx:23 | the trimmed text sits in the input with only whitespace before and after it, so exactly the blanks at the two ends are removed |
| Strings.ToLower | src/app/api/contacts/route.ts:35 | `toLowerCase` keeps the length and leaves no ASCII capital |
| Strings.ToUpper | src/app/dashboard/campaigns/page.tsx:19 | `toUpperCase` keeps the length and leaves no ASCII lower-case letter |
| Strings.ToLowerByCharacter | src/app/api/contacts/route.ts:35 | each ASCII capital is lowered by 32 code points and every other character is kept |
| Strings.ToUpperByCharacter | src/app/dashboard/campaigns/page.tsx:19 | each ASCII small letter is raised by 32 code points, U+0131 becomes `I`, U+017F becomes `S`, and every other character is kept |
| Strings.ToUpperIdempotent | src/app/dashboard/campaigns/page.tsx:19 | upper-casing twice is upper-casing once |
| Strings.LowerKeepsTrimmed | src/app/api/contacts/route.ts:35 | lower-casing keeps trimmed text trimmed and is idempotent |
| Strings.LowerKeepsAt | src/app/api/invitations/create/route.ts:21 | lower-casing neither adds nor removes an `@` |
| Strings.SplitOn | src/app/dashboard/compose/page.tsx:21-22 | `split` on a non-empty separator yields at least one piece |
| Strings.SplitOnCharPieces | src/app/dashboard/compose/page.tsx:21-22 | no piece of a split on one character contains that character |
| Strings.SplitJoinRoundTrip | src/app/dashboard/compose/page.tsx:21-22 | splitting a join on a character that no piece contains gives the pieces back |
| Strings.ReplaceAllIsSplitJoin | src/app/dashboard/compose/page.tsx:41-44 | literal `replaceAll(p, r)` equals `split(p).join(r)` |
| Strings.ReplaceAll | src/app/dashboard/compose/page.tsx:41-44 | literal `replaceAll` leaves a string without the pattern unchanged |
| Emails.NormalAddress | src/app/api/invitations/create/route.ts:18 | `(v ?? "").trim().toLowerCase()` is trimmed, has no capital, keeps the trimmed length, and is empty for an absent value |
| Emails.NormalAddressIdempotent | src/app/api/auth/request-link/route.ts:8 | normalising a normal address changes nothing |
| Emails.PlausibleIgnoresCase | src/app/api/invitations/create/route.ts:21-23 | the normalised address passes the `@` test (`Plausible`) exactly when the trimmed input contains `@` |
| Numbers.IndexOfEither | src/app/dashboard/campaigns/page.tsx:12 | the first position holding either character, or the length when none does |
| Numbers.StringToNumber | src/app/dashboard/campaigns/page.tsx:12 | `Number(s)` is 0 for blank text and infinite for a signed `Infinity` |
| Numbers.NumberIgnoresBlanks | src/app/dashboard/campaigns/page.tsx:12 | `Number` reads the same value with or without the surrounding whitespace |
| Numbers.ToNumber | src/app/dashboard/campaigns/page.tsx:12 | `Number(undefined)` is NaN, and a blank parameter is 0 |
| Numbers.DecimalString | src/app/dashboard/campaigns/page.tsx:278 | `String(n)` is a non-empty digit string without a leading zero whose decimal value is `n` |
| Numbers.NumberOfDecimalString | src/app/dashboard/campaigns/page.tsx:12 | `Number(String(n))` is exactly `n` for every non-negative integer below 2^53 |
| Store.UserByEmail | src/app/api/auth/request-link/route.ts:15-18 | the user with this address, and none exactly when no user has it |
| Store.FindFirst | src/app/api/contacts/route.ts:42-45 | `findFirst` returns the first matching position, and none exactly when no row matches |
| Compose.TrimmedFields | src/app/dashboard/compose/page.tsx:23-24 | the kept fields are non-empty and trimmed, and no comma is introduced |
| Compose.IdFields | src/app/dashboard/compose/page.tsx:21-24 | every field of the parameter is non-empty, trimmed and comma-free |
| Compose.Dedup | src/app/dashboard/compose/page.tsx:26-33 | de-duplication has no duplicates and keeps exactly the same set of elements |
| Compose.DedupLoop | src/app/dashboard/compose/page.tsx:26-33 | the `seen`/`unique` loop computes `Dedup` of the fields |
| Compose.DedupFirstOccurrenceOrder | src/app/dashboard/compose/page.tsx:26-33 | the unique ids keep the order of their first occurrences |
| Compose.DedupOfDistinct | src/app/dashboard/compose/page.tsx:26-33 | a list without duplicates is kept as it is |
| Compose.Take | src/app/dashboard/compose/page.tsx:34 | `slice(0, n)` is a prefix of at most `n` elements, the whole list when it is short enough |
| Compose.ParseIds | src/app/dashboard/compose/page.tsx:19-35 | at most 500 ids, pairwise distinct, each non-empty, trimmed and comma-free; none for an absent or empty parameter |
| Compose.ParseIdsParam | src/app/dashboard/compose/page.tsx:19-35 | the imperative `parseIdsParam` computes `ParseIds` |
| Compose.ParseIdsOrderAndCompleteness | src/app/dashboard/compose/page.tsx:19-35 | every id is a field, ids come out in first-occurrence order, and every field is kept unless the cap of 500 was reached |
| Compose.ParseIdsJoinRoundTrip | src/app/dashboard/compose/page.tsx:131 | parsing `ids.join(",")` again gives the same ids, so the hidden form field carries the selection unchanged |
| Compose.ApplyVars | src/app/dashboard/compose/page.tsx:39-45 | a template with none of the four placeholders renders unchanged |
| Compose.ApplyVarsIsSplitJoinChain | src/app/dashboard/compose/page.tsx:39-45 | rendering is the chain of four `split(token).join(value)` steps in the source's order, null fields as "" |
| Compose.ApplyVarsNameVerbatim | src/app/dashboard/compose/page.tsx:41 | `{{name}}` renders as the contact's name when the name holds no later placeholder |
| Compose.Substitution | src/app/dashboard/compose/page.tsx:41-44 | ECMAScript's replacement-pattern expansion leaves a replacement without `$` as it is |
| Compose.ReplaceAllJsFrom | src/app/dashboard/compose/page.tsx:41-44 | the remaining scan of `replaceAll` as ECMAScript runs it is the literal substitution when the replacement holds no `$` |
| Compose.ReplaceAllJs | src/app/dashboard/compose/page.tsx:41-44 | `replaceAll` with a string replacement is the literal substitution when the replacement holds no `$` |
| Compose.ApplyVarsAsWritten | src/app/dashboard/compose/page.tsx:39-45 | the code as written and the literal renderer agree whenever no field value contains `$` |
| Compose.DollarPatternCounterexample | src/app/dashboard/compose/page.tsx:41 | a contact named `$&` renders `{{name}}` as `{{name}}` in the code as written, but as `$&` in the literal renderer |
| Compose.ToErrorMessage | src/app/dashboard/compose/page.tsx:9-17 | an `Error` gives its message, a thrown string itself, another value its JSON text, or "send failed" when serialisation throws |
| Dispatch.NonEmpty | src/app/dashboard/compose/page.tsx:125 | an empty string becomes null, any other string is kept |
| Dispatch.ValidateSend | src/app/dashboard/compose/page.tsx:117-136 | the guards in order (login, viewer or no ids to contacts, blank subject or body back to compose with the ids rejoined) and the normalised draft fields |
| Dispatch.ScopedContacts | src/app/dashboard/compose/page.tsx:139-151 | exactly the contacts of the session's organisation whose id was selected |
| Dispatch.ScopedContactsKeepsOrder | src/app/dashboard/compose/page.tsx:139-151 | the re-fetch distributes over concatenation, so it keeps table order |
| Dispatch.ScopedContactsCounts | src/app/dashboard/compose/page.tsx:139-151 | each selected contact of the organisation is kept as often as the table holds it, and no other contact is kept |
| Dispatch.TemplateNameSnapshot | src/app/dashboard/compose/page.tsx:154-159 | a name exactly when the chosen template exists in the organisation unarchived, and then that template's name |
| Dispatch.Classify | src/app/dashboard/compose/page.tsx:177-198 | a row is SKIPPED with "email is missing" exactly when the trimmed email is empty, else PENDING with the trimmed email |
| Dispatch.PreviewVersusClassify | src/app/dashboard/compose/page.tsx:82-83 | every PENDING contact is previewed as sendable (`ShownSendable`), and the two disagree exactly on a non-empty all-whitespace email |
| Dispatch.RecipientRows | src/app/dashboard/compose/page.tsx:177-198 | one row per contact, in contact order |
| Dispatch.PendingOf | src/app/dashboard/compose/page.tsx:206-214 | the pending query lists positions of PENDING rows of this campaign |
| Dispatch.Settle | src/app/dashboard/compose/page.tsx:238-258 | a delivered send makes the row SENT with the message id and no error, a thrown one FAILED with the error text; nothing else changes |
| Dispatch.Dispatch | src/app/dashboard/compose/page.tsx:223-260 | the delivery loop keeps the table's length |
| Dispatch.Successes | src/app/dashboard/compose/page.tsx:249 | the number of delivered calls among n is at most n |
| Dispatch.Failures | src/app/dashboard/compose/page.tsx:257 | the number of thrown calls among n is at most n |
| Dispatch.SuccessesAndFailures | src/app/dashboard/compose/page.tsx:232-258 | every call is counted once, as sent or as failed |
| Dispatch.DispatchAppend | src/app/dashboard/compose/page.tsx:223-260 | the loop over two tables is the loop over the first, then over the second with the call index advanced by the first's pending rows |
| Dispatch.DispatchNothingPending | src/app/dashboard/compose/page.tsx:206-214 | rows not pending for the campaign are neither sent nor changed |
| Dispatch.DispatchAt | src/app/dashboard/compose/page.tsx:223-260 | each pending row is settled with the outcome of its own call, numbered by the pending rows before it; other rows are unchanged |
| Dispatch.DispatchCounts | src/app/dashboard/compose/page.tsx:219-260 | after the loop no row is PENDING, SENT rows count the delivered calls, FAILED rows the thrown ones, and SKIPPED rows stay as they were |
| Dispatch.RecipientRowsFresh | src/app/dashboard/compose/page.tsx:177-198 | the rows built for a campaign belong to it and are PENDING or SKIPPED |
| Dispatch.LookupContact | src/app/dashboard/compose/page.tsx:217 | the map lookup finds a contact with that id, and none exactly when no contact has it |
| Dispatch.ContactOf | src/app/dashboard/compose/page.tsx:224 | the contact a row is rendered with has the row's `contactId`; there is none exactly when the id is null, empty or not fetched |
| Dispatch.Render | src/app/dashboard/compose/page.tsx:227-229 | without a contact, or without a placeholder, the text is sent as written |
| Dispatch.RenderClassified | src/app/dashboard/compose/page.tsx:224-237 | `RenderArgs` of a contact's PENDING row: sent to its trimmed address with subject, text and html rendered for that contact; html is absent exactly when the draft has none |
| Dispatch.RenderUnresolved | src/app/dashboard/compose/page.tsx:225-230 | `RenderArgs` of a row whose contact is not found is the draft verbatim |
| Dispatch.RenderAsWritten | src/app/dashboard/compose/page.tsx:227-229 | where no field of the row's contact holds `$`, the subject, text and html sent are what the code as written renders |
| Dispatch.Finish | src/app/dashboard/compose/page.tsx:263-275 | the campaign gets the four counts, and is FAILED exactly when a send failed, else SENT; its snapshots are kept |
| Dispatch.NewCampaign | src/app/dashboard/compose/page.tsx:162-174 | the campaign is created SENDING with count 0, in the session's organisation, with the draft and template-name snapshots |
| Dispatch.AggregateConsistent | src/app/dashboard/compose/page.tsx:219-275 | the recorded total is the sum of the three counts, each count is the number of rows in that status after the loop, and the status is FAILED exactly when a row failed |
| Dispatch.Progress | src/app/dashboard/compose/page.tsx:223-260 | k iterations of the loop keep the table's length |
| Dispatch.Calls | src/app/dashboard/compose/page.tsx:232-237 | k iterations make k `sendEmail` calls |
| Dispatch.CallsAt | src/app/dashboard/compose/page.tsx:224-237 | the j-th call carries the rendering of the j-th pending row |
| Dispatch.ProgressComplete | src/app/dashboard/compose/page.tsx:206-260 | the loop over the pending query settles the table exactly as `Dispatch` does |
| Dispatch.DeliverPending | src/app/dashboard/compose/page.tsx:206-260 | one call per PENDING row in table order; the table becomes `Dispatch` of the old table, and the counters are the delivered and thrown calls |
| Dispatch.SettlePending | src/app/dashboard/compose/page.tsx:219-260 | the `for` loop's table, calls list and counters after the last iteration |
| Dispatch.DeliveryComplete | src/app/dashboard/compose/page.tsx:206-260 | the loop matches `Dispatch`, makes one call per pending row with that row's rendering, and counts each call once |
| Dispatch.DispatchKeepsCampaigns | src/app/dashboard/compose/page.tsx:240-254 | settling a row never moves it to another campaign |
| Dispatch.DispatchAfterOthers | src/app/dashboard/compose/page.tsx:206-214 | rows of other campaigns are neither sent nor counted |
| Dispatch.CallsAfterOthers | src/app/dashboard/compose/page.tsx:206-237 | the calls over the whole table are the calls over the new campaign's rows |
| Dispatch.SendAction | src/app/dashboard/compose/page.tsx:115-279 | a rejected form changes nothing; an accepted one appends the campaign and its rows, sends to every PENDING row, records the aggregate and redirects to the result; the schema constraints are kept |
| Dispatch.Send | src/app/dashboard/compose/page.tsx:139-275 | after validation: the new campaign with its final counts, the settled rows, and one call per PENDING row with that row's rendering |
| Dispatch.Publish | src/app/dashboard/compose/page.tsx:162-275 | create SENDING, insert the rows, run the loop, write the counts and the status; the foreign key is kept |
| Dispatch.ReferAfterSend | src/app/dashboard/compose/page.tsx:201-203 | after the action every recipient row still refers to an existing campaign |
| Campaigns.ClampInt | src/app/dashboard/campaigns/page.tsx:11-15 | the default for a non-finite `Number(v)`; otherwise its floor clamped into `[min, max]`, each clamping direction stated |
| Campaigns.ClampIntOfBlank | src/app/dashboard/campaigns/page.tsx:11-15 | a blank parameter is the number 0, so it is clamped rather than defaulted |
| Campaigns.ClampIntOfDecimalString | src/app/dashboard/campaigns/page.tsx:69-70 | a `page` or `size` written by `String(n)` in range reads back as `n` |
| Campaigns.SkipTiles | src/app/dashboard/campaigns/page.tsx:71 | for `Skip`, the `skip` of the page: page 1 skips no rows, and each page starts where the one before it ends, so consecutive pages tile the listing |
| Campaigns.SkipIsPageStart | src/app/dashboard/campaigns/page.tsx:71 | a page starts on a multiple of the page size, and the page number reads back from the number of rows skipped |
| Campaigns.FiltersOf | src/app/dashboard/campaigns/page.tsx:63-65 | `q` and `createdBy` are trimmed, empty exactly when absent or blank, and kept as given when already trimmed; the status is `safeStatus` of the parameter, one of the options |
| Campaigns.FiltersRoundTrip | src/app/dashboard/campaigns/page.tsx:274-283 | a prev/next link carries `q`, `createdBy` and `status` so that the next request reads back the same filters |
| Campaigns.SafeStatus | src/app/dashboard/campaigns/page.tsx:17-21 | always one of the five options: the upper-cased value when it is one, else "ALL" |
| Campaigns.UpperWordIsFixed | src/app/dashboard/campaigns/page.tsx:19 | a word of capitals is its own upper case |
| Campaigns.SafeStatusIdempotent | src/app/dashboard/campaigns/page.tsx:17-21 | sanitising a sanitised status changes nothing |
| Campaigns.SafeStatusIgnoresCase | src/app/dashboard/campaigns/page.tsx:19 | a value, its lower case and its upper case give the same status |
| Campaigns.StatusOf | src/app/dashboard/campaigns/page.tsx:81-83 | the campaign status an option names, and none for "ALL" |
| Campaigns.Kept | src/app/dashboard/campaigns/page.tsx:36-42 | `buildQS` keeps at most the given entries |
| Campaigns.KeysAppend | src/app/dashboard/campaigns/page.tsx:36-42 | the keys of a concatenation are the concatenated keys |
| Campaigns.KeptKeysFromParams | src/app/dashboard/campaigns/page.tsx:36-42 | every key of the query string is a key of the record |
| Campaigns.BuildQS | src/app/dashboard/campaigns/page.tsx:36-42 | the `URLSearchParams.set` loop gives the non-blank entries in order |
| Campaigns.KeptExactly | src/app/dashboard/campaigns/page.tsx:39 | an entry is kept exactly when it is in the record and its value is not blank after trimming |
| Campaigns.SetParamSets | src/app/dashboard/campaigns/page.tsx:39 | after `set(k, v)` the key has the entry `(k, v)` and no other, and every other entry is kept |
| Campaigns.RemoveKeyMembers | src/app/dashboard/campaigns/page.tsx:39 | the entries `set` drops are exactly those of its key |
| Campaigns.Select | src/app/dashboard/campaigns/page.tsx:151-170 | exactly the rows that match the filter, no more rows than the table |
| Campaigns.ContainsTextOfInfix | src/app/dashboard/campaigns/page.tsx:98-99 | the search matches every text with an infix equal to the search text up to ASCII case |
| Campaigns.ContainsTextIgnoresCase | src/app/dashboard/campaigns/page.tsx:98-99 | lower-casing the text or the search text does not change whether it matches |
| Campaigns.Count | src/app/dashboard/campaigns/page.tsx:105-133 | `count` is at most the table's size, and 0 exactly when no row matches |
| Campaigns.FindManyIsSortedPage | src/app/dashboard/campaigns/page.tsx:151-170 | `findMany` with `skip`/`take` gives at most `take` matching rows of the table, newest first |
| Ordering.InsertDesc | src/app/dashboard/campaigns/page.tsx:155 | inserting adds one row |
| Ordering.SortDesc | src/app/dashboard/campaigns/page.tsx:155 | ordering keeps the number of rows |
| Ordering.SortIsSortedPermutation | src/app/dashboard/campaigns/page.tsx:155 | `orderBy createdAt desc` is newest first and a permutation of its input |
| Ordering.NewestIsFirst | src/app/api/contacts/route.ts:19 | a row newer than every row before it is ordered first, ahead of the previous order |
| Campaigns.Slice | src/app/dashboard/campaigns/page.tsx:156-157 | `skip`/`take` returns at most `take` rows, fewer only at the end of the rows |
| Campaigns.SliceWithin | src/app/dashboard/campaigns/page.tsx:156-157 | a page holds rows of the list and keeps its newest-first and failed-first orders |
| Campaigns.Part | src/app/dashboard/campaigns/page.tsx:179-180 | a status group has at most as many rows as the list |
| Campaigns.PartMembers | src/app/dashboard/campaigns/page.tsx:179-180 | a status group holds exactly the list's rows of that status |
| Ordering.InsertPermutes | src/app/dashboard/campaigns/page.tsx:155 | inserting a row adds exactly that row |
| Ordering.InsertDescending | src/app/dashboard/campaigns/page.tsx:155 | inserting into a newest-first list keeps it newest first |
| Campaigns.PartInsert | src/app/dashboard/campaigns/page.tsx:179-180 | taking one status group commutes with inserting a row |
| Campaigns.PartOfOrder | src/app/dashboard/campaigns/page.tsx:177-224 | ordering and then taking one status group equals taking the group and then ordering it |
| Campaigns.PartSplits | src/app/dashboard/campaigns/page.tsx:179-180 | the FAILED group and the others split the rows exactly |
| Campaigns.FailedFirstRegroups | src/app/dashboard/campaigns/page.tsx:172-247 | the failed-first order is the newest-first order with FAILED rows moved ahead, nothing lost or repeated |
| Campaigns.SelectWithStatus | src/app/dashboard/campaigns/page.tsx:110-113 | the FAILED filter selects the FAILED group of the base selection |
| Campaigns.SelectWithoutFailed | src/app/dashboard/campaigns/page.tsx:114-118 | the NOT FAILED filter selects the other group of the base selection |
| Campaigns.SplitPage | src/app/dashboard/campaigns/page.tsx:182-227 | the page starts in the FAILED segment exactly when `skip < failedCount`; the two takes add up to the page size, and the second skip accounts for every FAILED row |
| Campaigns.WindowInFailed | src/app/dashboard/campaigns/page.tsx:184-222 | a page starting in the FAILED segment is the window of FAILED rows followed by the others |
| Campaigns.WindowPastFailed | src/app/dashboard/campaigns/page.tsx:225-246 | a page past the FAILED segment is the window shifted into the other rows |
| Campaigns.FailedFirstPageIsWindow | src/app/dashboard/campaigns/page.tsx:172-247 | the two-segment page (`FailedFirstPage`) is positions [skip, skip + size) of the FAILED rows followed by the others |
| Campaigns.Shown | src/app/dashboard/campaigns/page.tsx:77-101 | exactly the campaigns the sanitised filters list |
| Campaigns.BuildBaseWhere | src/app/dashboard/campaigns/page.tsx:77-101 | the built filter matches a campaign exactly when the page lists it under the sanitised filters; a status condition is set exactly when the option is not "ALL" |
| Campaigns.SelectIsShown | src/app/dashboard/campaigns/page.tsx:77-101 | the rows the filter selects are the listed campaigns, in table order |
| Campaigns.TotalPages | src/app/dashboard/campaigns/page.tsx:269 | the fewest pages of `size` rows that hold every row, and at least one |
| Campaigns.NextPageIffMoreRows | src/app/dashboard/campaigns/page.tsx:271 | there is a next page exactly when rows remain after this one |
| Campaigns.CountRows | src/app/dashboard/campaigns/page.tsx:105-133 | the total is the count of the base filter whichever way it is computed; the FAILED count is that of the FAILED group when segments are used |
| Campaigns.ListRows | src/app/dashboard/campaigns/page.tsx:149-248 | the rows are the page of the selection, newest first or failed first |
| Campaigns.PageRowsAreShown | src/app/dashboard/campaigns/page.tsx:149-248 | a page (`PageRows`) holds at most `size` listed campaigns; it is newest first, or with failed-first no FAILED row follows another status |
| Campaigns.ListCampaigns | src/app/dashboard/campaigns/page.tsx:59-271 | login redirect without a session; otherwise the sanitised page and size, the count, the page of listed rows, the page total, and prev/next links exactly when there is a previous or a further page |
| Templates.Norm | src/app/dashboard/templates/actions.ts:10-12 | the value is trimmed, empty when absent, and kept when already trimmed |
| Templates.MustEditRole | src/app/dashboard/templates/actions.ts:14-16 | editing is allowed to every role but VIEWER |
| Templates.CheckForm | src/app/dashboard/templates/actions.ts:23-31 | the first blank field among name, subject and body is the error; a valid form stores name and subject trimmed, the body as typed and a blank html body as null |
| Templates.EditFormRoundTrip | src/app/dashboard/templates/actions.ts:68-76 | saving a template's own edit form (`EditForm`) unchanged validates and stores the same values again |
| Templates.WithArchived | src/app/dashboard/templates/actions.ts:109-115 | only the template with this id in this organisation gets the flag and the editor; content is untouched |
| Templates.WithFields | src/app/dashboard/templates/actions.ts:79-88 | only the template with this id in this organisation gets the form's values and the editor; every other row is unchanged |
| Templates.ArchiveIdempotent | src/app/dashboard/templates/actions.ts:109-115 | archiving twice is archiving once |
| Templates.RestoreAfterArchive | src/app/dashboard/templates/actions.ts:131-137 | restoring after archiving is restoring alone, and the target is unarchived |
| Templates.UpdateElsewhereIsNoOp | src/app/dashboard/templates/actions.ts:79-88 | an update, archive or restore aimed at no row of the organisation changes nothing |
| Templates.CreateTemplate | src/app/dashboard/templates/actions.ts:18-61 | login, forbidden, first missing field, then one new unarchived template; a unique violation maps to duplicate and any other failure propagates, both without a write |
| Templates.UpdateTemplate | src/app/dashboard/templates/actions.ts:63-101 | the same guards, then the form's values written on the org-scoped target |
| Templates.ArchiveTemplate | src/app/dashboard/templates/actions.ts:103-123 | the guards, then `isArchived` set on the org-scoped target; a failed write propagates |
| Templates.RestoreTemplate | src/app/dashboard/templates/actions.ts:125-145 | the guards, then `isArchived` cleared on the org-scoped target; a failed write propagates |
| Contacts.OrNull | src/app/api/contacts/route.ts:34-37 | an empty string becomes null, any other string is kept |
| Contacts.TrimmedField | src/app/api/contacts/route.ts:33-37 | the field is trimmed, empty when absent |
| Contacts.NormalEmail | src/app/api/contacts/route.ts:35 | null exactly when the trimmed address is empty, else the normal address |
| Contacts.Normalize | src/app/api/contacts/route.ts:33-37 | name trimmed; company, phone and note trimmed with empty as null; email normalised with empty as null |
| Contacts.NormalizeIdempotent | src/app/api/contacts/route.ts:33-37 | posting normalised fields again stores them unchanged |
| Contacts.DuplicateOf | src/app/api/contacts/route.ts:42-45 | a contact of the organisation with exactly this address, and none exactly when there is no such contact |
| Contacts.PostStatus | src/app/api/contacts/route.ts:25-65 | status 200 exactly for a created contact |
| Contacts.NewContact | src/app/api/contacts/route.ts:51-62 | the new row has the session's organisation and user, the normalised fields, and `now` as its creation time |
| Contacts.PostContact | src/app/api/contacts/route.ts:25-65 | 401, 403, 400 and 409 in the source's order, each without a write; otherwise exactly one new contact; per-organisation address uniqueness is kept |
| Contacts.AppendKeepsEmailsUnique | src/app/api/contacts/route.ts:42-62 | inserting a contact whose address the organisation lacks keeps addresses unique per organisation |
| Contacts.RepostIsDuplicate | src/app/api/contacts/route.ts:42-49 | once a contact with an address exists, posting that address again in its organisation is a duplicate |
| Contacts.OrgContacts | src/app/api/contacts/route.ts:17-20 | exactly the contacts of the organisation |
| Contacts.OrgContactsSnoc | src/app/api/contacts/route.ts:17-20 | a row appended to the table is appended to its organisation's rows and to no other |
| Contacts.OrgContactsKeepsOrder | src/app/api/contacts/route.ts:17-20 | the organisation filter distributes over concatenation, so it keeps table order |
| Contacts.OrgContactsCounts | src/app/api/contacts/route.ts:17-20 | each contact of the organisation is kept as often as the table holds it, and no other contact is kept |
| Contacts.Listed | src/app/api/contacts/route.ts:17-20 | the listing is newest first and holds exactly the organisation's contacts |
| Contacts.GetContacts | src/app/api/contacts/route.ts:13-23 | 401 exactly without a session; otherwise the organisation's contacts, newest first |
| Contacts.CreatedIsListed | src/app/api/contacts/route.ts:17-20 | a contact created after every other contact of its organisation is listed first, ahead of the previous listing |
| Contacts.CreatedElsewhereIsHidden | src/app/api/contacts/route.ts:17-20 | a contact created in one organisation does not change another organisation's listing |
| Verify.TokenByHash | src/app/api/auth/verify/route.ts:12-17 | a token with this hash, and none exactly when no token has it |
| Verify.Guard | src/app/api/auth/verify/route.ts:8-22 | a rejection is invalid, used or expired; an acceptance names an existing token |
| Verify.EarliestMembership | src/app/api/auth/verify/route.ts:30-35 | a membership of the user with the earliest `createdAt`, and none exactly when the user has none |
| Verify.Consume | src/app/api/auth/verify/route.ts:25-28 | only the chosen token changes, and only its `usedAt` |
| Verify.GuardsWriteNothing | src/app/api/auth/verify/route.ts:19-35 | a failed guard writes nothing; past the guards the token is consumed, and `nomember` happens exactly when the user has no membership |
| Verify.GuardOrder | src/app/api/auth/verify/route.ts:8-22 | blank or unknown token gives invalid, a used one used, an expired one expired, else the sign-in path |
| Verify.ExpiryInstantIsAccepted | src/app/api/auth/verify/route.ts:21 | a token expiring exactly now is accepted |
| Verify.SecondVerifyIsUsed | src/app/api/auth/verify/route.ts:20-28 | following the link again, at any later time, gives used |
| Verify.SessionIsEarliestMembership | src/app/api/auth/verify/route.ts:30-42 | the session carries the token's user and the organisation and role of their earliest membership |
| Verify.ConsumeKeepsHashesUnique | src/app/api/auth/verify/route.ts:25-28 | consuming a token keeps token hashes unique |
| Verify.VerifyLink | src/app/api/auth/verify/route.ts:7-43 | the route's redirect and token table are those of `VerifyOf`, and the schema constraints are kept |
| Accept.InviteByHash | src/app/api/invitations/accept/route.ts:12-16 | an invitation with this hash, and none exactly when none has it |
| Accept.Guard | src/app/api/invitations/accept/route.ts:8-21 | a rejection is invalid, used or expired; an admission names an existing invitation |
| Accept.UpsertUser | src/app/api/invitations/accept/route.ts:24-31 | the existing user is reused unchanged, else one ACTIVE user is appended; addresses stay unique |
| Accept.MembershipOf | src/app/api/invitations/accept/route.ts:34-47 | the membership on the compound key, and none exactly when there is none |
| Accept.UpsertMembership | src/app/api/invitations/accept/route.ts:34-47 | an existing membership gets the new role, else one is appended |
| Accept.UpsertMembershipExactlyOne | src/app/api/invitations/accept/route.ts:34-47 | afterwards the pair has exactly one membership, with the invited role; keys stay unique and other pairs are untouched |
| Accept.MarkAccepted | src/app/api/invitations/accept/route.ts:50-53 | only the chosen invitation changes, and only its `acceptedAt`; hashes stay unique |
| Accept.GuardOrder | src/app/api/invitations/accept/route.ts:8-21 | blank or unknown gives invalid, accepted gives used, expired gives expired, else joined; a failed guard writes nothing |
| Accept.JoinedUser | src/app/api/invitations/accept/route.ts:24-31 | the session has the invite's organisation and role, and the user with the invited address, reused or newly ACTIVE |
| Accept.JoinedMembership | src/app/api/invitations/accept/route.ts:34-47 | the signed-in user has exactly one membership in the organisation, with the session's role |
| Accept.SecondAcceptIsUsed | src/app/api/invitations/accept/route.ts:19-53 | accepting the same invitation again, at any time, gives used |
| Accept.AcceptInvite | src/app/api/invitations/accept/route.ts:7-62 | the route's redirect and the three tables are those of `AcceptOf`, and the schema constraints are kept |
| Invite.InviteRole | src/app/api/invitations/create/route.ts:19 | EDITOR exactly when EDITOR was asked for, else VIEWER |
| Invite.NewInvitation | src/app/api/invitations/create/route.ts:26-39 | the session's organisation and user, the address and role, the token's hash, expiry exactly 24 hours after now, not accepted |
| Invite.CreateInvite | src/app/api/invitations/create/route.ts:11-53 | 403 unless an administrator, 400 for an implausible address, else one invitation; a taken hash fails without a write; hashes stay unique |
| Invite.AppendKeepsHashesUnique | src/app/api/invitations/create/route.ts:30-39 | inserting an untaken hash keeps invitation hashes unique |
| Invite.InvitedRecord | src/app/api/invitations/create/route.ts:17-39 | an invitation never grants ADMIN, and its address is normal and holds an `@` |
| RequestLink.NewLoginToken | src/app/api/auth/request-link/route.ts:21-31 | the user's token stores the hash, expires exactly 15 minutes after now, unused |
| RequestLink.RequestMagicLink | src/app/api/auth/request-link/route.ts:6-39 | the same ok response on every branch; a token and one mail exactly for a plausible known address; a taken hash fails without a write |
| RequestLink.AppendKeepsHashesUnique | src/app/api/auth/request-link/route.ts:21-31 | inserting an untaken hash keeps token hashes unique |
| RequestLink.IssuesIgnoresCase | src/app/api/auth/request-link/route.ts:8 | whether a link is issued (`Issues`) does not depend on the case or surrounding blanks of the address typed |

## Left out

- Prisma, SQLite and the network are not part of this model. Each query is a function over the table sequences, and a query's row order is the table order unless the query sorts.
- `Ordering.SortDesc`: rows created at the same instant keep table order, whereas the database leaves their order unspecified. Campaigns and contacts are both ordered by it.
- `Contacts.CreatedIsListed`: requires the new contact to be strictly newer than every other contact of its organisation, since the database may list contacts created at the same instant in any order.
- `Campaigns.ContainsText`: Prisma's `LIKE` matching is modelled as an ASCII case-insensitive infix test; the `%` and `_` wildcards inside the search text are not.
- `parseDateOnly` and `addDaysUTC` (src/app/dashboard/campaigns/page.tsx:23-34): JavaScript `Date` arithmetic. The parsed `from`/`to` instants are parameters of `Campaigns.ListCampaigns`, and the end bound is the start of the day plus 86 400 000 ms.
- The failure top-N `groupBy` (src/app/dashboard/campaigns/page.tsx:252-267) and the `baseQS` link serialisation (274-283, 476-489): the first is a report only, and the second is percent-encoding of the query string the model keeps as key/value pairs.
- `Campaigns.BuildQS`: requires distinct keys, which every object literal the page passes has; the serialisation by `toString` is not modelled.
- `Numbers.StringToNumber`: values are exact rationals; only the overflow to Infinity of IEEE-754 rounding is modelled, not rounding within range.
- `Strings.ToLower`, `Strings.ToUpper`: case mapping covers ASCII letters, plus the two non-ASCII letters whose upper case is ASCII; other Unicode case mappings are not modelled.
- Non-string form and JSON values (a `File` in `FormData`, a number in a JSON body, where `.trim` would throw) are not modelled: every field is a string or absent.
- `Compose.ToErrorMessage`: the result of `JSON.stringify` is a parameter of the thrown value (`OtherValue(json)`); a thrown `undefined`, which stringifies to `undefined`, is not modelled.
- `Dispatch.RenderArgs` carries no contract of its own; `Dispatch.RenderClassified` and `Dispatch.RenderUnresolved` state what it sends.
- `Dispatch.Render`: renders with the corrected `Compose.ApplyVars`, which inserts field values literally, not with `Compose.ApplyVarsAsWritten`, the source's `$`-pattern expansion (see Findings). The two agree whenever no field of the contact holds `$` (`Dispatch.RenderAsWritten`).
- `Dispatch.RenderArgs`: sends the corrected rendering of `Dispatch.Render`, so for a contact with `$` in a field the subject, text and html differ from what the source sends.
- `Dispatch.RenderClassified`: states the corrected rendering; it is the source's own rendering only when no field of the contact holds `$`.
- `Dispatch.CallsAt`: the calls carry the corrected rendering; it matches the source only when no field of the contact holds `$`.
- `Dispatch.DeliverPending`: the calls carry the corrected rendering; it matches the source only when no field of the contact holds `$`.
- `Dispatch.SettlePending`: the calls carry the corrected rendering; it matches the source only when no field of the contact holds `$`.
- `Dispatch.DeliveryComplete`: "that row's rendering" is the corrected rendering; it matches the source only when no field of the contact holds `$`.
- `Dispatch.SendAction`: the calls carry the corrected rendering; it matches the source only when no field of the contact holds `$`.
- `Dispatch.Send`: the calls carry the corrected rendering; it matches the source only when no field of the contact holds `$`.
- `Dispatch.Settle`: the `try` block of the loop also wraps the update to SENT (src/app/dashboard/compose/page.tsx:238-258). If that database write throws after a delivered call, the source then marks the row FAILED and counts a failure. Database writes never fail in this model, so a delivered call always gives SENT.
- `Dispatch.SendAction`: the mail gateway is the parameter `gateway`, so the transport and the message ids come from outside. Recipient rows are identified by their position in the table.
- `Dispatch.SendAction`: requires the schema constraints and a fresh campaign id, as the database guarantees them.
- The dispatch loop is modelled without crashes, timeouts or concurrent dispatches; the source has no recovery path for them.
- Template writes: whether the insert or update succeeds, violates a unique constraint (P2002) or fails otherwise is the parameter `write`, because the schema's constraints are not part of this model.
- Invitation and login-token inserts: the only failure modelled is a `tokenHash` collision with the unique constraint, which propagates as `Thrown`. Other database failures are not modelled.
- `Verify.EarliestMembership`: among memberships created at the same instant it takes the earlier table row, whereas the database leaves their order unspecified.
- `Verify.VerifyLink`: the expiry test and `usedAt` use the same `now`, whereas the source reads the clock twice (src/app/api/auth/verify/route.ts:21, 27).
- `Accept.AcceptInvite`: `acceptedAt`, the membership `createdAt` and the upsert all use the same `now`. The id of a created user is the parameter `newUserId`.
- `RequestLink.RequestMagicLink`: `sendMagicLink` and the verify URL built from `APP_URL` are represented by the returned `MagicLink(to, token)`; a mail transport failure is not modelled.
- `Invite.CreateInvite`: the invitation URL and the `console.log` of it are not modelled.
- Session cookies (signing, expiry, `getSession`), `revalidatePath` and the React rendering of every page are not modelled; redirects and responses are outcome values.
- The compose page's preview rendering is modelled only through `Dispatch.ShownSendable`, the "sendable" mark it shows.
- The random token generator and SHA-256 are parameters (`token`, `hash`); their collision resistance is not assumed beyond the unique-constraint outcome.

## Findings

| source | as written | input that shows it | evidently intended | confidence | as-written member | corrected member |
|---|---|---|---|---|---|---|
| src/app/dashboard/compose/page.tsx:39-45 | `replaceAll` with a string replacement expands `$&`, `$$`, `` $` `` and `$'` in the contact's field values | a contact named `$&` turns `{{name}}` into `{{name}}` instead of `$&` | the field value inserted literally (for example with a replacer function) | not executed | Compose.DollarPatternCounterexample | Compose.ApplyVars |
