# Customer support portal — a verified model of its decision rules

The portal lets a company's staff open and follow support tickets that live
in an external service-desk system. It has two parts. A NestJS backend keeps
users, companies and technicians in its own store and talks to the
service-desk REST API. A Next.js frontend holds the pages. This project
models the parts of both that make decisions, and proves what they promise.

Backend:
- the ticket service's per-user read cache, and the enrichment of every
  fetched ticket with the name of its technician;
- the technician and company synchronisations, which upsert a fetched list
  into a table keyed by the service-desk id;
- the company search used by the autocomplete, and its name normalisation;
- registration and login, including the linking of a user to a service-desk
  contact on first login;
- the dispatch of queued ticket jobs;
- the field constraints the register and login request bodies declare.

Frontend:
- the ordered checks of the registration, user-creation and profile forms,
  and their shared password rule;
- list pagination and the window of page numbers;
- ticket status labels and the capped "hours elapsed" counter;
- the ticket fetch with retries, and the optimistic insert of a temporary
  ticket followed by a bounded refresh;
- the login page's simulated progress bar;
- the company autocomplete widget;
- the language toggle.

Layout:
- Pure code becomes Dafny functions, specified by lemmas.
- Service classes and page state become classes whose methods change their
  fields.
- Loops in the source stay loops, and each is proved against a function:
  - the sync loops;
  - the fetch retry loop;
  - the refresh loop;
  - the page-number loop;
  - the progress ticks.
- Shared modules:
  - `Wrappers` (Option, Result);
  - `Json` (JavaScript values and truthiness);
  - `Text` (`trim`, ASCII `toLowerCase`, `startsWith`);
  - `Decimal` (printing integers, `Number()`, `parseInt`);
  - `Sorting` (an insertion sort under a total preorder);
  - `Pagination`;
  - `PasswordPolicy`.
- Whatever lies outside the portal becomes a parameter:
  - the HTTP answers of the service-desk API and of the backend;
  - the clock;
  - password hashing, comparison and token signing;
  - e-mail syntax;
  - Unicode lower-casing and NFD decomposition.

## Model

| member | source | states |
|---|---|---|
| Text.TrimStartMeaning | apps/frontend/src/app/register/page.tsx:59 | `trimStart` removes exactly the leading whitespace: the result is a suffix, does not start with whitespace, and everything removed is whitespace |
| Text.TrimEndMeaning | apps/frontend/src/app/tickets/page.tsx:297 | `trimEnd` removes exactly the trailing whitespace, symmetrically |
| Text.TrimEmptyIffBlank | apps/frontend/src/app/tickets/page.tsx:297 | `!s.trim()` holds exactly when the string is made of whitespace only |
| Text.TrimIsSlice | apps/frontend/src/app/register/page.tsx:59 | a trimmed string is a contiguous slice of the input |
| Text.LowerAscii | apps/backend/src/auth/auth.service.ts:27 | lower-casing keeps the length and maps every character on its own |
| Text.LowerAsciiIdempotent | apps/backend/src/auth/auth.service.ts:46 | lower-casing an already lower-cased e-mail changes nothing |
| Decimal.NatToString | apps/backend/src/tickets/tickets.service.ts:23 | a printed natural number is non-empty, all digits, with no leading zero |
| Decimal.IntToString | apps/backend/src/tickets/tickets.service.ts:23 | a printed integer is non-empty and made of digits and a minus sign |
| Decimal.ParseInteger | apps/backend/src/tickets/tickets.service.ts:23 | strict decimal syntax is accepted exactly when it is an optional sign followed by one or more digits |
| Decimal.IntRoundTrip | apps/backend/src/tickets/tickets.service.ts:23 | reading back a printed integer gives the same integer |
| Decimal.IntToStringInjective | apps/backend/src/tickets/tickets.service.ts:23 | two different integers never print the same text |
| Decimal.NatRoundTrip | apps/backend/src/tickets/tickets.service.ts:23 | the digits printed for a natural number are worth that number |
| Decimal.DigitPrefix | apps/frontend/src/app/admin/users/page.tsx:202 | the digits `parseInt` reads are the longest run of digits at the start |
| Decimal.NoWhitespaceInNumber | apps/frontend/src/app/register/page.tsx:125 | printed integers contain no whitespace, so trimming leaves them as they are |
| Decimal.JsNumberOfPrinted | apps/frontend/src/app/register/page.tsx:125 | `Number(String(n)) == n`, so a company id printed into the page is read back unchanged |
| Decimal.DigitPrefixOfDigits | apps/frontend/src/app/admin/users/page.tsx:202 | on text made only of digits, `parseInt` reads all of it |
| Decimal.ParseIntOfDigits | apps/frontend/src/app/admin/users/page.tsx:202 | `parseInt` of a non-empty run of digits is the value of those digits |
| Decimal.ParseIntOfNegative | apps/frontend/src/app/admin/users/page.tsx:202 | `parseInt` of a minus sign followed by a printed positive number is its negation |
| Decimal.JsParseIntOfPrinted | apps/frontend/src/app/admin/users/page.tsx:202 | `parseInt(String(n)) == n` |
| Sorting.Insert | apps/frontend/src/app/tickets/page.tsx:79-82 | inserting adds exactly the one element to the multiset of the list |
| Sorting.InsertSorted | apps/frontend/src/app/tickets/page.tsx:79-82 | under a total preorder, inserting into an ordered list keeps it ordered |
| Sorting.InsertionSort | apps/frontend/src/app/tickets/page.tsx:79-82 | sorting keeps exactly the same elements |
| Sorting.InsertionSortSorted | apps/frontend/src/app/tickets/page.tsx:79-82 | under a total preorder the result is ordered and a permutation of the input |
| Pagination.SliceIndex | apps/frontend/src/app/tickets/page.tsx:30 | `slice` clamps an index into `[0, len]` and keeps an index already inside |
| Pagination.CeilDiv | apps/frontend/src/app/tickets/page.tsx:33 | `Math.ceil(n / d)` is the least number of pages of size `d` covering `n` items |
| Pagination.PageItemsMeaning | apps/frontend/src/app/admin/users/page.tsx:112-114 | page `p` holds at most `perPage` items: the run from item `(p-1)*perPage`, cut short by the end of the list, or nothing past the end |
| Pagination.PagesUpToIsPrefix | apps/frontend/src/app/admin/users/page.tsx:112-114 | pages 1 to `k`, laid end to end, are the first `min(k*perPage, n)` items |
| Pagination.NextPage | apps/frontend/src/app/admin/users/page.tsx:112-114 | adding page `k` to what pages 1 to `k-1` cover gives what pages 1 to `k` cover |
| Pagination.AllPagesGiveTheList | apps/frontend/src/app/admin/users/page.tsx:112-115 | pages 1 to `ceil(n/perPage)` together give back the whole list, in order |
| Pagination.PageWindowMeaning | apps/frontend/src/app/admin/users/page.tsx:116 | the page-number window runs consecutively from `max(1, p-3)` to `min(total, p+4)`, has at most 8 entries, and holds `p` when `p` is an existing page |
| PasswordPolicy.LookaheadOnAllowedText | apps/frontend/src/app/register/page.tsx:106 | on text of allowed characters each `(?=.*[class])` lookahead is the same as containing the class |
| PasswordPolicy.RegexIsStrongPassword | apps/frontend/src/app/register/page.tsx:106 | the password expression accepts exactly the passwords of at least 8 allowed characters with a lowercase letter, an uppercase letter, a digit and one of `@$!%*?&` |
| AuthDto.ParseRegister | apps/backend/src/auth/dto/auth.dto.ts:4-22 | a register body is accepted exactly when every property constraint holds; an accepted one has a password of 6 or more, a company id of 1 or more and a valid e-mail |
| AuthDto.ParseLogin | apps/backend/src/auth/dto/auth.dto.ts:24-30 | a login body is accepted exactly when the e-mail is valid and the password is a string |
| AuthDto.RegisterRoundTrip | apps/backend/src/auth/dto/auth.dto.ts:4-22 | a register request that meets the constraints survives JSON and the declared checks unchanged |
| AuthDto.LoginRoundTrip | apps/backend/src/auth/dto/auth.dto.ts:24-30 | a login request with a valid e-mail passes the declared checks unchanged |
| AuthDto.RegisterRejections | apps/backend/src/auth/dto/auth.dto.ts:5-21 | a short or missing password, a missing or non-positive company id, a missing name or an invalid e-mail is refused |
| TechniciansSync.UpsertAllOverrides | apps/backend/src/autotask/technicians.service.ts:57-81 | the upsert loop's result is the old table overridden by the rows of the response |
| TechniciansSync.WrittenKeys | apps/backend/src/autotask/technicians.service.ts:58-62 | the ids written are exactly those of resources with both a first and a last name |
| TechniciansSync.OtherRowsUntouched | apps/backend/src/autotask/technicians.service.ts:61-62 | a row whose id no named resource carries is neither changed nor deleted |
| TechniciansSync.WrittenRowIndependentOfPriorState | apps/backend/src/autotask/technicians.service.ts:63-78 | a written row is the same whatever the table held before, since update and create write the same values |
| TechniciansSync.SyncIdempotent | apps/backend/src/autotask/technicians.service.ts:57-81 | syncing the same response twice gives the table syncing it once gives |
| TechniciansSync.WrittenRowsComeFromResources | apps/backend/src/autotask/technicians.service.ts:59-77 | every written row comes from a named resource with that id: full name `first + " " + last`, a missing e-mail stored as null, `isActive` coerced to a boolean |
| TechniciansSync.SyncTechnicians | apps/backend/src/autotask/technicians.service.ts:23-88 | a failed query rethrows and changes nothing; otherwise the loop yields the upserts of all resources, or of those before the one the store rejects, whose error is rethrown |
| TicketsCache.IndexOf | apps/backend/src/tickets/tickets.service.ts:23 | the index found holds the first occurrence of the character, and None means it does not occur |
| TicketsCache.CacheKeyRoundTrip | apps/backend/src/tickets/tickets.service.ts:23 | the key `tickets_<contactId>_<companyId>` can be read back into the contact and company it was built from |
| TicketsCache.CacheKeyInjective | apps/backend/src/tickets/tickets.service.ts:23-28 | two users share a key only if they have the same contact and company; reading and invalidation use the same key |
| TicketsCache.FirstCandidate | apps/backend/src/tickets/tickets.service.ts:86-127 | the reference choice is null or a truthy, non-system id from the list |
| TicketsCache.ChosenIsFirstCandidate | apps/backend/src/tickets/tickets.service.ts:100-127 | the four guarded assignments choose the first truthy id that is not a system account, in the order assigned, completed-by, first response, last activity |
| TicketsCache.ResolveNameMeaning | apps/backend/src/tickets/tickets.service.ts:83-141 | the name is the technician's full name when the chosen id is in the table, and "Non assigné" when no id qualifies or the id is unknown |
| TicketsCache.WithName | apps/backend/src/tickets/tickets.service.ts:143-146 | the enriched ticket keeps every field and sets `assignedResourceName` |
| TicketsCache.EnrichAllMeaning | apps/backend/src/tickets/tickets.service.ts:81-148 | enrichment fails exactly when some lookup fails; otherwise it keeps the length, the order and every field of every ticket, and only sets its technician's name |
| TicketsCache.TicketsService.constructor | apps/backend/src/tickets/tickets.service.ts:16 | the cache starts empty |
| TicketsCache.TicketsService.GetTicketsForUser | apps/backend/src/tickets/tickets.service.ts:21-161 | a found entry is served unchanged, whatever its age, without querying; on a miss a failure throws and leaves the cache alone, and a success stores the enriched tickets stamped `now` and returns nothing |
| TicketsCache.TicketsService.CreateTicketForUser | apps/backend/src/tickets/tickets.service.ts:163-205 | the request always carries status 1, priority 3 and the given contact, company, title and description; success drops only that user's key; failure throws and leaves the cache alone |
| TicketsCache.InvalidationIsPerUser | apps/backend/src/tickets/tickets.service.ts:195-197 | dropping one user's key leaves every other user's entry as it was |
| CompanyCatalog.StripMarks | apps/backend/src/company/company.service.ts:54 | removing U+0300–U+036F leaves no combining mark and never lengthens the text |
| CompanyCatalog.StripMarksOfMarkFree | apps/backend/src/company/company.service.ts:54 | text without combining marks is left as it is |
| CompanyCatalog.StripMarksKeepsTheRest | apps/backend/src/company/company.service.ts:54 | a character survives exactly when it was there and is not a combining mark |
| CompanyCatalog.NormalizeString | apps/backend/src/company/company.service.ts:50-55 | the normalised name contains no combining mark |
| CompanyCatalog.LexLeTotal | apps/backend/src/company/company.service.ts:42-44 | the name order compares any two names |
| CompanyCatalog.LexLeTransitive | apps/backend/src/company/company.service.ts:42-44 | the name order is transitive |
| CompanyCatalog.NameOrderIsTotalPreorder | apps/backend/src/company/company.service.ts:42-44 | ordering rows by name is a total preorder |
| CompanyCatalog.Filter | apps/backend/src/company/company.service.ts:30-36 | the filter keeps exactly the matching rows (active, normalised name starting with the query) and invents none |
| CompanyCatalog.SelectedRowsMeaning | apps/backend/src/company/company.service.ts:28-46 | for a query of two or more characters, the rows behind the answer are at most 10 active rows of the table whose normalised name starts with the normalised query, in name order, and all such rows when there are at most 10 |
| CompanyCatalog.SearchHitsMeaning | apps/backend/src/company/company.service.ts:22-47 | the answer is empty for a missing or one-character query; otherwise it has at most 10 hits in name order, each exposing id, name and service-desk id of an active matching row, and holds every matching row's hit when there are at most 10 |
| CompanyCatalog.ShortQueryFindsNothing | apps/backend/src/company/company.service.ts:23-25 | a missing or one-character query returns nothing |
| CompanyCatalog.SortedByName | apps/backend/src/company/company.service.ts:42-44 | the sorted rows are in ascending name order |
| CompanyCatalog.SortedPrefixIsLeast | apps/backend/src/company/company.service.ts:42-45 | the first `n` of a sorted list are sorted and none sorts after a row left out |
| CompanyCatalog.PrefixRemainder | apps/backend/src/company/company.service.ts:45 | what `take` leaves out is the rest of the list |
| CompanyCatalog.FirstByNameIsPrefix | apps/backend/src/company/company.service.ts:42-45 | ordering then taking `n` keeps a prefix of the sorted rows, all of them when there are at most `n` |
| CompanyCatalog.FirstByNameDrawn | apps/backend/src/company/company.service.ts:45 | at most `n` rows are kept, all from the input, and all of it when the input is short |
| CompanyCatalog.FirstByNameLeast | apps/backend/src/company/company.service.ts:42-45 | no row left out sorts before a row kept |
| CompanyCatalog.FirstByNameMeaning | apps/backend/src/company/company.service.ts:42-45 | `orderBy name` then `take n`: at most `n` rows, sorted, drawn from the input, all of it when short, none left out that sorts earlier |
| CompanyCatalog.SearchResultMeaning | apps/backend/src/company/company.service.ts:22-47 | a search of two or more characters returns at most 10 active matches in name order; they are the first matches by name, and all of them when there are at most 10 |
| CompanyCatalog.UpsertCompanyKeys | apps/backend/src/company/company.service.ts:84-95 | one upsert adds its id to the keys and draws one value from the id sequence, whether it creates or updates |
| CompanyCatalog.UpsertCompaniesMembership | apps/backend/src/company/company.service.ts:81-96 | after the loop the table has rows for exactly the old ids plus the ids listed; none is deleted |
| CompanyCatalog.UpsertCompaniesNextId | apps/backend/src/company/company.service.ts:81-96 | the loop draws one sequence value per item, and each row it creates holds one of the values it drew |
| CompanyCatalog.UpsertCompaniesWellNumbered | apps/backend/src/company/company.service.ts:84-95 | the loop keeps local ids distinct and below the sequence's next value |
| CompanyCatalog.UpsertCompaniesKeys | apps/backend/src/company/company.service.ts:81-96 | the key facts above together |
| CompanyCatalog.UpsertCompaniesRows | apps/backend/src/company/company.service.ts:84-95 | every listed row carries the latest name listed for its id and that name's normalisation; rows keep local id, service-desk id and `isActive`; unlisted rows are unchanged |
| CompanyCatalog.LatestNameOfListed | apps/backend/src/company/company.service.ts:81-96 | an id that is listed has a latest name |
| CompanyCatalog.LatestNameIsListed | apps/backend/src/company/company.service.ts:81-96 | a latest name is the name of some listed item with that id |
| CompanyCatalog.CoveredKeysStay | apps/backend/src/company/company.service.ts:81-96 | a table that already has every listed id gets no new key from the loop |
| CompanyCatalog.UpsertCompaniesOnCoveredTable | apps/backend/src/company/company.service.ts:81-96 | on a table that already agrees with the list, the loop changes no row; only the id sequence moves on, by one per item |
| CompanyCatalog.CompanySyncIdempotent | apps/backend/src/company/company.service.ts:81-96 | syncing the same list twice gives the same rows as syncing it once; the second run only moves the id sequence on |
| CompanyCatalog.SyncCompaniesFromAutotask | apps/backend/src/company/company.service.ts:65-102 | the loop yields the upserts of the list, or of those before a store failure; errors are logged, never rethrown, and upserts already done remain |
| Auth.WithoutPasswordDropsOnlyThePassword | apps/backend/src/auth/auth.service.ts:56-57 | two stored users give the same returned user exactly when they differ in nothing but the password, so only the password is removed |
| Auth.NewContactRequest | apps/backend/src/auth/auth.service.ts:83-88 | the contact created carries the user's e-mail and company, with names defaulting to 'Client' and 'Portail' |
| Auth.Linked | apps/backend/src/auth/auth.service.ts:93-99 | linking sets the contact id, takes the contact's phone when it has one, and changes nothing else |
| Auth.CompanyName | apps/backend/src/auth/auth.service.ts:110 | the name is the user's company's name when the user has a known company with a non-empty name, and 'Inconnu' in every other case |
| Auth.AuthService.constructor | apps/backend/src/auth/auth.service.ts:25-58 | the user store starts empty over the given companies |
| Auth.AuthService.Register | apps/backend/src/auth/auth.service.ts:25-58 | a lowercased e-mail already used is refused, then an unknown company; otherwise exactly one user is stored, with the lowercased e-mail, hashed password and both company ids, and is returned without its password |
| Auth.AuthService.Login | apps/backend/src/auth/auth.service.ts:61-113 | unknown e-mail or bad password: Unauthorized, no change. Already linked: no directory call, no change. Missing company ids: BadRequest. Otherwise the found contact is reused or a new one created, and the row is linked. The token signs (id, e-mail); the company name defaults to 'Inconnu' |
| TicketsWorker.Process | apps/backend/src/tickets/workers/tickets.worker.ts:16-79 | an unknown job throws naming its type. Each job makes exactly its calls, in order, with its arguments in order; finalisation uses the created `itemId` and only runs after creation resolves. Success returns `{success: true}`; a service error is rethrown unchanged |
| RegisterPage.CheckForm | apps/frontend/src/app/register/page.tsx:94-126 | a form that passes the checks sends exactly the body built from its fields, with the company id through `Number` |
| RegisterPage.CheckFormMeaning | apps/frontend/src/app/register/page.tsx:98-114 | the form is sent exactly when all fields are filled, the passwords agree and are strong, and a company was picked. An empty field is reported first, then a mismatch |
| RegisterPage.AcceptedFormPassesValidation | apps/frontend/src/app/register/page.tsx:116-126 | a form the page accepts, with a company picked from the list, yields a body that meets every constraint `RegisterDto` declares and reads back as exactly what the user typed |
| RegisterPage.RegisterState.constructor | apps/frontend/src/app/register/page.tsx:9-23 | every field starts empty, no company picked, results hidden, no error |
| RegisterPage.RegisterState.TypeCompany | apps/frontend/src/app/register/page.tsx:194-198 | typing in the company field discards the picked company id and the "picked from list" flag |
| RegisterPage.RegisterState.Search | apps/frontend/src/app/register/page.tsx:25-60 | a trimmed query under 2 characters hides and empties the results; an answer shows "none found" or its lines; a thrown request changes nothing |
| RegisterPage.RegisterState.ClickResult | apps/frontend/src/app/register/page.tsx:62-75 | a click on a result line whose read-back text is not blank sets that trimmed text as the name, the printed id, and the flag together, and hides the panel; any other click changes nothing |
| RegisterPage.RegisterState.ClickAnywhere | apps/frontend/src/app/register/page.tsx:77-81 | a click outside both the input and the panel hides the panel |
| RegisterPage.RegisterState.Submit | apps/frontend/src/app/register/page.tsx:94-137 | a failed check sets its message and sends nothing; otherwise the body is sent, and the error line is the answer's message, the default, or the network message |
| AdminUsersPage.CheckCreate | apps/frontend/src/app/admin/users/page.tsx:65-90 | an accepted creation form sends the register body with the e-mail lower-cased |
| AdminUsersPage.CheckCreateMeaning | apps/frontend/src/app/admin/users/page.tsx:69-84 | a mismatch is reported whatever the password's strength; a request goes out exactly when the passwords agree and are strong, with a lower-case e-mail |
| AdminUsersPage.PaginationMeaning | apps/frontend/src/app/admin/users/page.tsx:112-116 | a page shows at most 10 users; the pages together give the list back; the window has at most 8 numbers and holds the current page |
| AdminUsersPage.AdminUsersState.constructor | apps/frontend/src/app/admin/users/page.tsx:8-26 | no users, page 1, empty go-to box, delete dialog closed with nothing selected, no creation message |
| AdminUsersPage.AdminUsersState.ClickPageNumber | apps/frontend/src/app/admin/users/page.tsx:193 | clicking a shown number makes it the current page, which stays 1 or more; the list, the go-to box, the delete dialog and the creation form and messages are unchanged |
| AdminUsersPage.AdminUsersState.GoToPage | apps/frontend/src/app/admin/users/page.tsx:202 | the current page moves only to a parsed number between 1 and the page count (an unparsable entry moves nowhere); the box is always cleared; the list, the delete dialog and the creation form and messages are unchanged |
| AdminUsersPage.AdminUsersState.DeleteUser | apps/frontend/src/app/admin/users/page.tsx:105-110 | without the word "DELETE" nothing changes; with it, only the dialog, selection and input are reset; the list, page, go-to box and creation form and messages never change |
| AdminUsersPage.AdminUsersState.CreateUser | apps/frontend/src/app/admin/users/page.tsx:65-103 | a failed check sets its message and sends nothing; otherwise the body is sent, and the outcome sets the thrown or answered message, or success; the list, page, go-to box, form and delete dialog are unchanged |
| ProfilePage.PasswordChangeMeaning | apps/frontend/src/app/profile/page.tsx:34-47 | with all three fields empty nothing is checked; otherwise the change passes exactly when the current password is given and the new one is confirmed and 8 or more long, and the first failing check names the error |
| ProfilePage.ProfileState.constructor | apps/frontend/src/app/profile/page.tsx:16-26 | the phone box starts with the stored user's phone, or empty |
| ProfilePage.ProfileState.Submit | apps/frontend/src/app/profile/page.tsx:28-60 | both messages are cleared first; a failed check sets its message and changes nothing else; otherwise the user and its stored copy get the typed phone and the success message is set |
| ProfilePage.PhoneUpdateKeepsTheRest | apps/frontend/src/app/profile/page.tsx:54 | `{...user, phone}` replaces the phone and keeps every other field |
| TicketsPage.PageNumbers | apps/frontend/src/app/tickets/page.tsx:36-39 | the page-number loop lists exactly 1 to `totalPages` |
| TicketsPage.TicketPagesMeaning | apps/frontend/src/app/tickets/page.tsx:24-33 | a page shows at most 6 tickets and the pages together give the list back |
| TicketsPage.StatusLabelAndColourAgree | apps/frontend/src/app/tickets/page.tsx:104-114 | `getStatusText` and `getStatusColor` agree: status 5 is "Résolu" and green, 26 is "En cours" and yellow, anything else "Inconnu" and gray |
| TicketsPage.RenderedColourMeaning | apps/frontend/src/app/tickets/page.tsx:191-201 | the card colours the label green exactly when it reads "Résolu" and yellow otherwise, so it agrees with `getStatusColor` only for statuses 5 and 26, and an "Inconnu" status is shown yellow |
| TicketsPage.ProgressHours | apps/frontend/src/app/tickets/page.tsx:116-122 | the counter is the whole hours elapsed, capped at 8, and reaches 8 exactly after 8 hours |
| TicketsPage.NewestFirstIsTotalPreorder | apps/frontend/src/app/tickets/page.tsx:79-82 | the creation-date comparator is a total preorder |
| TicketsPage.SortNewestFirstMeaning | apps/frontend/src/app/tickets/page.tsx:79-82 | the list is shown newest first and holds exactly the tickets received |
| TicketsPage.FirstOk | apps/frontend/src/app/tickets/page.tsx:59-96 | the attempt chosen is the first with an OK answer, and None means no attempt was OK |
| TicketsPage.RefreshFromMeaning | apps/frontend/src/app/tickets/page.tsx:354-378 | a kept list is non-empty and is the answer of an attempt from 1 to 5; "nothing yet" means all five answers were empty |
| TicketsPage.RefreshTickets | apps/frontend/src/app/tickets/page.tsx:354-395 | the refresh loop ends with the first non-empty list of attempts 1 to 5, or a thrown error, or nothing |
| TicketsPage.TicketsPageState.constructor | apps/frontend/src/app/tickets/page.tsx:17-25 | no tickets, loading, page 1, dialog closed with an empty form |
| TicketsPage.TicketsPageState.FetchTickets | apps/frontend/src/app/tickets/page.tsx:55-97 | at most 3 attempts; the first OK answer sets the list newest first and ends loading; after three failures the list is unchanged, and loading stays on when the last was a 401 or 500 |
| TicketsPage.TicketsPageState.ClickPageNumber | apps/frontend/src/app/tickets/page.tsx:25 | a click sets the current page; the list, loading flag, dialog and form fields are unchanged |
| TicketsPage.TicketsPageState.CreateTicket | apps/frontend/src/app/tickets/page.tsx:295-415 | a blank title or description only alerts. Otherwise the temp ticket goes first, then the old list. An accepted post whose refresh finds a list replaces the shown list, then the call to the undeclared `setNewTicketTemp` throws, so the catch block alerts and the form and dialog stay. Only a refresh that finds nothing resets the form and closes the dialog |
| TicketsPage.TempTicketFirst | apps/frontend/src/app/tickets/page.tsx:303-313 | the temp ticket ("TEMP-" + now, status 1, "En attente") comes first and the old list follows in order |
| LoginPage.StepMeaning | apps/frontend/src/app/login/page.tsx:48-52 | a tick never lowers the progress, never passes 99%, and moves it until 99% |
| LoginPage.StepsMonotoneAndBounded | apps/frontend/src/app/login/page.tsx:47-53 | under repeated ticks the progress is non-decreasing and stays at most 99% |
| LoginPage.StepsAdvance | apps/frontend/src/app/login/page.tsx:47-53 | until 99%, each tick adds at least half a percent |
| LoginPage.StepsReachCeiling | apps/frontend/src/app/login/page.tsx:47-53 | from any start at or below 99%, 99% is reached and then kept |
| LoginPage.LoginState.constructor | apps/frontend/src/app/login/page.tsx:8-13 | empty fields and error, not loading or syncing, progress 0, nothing stored |
| LoginPage.LoginState.Submit | apps/frontend/src/app/login/page.tsx:17-86 | the e-mail is sent lower-cased. A refused or failed login sets the error, stops loading and stores nothing. Success stores token and user, starts progress at 5%, ticks it, then sets 100% or reports the failed sync |
| CompanyAutocomplete.AutocompleteState.constructor | apps/frontend/src/app/components/CompanyAutocomplete.tsx:16-18 | empty query, no companies, closed |
| CompanyAutocomplete.AutocompleteState.Type | apps/frontend/src/app/components/CompanyAutocomplete.tsx:71 | typing sets the query only |
| CompanyAutocomplete.AutocompleteState.QueryChanged | apps/frontend/src/app/components/CompanyAutocomplete.tsx:22-43 | a query under 2 characters empties the list and closes without fetching; an answered request stores its body, a list or not (the status is never checked), and opens; a request that throws empties the list and leaves the drop-down as it was |
| CompanyAutocomplete.AutocompleteState.Select | apps/frontend/src/app/components/CompanyAutocomplete.tsx:45-49 | selecting sets the query to the company's name, closes the list and reports that company |
| CompanyAutocomplete.AutocompleteState.Click | apps/frontend/src/app/components/CompanyAutocomplete.tsx:51-58 | a click outside both the input and the open results closes them; any other click changes nothing |
| Language.Toggle | apps/frontend/src/hooks/useLanguage.ts:47-49 | toggling always changes the language |
| Language.ToggleInvolution | apps/frontend/src/hooks/useLanguage.ts:47-49 | toggling twice restores the language |
| Language.TablesShareKeys | apps/frontend/src/hooks/useLanguage.ts:9-40 | the French and English tables define the same 13 keys |
| Language.LanguageState.constructor | apps/frontend/src/hooks/useLanguage.ts:43 | the language starts as French |
| Language.LanguageState.ToggleLang | apps/frontend/src/hooks/useLanguage.ts:45-49 | the toggle switches French and English, and the texts always hold the same keys |

## Left out

- HTTP, the database, the queue runtime, timers, the DOM and browser storage.
  Their answers are parameters: service-desk and backend responses, store
  failures, the number of progress ticks, and clicks inside or outside an
  element.
- Time: `Date.now()` is the parameter `now`. In `getTicketsForUser` both
  reads of the clock are one instant, and so are the three reads that build
  the temporary ticket in tickets/page.tsx. Ticket dates are integer
  millisecond timestamps; date parsing and ISO formatting are not modelled.
- Floating point: `getProgressPercentage` and the worker's duration
  `toFixed` are not modelled. The login progress is counted in half
  percents, which the steps of 3, 1.5 and 0.5 percent hit exactly.
- Text.LowerAscii: lower-cases ASCII letters only, not the full Unicode
  mapping of `toLowerCase`.
- CompanyCatalog.NormalizeString: Unicode lower-casing with NFD
  decomposition is the parameter `lowerNfd`. Only the removal of
  U+0300–U+036F is modelled.
- CompanyCatalog.Matches: the store's case-insensitive `startsWith` is
  modelled with the ASCII lower-casing above.
- The `isActive` value of a newly created company row comes from the store
  schema, which is not part of this model. It is the table's
  `activeByDefault` field.
- Password hashing and comparison, token signing, e-mail syntax, and the
  contact search and creation of the service-desk directory are
  parameters.
- TicketsWorker.Process: `createInAutotask`, `finalizeTicketCreation`,
  `syncTicketsAndMessagesForUser` and `createNoteForTicket` are not part of
  this model. Each call's answer is a parameter. Logging and durations are
  left out.
- Decimal.JsNumber: covers `Number()` on blank and integer text only.
  Fractions, exponents, hexadecimal and `Infinity` read as NaN.
- A `companyId` that is not an integer is not representable, so `@IsInt`
  reduces to "is a number".
- Controllers, guards, the socket gateway and the Next API proxy are
  plumbing and are not modelled.
- The admin page's company search (`searchCompanies` in
  admin/users/page.tsx) is not modelled, nor the user-list reload and the
  delayed reset after a creation.
- The `ReferenceError` raised by the undeclared `setNewTicketTemp` is
  modelled with the message "setNewTicketTemp is not defined"; a browser
  whose wording differs changes only the text of that alert.
- Validation errors the backend returns as arrays of messages are modelled
  as one message string.
- CompanyCatalog.NameLe: `orderBy: { name: 'asc' }` runs under the
  database's collation, which is not part of this model. Code-point order
  stands in for it, so which rows `take: 10` keeps, and their order, follow
  code points. A collation that ignores case may order "abc" before "Abz",
  where this model puts "Abz" first.
- CompanyCatalog.UpsertCompaniesNextId: the company table's schema, which
  gives `id` its sequence default, is not part of this model. `nextId`
  stands for that sequence. An upsert by a unique field runs as one insert
  that falls back to an update, so each upsert draws a value and real ids
  have gaps; the model draws one per item, and no more. An upsert the store
  rejects part-way draws nothing in the model, while the real sequence may
  already have moved on.
- AuthDto.ParseRegister: the decorators of `RegisterDto` and `LoginDto`
  declare constraints, but the application installs no validation pipe, so
  the endpoints do not enforce them. `AuthService.Register` and
  `AuthService.Login` take typed requests. A body with missing or
  wrongly typed fields, which the source would pass on and fail on later,
  is not modelled.
- RegisterPage.RegisterState.ClickResult: the result lines are markup with
  the company name written in unescaped. The text read back from them is
  the parameter `textContent`. How HTML parsing changes a name with
  entities or tags is not modelled.
- String lengths are counted in code points. JavaScript's `.length` counts
  UTF-16 code units, so a character outside the Basic Multilingual Plane
  counts once here and twice in the source. This affects the 2-character
  query guards (company.service.ts, register/page.tsx,
  CompanyAutocomplete.tsx) and the 8-character password minimum
  (profile/page.tsx).
- Sorting.InsertionSort: `Array.prototype.sort` is stable, and so is this
  insertion sort, but no lemma states stability. `SortNewestFirstMeaning`
  leaves the order of tickets with equal creation dates unstated.
- CompanyAutocomplete.AutocompleteState.QueryChanged: an answered search
  stores its body whatever the status, and an error body is not a list.
  The model records such a body as `NotAList`; the drop-down's rendering,
  which then fails on `.map`, is not modelled.
- CompanyAutocomplete's 300 ms debounce is not modelled. Each query change
  is one effect run.
