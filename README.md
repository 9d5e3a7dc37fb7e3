# FindMyDoc in Dafny

FindMyDoc is an app for reporting lost identity documents. Owners register their documents.
When they mark a document lost, the server files a lost report. People who find a document
post a found report and earn reward points. The two sides then talk through conversations.

This project models the core of that system and proves properties of the model:

- **The in-memory store `MemStorage`.**
  - Six maps (users, documents, lost reports, found reports, conversations, messages) and six
    id counters, with every create, read, update and delete operation.
  - The cross-entity side effects:
    - marking a document lost files a report;
    - filing a report marks its document lost, through the mutual recursion
      `updateDocument` ↔ `createLostDocument`;
    - a found report awards its finder 20 points;
    - a new message becomes its conversation's `lastMessage`;
    - deleting a document leaves its reports dangling.
- **The small rules around it:**
  - text masking and initials, and the plan and document-type tables;
  - the translation lookup `t`, the language guard and the initial language;
  - the reshaping of translation rows into a section table, and the login check;
  - the subscription rules;
  - the search filters of the lost and found feeds;
  - the active/lost toggle of the home page.

## Project layout

- **`Storage.MemStorage`** is a class whose fields are the store's maps and counters. Its
  methods change them in place. Each method is proved to compute exactly what the matching
  function of `StoreModel` computes on the old state.
- **`StoreModel`** holds those functions.
- **`StoreProperties`** holds the lemmas about the functions: one report per lost document,
  lost means reported, the points award, the message order.
- **`Language.LanguageProvider`** and **`Routes.FormatTranslations`** are imperative too. The
  provider models React state; `FormatTranslations` models the `reduce` that fills an
  accumulator.
- Everything else is functions and lemmas.

### Modelling conventions

- **Time:** an abstract integer `now`, passed as a parameter. One call of a store operation
  sees one `now`.
- **Calendar arithmetic:** `setMonth(+1)` and `setFullYear(+1)` are the two functions of a
  `Calendar` parameter.
- **Patches (`Partial<T>`):** a datatype of `Field`s, either `Keep` or `Set(v)`.
- **The document's `type` column** is called `kind`.

## Model

| member | source | states |
|---|---|---|
| Storage.MemStorage.constructor | server/storage.ts:51-68 | the new store is the empty store (six empty maps, every counter 1) after the demo data, and satisfies the invariant |
| Storage.MemStorage.InitializeDemoData | server/storage.ts:71-92 | the new state is `StoreModel.InitializeDemoData` of the old one; the invariant is kept |
| Storage.MemStorage.GetUser | server/storage.ts:95-97 | the map lookup, as `StoreModel.GetUser` |
| Storage.MemStorage.GetUserByUsername | server/storage.ts:99-103 | the first user in insertion order with that username, as `StoreModel.GetUserByUsername` |
| Storage.MemStorage.CreateUser | server/storage.ts:105-110 | stores the user under the current counter, increments the counter, changes nothing else; the invariant is kept |
| Storage.MemStorage.UpdateUser | server/storage.ts:112-123 | an unknown id fails with `UserNotFound` and leaves the whole state unchanged; otherwise only that user is replaced, by the merge |
| Storage.MemStorage.GetDocument | server/storage.ts:126-128 | the map lookup |
| Storage.MemStorage.GetDocumentsByUserId | server/storage.ts:130-134 | the user's documents in insertion order |
| Storage.MemStorage.CreateDocument | server/storage.ts:136-148 | stores the document under the current counter with both timestamps defaulting to `now`, increments the counter; the invariant is kept |
| Storage.MemStorage.UpdateDocument | server/storage.ts:150-172 | the new state and result are `StoreModel.UpdateDocument` of the old state, including the nested `createLostDocument` call |
| Storage.MemStorage.DeleteDocument | server/storage.ts:174-176 | removes that key only and returns whether it was there |
| Storage.MemStorage.GetLostDocuments | server/storage.ts:179-199 | the joined reports in insertion order, or the error of the first dangling report |
| Storage.MemStorage.GetLostDocument | server/storage.ts:201-220 | the joined report, absent when the report, its document or its user is missing |
| Storage.MemStorage.GetLostDocumentByDocumentId | server/storage.ts:222-226 | the first report in insertion order naming the document |
| Storage.MemStorage.CreateLostDocument | server/storage.ts:228-248 | the new state and result are `StoreModel.CreateLostDocument` of the old state, the nested `updateDocument` included |
| Storage.MemStorage.StoreLostDocument | server/storage.ts:229-238 | the report gets the old counter as its id and is stored; the counter is incremented |
| Storage.MemStorage.GetFoundDocuments | server/storage.ts:251-253 | every found report in insertion order |
| Storage.MemStorage.GetFoundDocument | server/storage.ts:255-257 | the map lookup |
| Storage.MemStorage.CreateFoundDocument | server/storage.ts:259-279 | the new state and result are `StoreModel.CreateFoundDocument` of the old state, the points award through `updateUser` included |
| Storage.MemStorage.StoreFoundDocument | server/storage.ts:260-268 | the report gets the old counter as its id, `foundAt` and `status` defaults applied, and is stored |
| Storage.MemStorage.GetConversationsByUserId | server/storage.ts:282-286 | the conversations the user takes part in, in insertion order |
| Storage.MemStorage.GetConversation | server/storage.ts:288-290 | the map lookup |
| Storage.MemStorage.CreateConversation | server/storage.ts:292-302 | stores the conversation under the current counter with `createdAt` defaulting to `now` |
| Storage.MemStorage.GetMessagesByConversationId | server/storage.ts:304-308 | that conversation's messages sorted by timestamp, as `StoreModel.GetMessagesByConversationId` |
| Storage.MemStorage.CreateMessage | server/storage.ts:310-329 | the new state and result are `StoreModel.CreateMessage` of the old state |
| Storage.MemStorage.StoreMessage | server/storage.ts:311-319 | the message gets the old counter as its id, `timestamp` and `read` defaults applied, and is stored |
| StoreModel.Listed | server/storage.ts:100 | `Array.from(map.values())`: every value whose key is below the counter, in ascending key order (the insertion order of a store whose keys come from the counter) |
| StoreModel.GetUser | server/storage.ts:95-97 | present exactly when the id is a key, and then the stored user, whose id is that key |
| StoreModel.GetUserByUsername | server/storage.ts:99-103 | absent exactly when no user has the username; otherwise a stored user with that username |
| StoreModel.CreateUser | server/storage.ts:105-110 | the new user's id is the counter, fresh and above every key; the map gains exactly that entry, the counter goes up by one, nothing else changes |
| StoreModel.UpdateUser | server/storage.ts:112-123 | fails exactly on an unknown id, with `UserNotFound(id)`; otherwise the user is `{ ...user, ...data, updatedAt: now }` and only that entry changes |
| StoreModel.GetDocument | server/storage.ts:126-128 | present exactly when the id is a key, and then the stored document |
| StoreModel.GetDocumentsByUserId | server/storage.ts:130-134 | every returned document is stored and owned by the user, and every stored document of the user is returned |
| StoreModel.CreateDocument | server/storage.ts:136-148 | the new id is the fresh counter; `createdAt`/`updatedAt` default to `now`; the map gains exactly that entry; nothing else changes |
| StoreModel.UpdateDocument | server/storage.ts:150-172 | unknown id: state unchanged and no result; otherwise returns the merged document, keeps the set of document keys and the invariant, and terminates because the nested call sees the report it just filed |
| StoreModel.DeleteDocument | server/storage.ts:174-176 | returns true exactly when the id was present; the documents map loses exactly that key and nothing else changes |
| StoreModel.JoinAll | server/storage.ts:179-199 | succeeds exactly when every report's document and user exist, and then joins each report, in order; otherwise fails naming a dangling report |
| StoreModel.GetLostDocument | server/storage.ts:201-220 | present exactly when the report, its document and its user all exist, and then their join |
| StoreModel.CreateLostDocument | server/storage.ts:228-248 | keeps the invariant and the set of document keys (the full effect is `StoreProperties.CreateLostDocumentAddsOne`) |
| StoreModel.GetFoundDocuments | server/storage.ts:251-253 | exactly the stored found reports |
| StoreModel.GetFoundDocument | server/storage.ts:255-257 | present exactly when the id is a key |
| StoreModel.CreateFoundDocument | server/storage.ts:259-279 | the report's id is the fresh counter, `foundAt` defaults to `now`, `status` defaults to "pending"; the found map gains exactly that entry |
| StoreModel.GetConversationsByUserId | server/storage.ts:282-286 | exactly the stored conversations whose participants include the user |
| StoreModel.GetConversation | server/storage.ts:288-290 | present exactly when the id is a key |
| StoreModel.CreateConversation | server/storage.ts:292-302 | the conversation's id is the fresh counter and it has no last message; nothing else changes |
| StoreModel.InsertByTimeCorrect | server/storage.ts:307 | inserting into a timestamp-sorted list keeps it sorted and adds exactly that message |
| StoreModel.SortByTimeCorrect | server/storage.ts:307 | the sort by timestamp yields a sorted permutation of its input |
| StoreModel.GetMessagesByConversationId | server/storage.ts:304-308 | sorted by ascending timestamp; exactly the stored messages of that conversation |
| StoreModel.CreateMessage | server/storage.ts:310-329 | the message's id is the fresh counter; `timestamp` defaults to `now`, `read` to false; the message map gains exactly that entry |
| StoreModel.InitializeDemoData | server/storage.ts:71-92 | keeps the invariant (contents in `StoreProperties.DemoData`) |
| StoreProperties.UsernameLookupFindsOldest | server/storage.ts:99-103 | no user with a smaller id has the username of the user found |
| StoreProperties.UsernameLookupReturnsOldest | server/storage.ts:99-103 | conversely, the user with the smallest id among those with the username is the one found |
| StoreProperties.ReportForIffHasReport | server/storage.ts:222-226 | `getLostDocumentByDocumentId` finds a report exactly when some report names the document |
| StoreProperties.FirstIdsAreOne | server/storage.ts:59-64 | on the empty store, the first user and the first document both get id 1 |
| StoreProperties.UserIdsIncrease | server/storage.ts:106 | two successive `createUser` calls give fresh ids, the second exactly one above the first |
| StoreProperties.DemoData | server/storage.ts:71-92 | the constructed store holds exactly the demo user 1 ("demo", 25 points) and their active "ID Card" 1, nothing else; the next user and document ids are 2 |
| StoreProperties.UpdateUserKeepsUnpatchedFields | server/storage.ts:112-122 | a known id succeeds; the id stays; every field absent from the patch keeps its value; `updatedAt` becomes `now`; every other user is unchanged |
| StoreProperties.UpdateUnknownDocument | server/storage.ts:150-155 | an unknown id returns nothing and leaves the whole store unchanged |
| StoreProperties.UpdateWithoutFiling | server/storage.ts:157-161 | when the patch does not set "lost" or the document already has a report, only that document is replaced by the merge |
| StoreProperties.CreateLostDocumentSteps | server/storage.ts:228-247 | `createLostDocument` is: store the report, then merge the mark-lost patch into the document if it exists; the nested call files nothing |
| StoreProperties.MarkLostFilesOneReport | server/storage.ts:157-169 | on a document without a report, marking it lost files exactly one report: the counter's id, the owner as `userId`, `lostAt` = now, `lostLocation` defaulting to "", description defaulting to "<name> was reported lost."; the document ends "lost"; the result is the first merge |
| StoreProperties.MarkLostFiles | server/storage.ts:160-169 | marking lost a document without a report is the merge followed by `createLostDocument` of the default report |
| StoreProperties.MarkLostOnlyReport | server/storage.ts:160-169 | afterwards the document has exactly one report, the map grew by one, and the document is "lost" with `lostAt` = now |
| StoreProperties.FiledReportFacts | server/storage.ts:228-247 | the two-step result satisfies `FilesOneReport`: one new report under the counter, the document (if present) marked lost with the report's date and place, the joined view present exactly when document and user exist, every other map unchanged |
| StoreProperties.CreateLostDocumentAddsOne | server/storage.ts:228-248 | `createLostDocument` satisfies `FilesOneReport`: the lost map grows by exactly one, the reports on the document gain exactly the new id |
| StoreProperties.UpdateKeepsOneReportPerDocument | server/storage.ts:150-172 | `updateDocument` keeps "no document has two reports" |
| StoreProperties.OneReportAfterFiling | server/storage.ts:228-248 | after filing, one report per document holds exactly when the document had none before |
| StoreProperties.CreateLostKeepsOneReportIff | server/storage.ts:228-248 | `createLostDocument` keeps one report per document exactly when the document had no report |
| StoreProperties.UpdateKeepsLostReported | server/storage.ts:150-172 | `updateDocument` keeps "every lost document has a report" |
| StoreProperties.FilingKeepsLostReported | server/storage.ts:160-169 | the filing branch of `updateDocument` keeps "every lost document has a report" |
| StoreProperties.NoFilingKeepsLostReported | server/storage.ts:157-161 | the branch without filing keeps "every lost document has a report" |
| StoreProperties.LostReportedAfterFiling | server/storage.ts:228-247 | after filing, every lost document has a report, given all other lost documents had one |
| StoreProperties.CreateLostKeepsLostReported | server/storage.ts:228-248 | `createLostDocument` keeps "every lost document has a report" |
| StoreProperties.CreateLostStatusUnreported | server/storage.ts:136-148 | `createDocument` with status "lost" files nothing, so the new document is lost without a report |
| StoreProperties.ReportFormFilesOneReport | server/storage.ts:136-148 | creating a "lost" document and then filing its report leaves exactly one report on it, with the given location, the document lost, every lost document reported, and a view exactly when the user exists |
| StoreProperties.MarkLostScenario | server/storage.ts:150-169 | from the empty store: a user, an active document, then marking it lost at "Maputo" gives report 1 by that user at "Maputo" and the document lost there |
| StoreProperties.DeleteThenGet | server/storage.ts:174-176 | delete returns whether the document was there; afterwards it is gone and every other document reads as before |
| StoreProperties.LostFeedIntegrity | server/storage.ts:179-199 | `getLostDocuments` succeeds exactly when no report dangles, and then contains every report's join |
| StoreProperties.DeleteLeavesDanglingReport | server/storage.ts:174-190 | deleting a reported document makes `getLostDocuments` fail |
| StoreProperties.FoundReportAwardsTwenty | server/storage.ts:259-279 | status defaults to "pending"; the report is listed; an existing finder gains exactly 20 points and `updatedAt` = now; every other user is unchanged; an unknown finder changes no user; no other map changes |
| StoreProperties.ListedExtend | server/storage.ts:106-108 | storing a value under the counter appends it to the insertion-order listing |
| StoreProperties.MessagesAsStored | server/storage.ts:304-308 | the sorted messages of a conversation are a permutation of its stored messages |
| StoreProperties.StoredGainsMessage | server/storage.ts:310-319 | `createMessage` adds the new message to its own conversation's stored messages and to no other |
| StoreProperties.MessageJoinsConversation | server/storage.ts:304-319 | `getMessagesByConversationId` after `createMessage` gains exactly the new message, in its own conversation only |
| StoreProperties.CreateMessages | server/storage.ts:310-329 | a run of `createMessage` calls returns one message per insert and keeps the conversation keys |
| StoreProperties.LastOfSequentialMessages | server/storage.ts:322-326 | after several messages to an existing conversation, its `lastMessage` is the last one sent |
| StoreProperties.SequentialMessagesStored | server/storage.ts:310-319 | several messages to one conversation all join its stored messages |
| StoreProperties.SequentialMessagesListed | server/storage.ts:304-329 | several messages to one conversation all join its listing, which grows by their number |
| StoreProperties.MessageBecomesLast | server/storage.ts:310-329 | `read` defaults to false and `timestamp` to now; an existing conversation's `lastMessage` becomes the message and no other conversation changes; no other map changes |
| Utils.MaskText | client/src/lib/utils.ts:26-31 | an empty text or one no longer than `visibleChars` is returned as is; otherwise the kept prefix (a negative count measured from the end, as `slice` does) followed by `min(length - visibleChars, 3)` stars; with a non-negative count never longer than `visibleChars + 3` nor than the text; `visibleChars` defaults to 3 |
| Utils.MaskTextIdempotent | client/src/lib/utils.ts:26-31 | masking a masked text changes nothing |
| Utils.Initials | client/src/lib/utils.ts:37-38 | one character per non-empty part, the upper-case of its first character, in order |
| Utils.GetInitials | client/src/lib/utils.ts:33-40 | "" for ""; at most two characters; exactly the upper-cased first characters of the first two non-empty space-separated words |
| Utils.FindPlan | client/src/lib/utils.ts:49-75 | a plan is found exactly for "free", "monthly" and "yearly", and it is the table entry with that id |
| Strings.SliceTo | client/src/lib/utils.ts:28 | `slice(0, end)`: the prefix of that length, the whole text past the end, and counted from the end when negative |
| Strings.Repeat | client/src/lib/utils.ts:29 | `c.repeat(n)`: n copies of c |
| Strings.Split | client/src/lib/utils.ts:36 | `split(sep)`: at least one piece, the text itself when it has no separator, two or more when it has one |
| Strings.SplitJoin | client/src/lib/utils.ts:36 | the pieces contain no separator and joining them with it gives the text back |
| Language.SectionNamed | client/src/lib/language.tsx:79 | `translations[name]` is absent exactly when no section has that name |
| Language.Search | client/src/lib/language.tsx:67-71 | the `for...in` search finds nothing exactly when no section from that point on has a truthy entry; what it finds is non-empty |
| Language.Translate | client/src/lib/language.tsx:62-86 | `t` returns the key itself or a non-empty translation |
| Language.SearchFindsFirst | client/src/lib/language.tsx:67-71 | the search returns the entry of the first section with a truthy entry |
| Language.UndottedFirstMatch | client/src/lib/language.tsx:65-71 | an undotted key translates to the entry of the first section, in order, whose current language has a non-empty value for it |
| Language.UndottedMissing | client/src/lib/language.tsx:72-73 | an undotted key that no section has (or only with "") translates to itself |
| Language.DottedKey | client/src/lib/language.tsx:74-85 | `section.sub...` translates to that section's entry for `sub` when truthy, ignoring any further parts, and otherwise to the whole key |
| Language.DottedParts | client/src/lib/language.tsx:63 | splitting `section.sub...` at '.' gives `section` and `sub` as its first two parts |
| Language.UnlistedLanguageShowsKeys | client/src/lib/language.tsx:62-86 | in a language that is neither "en" nor "pt" every key translates to itself |
| Language.InitialLanguage | client/src/lib/language.tsx:45-48 | the stored language when non-empty, else "en" |
| Language.LanguageProvider.constructor | client/src/lib/language.tsx:45-51 | the language starts as `InitialLanguage` of the stored value, the translations as the initial table, loading as true |
| Language.LanguageProvider.SetLanguage | client/src/lib/language.tsx:54-59 | a language in `LANGUAGES` becomes current and is stored; any other argument changes nothing |
| Language.LanguageProvider.LoadTranslations | client/src/lib/language.tsx:89-108 | a present answer (even `{}`) replaces the translations, a null one keeps them, a failure installs the defaults; loading ends in every case, the language is untouched |
| Routes.KeyParts | server/routes.ts:324 | `[section, translationKey] = key.split('.')`: an undotted key gives the sub-key "undefined" |
| Routes.DottedKeyParts | server/routes.ts:324 | for `section.sub...` the section and the sub-key are the first two parts; further parts are ignored |
| Routes.AddRow | server/routes.ts:323-333 | one step of the `reduce`: the row's section, created empty in both languages on first sight, gets the row's `en` and `pt` under its sub-key; every other section is unchanged; a new section is appended after the existing ones |
| Routes.AddRowAt | server/routes.ts:326-331 | replacing a section in place changes the lookup of that name only |
| Routes.AppendSection | server/routes.ts:326-328 | appending a new section changes the lookup of that name only |
| Routes.FormatTranslations | server/routes.ts:317-334 | an empty row list gives the defaults; otherwise the table the `reduce` builds |
| Routes.LastWriter | server/routes.ts:322-334 | the position of the last row writing a section and sub-key: absent exactly when no row writes them |
| Routes.ReshapeSameKeys | server/routes.ts:330-331 | every section's `en` and `pt` maps have the same keys |
| Routes.ReshapeNamesDistinct | server/routes.ts:326-328 | each section appears once in the table |
| Routes.ReshapeLastRowWins | server/routes.ts:322-334 | the stored `en`/`pt` of a section and sub-key are those of the last row writing them; with no such row the sub-key is absent |
| Routes.SectionsOf | server/routes.ts:324 | one section name per row |
| Routes.SectionsOfRows | server/routes.ts:324 | the section named for each row is the first part of its key |
| Routes.ReshapeSections | server/routes.ts:322-334 | the table has a section exactly when some row's key starts with it |
| Routes.ReshapeNamesStep | server/routes.ts:326-328 | the last row adds its section to the table's names only when it was not there |
| Routes.ReshapedLookup | server/routes.ts:322-334 | end to end with `t`: `section.sub` in a listed language translates to the last row's text for it when non-empty, and otherwise to the key |
| Routes.Login | server/routes.ts:33-46 | 401 exactly when no user has the username or the first user with it has another password; otherwise that stored user with that password |
| Routes.OldestUnique | server/routes.ts:36 | the first user with a username is unique |
| Subscription.EndDate | client/src/lib/subscription.ts:19-26 | one month after the start for "monthly", one year for "yearly", the start itself otherwise |
| Subscription.SubscribeToPlan | client/src/lib/subscription.ts:11-33 | "Invalid plan selected" exactly for an id outside the plan table, with nothing written; otherwise sets the plan and the end date of a period starting now |
| Subscription.CancelSubscription | client/src/lib/subscription.ts:35-41 | applied to any user, changes only the plan, to "free" |
| Subscription.GetSubscriptionDetails | client/src/lib/subscription.ts:43-73 | null exactly for no user, the free plan or an unknown plan; otherwise start = stored end date or now, end = one period after the start, "expired" exactly when now is after the end, never "canceled" |
| Subscription.CanUploadPremiumDocument | client/src/lib/subscription.ts:75-88 | true exactly for a user on a paid plan whose end date is absent or not before now |
| Subscription.SubscribedUploadsUntilEnd | client/src/lib/subscription.ts:11-33 | after subscribing to a paid plan, premium uploads are allowed exactly until the new end date |
| Subscription.CancelEndsPremium | client/src/lib/subscription.ts:35-41 | after cancelling, no premium upload and no subscription details |
| Subscription.AsWrittenDetailsOutliveEndDate | client/src/lib/subscription.ts:53-65 | as written, a monthly subscription within a month after its end date is shown "active" while uploads are refused |
| Subscription.AsWrittenCounterexample | client/src/lib/subscription.ts:53-65 | the concrete case of the finding below |
| Subscription.CorrectedDetails | client/src/lib/subscription.ts:43-73 | corrected details: the end is the stored end date (or one period after now when there is none), and then the start equals the end; null cases and status rule as before |
| Subscription.DetailsAgreeWithUploads | client/src/lib/subscription.ts:43-88 | with a forward calendar, the corrected details say "active" exactly when premium uploads are allowed |
| Search.When | client/src/pages/lost-feed.tsx:61-80 | `if (active) filtered = filtered.filter(p)` |
| Search.WhenIsFilter | client/src/pages/lost-feed.tsx:61-80 | a filter step is one filter whose predicate passes everything when the step is off |
| Search.FilterAll | client/src/pages/lost-feed.tsx:59 | a filter everything passes keeps the list |
| Search.ChainIsOneFilter | client/src/pages/lost-feed.tsx:59-82 | three filter steps in a row are one filter by the conjunction of the active predicates |
| Search.ChainCommutes | client/src/pages/lost-feed.tsx:59-82 | the three steps can run in reverse order with the same result |
| LostFeed.HandleSearch | client/src/pages/lost-feed.tsx:58-83 | an order-preserving sub-list: exactly the reports that pass every active filter (query in name, description or location ignoring case; exact type unless empty or "all"; non-empty location containing the location ignoring case) |
| LostFeed.SearchIsOneFilter | client/src/pages/lost-feed.tsx:59-82 | the three successive `.filter` steps as written equal the single filter of `HandleSearch` |
| LostFeed.NoFiltersShowsAll | client/src/pages/lost-feed.tsx:61-80 | empty query, type "" or "all", empty location: the whole list |
| LostFeed.FiltersCommute | client/src/pages/lost-feed.tsx:59-82 | the filters commute |
| LostFeed.PickedTypeShowsThatType | client/src/lib/utils.ts:42-47 | choosing any entry of `documentTypes` as the type, with no query and no location, shows exactly the reports of that type |
| FoundFeed.HandleSearch | client/src/pages/found-feed.tsx:58-83 | an order-preserving sub-list: exactly the reports that pass every active filter (query in type, description or found location ignoring case; exact `documentType`; found location containing the location ignoring case) |
| FoundFeed.SearchIsOneFilter | client/src/pages/found-feed.tsx:59-82 | the three successive `.filter` steps as written equal the single filter of `HandleSearch` |
| FoundFeed.NoFiltersShowsAll | client/src/pages/found-feed.tsx:61-80 | with every filter empty or "all": the whole list |
| FoundFeed.FiltersCommute | client/src/pages/found-feed.tsx:59-82 | the filters commute |
| Home.NewStatus | client/src/pages/home.tsx:70 | "lost" from "active", "active" from anything else ("lost" and "found" included) |
| Home.ToggleTwice | client/src/pages/home.tsx:70 | toggling twice gives "active" from "active" and "lost" from anything else |
| Home.SetStatus | client/src/pages/home.tsx:74-78 | same length and order; documents with the id get exactly the new status, every other document is unchanged |
| Home.HandleStatusToggle | client/src/pages/home.tsx:68-93 | on success the list is updated with the new status and the "marked lost" toast is chosen exactly when the new status is "lost"; on failure the list is kept and the error toast is shown |
| Home.ToggleBackRestores | client/src/pages/home.tsx:68-85 | marking active documents lost and then toggling them back restores the list |

## Left out

- **DatabaseStorage** (the store the server exports) is not part of this model. Its rules differ: 50 points and only with possible matches, messages newest first.
- **HTTP:** express handlers, status codes other than the login's 401, request parsing, and the API functions.
- **Routes.Login** reads the users through the `StoreModel` (`MemStorage`) lookup. The exported store's SQL query is not part of this model.
- **Async:** promises, `Promise.all` and interleaving. Each store call is one sequential step. `getLostDocuments` fails with the first dangling report in order.
- **Dates:** `new Date()` becomes the `now` parameter. When one call reads the clock twice (`getSubscriptionDetails`), both reads are the same `now`. Calendar arithmetic is the abstract `Calendar`; `formatDate`/`formatTime` and locales are omitted.
- **Floating point:** plan prices are not in `Plan`, and the discount is kept as text.
- **Utils.MaskText:** `visibleChars` is an `int`. A fractional JavaScript number, which `slice` and the length comparison would treat differently, cannot be passed.
- **StoreProperties.FoundReportAwardsTwenty / Schema.InsertUser:** the model assumes `points` is a number. In the source the column is nullable with a default, `insertUserSchema` makes it optional and `createUser` applies no default. A finder stored without points gets `undefined + 20`, which is `NaN`; one stored with `null` gets 20. `Schema.User.points` and `Schema.InsertUser.points` are `int`, so these users are not modelled. Likewise `Schema.InsertDocument.status` is required: its schema default "active" is not applied by `createDocument` either.
- **StoreModel.CreateMessage / Storage.MemStorage.CreateMessage:** the source sets `lastMessage` on the stored conversation object itself, so every conversation object handed out earlier by `getConversation`, `createConversation` or `getConversationsByUserId` shows the new message too. The model stores values: it replaces the conversation in the map, and results returned earlier are unchanged. Aliasing between returned objects and the store is not modelled.
- **Case mapping:** `toLowerCase`/`toUpperCase` are ASCII-only. JavaScript strings are UTF-16 code units; here they are `seq<char>`.
- **`undefined`/`null` arguments:** `!text`, `!name`, `!user` and `!translations` are covered only where the type allows it. An optional user is an `Option`; a null text, name or row list cannot be passed.
- **The `id` key of a patch:** `Partial<User>` and `Partial<Document>` could carry an `id` that the spread would copy. The patch datatypes have no `id`.
- **Reshape accumulator:** in the source it is a plain object `{}`. Inherited keys such as `constructor` and JavaScript's enumeration of integer-like keys first are not modelled; sections are kept in order of first appearance.
- **Language.Translate, Language.Search and Language.UndottedMissing:** the translation tables hold only their own keys. In the source they are plain objects, so a key naming an inherited property of `Object.prototype` (`t("constructor")`) finds that truthy property and does not return the key. The model returns the key for such inputs.
- **The error path of `/api/translations`:** when the query fails, the defaults are sent. The query is not modelled.
- **`defaultTranslations`** is a parameter of `FormatTranslations` and `LoadTranslations`.
- **The main store's placeholders (`document: {}`, `user: {}`):** the stored report has no such fields; the views are joined on reads.
- **Home and subscription mock calls:** `storageMethods.updateDocument` in home.tsx, `storageMethods.updateUser` in subscription.ts, `localStorage` and the toast component are mocks or browser state.
  - `HandleStatusToggle` takes the outcome of the save as a parameter.
  - `SubscribeToPlan` and `CancelSubscription` return the patch they send.
  - `localStorage` is the provider's `stored` field.
- **Client ids** are strings in home.tsx and integers here. Only equality is used.
- **StoreModel.GetMessagesByConversationId:** states sorted by timestamp and the same messages. It does not state the order among equal timestamps, which `Array.prototype.sort` keeps stable.
- **Strings.Split:** states only the piece count, not the pieces. What the pieces are is stated by `Strings.SplitJoin` and `Language.DottedParts`.
- **StoreProperties.FirstIdsAreOne and StoreProperties.UserIdsIncrease** are stated for users and documents. For every other entity, freshness and the counter's increment are in the ensures of each `StoreModel.Create*` function.

## Findings

| source | as written | input that shows it | evidently intended | confidence | as-written member | corrected member |
|---|---|---|---|---|---|---|
| client/src/lib/subscription.ts:53-65 | the stored `subscriptionEndDate` becomes the start date; the end date is one more period after it | a monthly user whose end date is 100, a month of 30, now 110: details say "active" but `canUploadPremiumDocument` says false | the stored end date is the end date, so details agree with the upload rule | medium, not executed | Subscription.AsWrittenCounterexample | Subscription.DetailsAgreeWithUploads |
