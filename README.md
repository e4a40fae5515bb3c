# Link registry of the URL shortener, in Dafny

This project models the backend core of a URL shortener: the `Url` collection and the route handlers that change or read it. The handlers are treated as one sequential state machine over that collection.

- **Records.** A link record (`UrlModel.Link`) holds `originalUrl`, `shortUrl` (the code), an optional `customAlias`, an optional owner `userId`, `title`, `createdAt` and an append-only log of clicks. Each click has a `timestamp` and an optional `ip`.
- **The collection.** `UrlModel.UrlCollection` is a class whose `links` field holds the stored records in insertion order. Its `Valid()` invariant is the schema. Every record has `originalUrl`, `shortUrl` and `title` (`required`). `_id` and `shortUrl` are unique. `customAlias` is unique among the records that set it (a sparse index).
- **Saving.** A save runs the `pre('save')` hook (`UrlModel.PreSave`) and then those checks. A save that fails leaves the collection unchanged.
- **The handlers.** `Routes.Shorten`, `Routes.ListUserUrls`, `Routes.DeleteUrl`, `Routes.GetAnalytics` and `Server.Redirect` are methods over the collection. Each one keeps `Valid()`. They also keep a second invariant, `Routes.AliasesAreCodes`: every record that stores a custom alias uses it as its code. `Shorten` needs it and keeps it. `DeleteUrl` and `Redirect` keep it whenever it held before.
- **Analytics.** `Analytics` models the aggregation: total clicks, distinct visitor addresses, and the daily histogram. The histogram runs from the UTC date of `now - 30 days` through the date of `now`. Dates without clicks get 0.

Foreign parts are parameters:
- `validUrl: string -> bool` stands for `new URL(...)` not throwing.
- `generated: ShortCode` stands for `shortid.generate()` (a non-empty string).
- `now` is the clock in milliseconds. A date is the UTC day number `now / 86400000`.
- `baseUrl` is `process.env.BASE_URL`.
- `fault` stands for a database write that fails for reasons outside the model.
- The requester of a protected route is the account id that the `auth` middleware decoded.
- Text that should hold an ObjectId (a path parameter, or the body's `userId`) is `Routes.IdText`. It casts to an ObjectId, or it is the empty string, or it is other text. Only the first casts; the handler answers 500 for the other two. The empty string is also falsy, so a body with `userId: ""` counts as not logged in for the alias check (backend/routes/urls.js:23).

Behaviours of the code the model keeps on purpose:
- If saving a click fails, the redirect answers 500 instead of redirecting.
- A taken alias is answered 400 "Custom alias already taken".
- `uniqueVisitors` counts over all clicks, while `dailyClicks` counts only the windowed ones.
- Any caller of `POST /shorten` may name any `userId` as owner.
- The listing and analytics routes make no ownership check.
- A record without an owner can never be deleted: `url.userId.toString()` throws, so the answer is 500.

## Model

| member | source | states |
|---|---|---|
| `UrlModel.NewClick` | backend/models/Url.js:27-33 | a click keeps its address; a missing timestamp becomes the current time, a given one is kept |
| `UrlModel.PreSave` | backend/models/Url.js:36-41 | after the hook the code is never empty; a non-empty code is never overwritten; an empty one becomes the truthy custom alias, or else the generated code; no other field changes |
| `UrlModel.IndexOfId` | backend/routes/urls.js:67 | `findById` yields a position holding that `_id`, or none exactly when no record has it |
| `UrlModel.IndexOfCode` | backend/server.js:23 | `findOne({shortUrl})` yields the first position holding that code, or none exactly when no record has it |
| `UrlModel.Compatible` | backend/models/Url.js:4-22 | two stored records differ in `_id` and in `shortUrl`, and in `customAlias` when both set one (the sparse index skips records without it) |
| `UrlModel.SchemaValid` | backend/models/Url.js:4-34 | every record has its required fields and every two records are compatible: the collection as the schema and its unique indexes admit it |
| `UrlModel.KeysUnique` | backend/models/Url.js:9-13 | in a valid collection no two positions share an `_id` or a `shortUrl`, in either order |
| `UrlModel.InsertAdmittedIff` | backend/models/Url.js:4-34 | a new document passes the required and unique checks exactly when the grown collection satisfies every schema constraint |
| `UrlModel.ReplaceAdmittedIff` | backend/models/Url.js:4-34 | a changed document passes the checks against the other records exactly when the collection with it written back satisfies the schema |
| `UrlModel.RemoveKeepsSchema` | backend/routes/urls.js:78 | removing one record keeps the schema, and the records left are exactly those with another `_id` |
| `UrlModel.SameKeysAdmitted` | backend/server.js:29-33 | a record changed only outside `_id`, `shortUrl` and `customAlias` can always be written back, and is found by its `_id` at its old position |
| `UrlModel.UrlCollection.NewId` | backend/routes/urls.js:36-42 | `new Url(...)` gets an `_id` that no stored record has |
| `UrlModel.UrlCollection.Insert` | backend/models/Url.js:9-18 | a save of a new document succeeds exactly when the write goes through and the hooked document passes the checks; it then appends exactly that document and otherwise changes nothing; the schema holds after |
| `UrlModel.UrlCollection.Update` | backend/server.js:33 | a save of a read document writes it back at its own position exactly when the write goes through and the checks pass; a document no longer stored is not found; otherwise nothing changes; the schema holds after |
| `UrlModel.UrlCollection.DeleteOne` | backend/routes/urls.js:78 | when the write goes through, the record with that `_id` is removed and no other; the schema holds after |
| `Analytics.DistinctIps` | backend/routes/urls.js:97 | the set holds exactly the addresses that occur (an absent one counts as one value), so its size is at most the number of clicks |
| `Analytics.Windowed` | backend/routes/urls.js:103-104 | the filter keeps each click of the log stamped at or after the window start as often as the log holds it, and no other click; it is never longer than the log |
| `Analytics.TallyByDay` | backend/routes/urls.js:105-109 | the reduce leaves each date that has clicks mapped to its positive count, and no entry for a date without clicks |
| `Analytics.DailyClicks` | backend/routes/urls.js:99-119 | the filter, the reduce and the day-by-day loop together build exactly the histogram `Histogram(clicks, now)` |
| `Analytics.BucketsEntries` | backend/routes/urls.js:112-119 | entry `k` is date `lo + k` with that date's count, zero when the date has no clicks |
| `Analytics.BucketsTotal` | backend/routes/urls.js:103-119 | the counts of consecutive dates sum to the number of clicks whose date lies in that span |
| `Analytics.CountBetweenAll` | backend/routes/urls.js:103-119 | a span that contains every click's date counts all the clicks |
| `Analytics.Histogram` | backend/routes/urls.js:100-119 | the reference `dailyClicks`: 31 entries, entry `k` is the date `DayOf(now) - 30 + k` with the number of windowed clicks on it |
| `Analytics.HistogramShape` | backend/routes/urls.js:100-119 | `dailyClicks` has 31 entries on consecutive, strictly increasing dates, from the date of `now - 30 days` to the date of `now`; their counts sum to at most the windowed clicks, which are at most all clicks |
| `Analytics.HistogramTotal` | backend/routes/urls.js:103-119 | with no click stamped after `now`, the counts sum to exactly the number of clicks at or after `now - 30 days` |
| `Analytics.Summarize` | backend/routes/urls.js:96-125 | `totalClicks` is the log's length; `uniqueVisitors` is the number of distinct addresses (`DistinctIps`), at most `totalClicks`; `dailyClicks` is the histogram (`Histogram`): 31 entries whose sum is at most `totalClicks` |
| `Routes.LoggedIn` | backend/routes/urls.js:23 | the body's `userId` is truthy: present and not the empty string |
| `Routes.PassesChecks` | backend/routes/urls.js:13-32 | the title is truthy, the URL parses, and a truthy alias comes with a truthy `userId` and is no record's code |
| `Routes.Storable` | backend/routes/urls.js:36-50 | the save succeeds: a given owner casts to an ObjectId, the URL is non-empty, the code is free and the write goes through |
| `Routes.AliasesAreCodes` | backend/routes/urls.js:34-39 | every record that stores a custom alias has that alias as its code, as the handler builds it |
| `Routes.AliasCheckFindsAliases` | backend/routes/urls.js:27-31 | while every stored alias is a code, looking a requested alias up among the codes finds every record that stores it as alias, so the alias index cannot refuse what the check let through |
| `Routes.ChosenCode` | backend/routes/urls.js:34 | the custom alias takes precedence when truthy; an empty or absent alias gives the generated code |
| `Routes.NewLink` | backend/routes/urls.js:34-42 | the new document (alias stored only when truthy) has the alias-or-generated code, no clicks, the cast owner and `now` as `createdAt`; a stored alias is its code, the hook leaves it unchanged, and with a truthy title its required fields are present exactly when the URL is non-empty |
| `Routes.NewLinkAsWritten` | backend/routes/urls.js:34-42 | the document as the code builds it stores the alias exactly as sent; it keeps the alias-is-code invariant exactly when the alias is not the empty string |
| `Routes.NewLinkAdmittedIff` | backend/routes/urls.js:34-44 | when only a truthy alias is stored, the schema refuses a new link exactly when its code is already used or its URL is empty; the alias index never refuses on its own |
| `Routes.EmptyAliasBlocksSecondLink` | backend/routes/urls.js:23-44 | as written, after one link made with `customAlias: ""`, a second one is refused though it passed every check and its code is free; with the alias dropped it is admitted |
| `Routes.Shorten` | backend/routes/urls.js:9-52 | the checks run in order: title (400), URL (400), alias with an absent or empty `userId` (401), alias already a code (400); each failure changes nothing; past them, the answer is `baseUrl + "/" + code` and exactly one record is appended, with the alias-or-generated code and no clicks, exactly when a given owner casts, the URL is non-empty, the code is free and the write goes through; otherwise 500 with nothing changed; both invariants are kept |
| `Routes.OwnedBy` | backend/routes/urls.js:57 | the query yields each record owned by `owner` as often as it is stored, and nothing else |
| `Routes.InsertNewest` | backend/routes/urls.js:57 | placing one record keeps the newest-first order and adds exactly that record |
| `Routes.SortNewestFirst` | backend/routes/urls.js:57 | the sort yields a newest-first permutation of its input |
| `Routes.ListByOwner` | backend/routes/urls.js:57 | the listing is newest first by `createdAt` and holds exactly the owner's records, each as often as stored |
| `Routes.ListUserUrls` | backend/routes/urls.js:55-62 | a parameter that does not cast to an ObjectId gives 500; otherwise the answer is the owner's listing; nothing changes |
| `Routes.RemoveKeepsAliasesAreCodes` | backend/routes/urls.js:78 | deleting a record keeps every stored alias equal to its record's code |
| `Routes.DeleteUrl` | backend/routes/urls.js:65-84 | an uncastable id gives 500, an unknown id 404, a record without owner 500, another owner's record 403, a failed write 500, each with nothing changed; only the owner's request removes exactly that record and keeps every other one; the schema holds after, and the alias invariant too when it held before |
| `Routes.GetAnalytics` | backend/routes/urls.js:87-130 | read-only and without ownership check: an uncastable id gives 500, an unknown id 404, otherwise the summary of that record's click log |
| `Server.AfterClick` | backend/server.js:29-33 | a click on a known code lengthens that record's log by exactly the click at its end; the log's earlier clicks, the record's other fields and all other records stay as they were; an unknown code changes nothing |
| `Server.ClickCountUpdate` | backend/server.js:29-33 | changing one record changes the collection's click total by the change in that record's log length |
| `Server.ClickCountGrowsByOne` | backend/server.js:29-33 | a redirect on a known code raises the collection's total click count by exactly one; one on an unknown code by none |
| `Server.Redirect` | backend/server.js:21-39 | an unknown code gives 404 and changes nothing; a known code whose save fails gives 500 and changes nothing; otherwise the click stamped `now` from `ip` is saved first and the answer redirects to the record's `originalUrl`; the schema holds after, and the alias invariant too when it held before |

## Findings

| source | as written | input that shows it | evidently intended | confidence | as-written member | corrected member |
|---|---|---|---|---|---|---|
| backend/routes/urls.js:39 | the new record stores `customAlias` as sent, so an empty string is saved, although lines 23, 27 and 34 treat it as absent; the sparse unique index on `customAlias` (backend/models/Url.js:14-18) skips only records that lack the field, so it indexes `""` | two `POST /shorten` bodies that both carry `customAlias: ""`, get different generated codes and pass every check: the second save is refused by the index and answered 500 | an empty alias is not stored, so that only a used code can make the save fail | medium, not executed (assumes Mongoose keeps the empty string and the sparse index includes it) | `Routes.EmptyAliasBlocksSecondLink` (with `Routes.NewLinkAsWritten`) | `Routes.NewLinkAdmittedIff` (about `Routes.NewLink`, which `Routes.Shorten` uses) |

## Left out

- Express wiring (`cors`, `express.json`, mounting the routers), `mongoose.connect` and `app.listen` in backend/server.js: process setup and I/O.
- The authentication routes and the `auth` middleware: token signing and checking are foreign. The requester is an input.
- The React frontend: it is UI and network code.
- `shortid.generate()` and WHATWG URL parsing are parameters, not re-implemented.
- The hook's own call to the generator is modelled with the same `generated` value. It is only reached for an empty code, and no handler saves one.
- The order of Mongoose's built-in validation relative to the `pre('save')` hook is not modelled: the model runs the hook first. Every document the handlers save already has a code, so the hook changes none of them and the order makes no difference.
- `Analytics.DailyClicks`: the day loop compares its instant against one fixed `now`, where backend/routes/urls.js:113 reads the clock again on every test. The two agree while the clock moves forward by less than a day during the loop. A clock set back during the loop could drop the last entry in the source; a loop running for more than a day could add one. The model always has exactly 31.
- Local-time `setDate` and daylight-saving shifts: a day is exactly 86,400,000 ms. A date is its UTC day number, not its `YYYY-MM-DD` text.
- The race between the alias pre-check and the save: the model is sequential.
- Database read failures (`find`, `findOne`, `findById` rejecting for I/O) are not modelled. Write failures are, through `fault`.
- `updatedAt` is not modelled: nothing in the core reads it.
- Request fields are strings or absent. Other JSON types (a numeric title, say) are not modelled.
- The rendering of ObjectIds as hexadecimal text is abstracted: `IdText` says only whether the text casts.
- `Routes.ListByOwner`: records with equal `createdAt` may come in any order from the database. The model picks one order and its contract says nothing about it.
- `Routes.Shorten`: following the finding above, it stores no alias when the alias is empty, where the code as written stores `""`.
- The JSON shape of the answers is not modelled: a success carries its payload and an error carries its status and message.
