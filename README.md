# Lead capture and event admin site, modelled in Dafny

The site is an Express application in a single file, `app.js`. Visitors
submit a lead form to unlock an eBook. An administrator logs in and adds,
edits and deletes seminar events. Everything is kept in three files: the
lead collection `users.json`, the lead log `users.csv` and the event
collection `events.json`.

This project models what the request handlers do to those three files and
to the browser session. Each file is a value held by a `Server` object:

- `Stored<Lead>` and `Stored<Event>` stand for the JSON files. Each one is
  absent, unparsable, or holds a parsed array.
- `Option<seq<string>>` stands for the CSV log, one entry per appended row
  (the header is the first). A quoted cell may hold a line break, so an entry
  is not always one line of the file.
- The session is a record of two flags, `canViewEbook` and `isAdmin`.

The handlers are methods of `Server`. Each method states the whole new
state and the response. The pure parts are functions with lemmas about
them:

- the CSV row format, with a reader that inverts it;
- the `findIndex` and `filter` steps of the event handlers;
- the field-merge rule of an update;
- the two gates.

Modules, one per file:

- `Js` (`js.dfy`): request fields as `Option<string>`, JavaScript truthiness, and `x || d`.
- `Records` (`records.dfy`): leads and events, the request bodies, how a record is built or merged, and the seed event.
- `Csv` (`csv.dfy`): the row `appendToCsv` writes, and a reader with the round-trip lemmas. Cells are quoted as section 2 of RFC 4180 describes, but each row ends with a bare `\n` rather than the CRLF that section specifies.
- `EventList` (`event_list.dfy`): find-by-id and remove-by-id over the events collection.
- `Gates` (`gates.dfy`): responses, the session, the eBook gate, `requireAdmin` and the configured credentials.
- `Site` (`site.dfy`): the `Server` class with the stores, the session and the handlers, plus the agreement between the JSON lead collection and the CSV log.

A request field is modelled as `undefined` or a string, that is `None` or
`Some(s)`. "Falsy" means `None` or `Some("")`. Two behaviours of the code
are kept as written:

- An update treats the fields differently. Title, date and venue are replaced only by a truthy input (`body.title || event.title`). Description and speaker are replaced by any input other than `undefined`, so an empty string clears them.
- A failed login leaves `isAdmin` as it was, so a session that is already admin stays admin after a bad login.

## Model

| member | source | states |
|---|---|---|
| `Js.Or` | app.js:96 | `x \|\| d` gives the field's text when it is truthy and the default otherwise; with a non-empty default the result is never empty |
| `Records.NewLead` | app.js:96 | a complete submission becomes a lead with the three required fields copied, college, city and state set to the input when truthy and `''` otherwise, and `createdAt` the current time; the lead has non-empty required fields |
| `Records.NewEvent` | app.js:168-176 | an added event has the supplied id and timestamp, no `updatedAt`, title, date and venue copied unchanged, description and speaker defaulting to `''`; it has non-empty required fields |
| `Records.SeedEvent` | app.js:38-46 | the seed event has the supplied id and timestamp, no `updatedAt`, and non-empty title, date and venue |
| `Records.Merge` | app.js:190-198 | an update keeps id and `createdAt` and sets `updatedAt`; title, date and venue change only for a truthy input; description and speaker change for any input other than `undefined`; an event with its required fields keeps them |
| `Records.MergeIdempotent` | app.js:190-198 | applying the same update body twice with the same timestamp gives the same record as applying it once |
| `Records.MergeEmptyBody` | app.js:190-198 | an update with an empty body changes nothing but `updatedAt` |
| `Csv.Escape` | app.js:56 | doubling the quotes never shortens a text and leaves a quote-free text as it is |
| `Csv.Cell` | app.js:56 | a cell starts and ends with `"`; a null or undefined value becomes the empty quoted cell `""` |
| `Csv.Cells` | app.js:55-56 | one cell per value, in order: cell i is the quoted form of value i |
| `Csv.JoinCommas` | app.js:57 | the joined text starts with the first cell |
| `Csv.FormatRow` | app.js:55-58 | a row ends with its newline and starts with the opening quote of its first cell |
| `Csv.LeadColumns` | app.js:55 | a lead's row has exactly seven columns |
| `Csv.LeadRow` | app.js:54-58 | the appended row starts with a quote and ends with a newline |
| `Csv.ReadQuoted` | app.js:56 | reading one quoted cell (the inverse of the quoting rule) always consumes at least the closing quote |
| `Csv.DecodeRow` | app.js:55-58 | reading a row of quoted, comma-separated cells gives at least one field |
| `Csv.ReadQuotedClose` | app.js:56 | in a quoted cell, a lone quote not followed by another quote closes the cell with nothing consumed beyond it |
| `Csv.ReadQuotedChar` | app.js:56 | in a quoted cell, the escaped form of any character (a doubled quote, or the character itself) reads back as that character |
| `Csv.ReadQuotedEscape` | app.js:56 | an escaped text followed by its closing quote reads back as exactly that text |
| `Csv.FormatRowCons` | app.js:55-58 | a row is its first cell followed by the newline, or by a comma and the row of the remaining values |
| `Csv.DecodeLastCell` | app.js:56-58 | a quoted cell followed by the newline reads back as its text alone |
| `Csv.DecodeCellThenMore` | app.js:56-57 | a quoted cell followed by a comma reads back as its text, then whatever the rest of the row reads as |
| `Csv.DecodeFormatRow` | app.js:55-58 | decoding a formatted row gives back every value's text in order; none becomes `''`; commas, quotes and newlines inside values survive |
| `Csv.LeadRowRoundTrip` | app.js:54-58 | the row of a lead decodes to its seven fields in the order fullName, email, mobile, college, city, state, createdAt |
| `Csv.LeadColumnTexts` | app.js:55 | reading a lead's seven columns gives its fields themselves, in header order |
| `Csv.LeadRowInjective` | app.js:54-58 | two different leads never produce the same row |
| `EventList.FindIndex` | app.js:186 | `findIndex` returns -1 exactly when no event has the id; otherwise the first index holding it |
| `EventList.WithoutId` | app.js:206 | `filter` never lengthens the list and no surviving event has the id |
| `EventList.WithoutIdSameLength` | app.js:206-209 | the filtered list has the original length exactly when no event has the id, and is then the original list; so delete's length test means "not found" |
| `EventList.WithoutIdCounts` | app.js:206 | each event with another id keeps its number of occurrences; every event with the id is gone |
| `EventList.WithoutIdMembers` | app.js:206 | an event survives exactly when it was present and has another id |
| `EventList.WithoutIdConcat` | app.js:206 | filtering a concatenation filters each part, so the survivors keep their relative order |
| `EventList.WithoutIdIdempotent` | app.js:206 | deleting the same id twice is the same as deleting it once |
| `Gates.EbookPage` | app.js:106-109 | `/ebook` renders exactly when `canViewEbook` is set and otherwise redirects to `/ebook-access` |
| `Gates.RequireAdmin` | app.js:112-115 | a request passes exactly when `isAdmin` is set; otherwise the answer is a redirect to `/admin/login` |
| `Gates.ConfiguredCredentials` | app.js:124-125 | an unset or empty variable gives `admin` or `password`; a set value is used as given; neither credential is ever empty |
| `Gates.FalsyCredentialsRejected` | app.js:123-126 | a missing or empty username or password never logs in |
| `Site.ReadCollection` | app.js:61-64 | a parsed JSON file reads as its own array; a missing or unparsable one reads as the empty collection |
| `Site.MatchingLogDecodes` | app.js:96-100 | when the CSV log matches the JSON collection, entry i + 1 of the log (the row appended for lead i) decodes to the seven fields of lead i |
| `Site.MatchingLogDetermines` | app.js:97-100 | a CSV log matches at most one lead collection |
| `Site.AppendKeepsMatch` | app.js:97-100 | adding a lead to the collection and its row to the log keeps the two matching |
| `Site.Server.constructor` | app.js:32-48 | at start-up each absent file gets its default (an empty collection, the header line, the seed event) and each present file is kept; the session starts with both flags clear; from an empty data directory the two lead stores match and every event has its required fields |
| `Site.Server.AppendToCsv` | app.js:54-59 | exactly one entry, the lead's row, is added at the end of the log; nothing else changes |
| `Site.Server.SubmitLead` | app.js:91-103 | an incomplete form gives a 400 page and changes nothing; a complete one appends the new lead to the collection as read (old records an unchanged prefix) and its row to the log, sets `canViewEbook`, leaves events alone and redirects to `/ebook`; a matching CSV log and JSON collection stay matching |
| `Site.Server.Login` | app.js:121-131 | matching credentials set `isAdmin` and redirect to `/admin`; anything else gives a 401 page and changes nothing |
| `Site.Server.Logout` | app.js:133-136 | `isAdmin` is cleared, everything else is kept, and the answer redirects to the login page |
| `Site.Server.AddEvent` | app.js:162-180 | a non-admin is redirected and nothing changes; missing title, date or venue gives 400 and nothing changes; otherwise exactly the new event is appended and returned; events keep their required fields |
| `Site.Server.UpdateEvent` | app.js:182-201 | a non-admin is redirected; an unknown id gives 404 and nothing changes; otherwise only the first event with the id is replaced by its merge, the length is kept, and the merged event is returned; events keep their required fields |
| `Site.Server.DeleteEvent` | app.js:203-212 | a non-admin is redirected; an id no event has gives 404 and nothing changes; otherwise the collection becomes the filtered list and is strictly shorter; events keep their required fields |

No operation ever clears `canViewEbook`. Every method of `Server` states its
new `session`, and in each one the flag is either kept or set to true.

## Left out

- Express setup, the view engine, static files, the session middleware and the 404 fallback (app.js:7-24, 215-218) are framework plumbing. The session middleware always provides `req.session`, so `requireAdmin`'s `req.session &&` test is always true and is not modelled.
- The model holds one browser session. Several sessions sharing the same files, and the last-write-wins race between concurrent requests, are not modelled.
- The filesystem calls are not modelled. Each file is a field of `Server`, and a write replaces that field. `mkdirSync` for the data directory is not modelled. A crash between the JSON write and the CSV append in lead capture is not modelled.
- JSON itself is not modelled. A JSON file is `Absent`, `Unparsable` or the parsed array. A file that parses to something other than an array is not modelled. A stored event is assumed to have every field of `Event`, so a hand-edited file with extra or missing fields is not modelled.
- When `users.json` is unparsable, lead capture reads it as empty and rewrites it with only the new lead. The CSV log keeps all its rows. The model keeps this fail-soft behaviour. This is why `SubmitLead` promises a matching log and collection only when they matched before.
- Pages that only render or stream, with no logic, are not modelled: GET `/` (app.js:81-84), GET `/ebook-access` (app.js:87-89), GET `/admin/login` (app.js:117-119), the `/admin` dashboard with its unguarded `JSON.parse` (app.js:138-146), and the two download routes (app.js:148-159).
- `Date.now()` ids and ISO timestamps are parameters of the methods. No lemma claims that ids are unique.
- `process.env` is read for the admin credentials on every login (app.js:124-125). Nothing writes it after `dotenv` loads it (app.js:5), so the model reads it once: the credentials are constructor parameters. `SESSION_SECRET` and `PORT` are not modelled.
- Request fields are modelled as absent or strings. With `express.urlencoded({ extended: true })` (app.js:12) a form body may carry arrays and objects (`a[]=x`, `a[b]=x`), and a JSON body (app.js:13) may also carry `null` and numbers. Those values are not modelled, and neither is `String(v)` or `||` on them.
