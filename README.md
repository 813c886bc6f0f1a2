# Mail service decision logic, modelled in Dafny

This project models the decision logic of a small mail service. The service
accepts inbound mail over SMTP and stores it against local accounts. It sends
outbound mail through a relay and keeps a draft when sending fails. It also
reports a domain's MX, SPF, DKIM and DMARC records. The model covers five
pieces:

- **Domain checks.** Two handlers are modelled.
  - `/dns/check` (`DnsReport.CheckDomain`) builds a report from one MX lookup
    and one TXT lookup. It picks SPF and DMARC records by the prefix of their
    joined segments, and records each failed lookup as a labelled error.
  - `/api/check-dns` (`Server.CheckDns`) runs four independent lookups: MX, TXT,
    `_dmarc.<domain>` and `<selector>._domainkey.<domain>`. Each lookup yields
    either its records or its own error.
- **Send or draft** (`SendRoute.Send`). The handler validates the request,
  resolves the caller and tries the relay. It then records a `sent` email, or
  a draft when the relay or that record fails. It never writes both.
- **Inbound ingestion** (`Inbound`). The session hooks accept everything. The
  `onData` hook applies field defaults, routes only the first envelope
  recipient, and stores one `received` email when that recipient has an
  account.
- **Transport cache** (`Mailer.EmailSender`). A lazily filled map from
  provider name to transport. The default transport sends the mail and
  verifies the connection.
- **Store** (`Store.Database`). The `emails`, `drafts` and `domains` tables
  are sequences. The class has inserts, updates, deletes, filtered queries,
  newest-first ordering, page windows and email statistics.

Foreign systems are inputs to the model, not behaviour inside it:

- The DNS resolver is a pair of functions, one per record type, from a name to
  the records or an error message.
- The relay is a function from transport options and a message to a message
  id or an error.
- The MIME parser's output is a `Result`.
- The identity provider's answer is a `Result<Option<User>, string>`.
- Each store call takes the error the store would report, if any. A call that
  faults leaves its table unchanged.
- New ids (`uuid()`), timestamps (`Date.now()`, `new Date()`, the store's
  `created_at`) and environment variables are parameters.

The handlers that contact the resolver also return `lookups`, the resolver
calls they made, in the order they made them. This shows which names are
queried, and that a rejected request queries none.

Where the intended design and the code differ, the model follows the code:

- **Pick out SPF/DMARC records in `/api/check-dns`.**
  - Intended: pick them by prefix.
  - Code: returns every TXT record of each name, joined, with no filtering.
- **Where `/dns/check` finds DMARC, and DKIM.**
  - Intended: look up `_dmarc.<domain>`, and look DKIM up.
  - Code: takes DMARC from the domain's own TXT records. It never looks DKIM
    up, so `dkim` stays `null`.
- **Which envelope recipients are delivered.**
  - Intended: deliver to every recipient.
  - Code: routes only the first recipient. With no recipients, the hook uses
    the address `""`.
- **When a send becomes a draft.**
  - Intended: fall back to a draft when the relay fails.
  - Code: also saves a draft when the relay succeeded but recording the sent
    email failed. In that case the mail went out and a draft exists too.
  - Code: if the draft write also fails, the handler answers with the store's
    error and nothing is persisted.
- **Account lookup failures.**
  - Intended: "store unavailable" and "not found" are distinct.
  - Code: every failure in `onData` (parse, lookup or save) gives the same
    rejection, `"Failed to parse email"`.
- **The read flag of a received email.**
  - Intended: it is false.
  - Code: never sets it. The model gives it the store's column default,
    `false`, on every insert.

Two behaviours of the code are reproduced as they are:

- `/send` stores the email and the draft under the `userId` in the request
  body, not under the authenticated user's id.
- In `/dns/check`, a `find` that matches nothing leaves `spf` or `dmarc`
  `undefined`, so the JSON answer omits that key. A failed TXT lookup leaves
  both `null`. `DnsReport.Field` keeps the two cases apart.

## Model

| member | source | states |
|---|---|---|
| `Js.Trim` | server.js:105 | the result is the input without leading and trailing white space: empty exactly when every character is white space, otherwise it starts and ends with a non-space and everything cut off is white space |
| `Js.BeforeFirst` | server.js:198 | `split('@')[0]` is the longest prefix without `@`; it is shorter than the input exactly when the input has an `@`, which then follows it |
| `DnsReport.FindRecordIsFirstMatch` | api-routes.js:145-146 | `find` returns the first record whose joined segments start with the prefix, and finds nothing exactly when no record does |
| `DnsReport.SpfAndDmarcDiffer` | api-routes.js:145-146 | the SPF and DMARC choices from one TXT set are never the same record |
| `DnsReport.SplitSpfRecordQualifies` | api-routes.js:145 | a record split as `["v=spf", "1 -all"]` joins to `v=spf1 -all` and is chosen as SPF, even after a DMARC record |
| `DnsReport.CheckDomain` | api-routes.js:117-156 | a missing or empty domain is rejected with no lookup; otherwise MX and then TXT are looked up on the domain; mx holds the records or stays null; spf and dmarc are the first matches (undefined when none) or stay null when TXT fails; dkim is always null; errors are `MX: <msg>` then `TXT: <msg>`, one per failed lookup, at most two; spf and dmarc never coincide |
| `SendRoute.Send` | api-routes.js:207-244 | a missing userId, to or subject gives 400, an unresolved user 401, a failing user lookup 500, and none of these writes anything or touches the transport cache; otherwise relay success plus a successful save gives exactly one `sent` email (from the user's address, html as given) and no draft; any other outcome records exactly one draft (to, subject, body, no html) unless the draft write fails, which leaves both tables unchanged; the two tables together never grow by more than one row; on the relay path the transport cache is unchanged when `local` is cached, and otherwise gains only the `local` entry, built from the environment |
| `Server.GetDnsConfig` | server.js:48-58 | every field is its variable's value when set and not empty, otherwise its default (`mail.example.com`, `192.0.2.1`, `v=spf1 -all`, `default`, `10`, or empty); host, IP, SPF, selector and priority are never empty |
| `Server.JoinAll` | server.js:118 | the TXT answer keeps its length and order; each entry is that record's segments joined; nothing is filtered out |
| `Server.CheckDns` | server.js:103-141 | the domain is the trimmed query; an empty one is rejected with no lookup; otherwise the lookups are the domain (MX), the domain (TXT), `_dmarc.` + domain and selector + `._domainkey.` + domain, with selector `default` when unset; each field is its own lookup's joined records or `{error}` |
| `Server.MxFailureIsolated` | server.js:110-135 | changing only the MX answer changes only the mx field of the results |
| `Server.CreateForwardingRule` | server.js:157-167 | a missing or empty from or to is rejected; otherwise the rule carries them, and enabled and keepCopy are true unless sent as `false` |
| `Server.CreateMailbox` | server.js:192-202 | a missing or empty email or password is rejected; otherwise the mailbox is active, with quota 512 and 0 used; without a name, the name is the local part before the first `@` (the whole address when it has none) |
| `Inbound.OnSessionEvent` | smtp-server.js:16-28 | connect, MAIL FROM, RCPT TO and AUTH are all accepted; AUTH authenticates as the supplied username |
| `Inbound.Extract` | smtp-server.js:34-38 | toEmail is the first envelope recipient, or `""` when there is none; subject is the parsed subject, or `(no subject)` when missing or empty; text and html default to `""`; fromEmail is the envelope sender, else the parsed From text, else `unknown` |
| `Inbound.OnlyFirstRecipientRouted` | smtp-server.js:34 | recipients after the first never affect what is stored |
| `Inbound.OnData` | smtp-server.js:29-66 | a parse or lookup failure rejects with `Failed to parse email` and stores nothing; no account accepts and stores nothing; an account with a successful save accepts and stores exactly one unread `received` email under the account id with the extracted fields; a failed save rejects; at most one row is added |
| `Inbound.OnDataAsWritten` | smtp-server.js:41 | with `db.getAccount` missing from the database object, every message is rejected and nothing is stored |
| `Mailer.OptionsFrom` | email-sender.js:15-23 | the host is SMTP_HOST or `localhost`; the port is SMTP_PORT or the number 587; secure is off; auth exists exactly when SMTP_USER is set and not empty, and carries that user and SMTP_PASS |
| `Mailer.ComposeMail` | email-sender.js:33-39 | the message carries from, to, subject and text as given; its html is `html` when set and not empty, otherwise the text |
| `Mailer.EmailSender.GetTransporter` | email-sender.js:9-27 | a hit returns the cached transport and leaves the cache unchanged; a miss creates one fresh transport from the environment and adds it under that provider, leaving the other entries unchanged |
| `Mailer.EmailSender.SendEmail` | email-sender.js:29-47 | uses the `local` transport (creating it only if absent) and returns the relay's answer to the composed message, a failure included |
| `Mailer.EmailSender.VerifyTransporter` | email-sender.js:49-59 | returns true exactly when the `local` transport verifies, and false otherwise |
| `Mailer.GetTransporterTwice` | email-sender.js:9-27 | two calls with the same provider return the same transport and add at most one entry |
| `Store.Select` | db.js:103 | an `eq` filter keeps exactly the rows whose column equals the value |
| `Store.Reject` | db.js:173-174 | a delete by id keeps exactly the rows whose column differs from the value, and never more rows than before |
| `Store.MarkedRead` | db.js:163-164 | the update keeps the table's length and order, sets is_read on the rows with that id and leaves every other row as it was |
| `Store.WithVerification` | db.js:112-113 | the update keeps the table's length and order, sets verified on the rows with that id and leaves every other row as it was |
| `Store.SelectRejectPartition` | db.js:171-179 | a delete by id removes exactly the rows that a select by that id returns; the two together are the whole table |
| `Store.NewestFirstSorts` | db.js:143 | ordering by `created_at` descending keeps exactly the same rows and puts them in falling timestamp order |
| `Store.Window` | db.js:144 | `range(offset, offset + limit - 1)` returns the rows at those positions, at most `limit` of them |
| `Store.CountUnread` | db.js:190 | the unread count is at most the number of rows, and zero exactly when every row is read |
| `Store.InboxPageProperties` | db.js:138-148 | an inbox page has at most `limit` rows, all of them the user's rows from the table, newest first |
| `Store.MarkedReadIdempotent` | db.js:161-169 | marking an email read twice is marking it read once |
| `Store.MarkedReadStats` | db.js:161-169 | marking emails read keeps every user's total and never raises the unread count |
| `Store.DeleteStats` | db.js:171-179 | deleting by id lowers a user's total by exactly the number of their rows with that id |
| `Store.Database.CreateDomain` | db.js:90-97 | appends exactly one unverified domain row, or fails and changes nothing |
| `Store.Database.GetDomains` | db.js:99-107 | returns exactly the user's domain rows |
| `Store.Database.UpdateDomainVerification` | db.js:109-117 | only the verified flag of the rows with that id changes |
| `Store.Database.SaveEmail` | db.js:120-136 | appends exactly one unread row with the given id, user, addresses, subject, body, HTML and direction; the other tables and rows are unchanged |
| `Store.Database.GetEmails` | db.js:138-148 | returns the user's rows newest first, at positions offset .. offset + limit - 1 (defaults 0 and 50), so at most `limit` rows |
| `Store.Database.GetEmail` | db.js:150-159 | returns the row when exactly one row has that id, null otherwise (the `.single()` not-found case), and propagates other store errors |
| `Store.Database.MarkAsRead` | db.js:161-169 | sets is_read on exactly the rows with that id |
| `Store.Database.DeleteEmail` | db.js:171-179 | removes exactly the rows with that id |
| `Store.Database.GetEmailStats` | db.js:181-193 | total is the number of the user's rows, unread the number of those not read, so unread is at most total |
| `Store.Database.SaveDraft` | db.js:196-209 | appends exactly one draft row with the given fields, where to, subject and body may each be absent; on a store error it fails and leaves the table unchanged |
| `Store.Database.GetDrafts` | db.js:211-220 | returns exactly the user's drafts, newest first |
| `Store.Database.DeleteDraft` | db.js:222-230 | removes exactly the drafts with that id |

## Left out

- Express wiring is not modelled: routing, CORS, body parsing and the JSON and
  status rendering. Each handler is reduced to its outcome (rejected, ok, or
  deferred to a draft), plus the values it returns.
- The other API routes are not part of this model. These are signup, login,
  logout, the domain routes, the inbox and single-email routes, and the draft
  routes. Their store operations are modelled in `Store`.
- The identity provider methods of db.js (`signup`, `login`, `logout`,
  `getCurrentUser`, `init`, `close`) delegate to an external service.
  `getCurrentUser` is an input of `SendRoute.Send`.
- The DNS resolver, the transport library, the SMTP protocol engine and the
  MIME parser are foreign libraries. Their results are inputs.
- `SMTPServerManager`'s constructor, `start`, `stop` and `listen` are process
  control and I/O. So are the HTTP server's page rendering, `/health`, the
  hard-coded forwarding-rule and mailbox lists, `start`, `shutdown` and the
  signal handlers.
- Asynchrony and concurrency between connections are not modelled. Each
  handler is one sequential run.
- Logging and reading the environment are not modelled. Environment values
  are `Option<string>` parameters.
- Request bodies and query parameters are modelled as optional strings, plus
  optional booleans for the forwarding-rule flags. Other JSON types (numbers,
  arrays, objects) and the TypeErrors they could cause are not modelled. One
  case is a repeated `?domain=` on `/api/check-dns`: it yields an array,
  whose `.trim()` throws and reaches the 500 handler.
- `Store.Database.GetEmails` takes `limit` and `offset` as natural numbers.
  The route's `parseInt` can produce `NaN` or negative values, and what the
  store does with those is not modelled.
- `Store.NewestFirst`: the store does not specify the order of rows with
  equal `created_at`. The model keeps them in table order.
- `Store.Database`: the store's schema is not given.
  - Id uniqueness is not assumed.
  - A rejected insert, such as a duplicate key, is one of the faults passed in.
  - `is_read` is taken to default to `false` and `created_at` to the insert
    time.
- `Mailer.Transporter` holds only its options. What `createTransport` builds,
  and any connection it opens, are outside the model.
- The numeric `SMTP_PORT` default of the listening server (25) is not
  modelled. It belongs to `start`.

## Findings

| source | as written | input that shows it | evidently intended | confidence | as-written member | corrected member |
|---|---|---|---|---|---|---|
| smtp-server.js:41 | `onData` calls `db.getAccount(toEmail)`, but the database object (db.js:10-235) has no `getAccount`, so the call throws a TypeError. The catch then rejects every message with `Failed to parse email` and stores nothing. | any message that parses, such as one to `alice@example.com` for an existing account | look up the first recipient's account and store a `received` email under it | high; not executed | `Inbound.OnDataAsWritten` | `Inbound.OnData` |
