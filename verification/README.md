# Feedback bot — a Dafny model of `bot.js`

`bot.js` is a Telegram bot for a sushi-bar chain. It collects customer
feedback and lets one administrator page through it. A customer presses "Да"
(positive) or "Нет" (negative) under the `/start` greeting. The bot then asks
for a description, unless the user left a feedback less than 24 hours ago.
The next text message the user sends is saved in the PostgreSQL table
`feedbacks` and forwarded to the administrator. The administrator's
`/show_feedbacks [page]` command lists the table newest first, ten rows a
page. Under each page are "previous", "next" and "page N of M" buttons.

The model is purely functional. The table is a sequence of rows and time is
integer milliseconds. Every handler is a function from the user's session,
the event and the table to the new session and the list of effects it
performs, in order: replies, saves, notifications and the store reads
themselves.

The modules are:

- `Wrappers`: `Option` and `Result`.
- `Text`: JavaScript's `String(n)`, `split(' ')` and `join`.
- `JsNumber`: JavaScript's `parseInt` and the `parseInt(arg) || 1` default.
- `Feedback`: rows and the rate limiter `canSubmitFeedback`.
- `Listing`: the filters, newest-first ordering, LIMIT/OFFSET and `Math.ceil`
  page count.
- `SqlQuery`: the fetch query built clause by clause with `$n` placeholders,
  the count query with inline values, and both run against the table as
  PostgreSQL would.
- `Render`: the text of a listing page.
- `Bot`: sessions, events, effects, the callback-data patterns and the
  handlers.
- `Conversation`: what each handler promises, one update at a time.
- `World`: all users' sessions and the table across a run of updates. It
  proves the property the rate limiter exists for. In a run of updates in
  time order, no user ever has two stored feedbacks less than 24 hours apart.
  This holds under the model's assumptions, listed under "Left out": rows are
  stamped with the limiter's own clock, sessions are per user, and each
  update completes before the next.

## Model

| member | source | states |
|---|---|---|
| Text.NatToString | bot.js:118-120 | the printed page number is a digit string with no leading zero whose decimal value is the number; 0 prints as `0` |
| Text.IntToString | bot.js:120 | a template literal prints a non-negative number as digits whose value is the number, with no leading zero; a negative one as `-` followed by such digits of its magnitude; it starts with `-` iff the number is negative |
| Text.IntToStringInjective | bot.js:140 | two different user ids never print the same |
| Text.CanonicalIsNatToString | bot.js:140 | a digit string with no leading zero is exactly how `String(n)` prints its own value |
| Text.NumeralIsIntToString | bot.js:140 | a string is the printed form of `n` iff it is the shortest decimal numeral of `n`: an optional `-` and digits without a leading zero |
| Text.DigitRun | bot.js:150 | the `\d+` of a callback pattern takes the longest digit run: all digits, followed by a non-digit or the end |
| Text.Split | bot.js:141 | `text.split(' ')` gives at least one part; no part has a space; joining with spaces gives the text back |
| Text.SplitJoin | bot.js:141 | splitting undoes joining when no part contains the separator |
| Text.SplitFirstPart | bot.js:141 | the first space ends the first word and the rest splits on its own |
| Text.JoinLayout | bot.js:101-103 | in a joined string each part sits at its offset, followed by the separator unless it is the last |
| JsNumber.TrimStart | bot.js:142 | `parseInt` skips exactly the leading ECMAScript white space |
| JsNumber.ParseInt | bot.js:142 | `parseInt` yields a number iff a digit follows the leading white space and sign, except a bare `0x`/`0X` with no hex digit after it; otherwise it is NaN |
| JsNumber.ParseIntOfIntToString | bot.js:142 | `parseInt` reads back every printed integer, negative ones included |
| JsNumber.ParseIntReadsPrefix | bot.js:142 | `parseInt` stops at the first non-digit, so a numeral followed by other text reads as the numeral |
| JsNumber.ParseIntReadsNumeral | bot.js:142 | leading white space, one `+` or `-`, and leading zeros are accepted: the decimal digits read up to the first non-digit, negated after `-` |
| JsNumber.ParseIntReadsHex | bot.js:142 | after `0x` or `0X` the digits are read in base 16, up to the first non-hex character |
| JsNumber.PageArgument | bot.js:142 | `parseInt(arg) \|\| 1` never yields page 0 |
| JsNumber.PageArgumentOfNumeral | bot.js:142 | a printed non-zero integer is taken as the page itself |
| JsNumber.PageArgumentDefaults | bot.js:142 | a missing argument, `"0"`, and text not starting with a digit, sign or space all give page 1 |
| JsNumber.PageArgumentDropsTrailing | bot.js:142 | a positive numeral followed by letters is that page, e.g. "2abc" is page 2 |
| JsNumber.PageArgumentPadded | bot.js:142 | an argument such as `" 02"` or `"+3"` (white space, a sign, leading zeros) is the page its digits name, negative after `-` |
| JsNumber.CommandPage | bot.js:141-142 | the listing command's page is never 0, and a command with no space in it lists page 1 |
| JsNumber.CommandPageSecondWord | bot.js:141-142 | the page comes from the command's second space-separated word, whatever follows; with no argument it is 1 |
| Feedback.LatestFor | bot.js:59-61 | the newest-first LIMIT 1 query returns nothing iff the user has no row, and otherwise the largest `created_at` among the user's rows |
| Feedback.CanSubmit | bot.js:58-69 | a user may submit iff every one of their rows is at least 24 hours old; with no rows this always holds |
| Feedback.NoHistoryMaySubmit | bot.js:61-68 | a user with no stored feedback is always allowed |
| Feedback.IntervalBoundary | bot.js:64-66 | with the newest row at `last`, the user is refused at `last + 24h - 1ms` and allowed at `last + 24h` |
| Feedback.CanSubmitMonotone | bot.js:64-66 | once allowed, a user stays allowed as time passes |
| Feedback.CanSubmitIgnoresOthers | bot.js:59 | other users' rows never change a user's permission, since the query filters by `user_id` |
| Listing.Select | bot.js:74-91 | the WHERE clause keeps only accepted rows, drawn from the table, and every accepted row of the table appears |
| Listing.SelectExact | bot.js:74-91 | the WHERE clause keeps every accepted row exactly as many times as the table holds it, and no other row |
| Listing.SelectSameRows | bot.js:105-110 | two conditions that agree on every row select the same rows |
| Listing.InsertNewestFirst | bot.js:93 | inserting into a newest-first list keeps it newest first and adds exactly the one row |
| Listing.SortNewestFirst | bot.js:93 | `ORDER BY created_at DESC` gives a newest-first permutation of its input |
| Listing.Window | bot.js:93-94 | `LIMIT n OFFSET o` gives at most `n` rows, exactly the rows from position `o` on, and none when `o` is past the end |
| Listing.PageOffset | bot.js:71 | the OFFSET of a page skips whole pages only: none before page 1, `p - 1` pages before page `p`, and it is negative iff the page is below 1 |
| Listing.CeilDiv | bot.js:113 | `Math.ceil(total / size)` is the least number of pages of `size` rows that hold `total` rows |
| Listing.PagesCoverMatches | bot.js:72-113 | there are no pages iff nothing matches, and page `p >= 1` starts inside the matches iff `p <= totalPages` |
| SqlQuery.AddClause | bot.js:79-80 | appending a clause adds its parameter and the next placeholder number, keeping `$1..$k` aligned with the parameters |
| SqlQuery.InitialDraft | bot.js:74-76 | the query starts with no placeholders, no parameters and `paramIndex` 1 |
| SqlQuery.WithType | bot.js:78-81 | the type clause is added, with its parameter, exactly when the type filter is non-empty |
| SqlQuery.WithStart | bot.js:83-86 | the `created_at >=` clause is added exactly when the start bound is set |
| SqlQuery.WithEnd | bot.js:88-91 | the `created_at <=` clause is added exactly when the end bound is set |
| SqlQuery.FilterDraft | bot.js:78-91 | one parameter per active filter, placeholders numbered consecutively from 1 |
| SqlQuery.BuildFetch | bot.js:71-94 | the query's placeholders are exactly `$1..$n` in order, `n` is the number of parameters, and the last two are `PAGE_SIZE` and `(page-1)*PAGE_SIZE` |
| SqlQuery.PagingPlaceholders | bot.js:93-94 | LIMIT and OFFSET continue the placeholder numbering |
| SqlQuery.AddClauseMeaning | bot.js:79-80 | one more clause narrows the accepted rows by exactly that clause |
| SqlQuery.WithTypeMeaning | bot.js:78-81 | the type clause accepts exactly the rows of the filtered type |
| SqlQuery.WithStartMeaning | bot.js:83-86 | the start clause accepts exactly the rows at or after the start |
| SqlQuery.WithEndMeaning | bot.js:88-91 | the end clause accepts exactly the rows at or before the end |
| SqlQuery.FetchMeansFilter | bot.js:74-94 | on every page the fetch's WHERE clause accepts a row iff the row matches every active filter |
| SqlQuery.OffsetFits | bot.js:93-94 | the OFFSET `(page-1)*10` fits in a PostgreSQL `bigint` iff the page is at most `MAX_PAGE` (922337203685477581) |
| SqlQuery.RunFetch | bot.js:93-100 | a successful fetch returns at most LIMIT rows, each accepted by the WHERE clause, newest first, drawn from the table |
| SqlQuery.FetchFails | bot.js:93-100 | the fetch fails iff LIMIT or OFFSET is missing, not an integer, negative or above 9223372036854775807 |
| SqlQuery.FetchPage | bot.js:72-100 | the fetch fails iff the page is below 1 (negative OFFSET) or above `MAX_PAGE` (OFFSET out of `bigint` range); otherwise it returns the matching rows newest first, skipping the earlier pages |
| SqlQuery.RunCount | bot.js:105-112 | the count is at most the table's size, 0 iff no row is accepted, and the table's size when every row is |
| SqlQuery.CountMatchesFetch | bot.js:105-112 | the count query accepts exactly the rows the fetch does and counts the matching rows |
| Render.RenderRow | bot.js:102 | each row's block starts with `ID: ` |
| Render.RenderRows | bot.js:101-102 | one block per row, in the rows' order |
| Render.ContactText | bot.js:102 | the contact line is never blank; it is `Не указан` iff the contact is null, empty or that very text, and anything else shown is the stored contact |
| Render.Body | bot.js:101-116 | the body is `Нет отзывов.` iff the page has no rows, and otherwise the rows' blocks joined by blank lines |
| Render.BodyBlocks | bot.js:101-103 | row `i`'s block sits at its place in the body, followed by a blank line unless it is the last |
| Bot.NotifyText | bot.js:199-203 | the admin notice is a heading of fixed length followed by the feedback text as written |
| Bot.NotifyTextInjective | bot.js:199-203 | the notice tells the admin both the type and the text: different feedbacks never give the same notice |
| Bot.IsAdmin | bot.js:140 | a user passes the admin check iff `ADMIN_CHAT_ID` is set and is the shortest decimal numeral of the user's id (optional `-`, no leading zero); `parseInt` then reads it back as the id, and an id written with leading white space or `+` never matches |
| Bot.AdminNeedsExactId | bot.js:140 | the comparison is on strings: with `ADMIN_CHAT_ID` `123` user 123 passes, but with `0123`, `123abc` or `0x7B` user 123 is refused |
| Bot.AdminIsUnique | bot.js:140 | at most one user passes the admin check |
| Bot.TaggedNumber | bot.js:150-166 | `tag(\d+)` finds nothing iff no tag followed by a digit occurs; otherwise it yields the whole digit run after the leftmost such occurrence |
| Bot.ParseCallback | bot.js:150-187 | a press reaches `prev_` if that pattern matches, else `next_` if it matches, else `page_`, else the exact `positive`/`negative` trigger; otherwise no handler runs. A pattern's handler gets the number `parseInt(ctx.match[1])` reads: the digit run after the leftmost tag followed by a digit (`Bot.TaggedNumber`), for any data, not only the bot's own buttons |
| Bot.TaggedNumberFound | bot.js:150 | `tag(\d+)` matches the data the bot prints for that tag, with its number |
| Bot.TaggedNumberAbsent | bot.js:150 | the pattern does not match where its tag cannot start |
| Bot.TaggedNumberMismatch | bot.js:159 | a pattern whose tag does not begin the data and occurs nowhere else does not match |
| Bot.CallbackRoundTrip | bot.js:117-121 | every button's data (`Bot.ActionData`) reaches the handler it was made for: `prev_N`, `next_N` and `page_N` with the same N, and `positive`/`negative` |
| Bot.Keyboard | bot.js:117-121 | a page gets three buttons, the third captioned `Страница N из M` with the page number and the page count as a template literal prints them |
| Bot.KeyboardCaptionTells | bot.js:120 | the caption names the page and the page count unambiguously: two captions are equal only for the same page and the same count |
| Bot.TotalPages | bot.js:112-113 | the page count is the least number of 10-row pages that hold all matching rows, and 0 iff nothing matches |
| Bot.KeyboardButtons | bot.js:117-121 | the three buttons under page N reach "previous from N", "next from N" and "page N" |
| Bot.ShowFeedbacks | bot.js:71-127 | the listing never saves anything |
| Bot.PageRows | bot.js:93-100 | a page holds at most 10 rows; each matches the filters; they are newest first and are the sorted matches from the page's offset on |
| Bot.ShowFeedbacksReply | bot.js:96-126 | a page below 1 or above `MAX_PAGE` reads the page and replies with the DB error; any page from 1 to `MAX_PAGE` reads the page and the count, then replies with that page's rows and the page count over the same filters |
| Bot.EmptyListing | bot.js:112-116 | when nothing matches there are 0 pages, and for every page from 1 to `MAX_PAGE` the reply is `Нет отзывов.` |
| Bot.SecondPageOfTwentyThree | bot.js:72-113 | with 23 matches there are 3 pages, and page 2 is rows 11 to 20 of the newest-first order |
| Bot.HandleAction | bot.js:150-187 | no button press saves a feedback |
| Bot.HandleText | bot.js:189-208 | a text always leaves the session idle and reads nothing; while idle it does nothing; while awaiting it saves exactly one feedback, of the awaited type, with the text as written and the sender's id, thanks first and notifies the admin last |
| Bot.Handle | bot.js:129-208 | every update saves at most one feedback, for the sender and of the session's type, and then leaves the session idle; the session only moves to "awaiting" when the limiter allows, and only back to idle through a save |
| Conversation.ChooseType | bot.js:169-187 | when allowed, a type button sets the session to awaiting exactly that type with the prompt; when refused, the session is kept and the only reply is "try again in 24 hours"; the limiter's query is the only read |
| Conversation.TextWhileAwaiting | bot.js:189-208 | a text while awaiting gives exactly thanks, then one save of that type, text and sender, then the admin notification ending in the text; no read happens and the session becomes idle |
| Conversation.TextWhileIdle | bot.js:189-193 | a text while idle does nothing and keeps the session |
| Conversation.StartOffersTypes | bot.js:129-137 | `/start` keeps the session and offers two buttons that reach the positive and negative handlers |
| Conversation.AdminGate | bot.js:139-148 | a non-admin gets the denial and nothing is read; the admin gets the listing of the page the argument names, and its first effect is the page read |
| Conversation.PreviousButton | bot.js:150-157 | "previous" under page N lists N-1 when N > 1; on page 1 it only answers "first page" and reads nothing |
| Conversation.NextButton | bot.js:159-162 | "next" under page N lists page N+1 unconditionally, whoever pressed it |
| Conversation.PageButton | bot.js:164-167 | the page indicator under page N lists page N again |
| Conversation.PrevNextStayPositive | bot.js:150-162 | "previous"/"next" presses keep the session and either answer "first page" or list a page of at least 1, never reaching the negative-OFFSET error |
| World.Row | bot.js:46 | a saved row has no contact, the save's text and user, the type name of the save's kind, the next id, and the update's time standing for `NOW()` |
| World.Inserted | bot.js:43-56 | each save adds one row, numbered from the next id, with the save's type, text and user and the time of the update (standing for `NOW()`) |
| World.Step | bot.js:189-208 | an update adds at most one row, only the sender's, stamped with the update's time (standing for `NOW()`) and of the type the sender was awaiting; the sender is then idle and other users' sessions are untouched |
| World.AppliedRows | bot.js:43-56 | the table after an outcome obeying the handler discipline is the old table plus at most one row of the sender |
| World.FreshIsGood | bot.js:58-69 | an empty table and no sessions satisfy the rate-limit invariant |
| World.StepKeepsGood | bot.js:169-208 | an update at a time no earlier than the last keeps every awaiting user allowed and every user's rows 24 hours apart |
| World.ApplyKeepsGood | bot.js:169-208 | any outcome obeying the handler discipline keeps that invariant |
| World.RunKeepsGood | bot.js:169-208 | a run of updates in time order keeps the invariant |
| World.OneFeedbackPerInterval | bot.js:58-69 | from a fresh start and over any run of updates in time order, no user has two stored feedbacks less than 24 hours apart, under the assumptions listed under "Left out" |

## Left out

- The Express webhook, `setWebhook`, `handleUpdate` and `app.listen` (bot.js:27-35, 210-213) are transport. Events arrive in the model already told apart: `/start`, `/show_feedbacks ...`, a button's callback data, or other text.
- The `pg` client and SQL execution are not modelled as I/O. The table is a sequence of rows, and the queries are run by `RunFetch`/`RunCount` with PostgreSQL's meaning.
- The INSERT's callback is fire-and-forget, and its failure is only logged. The model's save always succeeds, so "thanks" is always sent, as in the code.
- `notifyAdmin` is a fire-and-forget call to Telegram. It is an effect only.
- The session middleware keys sessions by chat and user. The model keys them by user only, which matches a private chat with the bot.
- Telegram's `Markup` objects are not modelled. Keyboards are lists of caption and callback-data pairs.
- Dates are integer milliseconds. `new Date(...)`, `toISOString()` and the float division into hours are not modelled. `hoursSince >= 24` is the same test as `ms >= 86 400 000` for integer milliseconds. Floating-point rounding above 2^53 ms is not modelled.
- How a `created_at` value prints inside a listing is a parameter, `Config.showDate`.
- The count query writes the filter values into its SQL text between quotes. It is modelled as the same filter conditions, so quoting and SQL injection through the type filter are not modelled. Every caller in the bot passes no filter.
- Concurrency between updates and the interleaving of the asynchronous handlers are not modelled. Each update is handled as one atomic step. Console logging is omitted.
- Rows with equal `created_at` come out of `Listing.SortNewestFirst` in one fixed order the model chooses. PostgreSQL leaves their order unspecified, and no contract states the order of ties.
- `SqlQuery.Draft` holds the query text after its fixed start `SELECT * FROM feedbacks WHERE 1=1`. That start contains no placeholder, which `SqlQuery.FixedStart` proves.
- JsNumber.PageArgument: its own contract only says that the page is never 0. How each argument is defaulted is stated by `JsNumber.PageArgumentDefaults`, `JsNumber.PageArgumentOfNumeral` and `JsNumber.PageArgumentDropsTrailing`.
- Render.RenderRow: its own contract only says that a block starts with `ID: `. The other lines of a block are not stated apart from `Render.ContactText`.
- Bot.ShowFeedbacks: its own contract only says that the listing saves nothing. What it reads and replies is stated by `Bot.ShowFeedbacksReply` and `Bot.PageRows`.
- Bot.HandleAction: its own contract only says that a button press saves nothing. What each action does is stated in the `Conversation` lemmas.
- JsNumber.ParseInt: JavaScript numbers are doubles, so `parseInt` rounds a page number above 2^53 and the rounded value is what is printed and sent to the database. The model keeps every page number exact.
- World.OneFeedbackPerInterval: the guarantee rests on three assumptions the code does not enforce. First, `created_at` is the limiter's own clock at millisecond precision; the code stamps rows with the database's `NOW()`, a different clock with microsecond precision that is truncated to milliseconds when read back. Second, sessions are keyed by user only; the code keys them by chat and user, so one user in two chats could pass the limiter in each before saving in both. Third, each update completes before the next; the code does not await the INSERT, so a second update that arrives before the row lands sees no recent feedback.
- Behaviours of the code worth noting:
  - the type is chosen with a button before the text is sent;
  - the limiter is consulted at the button press, not when the text arrives;
  - `/start` does not change the session;
  - a text while idle gets no answer;
  - "thanks" is sent even when the insert fails;
  - the pagination buttons have no admin check, so whoever presses them gets the listing.
