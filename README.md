# Museum ticketing chatbot and admin helpers, modelled in Dafny

This project models the rule-based chat engine of a museum ticketing service
and the admin helpers beside it.

The chat engine is `handleChat` in `server/controllers/chatController.js`:
- one message of a chat session goes through a fixed chain of intent tests:
  greeting, cancellation, the booking flow, the support-ticket flow, my
  bookings, ticket download, the museum list, help, and the AI fallback;
- the booking flow walks museum → date → tickets → confirm and hands off to
  payment;
- the support flow collects name, e-mail, issue type, description and
  priority, and then creates a support ticket.

The admin helpers are:
- from `server/controllers/adminController.js`: the in-memory booking
  filters, support-ticket status updates, and creating and updating museums
  with their slug;
- from `client/src/pages/AdminPanel.jsx`: `groupBookingsByMuseum`, which
  groups the bookings of the admin panel by museum with ticket and revenue
  totals.

Modules, one per file:

| module | what it holds |
|---|---|
| `Wrappers` | `Option` and `Result` |
| `Strings` | the JavaScript string operations the code uses: ASCII `toLowerCase`, `trim`, `includes`, `split(/\s+/)`, digit runs |
| `Seqs` | `Array.filter` as `Filter`, `limit` as `Take`, first-match searches, the subsequence relation |
| `Intents` | `normalizeMessage` and every keyword test (`isGreeting` … `isConfirmation`) |
| `Dates` | a proleptic Gregorian calendar date, `parseDate` and `isValidFutureDate` |
| `TicketCount` | `extractTicketCount` |
| `Museums` | the museum document and `getMuseumByName`'s three-tier match |
| `Chat` | the session contexts, replies and payloads; `Respond`, the whole handler as a function of the old session state |
| `ChatSessions` | class `ChatSession`, whose methods update the session's `bookingContext`, `supportTicketContext` and `messages` fields as the handler does, each proved equal to `Respond` |
| `ChatProperties` | what the handler promises across steps and messages |
| `Admin` | the slug function, `updateTicketStatus`, `createMuseum`, `updateMuseum`, and the `getAllBookings` filters |
| `Grouping` | `groupBookingsByMuseum` as a loop over the bookings |

Everything the handler reads from the outside world is a field of `Chat.Env`:
- the museum catalogue in database order;
- today's date;
- the date `new Date(text)` makes of the message, if any;
- the request's `userId`;
- that user's bookings, newest first, each with its museum's name or none when the museum has been deleted;
- the AI fallback's answer;
- the fresh support-ticket id.

The database is represented as values:
- a catalogue is a `seq<Museum>`;
- tickets are a `seq<StoredTicket>`.

An admin operation returns the new collection together with the document it
answers with. An error is an `AdminError` whose HTTP status is as follows:
- `InvalidStatus` is 400;
- `TicketNotFound` is 404;
- `DuplicateName` is 400;
- `MuseumNotFound` is 404;
- `ServerError` is 500, the catch-all answer for a thrown error or a failed
  schema validation.

Where the handler's behaviour differs from the usual description of the chatbot, the model follows the code:
- **Two flows at once.** The booking test comes before the support test, so
  booking words sent in the middle of a support ticket start a booking and
  leave the support ticket pending. Both flows are then under way
  (`ChatProperties.BookingRequestLeavesSupportPending`).
- **ISO dates roll over.** An ISO date with day 1..31 rolls over as V8 does,
  so 2030-02-30 is 2 March 2030.
- **Month-first fallback.** The month-first reading of `a-b-yyyy` is tried
  only when the day-first reading is not a valid date. In practice that
  means the second field is above 12.
- **"day after tomorrow".** "day after tomorrow" contains "tomorrow", which
  is tested first. It therefore means tomorrow, and the branch at line 171
  is never taken.
- **Cancel at the confirm step.** A cancellation at the confirm step is
  handled by the global cancel at line 396, not by the confirm step's own
  branch at line 590.
- **Any 'y' confirms.** The confirmation keyword `y` is tested with
  `includes`, so any message containing the letter y confirms a booking.
- **Ticket-creation phrases are bookings.** Phrases such as "support ticket"
  or "create ticket" contain the word `ticket`, so they enter the booking
  flow rather than the support one.
- **Blank slug.** A museum whose slug is blank matches, in the partial tier,
  every message of three or more characters, because `includes('')` is true.
- **A deleted museum in the bookings.** Printing the name of a booking whose
  museum has been deleted throws. The branch's own `catch` then answers with
  its fetch-error text (lines 706-708 and 734-736).
- **"fourteen" reads as 4.** Word numbers are tried in table order with
  `includes`, so "fourteen" reads as 4.

## Model

| member | source | states |
|---|---|---|
| Strings.Trim | server/controllers/chatController.js:133 | the result is a contiguous slice of the input with only white space before and after it, so only the white space at the two ends is removed; it neither starts nor ends with white space, and a text without white space at its ends is returned unchanged |
| Strings.TrimStart | server/controllers/chatController.js:17 | the result is a suffix of the input, everything dropped is white space, and the result does not start with white space |
| Strings.TrimEnd | server/controllers/chatController.js:17 | the result is a prefix of the input, everything dropped is white space, and the result does not end with white space |
| Strings.Words | server/controllers/chatController.js:41 | `split(/\s+/)` yields at least one piece and no piece contains white space; the first piece is the text up to its first white space; there is exactly one piece when the text has no white space |
| Strings.WordsSplit | server/controllers/chatController.js:41 | a word, a non-empty run of white space and a text not starting with white space split into the word followed by the pieces of that text |
| Strings.WordsOfNoSpace | server/controllers/chatController.js:41 | a text without white space splits into itself alone |
| Strings.ContainsIff | server/controllers/chatController.js:36 | `includes` holds exactly when the needle occurs at some index of the text |
| Strings.ContainsTrans | server/controllers/chatController.js:249-250 | containment is transitive |
| Strings.ToLowerIdempotent | server/controllers/adminController.js:49 | lower-casing twice is lower-casing once |
| Strings.FirstSpace | server/controllers/chatController.js:41 | the index of the first white space, with no white space before it |
| Strings.SpaceRunEnd | server/controllers/chatController.js:41 | the end of a run of white space starting at `i` |
| Seqs.Filter | server/controllers/adminController.js:41-44 | the kept elements are exactly the elements that satisfy the test, in their original order |
| Seqs.FilterCount | server/controllers/chatController.js:259-263 | a value that passes the test is kept as many times as it occurs, and a value that fails it not at all |
| Seqs.FilterFilter | server/controllers/adminController.js:40-57 | two filters in a row are one filter by the conjunction of the tests |
| Seqs.Take | server/controllers/chatController.js:417 | `limit(n)` keeps a prefix of length min(n, length) |
| Seqs.FirstWhere | server/controllers/chatController.js:235-243 | the first index whose element passes the test, or none exactly when no element passes |
| Seqs.FirstWhereAppend | client/src/pages/AdminPanel.jsx:56-63 | one more element changes the first passing index only when no earlier element passed, and then to its own index exactly when it passes |
| Seqs.FilterNonEmptyIffFound | client/src/pages/AdminPanel.jsx:52-56 | the filter keeps something exactly when some element passes |
| Seqs.TieredFirst | server/controllers/chatController.js:230-272 | the first element of the best tier that any element reaches, or none exactly when no element reaches a tier |
| Intents.Normalize | server/controllers/chatController.js:16-18 | `toLowerCase().trim()`: the result has no capital ASCII letter, no white space at either end, and is never longer than the message |
| Intents.NormalizeIdempotent | server/controllers/chatController.js:16-18 | normalising twice is normalising once |
| Intents.IsGreeting | server/controllers/chatController.js:24-48 | definition: the normalised message is an exact greeting, contains a greeting phrase, or has a greeting word among its words; `GreetingResetsBothFlows` states what a greeting does |
| Intents.WantsBooking | server/controllers/chatController.js:50-76 | definition: a booking word is one of the normalised message's words, or a booking phrase occurs in it; `EndsWithTicketIsBooking` and `SupportTicketPhraseIsBooking` state consequences |
| Intents.WantsSupportTicket | server/controllers/chatController.js:78-82 | definition: a support phrase occurs in the normalised message; `SupportRequestAsksName` states what such a request does |
| Intents.WantsMyBookings | server/controllers/chatController.js:84-88 | definition: a my-bookings phrase occurs in the normalised message; `Chat.InfoTurn` states that it is tried first among the remaining rules |
| Intents.WantsDownloadTicket | server/controllers/chatController.js:90-94 | definition: a download phrase occurs in the normalised message; `Chat.InfoTurn` states that it is tried after my bookings |
| Intents.WantsMuseumList | server/controllers/chatController.js:96-100 | definition: a museum-list phrase occurs in the normalised message; `Chat.InfoTurn` states its answer |
| Intents.WantsHelp | server/controllers/chatController.js:102-106 | definition: a help phrase occurs in the normalised message; `Chat.InfoTurn` states its answer |
| Intents.WantsCancel | server/controllers/chatController.js:108-112 | definition: a cancel phrase occurs in the normalised message; `CancelDropsOneFlow` and `CancelWithoutFlowFallsThrough` state what it does |
| Intents.WantsGoBack | server/controllers/chatController.js:114-118 | definition: the normalised message equals or contains a go-back keyword; `GoBackIsContainment` reduces it to containment |
| Intents.IsConfirmation | server/controllers/chatController.js:120-124 | definition: the normalised message equals or contains a confirmation keyword; `ConfirmationIsContainment` and `LetterYConfirms` state consequences |
| Intents.GoBackIsContainment | server/controllers/chatController.js:114-118 | `wantsGoBack` holds exactly when the normalised message contains a go-back keyword |
| Intents.ConfirmationIsContainment | server/controllers/chatController.js:120-124 | `isConfirmation` holds exactly when the normalised message contains a confirmation keyword |
| Intents.LetterYConfirms | server/controllers/chatController.js:121 | any message whose normalised form contains the letter y is a confirmation |
| Intents.NormalizeFixed | server/controllers/chatController.js:16-18 | a message with no capital letter and no white space at its ends is already normalised |
| Intents.ToLowerOfLower | server/controllers/chatController.js:17 | a text with no capital ASCII letter is its own lower-case form |
| Intents.WordsCons | server/controllers/chatController.js:55 | splitting "a b" yields the word a followed by the words of b |
| Intents.WordsSnoc | server/controllers/chatController.js:55 | the last word of a message is one of its words |
| Intents.EndsWithTicketIsBooking | server/controllers/chatController.js:50-75 | a message whose last word is "ticket" is a booking request |
| Intents.SupportTicketPhraseIsBooking | server/controllers/chatController.js:78-82 | "support ticket" is a support request and also a booking request, so the earlier booking branch takes it |
| Dates.DaysInMonth | server/controllers/chatController.js:138 | every month has 28 to 31 days |
| Dates.NextDay | server/controllers/chatController.js:166-169 | the next day of a valid date is valid and later |
| Dates.NothingBetween | server/controllers/chatController.js:166-169 | no valid date lies strictly between a date and its next day |
| Dates.AddDays | server/controllers/chatController.js:138 | adding days to a valid date gives a valid date |
| Dates.MakeDate | server/controllers/chatController.js:136-140 | `new Date("yyyy-mm-dd")` gives a date exactly when the month is 1..12 and the day 1..31; the date is valid, and it is the given date whenever the day exists in that month |
| Dates.AddDaysFrom | server/controllers/chatController.js:138 | counting k days on from day a of a month stays in that month, or rolls into the next month or year |
| Dates.MakeDateCountsFromFirst | server/controllers/chatController.js:138 | an overflowing day counts on from the first of the month |
| Dates.ShortField | server/controllers/chatController.js:143 | `\d{1,2}[-/]` at index i: a field is read exactly when one or two digits followed by a separator start there; its number is the value of those digits (at most 99) and the index after the separator is returned |
| Dates.ParseDate | server/controllers/chatController.js:130-184 | any date the parser returns is a valid calendar date |
| Dates.IsoPrefix | server/controllers/chatController.js:136 | definition of `/^(\d{4})-(\d{2})-(\d{2})/`: four digits, a dash, two digits, a dash, two digits at the start, read as year, month and day; `IsoTriedFirst` and `InvalidIsoFallsThrough` state how the parser uses it |
| Dates.NumericDate | server/controllers/chatController.js:143-156 | definition of `/^(\d{1,2})[-\/](\d{1,2})[-\/](\d{4})/`: two `ShortField`s and four digits, in the order written; `NumericIsDayFirst` and `NumericMonthFirstFallback` state the two readings |
| Dates.IsValidFutureDate | server/controllers/chatController.js:186-192 | a date is accepted exactly when it is today or a later day |
| Dates.IsoAndNumericExclusive | server/controllers/chatController.js:136-151 | no text matches both the ISO pattern and the day-month-year pattern |
| Dates.IsoTriedFirst | server/controllers/chatController.js:136-140 | a text that starts with yyyy-mm-dd is read as that ISO date |
| Dates.NumericIsDayFirst | server/controllers/chatController.js:143-148 | `a-b-yyyy` with a valid day-first reading is read day first |
| Dates.NumericMonthFirstFallback | server/controllers/chatController.js:151-156 | `a-b-yyyy` whose day-first reading is invalid (b above 12) is read month first |
| Dates.DayAfterTomorrowMeansTomorrow | server/controllers/chatController.js:166-176 | "day after tomorrow" is read as tomorrow |
| Dates.TodayTriedFirst | server/controllers/chatController.js:163-165 | a text containing "today" is today |
| Dates.TomorrowIsNextDay | server/controllers/chatController.js:166-169 | a text containing "tomorrow" but not "today", and matching no numeric pattern, is the day after today |
| Dates.DayAfterTomorrowHasTomorrow | server/controllers/chatController.js:166-171 | a text containing "day after tomorrow" contains "tomorrow" |
| Dates.NativeIsLastResort | server/controllers/chatController.js:177-183 | a text matching no pattern and containing neither "today" nor "tomorrow" is what `new Date(text)` gives, or none when that is invalid |
| Dates.InvalidIsoFallsThrough | server/controllers/chatController.js:136-140 | an ISO-shaped prefix with a month outside 1..12 or a day outside 1..31 gives no date, and the day words and then `new Date(text)` decide |
| TicketCount.DigitRunLength | server/controllers/chatController.js:200 | the length of the leading run of digits |
| TicketCount.FirstNumber | server/controllers/chatController.js:200-202 | none exactly when the message has no digit; otherwise the value of the first maximal run of digits |
| TicketCount.WordValuesInRange | server/controllers/chatController.js:210-215 | every word number is 1..15 |
| TicketCount.WordNumber | server/controllers/chatController.js:217-221 | the value of the first table word the text contains, or none exactly when it contains none |
| TicketCount.ExtractTicketCount | server/controllers/chatController.js:198-224 | a count is 1..100; a first number in 1..100 is the count; otherwise the count is the first word number |
| TicketCount.WordNumberFirst | server/controllers/chatController.js:217-221 | the first table word the text contains decides the value |
| TicketCount.FirstFourWords | server/controllers/chatController.js:211 | the table starts one, two, three, four |
| TicketCount.FourIsFourthWord | server/controllers/chatController.js:217-221 | a text containing "four" but not one, two or three reads as 4 |
| TicketCount.FourInFourteen | server/controllers/chatController.js:218 | "fourteen" contains "four" |
| TicketCount.FourteenReadsAsFour | server/controllers/chatController.js:198-224 | a message saying "fourteen" without digits (and without one, two or three) gives 4 tickets |
| Museums.Active | server/controllers/chatController.js:231 | exactly the active museums, in catalogue order |
| Museums.Listed | server/controllers/chatController.js:417 | at most ten active museums, the first ten when there are that many |
| Museums.FindById | server/controllers/chatController.js:528 | the museum found has the id; none exactly when no museum has it |
| Museums.LongWords | server/controllers/chatController.js:259 | the words longer than two characters, in order, each as many times as it occurs among the words |
| Museums.CommonWords | server/controllers/chatController.js:263 | the long message words that are also long words of the museum's name, in order, each as many times as it occurs among the long message words |
| Museums.ExactMatch | server/controllers/chatController.js:234-243 | definition of tier 1: the normalised message is the museum's normalised name or slug |
| Museums.PartialMatch | server/controllers/chatController.js:245-255 | definition of tier 2: message and name or slug contain one another, with name and message at least three characters long; `BlankSlugMatchesAnyLongMessage` states a consequence |
| Museums.WordMatch | server/controllers/chatController.js:257-268 | definition of tier 3: at least two common long words, or common words at least half of the message's long words (the ratio 0.5 is compared with both sides doubled) |
| Museums.MatchMuseum | server/controllers/chatController.js:230-272 | an active museum of the best tier reached (exact, then partial, then word match), first in catalogue order within that tier; none exactly when no active museum matches |
| Museums.BlankSlugMatchesAnyLongMessage | server/controllers/chatController.js:237-252 | an active museum with a blank slug makes every message of three or more characters match in the exact or partial tier |
| Chat.IsEmail | server/controllers/chatController.js:620-621 | definition of the e-mail test; `ChatProperties.EmailIsPattern` proves it equal to `^[^\s@]+@[^\s@]+\.[^\s@]+$` |
| Chat.Capitalize | server/controllers/chatController.js:641 | first character upper-cased, the rest lower-cased, same length |
| Chat.StartBooking | server/controllers/chatController.js:412-436 | a fresh booking at the museum step, answered with the museum menu |
| Chat.MuseumTurn | server/controllers/chatController.js:437-467 | moves to the date step exactly when a museum matches; otherwise the context is unchanged |
| Chat.DateTurn | server/controllers/chatController.js:468-510 | reaching the tickets step records a date that is not in the past and keeps the museum |
| Chat.TicketsTurn | server/controllers/chatController.js:511-562 | reaching the confirm step records the extracted count and amount = count × the museum's current price |
| Chat.ConfirmTurn | server/controllers/chatController.js:563-600 | a payment hand-off clears the booking and carries the museum, date, count and amount it had |
| Chat.BookingTurn | server/controllers/chatController.js:407-606 | a well-formed booking context stays well-formed and the message is answered |
| Chat.SupportTurn | server/controllers/chatController.js:607-679 | a ticket is created exactly at the priority step with Low, Medium or High; it carries the collected fields, status Open and the fresh id, and the context is cleared |
| Chat.BookingsTurn | server/controllers/chatController.js:682-711 | the bookings are shown exactly to a logged-in user who has some and whose five newest all have a museum, and the list is those five; the fetch-error text is given exactly when one of them has lost its museum; otherwise no action and no payload |
| Chat.DownloadTurn | server/controllers/chatController.js:712-739 | a download is offered only to a logged-in user, for the newest paid booking with a PDF, with its museum name, id and link, and it is offered whenever that booking has a museum; the fetch-error text is given exactly when that booking has lost its museum |
| Chat.InfoTurn | server/controllers/chatController.js:682-772 | my bookings is tried before download, download before the museum list, the list before help; a museum-list request gets the listed catalogue with SHOW_MUSEUMS, a help request the help text with HELP, and otherwise the AI answer `aiReply` with AI_RESPONSE, exactly when no rule applies |
| Chat.CancelTurn | server/controllers/chatController.js:396-405 | cancels the booking if one is under way, else the support ticket, and keeps the other context |
| Chat.Respond | server/controllers/chatController.js:343-796 | refused exactly when the message is empty, and a refused message changes nothing; well-formed contexts stay well-formed |
| ChatSessions.ChatSession.constructor | server/controllers/chatController.js:353-360 | a new session has both contexts at `{ step: null }` and no messages |
| ChatSessions.ChatSession.RestartBooking | server/controllers/chatController.js:412-436 | the session's booking and the reply are those of `StartBooking` |
| ChatSessions.ChatSession.ChooseMuseum | server/controllers/chatController.js:437-467 | the field updates give `MuseumTurn` of the old booking |
| ChatSessions.ChatSession.ChooseDate | server/controllers/chatController.js:468-510 | the field updates give `DateTurn` of the old booking |
| ChatSessions.ChatSession.ChooseTickets | server/controllers/chatController.js:511-562 | the field updates give `TicketsTurn` of the old booking |
| ChatSessions.ChatSession.PriceTickets | server/controllers/chatController.js:527-555 | a vanished museum clears the booking; otherwise count, amount = count × price and the confirm step are recorded |
| ChatSessions.ChatSession.Confirm | server/controllers/chatController.js:563-600 | the field updates give `ConfirmTurn` of the old booking |
| ChatSessions.ChatSession.ContinueBooking | server/controllers/chatController.js:407-606 | the booking branch gives `BookingTurn` of the old booking |
| ChatSessions.ChatSession.ContinueSupport | server/controllers/chatController.js:607-679 | the support branch gives `SupportTurn` of the old support context |
| ChatSessions.ChatSession.Route | server/controllers/chatController.js:387-772 | for a non-empty message, the intent chain leaves the contexts, reply and created ticket that `Respond` gives |
| ChatSessions.ChatSession.HandleChat | server/controllers/chatController.js:343-796 | the new contexts, reply and created ticket are `Respond` of the old session; an answered message appends the user's message and the bot's reply, a refused one appends nothing; validity is kept |
| ChatProperties.RespondInBooking | server/controllers/chatController.js:407 | past greeting and cancellation, a booking message is answered by the booking branch alone |
| ChatProperties.RespondInSupport | server/controllers/chatController.js:607 | past the booking branch, a support request or a message of a ticket under way is answered by the support branch alone |
| ChatProperties.GreetingResetsBothFlows | server/controllers/chatController.js:387-395 | a greeting abandons both flows at any step |
| ChatProperties.CancelDropsOneFlow | server/controllers/chatController.js:396-405 | a cancellation drops the booking in preference to the support ticket and keeps the other |
| ChatProperties.CancelWithoutFlowFallsThrough | server/controllers/chatController.js:396 | with no flow under way a cancel word goes on to the other intents and changes nothing |
| ChatProperties.BookingRequestLeavesSupportPending | server/controllers/chatController.js:407-412 | booking words during a support ticket start a booking and leave the support ticket pending |
| ChatProperties.BookingWordsRestartAtConfirm | server/controllers/chatController.js:412 | booking words restart the flow outside a booking and at the confirm step |
| ChatProperties.ChoosingMuseumMovesToDate | server/controllers/chatController.js:439-447 | a matched museum is recorded and the date is asked for |
| ChatProperties.DateAcceptedIffNotPast | server/controllers/chatController.js:491-509 | the flow moves to tickets exactly when the message parses to a date not in the past, and records it |
| ChatProperties.DateGoBack | server/controllers/chatController.js:470-489 | going back forgets the date and shows the menu again |
| ChatProperties.TicketsPriced | server/controllers/chatController.js:525-555 | a count of 1..100 is priced at the museum's current price |
| ChatProperties.TicketsMuseumGone | server/controllers/chatController.js:528-532 | a museum deleted since it was chosen ends the booking |
| ChatProperties.TicketsGoBack | server/controllers/chatController.js:513-524 | going back from the tickets step returns to the date step, forgets the count and amount, keeps the museum and date, and asks for the date again with the museum as payload |
| ChatProperties.TicketsTurnGoBack | server/controllers/chatController.js:513-524 | the tickets step's go-back branch, on the booking context alone |
| ChatProperties.TicketsCountMissing | server/controllers/chatController.js:556-559 | a message with no ticket count at the tickets step leaves the state as it was and asks for a valid number again |
| ChatProperties.TicketsTurnNoCount | server/controllers/chatController.js:556-559 | the tickets step without a count, on the booking context alone |
| ChatProperties.ConfirmGoBackKeepsMuseumAndDate | server/controllers/chatController.js:565-578 | going back from confirm returns to the tickets step, keeps the museum and date, forgets the count and amount, keeps the support context and asks for the tickets again with the museum and date as payload |
| ChatProperties.ConfirmationTriggersPayment | server/controllers/chatController.js:579-589 | a confirmation hands the collected booking to payment and clears the context |
| ChatProperties.ConfirmCancelIsGlobalCancel | server/controllers/chatController.js:590-593 | a cancellation at confirm is handled by the global cancel, so the branch at line 590 is never reached |
| ChatProperties.ConfirmOtherwiseStays | server/controllers/chatController.js:594-597 | at the confirm step a message that is no confirmation, go-back or booking request leaves the state as it was and asks for yes or cancel again |
| ChatProperties.ConfirmTurnStays | server/controllers/chatController.js:594-597 | the confirm step's last branch, on the booking context alone |
| ChatProperties.AnyWordWithYConfirms | server/controllers/chatController.js:579 | at the confirm step any message containing a y and no go-back, cancel or booking word triggers payment |
| ChatProperties.ConversationChoosesMuseum | server/controllers/chatController.js:412-467 | a booking request followed by a museum name reaches the date step with that museum |
| ChatProperties.ConversationChoosesDate | server/controllers/chatController.js:468-510 | a valid future date at the date step reaches the tickets step with that date |
| ChatProperties.ConversationChoosesCount | server/controllers/chatController.js:511-562 | a ticket count at the tickets step reaches the confirm step with the count and amount |
| ChatProperties.ConversationConfirms | server/controllers/chatController.js:563-589 | a confirmation at the confirm step hands off to payment with the collected booking |
| ChatProperties.BookingReachesTickets | server/controllers/chatController.js:407-510 | three messages (a booking request, a museum, a valid date) from a fresh session reach the tickets step with that museum and date |
| ChatProperties.SupportAdvancesOneStep | server/controllers/chatController.js:607-679 | every support message, from the request that starts the ticket, advances one step or, for a bad e-mail or priority exactly, leaves the context as it was |
| ChatProperties.SupportRequestAsksName | server/controllers/chatController.js:607-613 | a support request with no ticket under way starts one at the name step and asks for the name with ASK_SUPPORT_NAME |
| ChatProperties.TicketCreatedFromCollectedFields | server/controllers/chatController.js:640-674 | low, medium or high in any case creates the ticket from the collected fields, with a well-formed e-mail |
| ChatProperties.CapitalizeMatches | server/controllers/chatController.js:641-642 | the capitalised message equals a capitalised lower-case word exactly when the lower-cased message equals the word |
| ChatProperties.PriorityAcceptedIff | server/controllers/chatController.js:641-642 | a priority is accepted exactly when the message is low, medium or high in any mix of cases |
| ChatProperties.EmailIsPattern | server/controllers/chatController.js:620-621 | the e-mail test is the pattern `^[^\s@]+@[^\s@]+\.[^\s@]+$` |
| Admin.Slug | server/controllers/adminController.js:161-164 | definition: lower-case, collapse, trim the end dashes; `SlugIsSlug`, `SlugKeepsLettersAndDigits` and `SlugIdempotent` state its properties |
| Admin.TrimDashes | server/controllers/adminController.js:164 | definition of `replace(/(^-|-$)/g, '')`: one leading and one trailing dash removed; `TrimDashesKeepsAlnum` states that no letter or digit is lost |
| Admin.SkipRun | server/controllers/adminController.js:163 | drops the leading run of non-slug characters and nothing more |
| Admin.Collapse | server/controllers/adminController.js:163 | only slug characters and single dashes remain; the result is empty exactly for an empty input and starts with a dash exactly when the input starts outside a-z0-9 |
| Admin.CollapseKeepsSlugChar | server/controllers/adminController.js:163 | a letter or digit is kept in front of the collapse of the rest |
| Admin.CollapseRun | server/controllers/adminController.js:163 | a maximal run of characters outside a-z0-9 becomes one dash in front of the collapse of what follows |
| Admin.SkipRunOfRun | server/controllers/adminController.js:163 | skipping a run of non-slug characters stops exactly at the next slug character |
| Admin.SlugIsSlug | server/controllers/adminController.js:161-164 | a slug has only a-z, 0-9 and single inner dashes |
| Admin.SkipRunKeepsAlnum | server/controllers/adminController.js:163 | skipping a non-slug run keeps every letter and digit |
| Admin.CollapseKeepsAlnum | server/controllers/adminController.js:163 | collapsing keeps every letter and digit in order |
| Admin.TrimDashesKeepsAlnum | server/controllers/adminController.js:164 | trimming the end dashes keeps every letter and digit |
| Admin.SlugKeepsLettersAndDigits | server/controllers/adminController.js:161-164 | the slug holds exactly the lower-cased name's letters and digits, in order |
| Admin.CollapseFixed | server/controllers/adminController.js:163 | a text of slug characters and single dashes is left unchanged |
| Admin.SlugOfSlug | server/controllers/adminController.js:161-164 | a slug is its own slug |
| Admin.SlugIdempotent | server/controllers/adminController.js:161-164 | slugging twice is slugging once |
| Admin.UpdateTicketStatus | server/controllers/adminController.js:95-121 | a status outside Open, In Progress, Resolved gives 400; otherwise 404 exactly when no ticket has the id, else the first such ticket gets the status and nothing else changes |
| Admin.OrDefault | server/controllers/adminController.js:175-178 | `v \|\| d`: the value when truthy, the default otherwise |
| Admin.CreateMuseum | server/controllers/adminController.js:156-189 | a missing name fails; a taken slug gives the duplicate error; success exactly for a non-empty name with a non-empty, free slug and a price, appending the museum with its defaults; slugs stay unique |
| Admin.BuildUpdate | server/controllers/adminController.js:196-218 | copies every defined field; a truthy name sets name and slug together; fails exactly when another museum has that slug |
| Admin.UpdateKeepsSlugsUnique | server/controllers/adminController.js:212-217 | replacing a museum with one whose slug no other museum has keeps slugs unique |
| Admin.UpdateMuseum | server/controllers/adminController.js:194-233 | duplicate name before not found; otherwise the first museum with the id is updated from the body and nothing else changes; slugs stay unique |
| Admin.MatchesEmail | server/controllers/adminController.js:41-44 | definition of the e-mail filter: the user's lower-cased e-mail contains the lower-cased query; `EmailMatchIsSearchMatch` relates it to the search |
| Admin.MatchesSearch | server/controllers/adminController.js:49-56 | definition of the search filter: the lower-cased query occurs in the booking id, the user's name or e-mail, or the museum's name; `SearchIgnoresCase` states that its case does not matter |
| Admin.FilterBookings | server/controllers/adminController.js:39-57 | the kept bookings are exactly those matching every given filter, in their original order |
| Admin.SearchIgnoresCase | server/controllers/adminController.js:49-55 | searching for a text and for its lower-case form keeps the same bookings |
| Admin.EmailMatchIsSearchMatch | server/controllers/adminController.js:40-55 | a booking kept by the e-mail filter is kept by a search for the same text |
| Grouping.GroupKey | client/src/pages/AdminPanel.jsx:49 | the museum id, or `'unknown'` when the booking has no museum or an empty id; never empty |
| Grouping.GroupName | client/src/pages/AdminPanel.jsx:50 | the museum name, or `'Unknown Museum'`; never empty |
| Grouping.Included | client/src/pages/AdminPanel.jsx:52-54 | definition of the selection test: every booking under `'all'`, otherwise those with the selected id; `SelectionKeepsOneGroup` states a consequence |
| Grouping.AddBooking | client/src/pages/AdminPanel.jsx:56-67 | definition of one `forEach` step as a value; `AddBookingAt` and `AddBookingExtends` state what it keeps, and `AddToGroups` is proved equal to it |
| Grouping.KeyOrder | client/src/pages/AdminPanel.jsx:56-63 | definition of the object's key order; `KeyOrderMembers`, `KeyOrderDistinct` and `KeyOrderIsFirstSeen` state that it lists each group once, by first appearance, as line 196 renders them |
| Grouping.MembersAppend | client/src/pages/AdminPanel.jsx:48-54 | one more booking extends its own group's members and no other |
| Grouping.SumsAppend | client/src/pages/AdminPanel.jsx:66-67 | one more booking adds its tickets and amount to the totals |
| Grouping.AddBookingAt | client/src/pages/AdminPanel.jsx:48-68 | one iteration keeps, for each key, the group describing that key's members |
| Grouping.AddBookingExtends | client/src/pages/AdminPanel.jsx:48-68 | one iteration extends the grouping of the bookings seen so far by one booking |
| Grouping.AddToGroups | client/src/pages/AdminPanel.jsx:48-68 | the `forEach` callback: skip an excluded booking, create its group on first sight, then add the booking and its totals; the key is appended to the object's key order exactly when its group is created |
| Grouping.GroupBookingsByMuseum | client/src/pages/AdminPanel.jsx:45-71 | a group exists exactly for each museum id with an included booking; it is named after the first such booking and holds them all in order with their ticket and revenue sums; the keys come out in the order the object creates them |
| Grouping.KeyOrderMembers | client/src/pages/AdminPanel.jsx:56-63 | the key order holds exactly the museum ids that have an included booking |
| Grouping.KeyOrderDistinct | client/src/pages/AdminPanel.jsx:56-63 | no key is listed twice |
| Grouping.KeyOrderIsFirstSeen | client/src/pages/AdminPanel.jsx:196 | `Object.entries` lists the groups in the order of their first included bookings |
| Grouping.FirstSeenAppend | client/src/pages/AdminPanel.jsx:56-63 | one more booking sets a group's first index only if it had none |
| Grouping.FirstSeenOrderStep | client/src/pages/AdminPanel.jsx:56-63 | appending a key on its first included booking keeps the key order the order of first appearance |
| Grouping.KeyOrderStep | client/src/pages/AdminPanel.jsx:56-63 | one more booking appends its key exactly when the pass has no group for it yet |
| Grouping.PassStep | client/src/pages/AdminPanel.jsx:48-68 | one iteration extends the groups and the key order by one booking |
| Grouping.EachBookingInOneGroup | client/src/pages/AdminPanel.jsx:49-54 | an included booking belongs to its museum's group and no other; an excluded one to none |
| Grouping.SelectionKeepsOneGroup | client/src/pages/AdminPanel.jsx:52-54 | with one museum selected, only that museum's group can exist |
| Grouping.GroupKeepsOrder | client/src/pages/AdminPanel.jsx:65 | within a group the bookings keep their input order |

## Left out

- **The AI fallback** (`getAIResponse`). The Gemini answer is the `aiReply` field of the environment; the prompt, the truncation and the key checks are not modelled.
  - An empty answer (a Gemini text of white space only, trimmed at line 309) makes the save of the bot message fail, and the handler answers 500 at line 791. The model stores the empty reply instead.
- **The database.**
  - A query is modelled as its result, and `save` as the new state.
  - The session found by `sessionId`, and the 400 for a missing `sessionId`, are not modelled: the model works on one session.
  - The catch-all 500 for a failing query is not modelled.
  - The in-branch replies to a failing query are not modelled: the museum lists at lines 430, 461 and 486, the price lookup at line 551, the bookings query at line 688 (caught at line 706), the download query at line 718 (caught at line 734) and the museum list at line 754. A query always succeeds in the model; for example a malformed `userId` makes the bookings and download queries fail with a cast error, and the source then answers their fetch-error texts, which the model gives only for a deleted museum.
- **Support-ticket ids.** The retry loop that draws a fresh id until it is unused is replaced by the `newTicketId` parameter.
- **Clock and time zones.**
  - Today's date is a parameter.
  - `new Date(text)` on free text is the `nativeDate` parameter: V8's free-form date parser is not modelled.
  - Dates are calendar days; the hours that `setHours(0,0,0,0)` drops are not represented.
  - `new Date("yyyy-mm-dd")` (line 138) is midnight UTC, while today (line 161) is local midnight. West of UTC, an ISO date for today falls on the local day before, so the source rejects it as past. The model accepts it.
- **Reply text.** Each reply is a `Reply` constructor carrying what its text interpolates. Wording, emoji and the locale formatting of dates and amounts are not modelled.
- **Case mapping.** `toLowerCase` and `toUpperCase` are modelled for ASCII letters only, so slugs and intents of names with non-ASCII letters are not modelled faithfully. Strings are sequences of characters, not of UTF-16 code units.
- **Schema validation numbers.** Prices, amounts and ticket counts are unbounded naturals. Floating-point prices and the schema's numeric validators are not modelled. `updateMuseum` runs those validators off, which the model reflects by copying the value.
- **Query filters of `getAllBookings` run by the database.** The museum, payment status, date range and booking-id regular expression filters, `populate`, and the sort are not modelled. The filters applied in memory are modelled.
- **Plain queries.** `getAllTickets`, `getAllUsers`, `getAllMuseums` and `deleteMuseum` are single database queries with no logic of their own.
- **Side fields.**
  - The `updatedAt` timestamp and the message timestamps are not modelled.
  - The unused `mode` field of the session is not modelled.
  - The e-mail and PDF services are not modelled.
- **Grouping keys.** `groupBookingsByMuseum` uses a plain JavaScript object. The model uses a map together with the sequence of its keys in creation order, which is the order `Object.entries` lists them in at line 196.
  - JavaScript lists keys that look like array indices (canonical decimals below 2^32 - 1) first. Museum ids are 24-digit hexadecimal `ObjectId`s and the fallback key is `'unknown'`, so no key is of that kind; the model does not represent index-like keys.
  - Keys such as `__proto__` are not modelled.
- **Concurrency.** Concurrent requests on one session are not modelled.
- ChatProperties.BookingReachesTickets: the whole conversation is stated for its first three messages. The tickets and confirm steps are stated message by message:
  - `ConversationChoosesCount` covers the tickets step;
  - `ConversationConfirms` covers the confirm step.
