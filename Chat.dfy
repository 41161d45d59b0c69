/** The rule-based chat engine of `handleChat`: the state a chat session keeps
    between messages (a booking context and a support-ticket context), what
    one message does to that state, and what the bot answers. Everything the
    handler fetches from the database or from outside (the museum catalogue,
    the user's bookings, the calendar day, the AI reply, a fresh ticket id)
    arrives in an `Env`; the reply is the datatype of the data each reply text
    interpolates. */
module Chat {
  import opened Wrappers
  import opened Strings
  import opened Seqs
  import opened Intents
  import opened Dates
  import opened TicketCount
  import opened Museums

  // ---------------------------------------------------------------- state

  /** `bookingContext.step`; the stored `null` is `None`. */
  datatype BookingStep = MuseumStep | DateStep | TicketsStep | ConfirmStep

  datatype BookingContext = BookingContext(
    step: Option<BookingStep>,
    museumId: Option<string>,
    museumName: Option<string>,
    date: Option<Date>,
    ticketCount: Option<nat>,
    amount: Option<nat>)

  /** `{ step: null }` */
  const NoBooking := BookingContext(None, None, None, None, None, None)

  /** `supportTicketContext.step`; the stored `null` is `None`. */
  datatype SupportStep = NameStep | EmailStep | IssueTypeStep | DescriptionStep | PriorityStep

  datatype SupportContext = SupportContext(
    step: Option<SupportStep>,
    name: Option<string>,
    email: Option<string>,
    issueType: Option<string>,
    description: Option<string>)

  const NoSupport := SupportContext(None, None, None, None, None)

  datatype State = State(booking: BookingContext, support: SupportContext)

  /** What each booking step has collected so far. A museum step reached by
      going back from the date step keeps the museum it had. */
  predicate BookingValid(b: BookingContext)
  {
    match b.step
    case None => b == NoBooking
    case Some(MuseumStep) =>
      b.date.None? && b.ticketCount.None? && b.amount.None?
    case Some(DateStep) =>
      && b.museumId.Some? && b.museumName.Some?
      && (b.date.Some? ==> ValidDate(b.date.value))
      && b.ticketCount.None? && b.amount.None?
    case Some(TicketsStep) =>
      && b.museumId.Some? && b.museumName.Some?
      && b.date.Some? && ValidDate(b.date.value)
      && b.ticketCount.None? && b.amount.None?
    case Some(ConfirmStep) =>
      && b.museumId.Some? && b.museumName.Some?
      && b.date.Some? && ValidDate(b.date.value)
      && b.ticketCount.Some? && 1 <= b.ticketCount.value <= 100
      && b.amount.Some?
  }

  /** What each support step has collected so far. */
  predicate SupportValid(s: SupportContext)
  {
    match s.step
    case None => s == NoSupport
    case Some(NameStep) =>
      s.name.None? && s.email.None? && s.issueType.None? && s.description.None?
    case Some(EmailStep) =>
      s.name.Some? && s.email.None? && s.issueType.None? && s.description.None?
    case Some(IssueTypeStep) =>
      s.name.Some? && s.email.Some? && IsEmail(s.email.value) && s.issueType.None? && s.description.None?
    case Some(DescriptionStep) =>
      s.name.Some? && s.email.Some? && IsEmail(s.email.value) && s.issueType.Some? && s.description.None?
    case Some(PriorityStep) =>
      s.name.Some? && s.email.Some? && IsEmail(s.email.value) && s.issueType.Some? && s.description.Some?
  }

  predicate StateValid(st: State)
  {
    BookingValid(st.booking) && SupportValid(st.support)
  }

  // ---------------------------------------------------------- environment

  datatype PaymentStatus = Pending | Paid | Failed

  /** A booking of the current user, with its museum's name populated;
      `None` when the museum has been deleted and `populate` yields `null`. */
  datatype UserBooking = UserBooking(
    bookingId: string, museumName: Option<string>, date: Date, ticketCount: nat,
    amount: nat, paymentStatus: PaymentStatus, pdfUrl: string)

  /** Everything the handler reads besides the session: the museum catalogue
      in database order, today's date, what `new Date(text)` makes of this
      message, the `userId` of the request, that user's bookings newest first,
      what the AI fallback answers, and the ticket id the generator yields. */
  datatype Env = Env(
    catalog: seq<Museum>,
    today: Date,
    nativeDate: Option<Date>,
    userId: Option<string>,
    userBookings: seq<UserBooking>,
    aiReply: string,
    newTicketId: string)

  predicate EnvValid(env: Env)
  {
    ValidDate(env.today) && (env.nativeDate.Some? ==> ValidDate(env.nativeDate.value))
  }

  /** `userId` is truthy. */
  predicate LoggedIn(env: Env)
  {
    env.userId.Some? && env.userId.value != ""
  }

  /** Reading `booking.museum.name` does not throw. */
  predicate HasMuseum(b: UserBooking)
  {
    b.museumName.Some?
  }

  /** `paymentStatus: 'paid', pdfUrl: { $ne: '' }` */
  predicate Downloadable(b: UserBooking)
  {
    b.paymentStatus == Paid && b.pdfUrl != ""
  }

  // ------------------------------------------------------------- answers

  /** Which sentence opens a museum menu. */
  datatype MenuIntro =
    | StartIntro      // "Sure! Which museum would you like to visit? ..."
    | NotFoundIntro   // "I couldn't find that museum. ..."
    | BackIntro       // "Which museum would you like to visit? ..."
    | CatalogIntro    // "Available museums in Bengaluru: ..."

  datatype Reply =
    | GreetingText
    | BookingCancelledText
    | SupportCancelledText
    | MuseumMenu(intro: MenuIntro, museums: seq<Museum>)
    | GreatChoiceText(museumName: string)
    | VisitDateText(date: Date)
    | InvalidDateText
    | AskDateAgainText(chosenName: Option<string>)
    | MuseumNotFoundText
    | BookingSummaryText(count: nat, bookedName: Option<string>, visitDate: Option<Date>, total: nat)
    | InvalidTicketCountText
    | AskTicketsAgainText(currentName: Option<string>)
    | RedirectingText
    | AskYesOrCancelText
    | AskNameText
    | ThankYouText(givenName: string)
    | AskIssueTypeText
    | InvalidEmailText
    | AskDescriptionText
    | AskPriorityText
    | TicketCreatedText(createdId: string)
    | ChoosePriorityText
    | LoginForBookingsText
    | NoBookingsText
    | BookingListText(bookings: seq<UserBooking>)
    | BookingsFetchErrorText  // "Sorry, I couldn't fetch your bookings right now. ..."
    | LoginForDownloadText
    | TicketReadyText(readyName: string, readyId: string)
    | NoDownloadText
    | TicketsFetchErrorText   // "Sorry, I couldn't find your tickets. ..."
    | HelpText
    | AiText(text: string)

  /** `nextAction`; the handler's `null` is `None`. */
  datatype NextAction =
    | Greeting | AskMuseum | AskDate | AskTickets | ConfirmBooking | TriggerPayment
    | AskSupportName | AskSupportEmail | AskSupportIssueType | AskSupportDescription
    | AskSupportPriority | SupportTicketCreated | ShowBookings | DownloadTicket
    | ShowMuseums | Help | AiResponse

  /** `payload`; the handler's `null` is `NoPayload`. */
  datatype Payload =
    | NoPayload
    | MuseumChosen(chosenId: string, chosenName: string)
    | DateChosen(dateMuseumId: Option<string>, dateMuseumName: Option<string>, chosenDate: Date)
    | BackToDate(backId: Option<string>, backName: Option<string>)
    | BookingDetails(detailId: Option<string>, detailName: Option<string>, detailDate: Option<Date>,
                     detailCount: nat, detailAmount: nat)
    | BackToTickets(ticketsId: Option<string>, ticketsName: Option<string>, ticketsDate: Option<Date>)
    | PaymentRequest(payMuseumId: Option<string>, payDate: Option<Date>, payCount: Option<nat>, payAmount: Option<nat>)
    | TicketCreated(ticketId: string)
    | DownloadLink(downloadId: string, pdfUrl: string)

  /** `Rejected` is the 400 answer to an empty message. */
  datatype Response =
    | Rejected
    | Answered(reply: Reply, nextAction: Option<NextAction>, payload: Payload)

  /** The document `SupportTicket.create` receives. */
  datatype SupportTicket = SupportTicket(
    user: Option<string>, name: Option<string>, email: Option<string>,
    issueType: Option<string>, description: Option<string>,
    priority: string, status: string, ticketId: string)

  datatype Outcome = Outcome(state: State, response: Response, created: Option<SupportTicket>)

  // -------------------------------------------------------- support input

  /** May stand in a part of `/^[^\s@]+@[^\s@]+\.[^\s@]+$/`. */
  predicate EmailChar(c: char)
  {
    !IsSpace(c) && c != '@'
  }

  /** `s` matches the e-mail pattern with its `@` at `i` and the dot that
      separates the last part at `k`. */
  predicate EmailAt(s: string, i: int, k: int)
  {
    && 0 < i && i + 1 < k && k + 1 < |s|
    && s[i] == '@' && s[k] == '.'
    && forall j :: 0 <= j < |s| && j != i ==> EmailChar(s[j])
  }

  /** `emailRegex.test(message)` */
  predicate IsEmail(s: string)
  {
    exists i, k | 0 < i < |s| && 0 < k < |s| :: EmailAt(s, i, k)
  }

  /** `message.charAt(0).toUpperCase() + message.slice(1).toLowerCase()` */
  function Capitalize(s: string): (r: string)
    ensures |r| == |s|
    ensures s != [] ==> r[0] == UpperChar(s[0]) && r[1..] == ToLower(s[1..])
  {
    if s == [] then [] else [UpperChar(s[0])] + ToLower(s[1..])
  }

  const Priorities: seq<string> := ["Low", "Medium", "High"]

  // ------------------------------------------------------ the booking flow

  /** A booking request outside the middle of a booking: a fresh context at
      the museum step and the menu of (at most ten) active museums. */
  function StartBooking(env: Env): (r: (BookingContext, Response))
    ensures BookingValid(r.0) && r.0.step == Some(MuseumStep) && r.0.museumId.None?
    ensures r.1.Answered? && r.1.nextAction == Some(AskMuseum)
  {
    (NoBooking.(step := Some(MuseumStep)),
     Answered(MuseumMenu(StartIntro, Listed(env.catalog)), Some(AskMuseum), NoPayload))
  }

  /** Museum step: a matched museum moves to the date step. */
  function MuseumTurn(b: BookingContext, message: string, env: Env): (r: (BookingContext, Response))
    requires b.step == Some(MuseumStep)
    ensures BookingValid(b) ==> BookingValid(r.0)
    ensures r.0.step == Some(DateStep) <==> MatchMuseum(message, env.catalog).Some?
    ensures r.0.step != Some(DateStep) ==> r.0 == b
  {
    var found := MatchMuseum(message, env.catalog);
    if found.Some? then
      var m := found.value;
      (b.(museumId := Some(m.id), museumName := Some(m.name), step := Some(DateStep)),
       Answered(GreatChoiceText(m.name), Some(AskDate), MuseumChosen(m.id, m.name)))
    else
      (b, Answered(MuseumMenu(NotFoundIntro, Listed(env.catalog)), Some(AskMuseum), NoPayload))
  }

  /** Date step: going back returns to the museum step; a parsed date that is
      not in the past moves to the tickets step. */
  function DateTurn(b: BookingContext, message: string, env: Env): (r: (BookingContext, Response))
    requires EnvValid(env)
    requires b.step == Some(DateStep)
    ensures BookingValid(b) ==> BookingValid(r.0)
    ensures r.0.step == Some(TicketsStep) ==>
              r.0.date.Some? && IsValidFutureDate(r.0.date.value, env.today)
              && r.0.museumId == b.museumId
  {
    if WantsGoBack(message) then
      (b.(step := Some(MuseumStep), date := None),
       Answered(MuseumMenu(BackIntro, Listed(env.catalog)), Some(AskMuseum), NoPayload))
    else
      var parsed := ParseDate(message, env.today, env.nativeDate);
      if parsed.Some? && IsValidFutureDate(parsed.value, env.today) then
        (b.(date := parsed, step := Some(TicketsStep)),
         Answered(VisitDateText(parsed.value), Some(AskTickets), DateChosen(b.museumId, b.museumName, parsed.value)))
      else
        (b, Answered(InvalidDateText, Some(AskDate), NoPayload))
  }

  /** `ticketCount * museum.price` */
  function Amount(count: nat, price: nat): nat
  {
    count * price
  }

  /** Tickets step: going back returns to the date step; a ticket count prices
      the booking with the museum's current price. */
  function TicketsTurn(b: BookingContext, message: string, env: Env): (r: (BookingContext, Response))
    requires b.step == Some(TicketsStep)
    ensures BookingValid(b) ==> BookingValid(r.0)
    ensures r.0.step == Some(ConfirmStep) ==>
              && ExtractTicketCount(message).Some? && FindById(env.catalog, b.museumId).Some?
              && r.0.ticketCount == ExtractTicketCount(message)
              && r.0.amount == Some(Amount(r.0.ticketCount.value, FindById(env.catalog, b.museumId).value.price))
  {
    if WantsGoBack(message) then
      (b.(step := Some(DateStep), ticketCount := None, amount := None),
       Answered(AskDateAgainText(b.museumName), Some(AskDate), BackToDate(b.museumId, b.museumName)))
    else
      var count := ExtractTicketCount(message);
      if count.Some? then
        var museum := FindById(env.catalog, b.museumId);
        if museum.None? then
          (NoBooking, Answered(MuseumNotFoundText, None, NoPayload))
        else
          var total := Amount(count.value, museum.value.price);
          (b.(ticketCount := count, amount := Some(total), step := Some(ConfirmStep)),
           Answered(BookingSummaryText(count.value, b.museumName, b.date, total), Some(ConfirmBooking),
                    BookingDetails(b.museumId, b.museumName, b.date, count.value, total)))
      else
        (b, Answered(InvalidTicketCountText, Some(AskTickets), NoPayload))
  }

  /** Confirmation step: back to the tickets step, on to payment, or ask again.
      The cancel branch is the source's, though the global cancellation
      always answers first (see `ChatProperties.ConfirmCancelIsGlobalCancel`). */
  function ConfirmTurn(b: BookingContext, message: string): (r: (BookingContext, Response))
    requires b.step == Some(ConfirmStep)
    ensures BookingValid(b) ==> BookingValid(r.0)
    ensures r.1.Answered? && r.1.nextAction == Some(TriggerPayment) ==>
              r.0 == NoBooking && r.1.payload == PaymentRequest(b.museumId, b.date, b.ticketCount, b.amount)
  {
    if WantsGoBack(message) then
      (b.(step := Some(TicketsStep), ticketCount := None, amount := None),
       Answered(AskTicketsAgainText(b.museumName), Some(AskTickets), BackToTickets(b.museumId, b.museumName, b.date)))
    else if IsConfirmation(message) then
      (NoBooking, Answered(RedirectingText, Some(TriggerPayment), PaymentRequest(b.museumId, b.date, b.ticketCount, b.amount)))
    else if WantsCancel(message) then
      (NoBooking, Answered(BookingCancelledText, None, NoPayload))
    else
      (b, Answered(AskYesOrCancelText, Some(ConfirmBooking), NoPayload))
  }

  /** The booking branch, entered when the message asks for a booking or a
      booking is under way. A booking request restarts the flow unless the
      user is choosing a museum, a date or a ticket count. */
  function BookingTurn(b: BookingContext, message: string, wantsBooking: bool, env: Env): (r: (BookingContext, Response))
    requires EnvValid(env)
    requires wantsBooking || b.step.Some?
    ensures BookingValid(b) ==> BookingValid(r.0)
    ensures r.1.Answered?
  {
    if wantsBooking && (b.step.None? || b.step == Some(ConfirmStep)) then StartBooking(env)
    else
      match b.step.value
      case MuseumStep => MuseumTurn(b, message, env)
      case DateStep => DateTurn(b, message, env)
      case TicketsStep => TicketsTurn(b, message, env)
      case ConfirmStep => ConfirmTurn(b, message)
  }

  // ------------------------------------------------------ the support flow

  /** The support-ticket branch: one field per message, in a fixed order. */
  function SupportTurn(s: SupportContext, message: string, env: Env): (r: (SupportContext, Response, Option<SupportTicket>))
    ensures SupportValid(s) ==> SupportValid(r.0)
    ensures r.1.Answered?
    ensures r.2.Some? <==> s.step == Some(PriorityStep) && Capitalize(message) in Priorities
    ensures r.2.Some? ==>
              && r.0 == NoSupport
              && r.2.value == SupportTicket(if LoggedIn(env) then env.userId else None,
                                            s.name, s.email, s.issueType, s.description,
                                            Capitalize(message), "Open", env.newTicketId)
  {
    match s.step
    case None =>
      (s.(step := Some(NameStep)), Answered(AskNameText, Some(AskSupportName), NoPayload), None)
    case Some(NameStep) =>
      (s.(name := Some(message), step := Some(EmailStep)),
       Answered(ThankYouText(message), Some(AskSupportEmail), NoPayload), None)
    case Some(EmailStep) =>
      if IsEmail(message) then
        (s.(email := Some(message), step := Some(IssueTypeStep)),
         Answered(AskIssueTypeText, Some(AskSupportIssueType), NoPayload), None)
      else
        (s, Answered(InvalidEmailText, Some(AskSupportEmail), NoPayload), None)
    case Some(IssueTypeStep) =>
      (s.(issueType := Some(message), step := Some(DescriptionStep)),
       Answered(AskDescriptionText, Some(AskSupportDescription), NoPayload), None)
    case Some(DescriptionStep) =>
      (s.(description := Some(message), step := Some(PriorityStep)),
       Answered(AskPriorityText, Some(AskSupportPriority), NoPayload), None)
    case Some(PriorityStep) =>
      var priority := Capitalize(message);
      if priority in Priorities then
        var ticket := SupportTicket(if LoggedIn(env) then env.userId else None,
                                    s.name, s.email, s.issueType, s.description,
                                    priority, "Open", env.newTicketId);
        (NoSupport, Answered(TicketCreatedText(env.newTicketId), Some(SupportTicketCreated), TicketCreated(env.newTicketId)),
         Some(ticket))
      else
        (s, Answered(ChoosePriorityText, Some(AskSupportPriority), NoPayload), None)
  }

  // ------------------------------------------------- the remaining intents

  /** The booking-list branch: at most the five newest bookings, listed only
      to a logged-in user who has some. A booking among them whose museum has
      been deleted makes the template throw, and the `catch` answers the
      fetch-error text instead. */
  function BookingsTurn(env: Env): (r: Response)
    ensures r.Answered?
    ensures r.nextAction == Some(ShowBookings) <==>
              && LoggedIn(env) && env.userBookings != []
              && forall b :: b in Take(env.userBookings, 5) ==> HasMuseum(b)
    ensures r.nextAction == Some(ShowBookings) ==> r.reply == BookingListText(Take(env.userBookings, 5))
    ensures r.reply == BookingsFetchErrorText <==>
              LoggedIn(env) && exists b :: b in Take(env.userBookings, 5) && !HasMuseum(b)
    ensures r.nextAction != Some(ShowBookings) ==> r.nextAction.None? && r.payload == NoPayload
  {
    if !LoggedIn(env) then Answered(LoginForBookingsText, None, NoPayload)
    else
      var recent := Take(env.userBookings, 5);
      if recent == [] then Answered(NoBookingsText, None, NoPayload)
      else if exists b :: b in recent && !HasMuseum(b) then Answered(BookingsFetchErrorText, None, NoPayload)
      else Answered(BookingListText(recent), Some(ShowBookings), NoPayload)
  }

  /** `i` is the newest downloadable booking. */
  predicate LatestDownloadable(bs: seq<UserBooking>, i: int)
  {
    0 <= i < |bs| && Downloadable(bs[i]) && forall j :: 0 <= j < i ==> !Downloadable(bs[j])
  }

  /** The download branch: the newest paid booking with a PDF, offered only to
      a logged-in user. When its museum has been deleted the template throws
      and the `catch` answers the fetch-error text instead. */
  function DownloadTurn(env: Env): (r: Response)
    ensures r.Answered?
    ensures r.nextAction == Some(DownloadTicket) ==>
              && LoggedIn(env)
              && exists i :: (&& LatestDownloadable(env.userBookings, i) && HasMuseum(env.userBookings[i])
                              && r.reply == TicketReadyText(env.userBookings[i].museumName.value, env.userBookings[i].bookingId)
                              && r.payload == DownloadLink(env.userBookings[i].bookingId, env.userBookings[i].pdfUrl))
    ensures r.reply == TicketsFetchErrorText <==>
              LoggedIn(env) && exists i :: LatestDownloadable(env.userBookings, i) && !HasMuseum(env.userBookings[i])
    ensures r.nextAction != Some(DownloadTicket) ==> r.nextAction.None? && r.payload == NoPayload
    ensures LoggedIn(env) && (exists i :: LatestDownloadable(env.userBookings, i) && HasMuseum(env.userBookings[i])) ==>
              r.nextAction == Some(DownloadTicket)
  {
    if !LoggedIn(env) then Answered(LoginForDownloadText, None, NoPayload)
    else
      var latest := FirstWhere(env.userBookings, Downloadable);
      if latest.None? then Answered(NoDownloadText, None, NoPayload)
      else
        var b := env.userBookings[latest.value];
        assert LatestDownloadable(env.userBookings, latest.value);
        if !HasMuseum(b) then Answered(TicketsFetchErrorText, None, NoPayload)
        else Answered(TicketReadyText(b.museumName.value, b.bookingId), Some(DownloadTicket), DownloadLink(b.bookingId, b.pdfUrl))
  }

  /** The remaining rules, tried in order: bookings, download, museum list,
      help, and the AI fallback when no rule applies; none of them touches
      the session's contexts. */
  function InfoTurn(message: string, env: Env): (r: Response)
    ensures r.Answered?
    ensures WantsMyBookings(message) ==> r == BookingsTurn(env)
    ensures !WantsMyBookings(message) && WantsDownloadTicket(message) ==> r == DownloadTurn(env)
    ensures !WantsMyBookings(message) && !WantsDownloadTicket(message) && WantsMuseumList(message) ==>
              r == Answered(MuseumMenu(CatalogIntro, Listed(env.catalog)), Some(ShowMuseums), NoPayload)
    ensures !WantsMyBookings(message) && !WantsDownloadTicket(message) && !WantsMuseumList(message) && WantsHelp(message) ==>
              r == Answered(HelpText, Some(Help), NoPayload)
    ensures r.nextAction == Some(ShowMuseums) ==> r.reply == MuseumMenu(CatalogIntro, Listed(env.catalog))
    ensures r.nextAction == Some(AiResponse) ==> r == Answered(AiText(env.aiReply), Some(AiResponse), NoPayload)
    ensures r.nextAction == Some(AiResponse) <==>
              !WantsMyBookings(message) && !WantsDownloadTicket(message) && !WantsMuseumList(message) && !WantsHelp(message)
  {
    if WantsMyBookings(message) then BookingsTurn(env)
    else if WantsDownloadTicket(message) then DownloadTurn(env)
    else if WantsMuseumList(message) then
      Answered(MuseumMenu(CatalogIntro, Listed(env.catalog)), Some(ShowMuseums), NoPayload)
    else if WantsHelp(message) then
      Answered(HelpText, Some(Help), NoPayload)
    else
      Answered(AiText(env.aiReply), Some(AiResponse), NoPayload)
  }

  // ------------------------------------------------------ one chat message

  /** A cancellation while a flow is under way: the booking is dropped if one
      is under way, otherwise the support ticket. */
  function CancelTurn(st: State): (o: Outcome)
    requires st.booking.step.Some? || st.support.step.Some?
    ensures st.booking.step.Some? ==> o.state == State(NoBooking, st.support)
    ensures st.booking.step.None? ==> o.state == State(st.booking, NoSupport)
    ensures o.response.Answered? && o.response.nextAction.None? && o.created.None?
  {
    if st.booking.step.Some? then
      Outcome(State(NoBooking, st.support), Answered(BookingCancelledText, None, NoPayload), None)
    else
      Outcome(State(st.booking, NoSupport), Answered(SupportCancelledText, None, NoPayload), None)
  }

  /** What one message does: the intents in the handler's priority order. */
  function Respond(st: State, message: string, env: Env): (o: Outcome)
    requires EnvValid(env)
    ensures o.response.Rejected? <==> message == ""
    ensures o.response.Rejected? ==> o.state == st && o.created.None?
    ensures StateValid(st) ==> StateValid(o.state)
  {
    if message == "" then Outcome(st, Rejected, None)
    else if IsGreeting(message) then
      Outcome(State(NoBooking, NoSupport), Answered(GreetingText, Some(Greeting), NoPayload), None)
    else if WantsCancel(message) && (st.booking.step.Some? || st.support.step.Some?) then
      CancelTurn(st)
    else if WantsBooking(message) || st.booking.step.Some? then
      var r := BookingTurn(st.booking, message, WantsBooking(message), env);
      Outcome(State(r.0, st.support), r.1, None)
    else if WantsSupportTicket(message) || st.support.step.Some? then
      var r := SupportTurn(st.support, message, env);
      Outcome(State(st.booking, r.0), r.1, r.2)
    else
      Outcome(st, InfoTurn(message, env), None)
  }
}
