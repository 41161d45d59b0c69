/** The chat session document and `handleChat` as the handler runs it: the
    message is appended, the contexts are updated field by field in the
    branch the intents select, and the bot's reply is appended. Each method
    is proved to do what `Chat.Respond` says one message does. */
module ChatSessions {
  import opened Wrappers
  import opened Seqs
  import opened Intents
  import opened Dates
  import opened TicketCount
  import opened Museums
  import opened Chat

  /** An entry of `messages`; the bot's entry holds the reply it sent. */
  datatype ChatMessage = UserTurn(text: string) | BotTurn(reply: Reply)

  class ChatSession {
    var booking: BookingContext
    var support: SupportContext
    var messages: seq<ChatMessage>

    ghost predicate Valid()
      reads this
    {
      StateValid(State(booking, support))
    }

    /** `ChatSession.create` with both contexts at `{ step: null }`. */
    constructor ()
      ensures booking == NoBooking && support == NoSupport && messages == []
      ensures Valid()
    {
      booking := NoBooking;
      support := NoSupport;
      messages := [];
    }

    /** A booking request outside the middle of a booking. */
    method RestartBooking(env: Env) returns (response: Response)
      modifies this`booking
      ensures (booking, response) == StartBooking(env)
    {
      booking := NoBooking.(step := Some(MuseumStep));
      response := Answered(MuseumMenu(StartIntro, Listed(env.catalog)), Some(AskMuseum), NoPayload);
    }

    /** The museum step. */
    method ChooseMuseum(message: string, env: Env) returns (response: Response)
      requires booking.step == Some(MuseumStep)
      modifies this`booking
      ensures (booking, response) == MuseumTurn(old(booking), message, env)
    {
      var found := MatchMuseum(message, env.catalog);
      if found.Some? {
        booking := booking.(museumId := Some(found.value.id));
        booking := booking.(museumName := Some(found.value.name));
        booking := booking.(step := Some(DateStep));
        response := Answered(GreatChoiceText(found.value.name), Some(AskDate),
                             MuseumChosen(found.value.id, found.value.name));
      } else {
        response := Answered(MuseumMenu(NotFoundIntro, Listed(env.catalog)), Some(AskMuseum), NoPayload);
      }
    }

    /** The date step. */
    method ChooseDate(message: string, env: Env) returns (response: Response)
      requires EnvValid(env)
      requires booking.step == Some(DateStep)
      modifies this`booking
      ensures (booking, response) == DateTurn(old(booking), message, env)
    {
      if WantsGoBack(message) {
        booking := booking.(step := Some(MuseumStep));
        booking := booking.(date := None);
        response := Answered(MuseumMenu(BackIntro, Listed(env.catalog)), Some(AskMuseum), NoPayload);
      } else {
        var parsed := ParseDate(message, env.today, env.nativeDate);
        if parsed.Some? && IsValidFutureDate(parsed.value, env.today) {
          booking := booking.(date := parsed);
          booking := booking.(step := Some(TicketsStep));
          response := Answered(VisitDateText(parsed.value), Some(AskTickets),
                               DateChosen(booking.museumId, booking.museumName, parsed.value));
        } else {
          response := Answered(InvalidDateText, Some(AskDate), NoPayload);
        }
      }
    }

    /** The tickets step. */
    method ChooseTickets(message: string, env: Env) returns (response: Response)
      requires booking.step == Some(TicketsStep)
      modifies this`booking
      ensures (booking, response) == TicketsTurn(old(booking), message, env)
    {
      if WantsGoBack(message) {
        booking := booking.(step := Some(DateStep));
        booking := booking.(ticketCount := None);
        booking := booking.(amount := None);
        response := Answered(AskDateAgainText(booking.museumName), Some(AskDate),
                             BackToDate(booking.museumId, booking.museumName));
      } else {
        var count := ExtractTicketCount(message);
        if count.Some? {
          response := PriceTickets(count.value, env);
        } else {
          response := Answered(InvalidTicketCountText, Some(AskTickets), NoPayload);
        }
      }
    }

    /** The tickets step once a count has been read: the museum is looked up
        again and the total is the count times its price. */
    method PriceTickets(count: nat, env: Env) returns (response: Response)
      modifies this`booking
      ensures var museum := FindById(env.catalog, old(booking).museumId);
              if museum.None? then booking == NoBooking && response == Answered(MuseumNotFoundText, None, NoPayload)
              else
                var total := Amount(count, museum.value.price);
                && booking == old(booking).(ticketCount := Some(count), amount := Some(total), step := Some(ConfirmStep))
                && response == Answered(BookingSummaryText(count, booking.museumName, booking.date, total),
                                        Some(ConfirmBooking),
                                        BookingDetails(booking.museumId, booking.museumName, booking.date, count, total))
    {
      var museum := FindById(env.catalog, booking.museumId);
      if museum.None? {
        booking := NoBooking;
        response := Answered(MuseumNotFoundText, None, NoPayload);
      } else {
        var total := Amount(count, museum.value.price);
        booking := booking.(ticketCount := Some(count));
        booking := booking.(amount := Some(total));
        booking := booking.(step := Some(ConfirmStep));
        response := Answered(BookingSummaryText(count, booking.museumName, booking.date, total),
                             Some(ConfirmBooking),
                             BookingDetails(booking.museumId, booking.museumName, booking.date, count, total));
      }
    }

    /** The confirmation step. */
    method Confirm(message: string) returns (response: Response)
      requires booking.step == Some(ConfirmStep)
      modifies this`booking
      ensures (booking, response) == ConfirmTurn(old(booking), message)
    {
      if WantsGoBack(message) {
        booking := booking.(step := Some(TicketsStep));
        booking := booking.(ticketCount := None);
        booking := booking.(amount := None);
        response := Answered(AskTicketsAgainText(booking.museumName), Some(AskTickets),
                             BackToTickets(booking.museumId, booking.museumName, booking.date));
      } else if IsConfirmation(message) {
        response := Answered(RedirectingText, Some(TriggerPayment),
                             PaymentRequest(booking.museumId, booking.date, booking.ticketCount, booking.amount));
        booking := NoBooking;
      } else if WantsCancel(message) {
        response := Answered(BookingCancelledText, None, NoPayload);
        booking := NoBooking;
      } else {
        response := Answered(AskYesOrCancelText, Some(ConfirmBooking), NoPayload);
      }
    }

    /** The booking branch of the handler. */
    method ContinueBooking(message: string, wantsBooking: bool, env: Env) returns (response: Response)
      requires EnvValid(env)
      requires wantsBooking || booking.step.Some?
      modifies this`booking
      ensures (booking, response) == BookingTurn(old(booking), message, wantsBooking, env)
    {
      if wantsBooking && (booking.step.None? || booking.step == Some(ConfirmStep)) {
        response := RestartBooking(env);
      } else {
        match booking.step.value
        case MuseumStep => response := ChooseMuseum(message, env);
        case DateStep => response := ChooseDate(message, env);
        case TicketsStep => response := ChooseTickets(message, env);
        case ConfirmStep => response := Confirm(message);
      }
    }

    /** The support-ticket branch of the handler. */
    method ContinueSupport(message: string, env: Env) returns (response: Response, created: Option<SupportTicket>)
      modifies this`support
      ensures (support, response, created) == SupportTurn(old(support), message, env)
    {
      created := None;
      if support.step.None? {
        support := support.(step := Some(NameStep));
        response := Answered(AskNameText, Some(AskSupportName), NoPayload);
      } else if support.step == Some(NameStep) {
        support := support.(name := Some(message));
        support := support.(step := Some(EmailStep));
        response := Answered(ThankYouText(message), Some(AskSupportEmail), NoPayload);
      } else if support.step == Some(EmailStep) {
        if IsEmail(message) {
          support := support.(email := Some(message));
          support := support.(step := Some(IssueTypeStep));
          response := Answered(AskIssueTypeText, Some(AskSupportIssueType), NoPayload);
        } else {
          response := Answered(InvalidEmailText, Some(AskSupportEmail), NoPayload);
        }
      } else if support.step == Some(IssueTypeStep) {
        support := support.(issueType := Some(message));
        support := support.(step := Some(DescriptionStep));
        response := Answered(AskDescriptionText, Some(AskSupportDescription), NoPayload);
      } else if support.step == Some(DescriptionStep) {
        support := support.(description := Some(message));
        support := support.(step := Some(PriorityStep));
        response := Answered(AskPriorityText, Some(AskSupportPriority), NoPayload);
      } else {
        var priority := Capitalize(message);
        if priority in Priorities {
          var user := if LoggedIn(env) then env.userId else None;
          created := Some(SupportTicket(user, support.name, support.email, support.issueType,
                                        support.description, priority, "Open", env.newTicketId));
          response := Answered(TicketCreatedText(env.newTicketId), Some(SupportTicketCreated),
                               TicketCreated(env.newTicketId));
          support := NoSupport;
        } else {
          response := Answered(ChoosePriorityText, Some(AskSupportPriority), NoPayload);
        }
      }
    }

    /** The chain of intent tests of the handler, for a non-empty message. */
    method Route(message: string, env: Env) returns (response: Response, created: Option<SupportTicket>)
      requires EnvValid(env) && message != ""
      modifies this`booking, this`support
      ensures Outcome(State(booking, support), response, created)
              == Respond(State(old(booking), old(support)), message, env)
    {
      created := None;
      if IsGreeting(message) {
        response := Answered(GreetingText, Some(Greeting), NoPayload);
        booking := NoBooking;
        support := NoSupport;
      } else if WantsCancel(message) && (booking.step.Some? || support.step.Some?) {
        if booking.step.Some? {
          booking := NoBooking;
          response := Answered(BookingCancelledText, None, NoPayload);
        } else {
          support := NoSupport;
          response := Answered(SupportCancelledText, None, NoPayload);
        }
      } else if WantsBooking(message) || booking.step.Some? {
        response := ContinueBooking(message, WantsBooking(message), env);
      } else if WantsSupportTicket(message) || support.step.Some? {
        response, created := ContinueSupport(message, env);
      } else {
        response := InfoTurn(message, env);
      }
    }

    /** `handleChat` for one request of this session. An empty message is
        refused and changes nothing; otherwise the user's message and the
        bot's reply are appended to `messages` around the update of the
        contexts. */
    method HandleChat(message: string, env: Env) returns (response: Response, created: Option<SupportTicket>)
      requires EnvValid(env)
      modifies this
      ensures Outcome(State(booking, support), response, created)
              == Respond(State(old(booking), old(support)), message, env)
      ensures response.Rejected? ==> messages == old(messages)
      ensures response.Answered? ==> messages == old(messages) + [UserTurn(message), BotTurn(response.reply)]
      ensures old(Valid()) ==> Valid()
    {
      if message == "" {
        return Rejected, None;
      }
      messages := messages + [UserTurn(message)];
      response, created := Route(message, env);
      messages := messages + [BotTurn(response.reply)];
    }
  }
}
