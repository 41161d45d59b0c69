/** Properties of `Chat.Respond`: the priority of the intents, what each
    booking and support step does with a message, and a whole booking
    conversation from the first request to the payment hand-off. */
module ChatProperties {
  import opened Wrappers
  import opened Strings
  import opened Seqs
  import opened Intents
  import opened Dates
  import opened TicketCount
  import opened Museums
  import opened Chat

  /** The message passes the two checks that come before the flows. */
  predicate ReachesFlows(st: State, message: string)
  {
    && message != ""
    && !IsGreeting(message)
    && !(WantsCancel(message) && (st.booking.step.Some? || st.support.step.Some?))
  }

  /** Past the greeting and the cancellation, a message for the booking
      flow is answered by the booking branch alone. */
  lemma RespondInBooking(st: State, message: string, env: Env)
    requires EnvValid(env) && ReachesFlows(st, message)
    requires WantsBooking(message) || st.booking.step.Some?
    ensures var r := BookingTurn(st.booking, message, WantsBooking(message), env);
            Respond(st, message, env) == Outcome(State(r.0, st.support), r.1, None)
  {
  }

  /** Past the greeting, the cancellation and the booking flow, a support
      request or a message in a support ticket under way is answered by the
      support branch alone. */
  lemma RespondInSupport(st: State, message: string, env: Env)
    requires EnvValid(env) && ReachesFlows(st, message) && !WantsBooking(message)
    requires st.booking.step.None? && (WantsSupportTicket(message) || st.support.step.Some?)
    ensures var r := SupportTurn(st.support, message, env);
            Respond(st, message, env) == Outcome(State(st.booking, r.0), r.1, r.2)
  {
  }

  // ------------------------------------------------- priority of intents

  /** A greeting abandons both flows, whatever step they are at. */
  lemma GreetingResetsBothFlows(st: State, message: string, env: Env)
    requires EnvValid(env) && message != "" && IsGreeting(message)
    ensures Respond(st, message, env)
            == Outcome(State(NoBooking, NoSupport), Answered(GreetingText, Some(Greeting), NoPayload), None)
  {
  }

  /** A cancellation drops the booking when one is under way, and otherwise
      the support ticket; the other context is left as it was. */
  lemma CancelDropsOneFlow(st: State, message: string, env: Env)
    requires EnvValid(env) && message != "" && !IsGreeting(message) && WantsCancel(message)
    requires st.booking.step.Some? || st.support.step.Some?
    ensures var o := Respond(st, message, env);
            && o.response.Answered? && o.response.nextAction.None? && o.created.None?
            && (st.booking.step.Some? ==> o.state == State(NoBooking, st.support)
                                          && o.response.reply == BookingCancelledText)
            && (st.booking.step.None? ==> o.state == State(st.booking, NoSupport)
                                          && o.response.reply == SupportCancelledText)
  {
  }

  /** With no flow under way a cancellation is not special: the message goes
      on to the other intents and the session is left as it was. */
  lemma CancelWithoutFlowFallsThrough(message: string, env: Env)
    requires EnvValid(env) && message != "" && !IsGreeting(message)
    requires !WantsBooking(message) && !WantsSupportTicket(message)
    ensures var st := State(NoBooking, NoSupport);
            Respond(st, message, env) == Outcome(st, InfoTurn(message, env), None)
  {
  }

  /** The booking branch is tried before the support branch: booking words
      sent in the middle of a support ticket start a booking and leave the
      support ticket pending, so both flows are then under way. */
  lemma BookingRequestLeavesSupportPending(st: State, message: string, env: Env)
    requires EnvValid(env) && ReachesFlows(st, message) && WantsBooking(message)
    requires st.booking == NoBooking && st.support.step.Some?
    ensures var o := Respond(st, message, env);
            && o.state.booking.step == Some(MuseumStep)
            && o.state.support == st.support
            && o.response.Answered? && o.response.nextAction == Some(AskMuseum)
  {
  }

  // ---------------------------------------------------- the booking flow

  /** Booking words restart the flow when no booking is under way or it is
      waiting for confirmation, even if the message also confirms. */
  lemma BookingWordsRestartAtConfirm(st: State, message: string, env: Env)
    requires EnvValid(env) && ReachesFlows(st, message) && WantsBooking(message)
    requires st.booking.step.None? || st.booking.step == Some(ConfirmStep)
    ensures var o := Respond(st, message, env);
            && o.state == State(NoBooking.(step := Some(MuseumStep)), st.support)
            && o.response == Answered(MuseumMenu(StartIntro, Listed(env.catalog)), Some(AskMuseum), NoPayload)
  {
  }

  /** A matched museum is recorded and the flow asks for the date; booking
      words in the same message do not restart the flow. */
  lemma ChoosingMuseumMovesToDate(st: State, message: string, env: Env, m: Museum)
    requires EnvValid(env) && ReachesFlows(st, message)
    requires st.booking.step == Some(MuseumStep) && MatchMuseum(message, env.catalog) == Some(m)
    ensures var o := Respond(st, message, env);
            && o.state.booking == st.booking.(museumId := Some(m.id), museumName := Some(m.name), step := Some(DateStep))
            && o.state.support == st.support
            && o.response == Answered(GreatChoiceText(m.name), Some(AskDate), MuseumChosen(m.id, m.name))
            && m in env.catalog && m.isActive
  {
    RespondInBooking(st, message, env);
    assert BookingTurn(st.booking, message, WantsBooking(message), env) == MuseumTurn(st.booking, message, env);
  }

  /** At the date step, the flow moves on exactly when the message parses to
      a date that is not in the past, and it records that date. */
  lemma DateAcceptedIffNotPast(st: State, message: string, env: Env)
    requires EnvValid(env) && ReachesFlows(st, message) && !WantsGoBack(message)
    requires st.booking.step == Some(DateStep)
    ensures var o := Respond(st, message, env);
            var parsed := ParseDate(message, env.today, env.nativeDate);
            && (o.state.booking.step == Some(TicketsStep) <==> parsed.Some? && IsValidFutureDate(parsed.value, env.today))
            && (o.state.booking.step == Some(TicketsStep) ==> o.state.booking == st.booking.(date := parsed, step := Some(TicketsStep)))
            && (o.state.booking.step != Some(TicketsStep) ==>
                  o.state.booking == st.booking && o.response.nextAction == Some(AskDate))
  {
    RespondInBooking(st, message, env);
    assert BookingTurn(st.booking, message, WantsBooking(message), env) == DateTurn(st.booking, message, env);
  }

  /** Going back from the date step forgets the date and shows the menu again. */
  lemma DateGoBack(st: State, message: string, env: Env)
    requires EnvValid(env) && ReachesFlows(st, message) && WantsGoBack(message)
    requires st.booking.step == Some(DateStep)
    ensures var o := Respond(st, message, env);
            && o.state.booking == st.booking.(step := Some(MuseumStep), date := None)
            && o.response == Answered(MuseumMenu(BackIntro, Listed(env.catalog)), Some(AskMuseum), NoPayload)
  {
    RespondInBooking(st, message, env);
    assert BookingTurn(st.booking, message, WantsBooking(message), env) == DateTurn(st.booking, message, env);
  }

  /** A ticket count prices the booking: the amount is the count times the
      price the catalogue holds for the chosen museum now. */
  lemma TicketsPriced(st: State, message: string, env: Env, count: nat, m: Museum)
    requires EnvValid(env) && ReachesFlows(st, message) && !WantsGoBack(message)
    requires st.booking.step == Some(TicketsStep)
    requires ExtractTicketCount(message) == Some(count)
    requires FindById(env.catalog, st.booking.museumId) == Some(m)
    ensures var o := Respond(st, message, env);
            && 1 <= count <= 100
            && o.state.booking == st.booking.(ticketCount := Some(count), amount := Some(Amount(count, m.price)),
                                              step := Some(ConfirmStep))
            && o.response.nextAction == Some(ConfirmBooking)
            && o.response.payload == BookingDetails(st.booking.museumId, st.booking.museumName, st.booking.date,
                                                    count, Amount(count, m.price))
  {
    RespondInBooking(st, message, env);
    TicketsTurnPriced(st.booking, message, WantsBooking(message), env, count, m);
  }

  /** The same, for the booking branch alone. */
  lemma TicketsTurnPriced(b: BookingContext, message: string, wantsBooking: bool, env: Env, count: nat, m: Museum)
    requires EnvValid(env) && b.step == Some(TicketsStep) && !WantsGoBack(message)
    requires ExtractTicketCount(message) == Some(count) && FindById(env.catalog, b.museumId) == Some(m)
    ensures var total := Amount(count, m.price);
            BookingTurn(b, message, wantsBooking, env)
              == (b.(ticketCount := Some(count), amount := Some(total), step := Some(ConfirmStep)),
                  Answered(BookingSummaryText(count, b.museumName, b.date, total), Some(ConfirmBooking),
                           BookingDetails(b.museumId, b.museumName, b.date, count, total)))
  {
  }

  /** A chosen museum that has disappeared from the catalogue ends the booking. */
  lemma TicketsMuseumGone(st: State, message: string, env: Env)
    requires EnvValid(env) && ReachesFlows(st, message) && !WantsGoBack(message)
    requires st.booking.step == Some(TicketsStep) && ExtractTicketCount(message).Some?
    requires FindById(env.catalog, st.booking.museumId).None?
    ensures var o := Respond(st, message, env);
            o.state.booking == NoBooking && o.response == Answered(MuseumNotFoundText, None, NoPayload)
  {
    RespondInBooking(st, message, env);
    TicketsTurnMuseumGone(st.booking, message, WantsBooking(message), env);
  }

  /** The same, for the booking branch alone. */
  lemma TicketsTurnMuseumGone(b: BookingContext, message: string, wantsBooking: bool, env: Env)
    requires EnvValid(env) && b.step == Some(TicketsStep) && !WantsGoBack(message)
    requires ExtractTicketCount(message).Some? && FindById(env.catalog, b.museumId).None?
    ensures BookingTurn(b, message, wantsBooking, env) == (NoBooking, Answered(MuseumNotFoundText, None, NoPayload))
  {
  }

  /** Going back from the tickets step returns to the date step: the count
      and the amount are forgotten, the museum and the date kept, and the
      date is asked for again. */
  lemma TicketsGoBack(st: State, message: string, env: Env)
    requires EnvValid(env) && ReachesFlows(st, message) && WantsGoBack(message)
    requires st.booking.step == Some(TicketsStep)
    ensures var o := Respond(st, message, env);
            && o.state == State(st.booking.(step := Some(DateStep), ticketCount := None, amount := None), st.support)
            && o.response == Answered(AskDateAgainText(st.booking.museumName), Some(AskDate),
                                      BackToDate(st.booking.museumId, st.booking.museumName))
  {
    RespondInBooking(st, message, env);
    TicketsTurnGoBack(st.booking, message, WantsBooking(message), env);
  }

  /** The same, for the booking branch alone. */
  lemma TicketsTurnGoBack(b: BookingContext, message: string, wantsBooking: bool, env: Env)
    requires EnvValid(env) && b.step == Some(TicketsStep) && WantsGoBack(message)
    ensures BookingTurn(b, message, wantsBooking, env)
            == (b.(step := Some(DateStep), ticketCount := None, amount := None),
                Answered(AskDateAgainText(b.museumName), Some(AskDate), BackToDate(b.museumId, b.museumName)))
  {
  }

  /** A message at the tickets step that holds no count, and does not go
      back, leaves the booking as it was and asks for the count again. */
  lemma TicketsCountMissing(st: State, message: string, env: Env)
    requires EnvValid(env) && ReachesFlows(st, message) && !WantsGoBack(message)
    requires st.booking.step == Some(TicketsStep) && ExtractTicketCount(message).None?
    ensures Respond(st, message, env)
            == Outcome(st, Answered(InvalidTicketCountText, Some(AskTickets), NoPayload), None)
  {
    RespondInBooking(st, message, env);
    TicketsTurnNoCount(st.booking, message, WantsBooking(message), env);
  }

  /** The same, for the booking branch alone. */
  lemma TicketsTurnNoCount(b: BookingContext, message: string, wantsBooking: bool, env: Env)
    requires EnvValid(env) && b.step == Some(TicketsStep) && !WantsGoBack(message)
    requires ExtractTicketCount(message).None?
    ensures BookingTurn(b, message, wantsBooking, env) == (b, Answered(InvalidTicketCountText, Some(AskTickets), NoPayload))
  {
  }

  /** Going back from the confirmation forgets the count and the amount but
      keeps the museum and the date. */
  lemma ConfirmGoBackKeepsMuseumAndDate(st: State, message: string, env: Env)
    requires EnvValid(env) && ReachesFlows(st, message) && !WantsBooking(message) && WantsGoBack(message)
    requires st.booking.step == Some(ConfirmStep)
    ensures var o := Respond(st, message, env);
            var b := o.state.booking;
            && b.step == Some(TicketsStep)
            && b.museumId == st.booking.museumId && b.museumName == st.booking.museumName
            && b.date == st.booking.date
            && b.ticketCount.None? && b.amount.None?
            && o.state.support == st.support && o.created.None?
            && o.response == Answered(AskTicketsAgainText(st.booking.museumName), Some(AskTickets),
                                      BackToTickets(st.booking.museumId, st.booking.museumName, st.booking.date))
  {
    RespondInBooking(st, message, env);
    assert BookingTurn(st.booking, message, WantsBooking(message), env) == ConfirmTurn(st.booking, message);
  }

  /** At the confirmation step, a message that neither goes back, confirms
      nor asks for a new booking leaves the context as it was and asks for a
      yes or a cancel again (a cancel word was handled before the flows). */
  lemma ConfirmOtherwiseStays(st: State, message: string, env: Env)
    requires EnvValid(env) && ReachesFlows(st, message) && !WantsBooking(message)
    requires !WantsGoBack(message) && !IsConfirmation(message)
    requires st.booking.step == Some(ConfirmStep)
    ensures Respond(st, message, env)
            == Outcome(st, Answered(AskYesOrCancelText, Some(ConfirmBooking), NoPayload), None)
  {
    RespondInBooking(st, message, env);
    ConfirmTurnStays(st.booking, message, WantsBooking(message), env);
  }

  /** The same, for the booking branch alone. */
  lemma ConfirmTurnStays(b: BookingContext, message: string, wantsBooking: bool, env: Env)
    requires EnvValid(env) && b.step == Some(ConfirmStep) && !wantsBooking
    requires !WantsGoBack(message) && !IsConfirmation(message) && !WantsCancel(message)
    ensures BookingTurn(b, message, wantsBooking, env)
            == (b, Answered(AskYesOrCancelText, Some(ConfirmBooking), NoPayload))
  {
  }

  /** A confirmation hands the collected booking to the payment step and
      clears the context. */
  lemma ConfirmationTriggersPayment(st: State, message: string, env: Env)
    requires EnvValid(env) && ReachesFlows(st, message) && !WantsBooking(message)
    requires !WantsGoBack(message) && IsConfirmation(message)
    requires st.booking.step == Some(ConfirmStep)
    ensures var o := Respond(st, message, env);
            && o.state == State(NoBooking, st.support)
            && o.response == Answered(RedirectingText, Some(TriggerPayment),
                                      PaymentRequest(st.booking.museumId, st.booking.date,
                                                     st.booking.ticketCount, st.booking.amount))
  {
    RespondInBooking(st, message, env);
    ConfirmTurnPays(st.booking, message, WantsBooking(message), env);
  }

  /** The same, for the booking branch alone. */
  lemma ConfirmTurnPays(b: BookingContext, message: string, wantsBooking: bool, env: Env)
    requires EnvValid(env) && b.step == Some(ConfirmStep) && !wantsBooking
    requires !WantsGoBack(message) && IsConfirmation(message)
    ensures BookingTurn(b, message, wantsBooking, env)
            == (NoBooking, Answered(RedirectingText, Some(TriggerPayment),
                                    PaymentRequest(b.museumId, b.date, b.ticketCount, b.amount)))
  {
  }

  /** The cancel branch of the confirmation step is never the one that
      answers: a cancellation during a booking is handled by the global
      cancellation first. */
  lemma ConfirmCancelIsGlobalCancel(st: State, message: string, env: Env)
    requires EnvValid(env) && message != "" && !IsGreeting(message) && WantsCancel(message)
    requires st.booking.step == Some(ConfirmStep)
    ensures Respond(st, message, env) == CancelTurn(st)
  {
  }

  /** Any message containing the letter "y" confirms a payment, since the
      one-letter keyword "y" is looked for anywhere in the message. */
  lemma AnyWordWithYConfirms(st: State, message: string, env: Env, i: int)
    requires EnvValid(env) && ReachesFlows(st, message) && !WantsBooking(message) && !WantsGoBack(message)
    requires st.booking.step == Some(ConfirmStep) && OccursAt(Normalize(message), "y", i)
    ensures Respond(st, message, env).response.nextAction == Some(TriggerPayment)
  {
    RespondInBooking(st, message, env);
    assert BookingTurn(st.booking, message, WantsBooking(message), env) == ConfirmTurn(st.booking, message);
    LetterYConfirms(message, i);
  }

  /** The first two messages of a booking: a request, then a museum. */
  lemma ConversationChoosesMuseum(env: Env, m1: string, m2: string, museum: Museum)
    requires EnvValid(env)
    requires m1 != "" && !IsGreeting(m1) && WantsBooking(m1)
    requires m2 != "" && !IsGreeting(m2) && !WantsCancel(m2) && MatchMuseum(m2, env.catalog) == Some(museum)
    ensures var o1 := Respond(State(NoBooking, NoSupport), m1, env);
            Respond(o1.state, m2, env).state
              == State(NoBooking.(museumId := Some(museum.id), museumName := Some(museum.name), step := Some(DateStep)),
                       NoSupport)
  {
    var s0 := State(NoBooking, NoSupport);
    BookingWordsRestartAtConfirm(s0, m1, env);
    var o1 := Respond(s0, m1, env);
    assert o1.state == State(NoBooking.(step := Some(MuseumStep)), NoSupport);
    ChoosingMuseumMovesToDate(o1.state, m2, env, museum);
  }

  /** The third message of a booking: a date. */
  lemma ConversationChoosesDate(env: Env, b: BookingContext, m3: string, date: Date)
    requires EnvValid(env) && b.step == Some(DateStep)
    requires m3 != "" && !IsGreeting(m3) && !WantsCancel(m3) && !WantsGoBack(m3)
    requires ParseDate(m3, env.today, env.nativeDate) == Some(date) && IsValidFutureDate(date, env.today)
    ensures Respond(State(b, NoSupport), m3, env).state == State(b.(date := Some(date), step := Some(TicketsStep)), NoSupport)
  {
    DateAcceptedIffNotPast(State(b, NoSupport), m3, env);
  }

  /** The fourth message of a booking: a ticket count. */
  lemma ConversationChoosesCount(env: Env, b: BookingContext, m4: string, museum: Museum, count: nat)
    requires EnvValid(env) && b.step == Some(TicketsStep) && b.museumId == Some(museum.id)
    requires m4 != "" && !IsGreeting(m4) && !WantsCancel(m4) && !WantsGoBack(m4)
    requires ExtractTicketCount(m4) == Some(count) && FindById(env.catalog, Some(museum.id)) == Some(museum)
    ensures Respond(State(b, NoSupport), m4, env).state
              == State(b.(ticketCount := Some(count), amount := Some(Amount(count, museum.price)), step := Some(ConfirmStep)),
                       NoSupport)
  {
    TicketsPriced(State(b, NoSupport), m4, env, count, museum);
  }

  /** The last message of a booking: the confirmation. */
  lemma ConversationConfirms(env: Env, b: BookingContext, m5: string)
    requires EnvValid(env) && b.step == Some(ConfirmStep)
    requires m5 != "" && !IsGreeting(m5) && !WantsCancel(m5) && !WantsGoBack(m5)
    requires !WantsBooking(m5) && IsConfirmation(m5)
    ensures Respond(State(b, NoSupport), m5, env)
              == Outcome(State(NoBooking, NoSupport),
                         Answered(RedirectingText, Some(TriggerPayment), PaymentRequest(b.museumId, b.date, b.ticketCount, b.amount)),
                         None)
  {
    ConfirmationTriggersPayment(State(b, NoSupport), m5, env);
  }

  /** The first three messages of a booking: a request, a museum and a date
      lead from a fresh session to the tickets step holding the chosen museum
      and date; `ConversationChoosesCount` and `ConversationConfirms` carry
      that state on to the payment hand-off. */
  lemma BookingReachesTickets(env: Env, m1: string, m2: string, m3: string, museum: Museum, date: Date)
    requires EnvValid(env)
    requires m1 != "" && !IsGreeting(m1) && WantsBooking(m1)
    requires m2 != "" && !IsGreeting(m2) && !WantsCancel(m2) && MatchMuseum(m2, env.catalog) == Some(museum)
    requires m3 != "" && !IsGreeting(m3) && !WantsCancel(m3) && !WantsGoBack(m3)
    requires ParseDate(m3, env.today, env.nativeDate) == Some(date) && IsValidFutureDate(date, env.today)
    ensures var o1 := Respond(State(NoBooking, NoSupport), m1, env);
            var o2 := Respond(o1.state, m2, env);
            var o3 := Respond(o2.state, m3, env);
            o3.state == State(BookingContext(Some(TicketsStep), Some(museum.id), Some(museum.name), Some(date), None, None),
                              NoSupport)
  {
    var b2 := NoBooking.(museumId := Some(museum.id), museumName := Some(museum.name), step := Some(DateStep));
    ConversationChoosesMuseum(env, m1, m2, museum);
    ConversationChoosesDate(env, b2, m3, date);
  }

  function NextSupportStep(s: Option<SupportStep>): Option<SupportStep>
  {
    match s
    case None => Some(NameStep)
    case Some(NameStep) => Some(EmailStep)
    case Some(EmailStep) => Some(IssueTypeStep)
    case Some(IssueTypeStep) => Some(DescriptionStep)
    case Some(DescriptionStep) => Some(PriorityStep)
    case Some(PriorityStep) => None
  }

  /** Each message of a support ticket, from the request that starts it,
      either moves the flow one step on or, for an e-mail address or a
      priority that is not accepted, leaves it where it is; the booking
      context is not touched. */
  lemma SupportAdvancesOneStep(st: State, message: string, env: Env)
    requires EnvValid(env) && ReachesFlows(st, message) && !WantsBooking(message)
    requires st.booking == NoBooking && (WantsSupportTicket(message) || st.support.step.Some?)
    ensures var o := Respond(st, message, env);
            && o.state.booking == NoBooking
            && (o.state.support.step == NextSupportStep(st.support.step) || o.state.support == st.support)
            && (o.state.support == st.support <==>
                  || (st.support.step == Some(EmailStep) && !IsEmail(message))
                  || (st.support.step == Some(PriorityStep) && Capitalize(message) !in Priorities))
  {
    RespondInSupport(st, message, env);
    var r := SupportTurn(st.support, message, env);
    if st.support.step.None? {
      assert r.0.step == Some(NameStep);
      return;
    }
    match st.support.step.value
    case NameStep => assert r.0.step == Some(EmailStep);
    case EmailStep =>
      if IsEmail(message) { assert r.0.step == Some(IssueTypeStep); } else { assert r.0 == st.support; }
    case IssueTypeStep => assert r.0.step == Some(DescriptionStep);
    case DescriptionStep => assert r.0.step == Some(PriorityStep);
    case PriorityStep =>
      if Capitalize(message) in Priorities { assert r.0 == NoSupport; } else { assert r.0 == st.support; }
  }

  /** A support request with no ticket under way starts one at the name
      step and asks for the name. */
  lemma SupportRequestAsksName(st: State, message: string, env: Env)
    requires EnvValid(env) && ReachesFlows(st, message) && !WantsBooking(message) && WantsSupportTicket(message)
    requires st.booking == NoBooking && st.support == NoSupport
    ensures Respond(st, message, env)
            == Outcome(State(NoBooking, NoSupport.(step := Some(NameStep))),
                       Answered(AskNameText, Some(AskSupportName), NoPayload), None)
  {
    RespondInSupport(st, message, env);
  }

  /** The last answer creates the ticket from the collected fields. */
  lemma TicketCreatedFromCollectedFields(st: State, message: string, env: Env)
    requires EnvValid(env) && ReachesFlows(st, message) && !WantsBooking(message)
    requires st.booking == NoBooking && st.support.step == Some(PriorityStep) && SupportValid(st.support)
    requires ToLower(message) in ["low", "medium", "high"]
    ensures var o := Respond(st, message, env);
            && o.state == State(NoBooking, NoSupport)
            && o.response.payload == TicketCreated(env.newTicketId)
            && o.created.Some?
            && o.created.value.name == st.support.name && o.created.value.email == st.support.email
            && o.created.value.issueType == st.support.issueType
            && o.created.value.description == st.support.description
            && o.created.value.priority in Priorities && o.created.value.status == "Open"
            && o.created.value.ticketId == env.newTicketId
            && o.created.value.email.Some? && IsEmail(o.created.value.email.value)
  {
    PriorityAcceptedIff(message);
  }

  /** The capitalised form of an all-lower-case ASCII word `w`. */
  function Capitalized(w: string): string
    requires w != []
  {
    [UpperChar(w[0])] + w[1..]
  }

  /** A character upper-cases to the upper case of a lower-case letter
      exactly when it lower-cases to that letter. */
  lemma SameLetter(c: char, x: char)
    requires 'a' <= x <= 'z'
    ensures UpperChar(c) == UpperChar(x) <==> LowerChar(c) == x
  {
  }

  /** Matching the capitalised message with a capitalised word is matching
      the lower-cased message with the word. */
  lemma {:induction false} CapitalizeMatches(m: string, w: string)
    requires w != [] && forall k :: 0 <= k < |w| ==> 'a' <= w[k] <= 'z'
    ensures Capitalize(m) == Capitalized(w) <==> ToLower(m) == w
  {
    if m != [] && |m| == |w| {
      var c, t, l := Capitalize(m), Capitalized(w), ToLower(m);
      SameLetter(m[0], w[0]);
      assert c[0] == UpperChar(m[0]) && t[0] == UpperChar(w[0]) && l[0] == LowerChar(m[0]);
      forall k | 1 <= k < |w|
        ensures c[k] == l[k] && t[k] == w[k]
      {
        assert c[k] == c[1..][k - 1] == LowerChar(m[k]);
        assert t[k] == w[1..][k - 1];
      }
      if c == t {
        assert forall k :: 0 <= k < |w| ==> l[k] == w[k];
      }
      if l == w {
        assert forall k :: 0 <= k < |w| ==> c[k] == t[k];
      }
    }
  }

  /** A priority is accepted exactly when the message is "low", "medium" or
      "high" in any mix of cases. */
  lemma PriorityAcceptedIff(m: string)
    ensures Capitalize(m) in Priorities <==> ToLower(m) in ["low", "medium", "high"]
  {
    CapitalizeMatches(m, "low");
    CapitalizeMatches(m, "medium");
    CapitalizeMatches(m, "high");
    assert Capitalized("low") == "Low";
    assert Capitalized("medium") == "Medium";
    assert Capitalized("high") == "High";
  }

  /** A part of the e-mail pattern: one or more characters, none of them
      white space or `@`. */
  predicate EmailPart(p: string)
  {
    |p| > 0 && forall j :: 0 <= j < |p| ==> EmailChar(p[j])
  }

  ghost predicate SplitsAsEmail(s: string, a: string, b: string, c: string)
  {
    s == a + "@" + b + "." + c && EmailPart(a) && EmailPart(b) && EmailPart(c)
  }

  /** `IsEmail` is the pattern `/^[^\s@]+@[^\s@]+\.[^\s@]+$/`: three parts
      joined by an `@` and a dot. */
  lemma EmailIsPattern(s: string)
    ensures IsEmail(s) <==> exists a, b, c :: SplitsAsEmail(s, a, b, c)
  {
    if IsEmail(s) {
      var i, k :| 0 < i < |s| && 0 < k < |s| && EmailAt(s, i, k);
      var a, b, c := s[..i], s[i + 1..k], s[k + 1..];
      assert s == a + "@" + b + "." + c by {
        assert s == s[..i] + [s[i]] + s[i + 1..k] + [s[k]] + s[k + 1..];
      }
      forall j | 0 <= j < |b| ensures EmailChar(b[j]) {
        assert b[j] == s[i + 1 + j];
      }
      forall j | 0 <= j < |c| ensures EmailChar(c[j]) {
        assert c[j] == s[k + 1 + j];
      }
      assert SplitsAsEmail(s, a, b, c);
    }
    if exists a, b, c :: SplitsAsEmail(s, a, b, c) {
      var a, b, c :| SplitsAsEmail(s, a, b, c);
      var i, k := |a|, |a| + 1 + |b|;
      assert s[i] == '@' && s[k] == '.';
      forall j | 0 <= j < |s| && j != i ensures EmailChar(s[j]) {
        if j < i {
          assert s[j] == a[j];
        } else if j < k {
          assert s[j] == b[j - i - 1];
        } else if j > k {
          assert s[j] == c[j - k - 1];
        }
      }
      assert EmailAt(s, i, k);
    }
  }
}
