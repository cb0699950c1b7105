/** The chat widget's booking conversation (script.js): `processUserMessage`
    dispatches on `bookingSystem.bookingStep` (0 service, 1 date, 2 time,
    3 contact details, 4 confirmation) and each handler either fills one
    field of `currentBooking` and moves on, or leaves everything as it was.

    The parts of the browser the handlers consult are parameters: the date
    parser (`new Date(text)` with its weekday name and ISO date), the
    bookings in the local store, the fresh booking id and the clock. */
module Chat {
  import opened Base
  import opened Text
  import opened Records
  import opened TimeParse
  import opened Contact
  import opened Catalog

  /** `bookingSystem.currentBooking`; `None` is `null`. */
  datatype Draft = Draft(
    stylist: Option<string>,
    service: Option<string>,
    date: Option<string>,
    time: Option<string>,
    clientName: Option<string>,
    clientEmail: Option<string>,
    clientPhone: Option<string>)

  /** `currentBooking` together with `bookingStep`. */
  datatype ChatState = ChatState(draft: Draft, step: nat)

  /** What the handlers read from outside the widget while one message is
      processed. `parseDate` stands for `new Date(text)`: `None` when the
      result is an invalid date. `saveFails` says whether `saveBooking`
      throws, which it does when the GunDB write and then the local-storage
      fallback both throw. */
  datatype Env = Env(
    parseDate: string -> Option<Day>,
    stored: seq<Booking>,
    freshId: string,
    now: int,
    saveFails: bool)

  /** The state after a message, the record handed to the store (if any),
      and whether the handler ended by throwing. */
  datatype Outcome = Outcome(state: ChatState, emitted: Option<Booking>, threw: bool)

  function Quiet(s: ChatState): Outcome {
    Outcome(s, None, false)
  }

  /** A JavaScript falsy string field: `null` or "". */
  predicate Falsy(v: Option<string>) {
    v.None? || v.value == ""
  }

  /** The state the page starts in: nothing chosen, step 0. */
  const Initial: ChatState := ChatState(Draft(None, None, None, None, None, None, None), 0)

  // --------------------------------------------------------- step 0: service

  /** The message names the service by its key or its lowercased name. */
  predicate Mentions(msg: string, sv: Service) {
    Contains(msg, sv.key) || Contains(msg, Lower(sv.name))
  }

  /** Index of the first of `services[i..]` the message mentions. */
  function FirstMentionedFrom(services: seq<Service>, msg: string, i: nat): (r: Option<nat>)
    requires i <= |services|
    ensures r.Some? ==> i <= r.value < |services| && Mentions(msg, services[r.value])
                        && forall j | i <= j < r.value :: !Mentions(msg, services[j])
    ensures r.None? ==> forall j | i <= j < |services| :: !Mentions(msg, services[j])
    decreases |services| - i
  {
    if i == |services| then None
    else if Mentions(msg, services[i]) then Some(i)
    else FirstMentionedFrom(services, msg, i + 1)
  }

  /** `Object.keys(services).find(...)` over a catalog: the first service,
      in catalog order, that the message mentions, and none exactly when
      the message mentions none of them. */
  function FirstMentioned(services: seq<Service>, msg: string): (r: Option<Service>)
    ensures r.None? <==> forall j | 0 <= j < |services| :: !Mentions(msg, services[j])
    ensures r.Some? ==> exists i | 0 <= i < |services| ::
      && services[i] == r.value && Mentions(msg, r.value)
      && forall j | 0 <= j < i :: !Mentions(msg, services[j])
  {
    match FirstMentionedFrom(services, msg, 0)
    case None => None
    case Some(i) => Some(services[i])
  }

  /** The service `handleServiceSelection` picks from the salon's catalog. */
  function MatchService(msg: string): Option<Service> {
    FirstMentioned(Services, msg)
  }

  predicate IsServiceKey(k: string) {
    exists i | 0 <= i < |Services| :: Services[i].key == k
  }

  /** `handleServiceSelection`. The step is set before the date list is
      built, and building it reads the stylist's week, which throws for a
      stylist the catalog does not know; the state change stands. */
  function HandleService(s: ChatState, msg: string): Outcome {
    match MatchService(msg)
    case None => Quiet(s)
    case Some(sv) =>
      var known := s.draft.stylist.Some? && KnownStylist(s.draft.stylist.value);
      Outcome(ChatState(s.draft.(service := Some(sv.key)), 1), None, !known)
  }

  // ------------------------------------------------------------ step 1: date

  /** `handleDateSelection`: a parsable date with at least one free slot is
      recorded by its ISO date. */
  function HandleDate(s: ChatState, msg: string, env: Env): Outcome {
    match env.parseDate(msg)
    case None => Quiet(s)
    case Some(day) =>
      match AvailableTimes(day, s.draft.stylist, env.stored)
      case Threw => Outcome(s, None, true)
      case Ok(times) =>
        if |times| > 0 then Quiet(ChatState(s.draft.(date := Some(day.iso)), 2)) else Quiet(s)
  }

  // ------------------------------------------------------------ step 2: time

  /** `new Date(currentBooking.date)` read through the same date parser. An
      invalid date makes `toISOString` throw inside the availability lookup,
      which the caller reports as a throw. An absent date is read as `None`
      too, although `new Date(null)` is the epoch; that case never arises,
      because from step 2 on the date is always set (`Wf`). */
  function StoredDay(d: Draft, env: Env): Option<Day> {
    if d.date.Some? then env.parseDate(d.date.value) else None
  }

  /** `handleTimeSelection`: the parsed time must be among the slots free at
      this moment for the recorded date. */
  function HandleTime(s: ChatState, msg: string, env: Env): Outcome {
    match ParseTime(msg)
    case None => Quiet(s)
    case Some(t) =>
      match StoredDay(s.draft, env)
      case None => Outcome(s, None, true)
      case Some(day) =>
        match AvailableTimes(day, s.draft.stylist, env.stored)
        case Threw => Outcome(s, None, true)
        case Ok(times) =>
          if t in times then Quiet(ChatState(s.draft.(time := Some(t)), 3)) else Quiet(s)
  }

  // --------------------------------------------------------- step 3: contact

  /** `handleContactInfo`, on the message as typed (not lowercased): the first
      falsy one of name, email and phone is filled; email and phone only when
      they pass their pattern, and the phone moves on to confirmation. */
  function HandleContact(s: ChatState, msg: string): Outcome {
    var d := s.draft;
    if Falsy(d.clientName) then Quiet(ChatState(d.(clientName := Some(msg)), s.step))
    else if Falsy(d.clientEmail) then
      if IsValidEmail(msg) then Quiet(ChatState(d.(clientEmail := Some(msg)), s.step)) else Quiet(s)
    else if Falsy(d.clientPhone) then
      if IsValidPhone(msg) then Quiet(ChatState(d.(clientPhone := Some(msg)), 4)) else Quiet(s)
    else Quiet(s)
  }

  // ---------------------------------------------------- step 4: confirmation

  /** `resetBookingSystem`: the conversation is back where the page starts,
      except that the stylist chosen so far is kept, and from there it is
      reachable again whatever the draft held. */
  function Reset(d: Draft): (r: Draft)
    ensures r == Initial.draft.(stylist := d.stylist)
    ensures Wf(ChatState(r, 0))
  {
    Draft(d.stylist, None, None, None, None, None, None)
  }

  /** The record `handleConfirmation` saves: the draft's fields, a fresh id,
      status "pending" and the current time. A `null` field is written as "";
      in every state the conversation can reach all of them are set. */
  function Confirmed(d: Draft, env: Env): Booking {
    Booking(env.freshId, d.stylist.GetOr(""), d.service.GetOr(""), d.date.GetOr(""), d.time.GetOr(""),
            d.clientName.GetOr(""), d.clientEmail.GetOr(""), d.clientPhone.GetOr(""),
            "pending", env.now, env.now)
  }

  predicate IsYes(msg: string) {
    |msg| == 3 && msg[0] == 'y' && msg[1] == 'e' && msg[2] == 's'
  }

  predicate IsNo(msg: string) {
    |msg| == 2 && msg[0] == 'n' && msg[1] == 'o'
  }

  /** `handleConfirmation`: "yes" saves the booking and resets, "no" only
      resets, anything else asks again. A save that throws is caught: the
      widget apologises and nothing is saved or reset. */
  function HandleConfirmation(s: ChatState, msg: string, env: Env): Outcome {
    if IsYes(msg) then
      if env.saveFails then Quiet(s)
      else Outcome(ChatState(Reset(s.draft), 0), Some(Confirmed(s.draft, env)), false)
    else if IsNo(msg) then Quiet(ChatState(Reset(s.draft), 0))
    else Quiet(s)
  }

  // ---------------------------------------------------------------- dispatch

  /** `processUserMessage`: the handlers of steps 0, 1, 2 and 4 see the
      lowercased, trimmed message, the contact handler the message as given. */
  function ProcessUserMessage(s: ChatState, msg: string, env: Env): Outcome {
    Dispatch(s, Trim(Lower(msg)), msg, env)
  }

  /** The `switch` on `bookingStep`. Steps past 4 never occur; the
      general-inquiry branch for them only answers and changes nothing. */
  function Dispatch(s: ChatState, lower: string, msg: string, env: Env): Outcome {
    if s.step == 0 then HandleService(s, lower)
    else if s.step == 1 then HandleDate(s, lower, env)
    else if s.step == 2 then HandleTime(s, lower, env)
    else if s.step == 3 then HandleContact(s, msg)
    else if s.step == 4 then HandleConfirmation(s, lower, env)
    else Quiet(s)
  }

  /** `sendUserMessage`: the input box is trimmed and an empty message is
      dropped. */
  function SendUserMessage(s: ChatState, input: string, env: Env): Outcome {
    var msg := Trim(input);
    if |msg| == 0 then Quiet(s) else ProcessUserMessage(s, msg, env)
  }

  /** `selectStylist`: the lowercased name on the chosen card becomes the
      stylist; the step and every other field stay. */
  function SelectStylist(s: ChatState, cardName: string): ChatState {
    ChatState(s.draft.(stylist := Some(Lower(cardName))), s.step)
  }

  // -------------------------------------------------------------- invariant

  /** The states the conversation can reach: the step is one of 0..4 and the
      fields set are exactly those the steps so far have filled, each holding
      a value its handler accepted. */
  predicate Wf(s: ChatState) {
    var d := s.draft;
    && s.step <= 4
    && (s.step >= 1 <==> d.service.Some?)
    && (d.service.Some? ==> IsServiceKey(d.service.value))
    && (s.step >= 2 <==> d.date.Some?)
    && (s.step >= 2 ==> d.stylist.Some?)
    && (s.step >= 3 <==> d.time.Some?)
    && (d.time.Some? ==> IsSlot(d.time.value))
    && (s.step <= 2 ==> d.clientName.None? && d.clientEmail.None?)
    && (d.clientEmail.Some? ==> !Falsy(d.clientName) && IsValidEmail(d.clientEmail.value))
    && (s.step == 4 <==> d.clientPhone.Some?)
    && (d.clientPhone.Some? ==> d.clientEmail.Some? && IsValidPhone(d.clientPhone.value))
  }

  lemma InitialWf()
    ensures Wf(Initial)
  {
  }

  lemma {:induction false} ServiceStepWf(s: ChatState, msg: string)
    requires Wf(s) && s.step == 0
    ensures Wf(HandleService(s, msg).state)
  {
    var r := MatchService(msg);
    if r.Some? {
      var i :| 0 <= i < |Services| && Services[i] == r.value;
      assert Services[i].key == r.value.key;
    }
  }

  lemma {:induction false} DateStepWf(s: ChatState, msg: string, env: Env)
    requires Wf(s) && s.step == 1
    ensures Wf(HandleDate(s, msg, env).state)
  {
    var day := env.parseDate(msg);
    if day.Some? {
      var times := AvailableTimes(day.value, s.draft.stylist, env.stored);
      assert times.Ok? ==> s.draft.stylist.Some?;
    }
  }

  lemma {:induction false} TimeStepWf(s: ChatState, msg: string, env: Env)
    requires Wf(s) && s.step == 2
    ensures Wf(HandleTime(s, msg, env).state)
  {
    var t := ParseTime(msg);
    var day := StoredDay(s.draft, env);
    if t.Some? && day.Some? {
      var times := AvailableTimes(day.value, s.draft.stylist, env.stored);
      if times.Ok? && t.value in times.value {
        OffersAreSlots(day.value, s.draft.stylist, env.stored, t.value);
      }
    }
  }

  lemma {:induction false} ContactStepWf(s: ChatState, msg: string)
    requires Wf(s) && s.step == 3
    ensures Wf(HandleContact(s, msg).state)
  {
  }

  lemma {:induction false} ConfirmationStepWf(s: ChatState, msg: string, env: Env)
    requires Wf(s) && s.step == 4
    ensures Wf(HandleConfirmation(s, msg, env).state)
  {
  }

  lemma {:induction false} DispatchPreservesWf(s: ChatState, lower: string, msg: string, env: Env)
    requires Wf(s)
    ensures Wf(Dispatch(s, lower, msg, env).state)
  {
    if s.step == 0 {
      ServiceStepWf(s, lower);
    } else if s.step == 1 {
      DateStepWf(s, lower, env);
    } else if s.step == 2 {
      TimeStepWf(s, lower, env);
    } else if s.step == 3 {
      ContactStepWf(s, msg);
    } else {
      ConfirmationStepWf(s, lower, env);
    }
  }

  /** Every message keeps the conversation in a reachable state. */
  lemma ProcessPreservesWf(s: ChatState, msg: string, env: Env)
    requires Wf(s)
    ensures Wf(ProcessUserMessage(s, msg, env).state)
  {
    DispatchPreservesWf(s, Trim(Lower(msg)), msg, env);
  }

  // ------------------------------------------------------------ transitions

  /** The moves the conversation can make from `s` to `r`: stay, advance by
      one step filling exactly the field of the step it leaves (or, at step
      3, one contact field), or go back to 0 through `resetBookingSystem`
      from the confirmation step. */
  predicate Allowed(s: ChatState, r: ChatState) {
    || r == s
    || (s.step == 0 && r.step == 1 && r.draft == s.draft.(service := r.draft.service))
    || (s.step == 1 && r.step == 2 && r.draft == s.draft.(date := r.draft.date))
    || (s.step == 2 && r.step == 3 && r.draft == s.draft.(time := r.draft.time))
    || (s.step == 3 && r.step == 3 && r.draft == s.draft.(clientName := r.draft.clientName))
    || (s.step == 3 && r.step == 3 && r.draft == s.draft.(clientEmail := r.draft.clientEmail))
    || (s.step == 3 && r.step == 4 && r.draft == s.draft.(clientPhone := r.draft.clientPhone))
    || (s.step == 4 && r == ChatState(Reset(s.draft), 0))
  }

  lemma ServiceAllowed(s: ChatState, lower: string)
    requires s.step == 0
    ensures Allowed(s, HandleService(s, lower).state)
  {
  }

  lemma DateAllowed(s: ChatState, lower: string, env: Env)
    requires s.step == 1
    ensures Allowed(s, HandleDate(s, lower, env).state)
  {
  }

  lemma TimeAllowed(s: ChatState, lower: string, env: Env)
    requires s.step == 2
    ensures Allowed(s, HandleTime(s, lower, env).state)
  {
  }

  lemma ContactAllowed(s: ChatState, msg: string)
    requires s.step == 3
    ensures Allowed(s, HandleContact(s, msg).state)
  {
  }

  lemma ConfirmationAllowed(s: ChatState, lower: string, env: Env)
    requires s.step == 4
    ensures Allowed(s, HandleConfirmation(s, lower, env).state)
  {
  }

  lemma {:induction false} DispatchAllowed(s: ChatState, lower: string, msg: string, env: Env)
    requires Wf(s)
    ensures Allowed(s, Dispatch(s, lower, msg, env).state)
  {
    if s.step == 0 {
      ServiceAllowed(s, lower);
    } else if s.step == 1 {
      DateAllowed(s, lower, env);
    } else if s.step == 2 {
      TimeAllowed(s, lower, env);
    } else if s.step == 3 {
      ContactAllowed(s, msg);
    } else {
      ConfirmationAllowed(s, lower, env);
    }
  }

  /** `bookingStep` stays within 0..4 and moves only as `Allowed` says: in
      particular it returns to 0 only through `resetBookingSystem`, and a
      rejected message at steps 0, 1, 2 and 4 changes nothing. */
  lemma StepDiscipline(s: ChatState, msg: string, env: Env)
    requires Wf(s)
    ensures ProcessUserMessage(s, msg, env).state.step <= 4
    ensures Allowed(s, ProcessUserMessage(s, msg, env).state)
  {
    DispatchAllowed(s, Trim(Lower(msg)), msg, env);
  }

  /** Step 0 moves on exactly when the lowercased message mentions a service,
      and then records the first one in catalog order. The date list built
      next throws for a stylist the catalog does not know, after the state
      has changed. */
  lemma ServiceStep(s: ChatState, lower: string)
    ensures var o := HandleService(s, lower);
      && (MatchService(lower).None? ==> o.state == s && !o.threw)
      && (MatchService(lower).Some? ==>
            o.state == ChatState(s.draft.(service := Some(MatchService(lower).value.key)), 1))
      && (o.threw <==> MatchService(lower).Some? && !(s.draft.stylist.Some? && KnownStylist(s.draft.stylist.value)))
      && o.emitted.None?
  {
  }

  /** Step 1 moves on exactly when the date parses and the stylist has a free
      slot that day; the date is then recorded by its ISO text. */
  lemma DateStep(s: ChatState, lower: string, env: Env)
    requires s.step == 1
    ensures var day := env.parseDate(lower);
      var o := HandleDate(s, lower, env);
      && (o.state.step == 2 <==>
            day.Some? && AvailableTimes(day.value, s.draft.stylist, env.stored).Ok?
            && |AvailableTimes(day.value, s.draft.stylist, env.stored).value| > 0)
      && (o.state.step == 2 ==> o.state.draft == s.draft.(date := Some(day.value.iso)))
      && (o.state.step != 2 ==> o.state == s)
      && o.emitted.None?
  {
  }

  /** Step 2 moves on exactly when `parseTime` succeeds and its result is
      among the slots free at that moment for the recorded date and the
      current stylist. */
  lemma TimeStep(s: ChatState, lower: string, env: Env)
    requires s.step == 2
    ensures var t := ParseTime(lower);
      var day := StoredDay(s.draft, env);
      var o := HandleTime(s, lower, env);
      && (o.state.step == 3 <==>
            && t.Some? && day.Some?
            && AvailableTimes(day.value, s.draft.stylist, env.stored).Ok?
            && t.value in AvailableTimes(day.value, s.draft.stylist, env.stored).value)
      && (o.state.step == 3 ==> o.state.draft == s.draft.(time := t))
      && (o.state.step != 3 ==> o.state == s)
      && o.emitted.None?
  {
  }

  /** Name, then email, then phone: a field is filled only once every field
      before it is; an email or phone that fails its pattern changes
      nothing; only an accepted phone leads to confirmation. */
  lemma {:induction false} ContactOrder(s: ChatState, msg: string)
    requires Wf(s) && s.step == 3
    ensures var r := HandleContact(s, msg).state;
      && (r.draft.clientName != s.draft.clientName ==> Falsy(s.draft.clientName) && r.draft.clientName == Some(msg))
      && (r.draft.clientEmail != s.draft.clientEmail ==>
            !Falsy(s.draft.clientName) && IsValidEmail(msg) && r.draft.clientEmail == Some(msg))
      && (r.draft.clientPhone != s.draft.clientPhone ==>
            s.draft.clientEmail.Some? && IsValidPhone(msg) && r.draft.clientPhone == Some(msg))
      && (r.step == 4 <==> !Falsy(s.draft.clientName) && s.draft.clientEmail.Some? && IsValidPhone(msg))
      && (!Falsy(s.draft.clientName) && Falsy(s.draft.clientEmail) && !IsValidEmail(msg) ==> r == s)
      && (!Falsy(s.draft.clientEmail) && !IsValidPhone(msg) ==> r == s)
      && r.draft == s.draft.(clientName := r.draft.clientName, clientEmail := r.draft.clientEmail,
                             clientPhone := r.draft.clientPhone)
      && r.step in {3, 4}
      && (Falsy(s.draft.clientName) ==> r.draft.clientName == Some(msg) && r.step == 3)
      && (!Falsy(s.draft.clientName) && Falsy(s.draft.clientEmail) && IsValidEmail(msg) ==>
            r.draft.clientEmail == Some(msg) && r.step == 3)
      && (r.step == 4 ==> r.draft.clientPhone == Some(msg))
      && HandleContact(s, msg).emitted.None?
  {
    if s.draft.clientEmail.Some? {
      assert !Falsy(s.draft.clientEmail);
    }
  }

  /** "yes" at confirmation hands exactly one record to the store: the
      collected fields, the fresh id, status "pending"; every field is set,
      the email and phone passed their patterns and the time is a template
      slot. When the save throws, "yes" changes nothing. "no" only resets,
      and anything else changes nothing. */
  lemma {:induction false} Confirmation(s: ChatState, lower: string, env: Env)
    requires Wf(s) && s.step == 4
    ensures var o := HandleConfirmation(s, lower, env);
      && (o.emitted.Some? <==> IsYes(lower) && !env.saveFails)
      && ((IsYes(lower) && !env.saveFails) || IsNo(lower) ==> o.state == ChatState(Reset(s.draft), 0))
      && (IsYes(lower) && env.saveFails ==> o.state == s && !o.threw)
      && (!IsYes(lower) && !IsNo(lower) ==> o.state == s)
      && (o.emitted.Some? ==>
            var b := o.emitted.value;
            && b.id == env.freshId && b.status == "pending" && b.created == env.now && b.updatedAt == env.now
            && s.draft.stylist == Some(b.stylist) && s.draft.service == Some(b.service)
            && s.draft.date == Some(b.date) && s.draft.time == Some(b.time)
            && s.draft.clientName == Some(b.clientName) && s.draft.clientEmail == Some(b.clientEmail)
            && s.draft.clientPhone == Some(b.clientPhone)
            && ValidRecord(b))
  {
  }

  /** What every record the conversation hands to the store satisfies. */
  predicate ValidRecord(b: Booking) {
    && b.status == "pending" && IsServiceKey(b.service) && IsSlot(b.time) && b.clientName != ""
    && IsValidEmail(b.clientEmail) && IsValidPhone(b.clientPhone)
  }

  /** Only the confirmation step ever hands a record to the store. */
  lemma DispatchEmits(s: ChatState, lower: string, msg: string, env: Env)
    requires Wf(s)
    ensures var o := Dispatch(s, lower, msg, env);
      && (o.emitted.Some? <==> s.step == 4 && IsYes(lower) && !env.saveFails)
      && (o.emitted.Some? ==> ValidRecord(o.emitted.value) && o.emitted.value.id == env.freshId)
  {
    if s.step == 0 {
      ServiceStep(s, lower);
    } else if s.step == 1 {
      DateStep(s, lower, env);
    } else if s.step == 2 {
      TimeStep(s, lower, env);
    } else if s.step == 3 {
      ContactOrder(s, msg);
    } else {
      Confirmation(s, lower, env);
    }
  }

  /** A time typed exactly as a free slot is listed is accepted at step 2. */
  lemma {:induction false} TypingOfferedSlotAdvances(s: ChatState, t: string, env: Env, day: Day)
    requires s.step == 2 && StoredDay(s.draft, env) == Some(day)
    requires AvailableTimes(day, s.draft.stylist, env.stored).Ok?
    requires t in AvailableTimes(day, s.draft.stylist, env.stored).value
    ensures ProcessUserMessage(s, t, env).state == ChatState(s.draft.(time := Some(t)), 3)
  {
    OffersAreSlots(day, s.draft.stylist, env.stored, t);
    SlotIsClockText(t);
    ClockTextIsLowerTrimmed(t);
    ClockRoundTrip(t);
    TimeStep(s, t, env);
  }

  /** "HH:MM" text is unchanged by lowercasing and trimming. */
  lemma ClockTextIsLowerTrimmed(t: string)
    requires IsClockText(t)
    ensures Trim(Lower(t)) == t
  {
    assert forall i | 0 <= i < |t| :: !('A' <= t[i] <= 'Z') by {
      assert forall i | 0 <= i < 2 :: t[i] == t[..2][i];
      assert forall i | 3 <= i < 5 :: t[i] == t[3..][i - 3];
    }
    LowerKeeps(t);
    assert t[0] == t[..2][0];
    DigitIsNotSpace(t[0]);
    assert t[4] == t[3..][1];
    DigitIsNotSpace(t[4]);
    TrimKeeps(t);
  }

  /** Every slot of the week is written "HH:MM". */
  lemma SlotIsClockText(t: string)
    requires IsSlot(t)
    ensures IsClockText(t)
  {
  }

  /** Step 2 checks the typed time against the list for the stored ISO date
      read back through `new Date`, not against the list shown at step 1.
      When that reading falls on another weekday (a date-only ISO text is
      read as midnight UTC, the weekday in local time), a Saturday slot that
      was listed, such as "09:00", is refused, and a Friday slot that was
      not, such as "17:00", is taken. */
  lemma {:induction false} WeekdayReread(s: ChatState, lower: string, env: Env, iso: string,
                                         listed: string, unlisted: string)
    requires s.step == 1 && s.draft.stylist == Some("natasha") && env.stored == []
    requires env.parseDate(lower) == Some(Day(Saturday, iso))
    requires env.parseDate(iso) == Some(Day(Friday, iso))
    requires listed in SaturdayHours && listed !in LongDay
    requires unlisted in LongDay && unlisted !in SaturdayHours
    ensures var s2 := HandleDate(s, lower, env).state;
      && s2.step == 2
      && listed in AvailableTimes(Day(Saturday, iso), s.draft.stylist, env.stored).value
      && HandleTime(s2, listed, env).state == s2
      && unlisted !in AvailableTimes(Day(Saturday, iso), s.draft.stylist, env.stored).value
      && HandleTime(s2, unlisted, env).state == ChatState(s2.draft.(time := Some(unlisted)), 3)
  {
    var sat := Day(Saturday, iso);
    var fri := Day(Friday, iso);
    EmptyStoreOffersWeek(sat, listed);
    EmptyStoreOffersWeek(sat, unlisted);
    EmptyStoreOffersWeek(fri, listed);
    EmptyStoreOffersWeek(fri, unlisted);
    DateStep(s, lower, env);
    var s2 := HandleDate(s, lower, env).state;
    assert StoredDay(s2.draft, env) == Some(fri);
    TimeAgainstList(s2, listed, env, fri);
    TimeAgainstList(s2, unlisted, env, fri);
  }

  /** A slot typed at step 2 is judged by the list for the stored date as
      it reads back. */
  lemma TimeAgainstList(s: ChatState, t: string, env: Env, day: Day)
    requires s.step == 2 && StoredDay(s.draft, env) == Some(day) && IsSlot(t)
    requires AvailableTimes(day, s.draft.stylist, env.stored).Ok?
    ensures t in AvailableTimes(day, s.draft.stylist, env.stored).value
      ==> HandleTime(s, t, env).state == ChatState(s.draft.(time := Some(t)), 3)
    ensures t !in AvailableTimes(day, s.draft.stylist, env.stored).value
      ==> HandleTime(s, t, env).state == s
  {
    SlotIsClockText(t);
    ClockRoundTrip(t);
    TimeStep(s, t, env);
  }

  /** With nothing stored, a known stylist is offered the whole day. */
  lemma EmptyStoreOffersWeek(day: Day, t: string)
    ensures AvailableTimes(day, Some("natasha"), []).Ok?
    ensures t in AvailableTimes(day, Some("natasha"), []).value <==> t in Week(day.weekday).GetOr([])
  {
    assert !Taken([], day.iso, t, "natasha");
  }
}
