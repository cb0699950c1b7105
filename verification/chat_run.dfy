/** A whole visit to the booking page: messages typed into the chat, stylist
    cards clicked and the chat closed, in any order. */
module ChatRun {
  import opened Base
  import opened Text
  import opened Records
  import opened Catalog
  import opened Chat

  /** What the visitor does. `Send` carries what the page reads from outside
      while that message is handled. */
  datatype Event = Send(input: string, env: Env) | Select(cardName: string) | Close

  /** `closeChat` hides the widget and resets `bookingState`, an object no
      handler reads; `bookingSystem` keeps its step and its fields. */
  function CloseChat(s: ChatState): ChatState {
    s
  }

  /** One event: the next state and the record handed to the store, if any. */
  function Apply(s: ChatState, e: Event): (ChatState, Option<Booking>) {
    match e
    case Send(input, env) =>
      var o := SendUserMessage(s, input, env);
      (o.state, o.emitted)
    case Select(name) => (SelectStylist(s, name), None)
    case Close => (CloseChat(s), None)
  }

  /** The record of one event, as a list of at most one. */
  function Emitted(e: Option<Booking>): seq<Booking> {
    if e.Some? then [e.value] else []
  }

  /** The state after `events` and the records handed to the store, in order. */
  function Run(s: ChatState, events: seq<Event>): (ChatState, seq<Booking>)
    decreases |events|
  {
    if |events| == 0 then (s, [])
    else
      var step := Apply(s, events[0]);
      var rest := Run(step.0, events[1..]);
      (rest.0, Emitted(step.1) + rest.1)
  }

  /** Clicking a stylist card never leaves the reachable states: it sets the
      stylist and nothing else. */
  lemma SelectKeepsWf(s: ChatState, name: string)
    requires Wf(s)
    ensures Wf(SelectStylist(s, name))
    ensures SelectStylist(s, name).step == s.step
    ensures SelectStylist(s, name).draft == s.draft.(stylist := Some(Lower(name)))
  {
  }

  lemma {:induction false} ApplyKeepsWf(s: ChatState, e: Event)
    requires Wf(s)
    ensures Wf(Apply(s, e).0)
    ensures Apply(s, e).1.Some? ==> ValidRecord(Apply(s, e).1.value)
  {
    match e
    case Send(input, env) =>
      var msg := Trim(input);
      if |msg| > 0 {
        ProcessPreservesWf(s, msg, env);
        DispatchEmits(s, Trim(Lower(msg)), msg, env);
      }
    case Select(name) =>
      SelectKeepsWf(s, name);
    case Close =>
  }

  predicate AllValid(records: seq<Booking>) {
    forall i | 0 <= i < |records| :: ValidRecord(records[i])
  }

  lemma AllValidAppend(a: seq<Booking>, b: seq<Booking>)
    requires AllValid(a) && AllValid(b)
    ensures AllValid(a + b)
  {
    forall i | 0 <= i < |a + b|
      ensures ValidRecord((a + b)[i])
    {
      if i < |a| {
        assert (a + b)[i] == a[i];
      } else {
        assert (a + b)[i] == b[i - |a|];
      }
    }
  }

  /** From any reachable state, every sequence of events stays within the
      reachable states, and every record handed to the store is a pending
      booking of a catalog service at a template slot with a valid email and
      phone. */
  lemma {:induction false} RunKeepsWf(s: ChatState, events: seq<Event>)
    requires Wf(s)
    ensures Wf(Run(s, events).0)
    ensures AllValid(Run(s, events).1)
    decreases |events|
  {
    if |events| > 0 {
      var step := Apply(s, events[0]);
      ApplyKeepsWf(s, events[0]);
      RunKeepsWf(step.0, events[1..]);
      AllValidAppend(Emitted(step.1), Run(step.0, events[1..]).1);
    }
  }

  /** A whole visit from the freshly loaded page keeps every guarantee. */
  lemma FromInitial(events: seq<Event>)
    ensures Wf(Run(Initial, events).0)
    ensures AllValid(Run(Initial, events).1)
  {
    InitialWf();
    RunKeepsWf(Initial, events);
  }

  /** Closing the chat does not restart the booking: the conversation goes on
      from the same step with the same fields. */
  lemma CloseResumes(s: ChatState, events: seq<Event>)
    ensures Run(s, [Close] + events) == Run(s, events)
  {
    assert ([Close] + events)[1..] == events;
    var rest := Run(s, events).1;
    assert [] + rest == rest;
  }

  lemma RunTwo(s: ChatState, a: Event, b: Event)
    ensures Run(s, [a, b]).1 == Emitted(Apply(s, a).1) + Emitted(Apply(Apply(s, a).0, b).1)
  {
    var evs := [a, b];
    var s1 := Apply(s, a).0;
    assert evs[1..] == [b];
    assert [b][1..] == [];
    var tail := Emitted(Apply(s1, b).1);
    assert Run(s1, [b]).1 == tail + [];
    assert tail + [] == tail;
  }

  /** A confirming message at step 4, as it reaches the page. */
  lemma {:induction false} YesConfirms(s: ChatState, input: string, env: Env)
    requires Wf(s) && s.step == 4
    requires var msg := Trim(input); |msg| > 0 && IsYes(Trim(Lower(msg)))
    ensures Apply(s, Send(input, env)).1 == if env.saveFails then None else Some(Confirmed(s.draft, env))
  {
    var msg := Trim(input);
    var lower := Trim(Lower(msg));
    assert SendUserMessage(s, input, env) == ProcessUserMessage(s, msg, env);
    assert ProcessUserMessage(s, msg, env) == Dispatch(s, lower, msg, env);
    assert Dispatch(s, lower, msg, env) == HandleConfirmation(s, lower, env);
  }

  /** A stylist card clicked after the time was chosen replaces the stylist
      of the pending booking: "yes" then saves the time that was checked
      against the previous stylist's bookings under the new stylist. */
  lemma {:induction false} SwitchAfterTimeChosen(s: ChatState, name: string, input: string, env: Env)
    requires Wf(s) && s.step == 4
    requires var msg := Trim(input); |msg| > 0 && IsYes(Trim(Lower(msg)))
    ensures Run(s, [Select(name), Send(input, env)]).1
      == if env.saveFails then [] else [Confirmed(s.draft.(stylist := Some(Lower(name))), env)]
    ensures !env.saveFails ==> Run(s, [Select(name), Send(input, env)]).1[0].time == s.draft.time.value
  {
    var s1 := SelectStylist(s, name);
    SelectKeepsWf(s, name);
    YesConfirms(s1, input, env);
    RunTwo(s, Select(name), Send(input, env));
  }
}
