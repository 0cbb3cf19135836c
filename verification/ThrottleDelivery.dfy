// Delivery happens outside the lock: the calls of Pitch and Flush race with
// what they have to hand over. Whatever the interleaving, everything admitted
// or summarised is in flight or was handed over exactly once.
module ThrottleDelivery {
  import opened Common
  import opened ThrottleSpec
  import opened ThrottleCounts

  datatype Message =
    | Suppressed(n: nat, at: Time)                                // "n events suppressed"
    | Passed(key: string, at: Time, repeats: Option<Repeats>)

  // What a call hands over once it has left the critical section.
  function MessagesOf(e: Event, d: Decision): seq<Message> {
    (if d.summary.Some? then [Suppressed(d.summary.value, e.now)] else [])
    + (if e.step.Offer? && d.outcome.Some? && d.outcome.value.Admitted?
       then [Passed(e.step.key, e.now, d.outcome.value.repeats)] else [])
  }

  // A handed over message and the call it comes from.
  datatype Delivery = Delivery(call: nat, message: Message)

  // `calls` holds what each call has still to hand over.
  datatype Sys = Sys(st: State, calls: seq<seq<Message>>, delivered: seq<Delivery>)

  datatype Action = Enter(e: Event) | Deliver(call: nat)

  function Act(l: Limits, s: Sys, a: Action): Sys {
    match a
    case Enter(e) =>
      var r := Next(l, s.st, e);
      s.(st := r.st, calls := s.calls + [MessagesOf(e, r.decision)])
    case Deliver(c) =>
      if c >= |s.calls| || s.calls[c] == [] then s
      else s.(calls := s.calls[c := s.calls[c][1..]], delivered := s.delivered + [Delivery(c, s.calls[c][0])])
  }

  function ActAll(l: Limits, actions: seq<Action>): Sys {
    if actions == [] then Sys(INITIAL, [], []) else Act(l, ActAll(l, Front(actions)), Last(actions))
  }

  // The critical sections of a run, in the order of the lock.
  function Entered(actions: seq<Action>): seq<Event> {
    if actions == [] then []
    else Entered(Front(actions)) + if Last(actions).Enter? then [Last(actions).e] else []
  }

  // What one call has handed over, in order.
  function DeliveredBy(delivered: seq<Delivery>, call: nat): seq<Message> {
    if delivered == [] then []
    else DeliveredBy(Front(delivered), call) + if Last(delivered).call == call then [Last(delivered).message] else []
  }

  lemma DeliveredByAppend(delivered: seq<Delivery>, d: Delivery, call: nat)
    ensures DeliveredBy(delivered + [d], call) == DeliveredBy(delivered, call) + if d.call == call then [d.message] else []
  {
    assert Front(delivered + [d]) == delivered;
  }

  lemma {:induction false} NobodyDeliveredYet(delivered: seq<Delivery>, call: nat)
    requires forall d :: d in delivered ==> d.call < call
    ensures DeliveredBy(delivered, call) == []
  {
    if delivered != [] {
      assert Last(delivered) in delivered;
      NobodyDeliveredYet(Front(delivered), call);
    }
  }

  ghost predicate Conserved(s: Sys, es: seq<Event>, ds: seq<Decision>) {
    && |s.calls| == |es| == |ds|
    && (forall d :: d in s.delivered ==> d.call < |s.calls|)
    && (forall c :: 0 <= c < |es| ==> DeliveredBy(s.delivered, c) + s.calls[c] == MessagesOf(es[c], ds[c]))
  }

  lemma EnterConserves(l: Limits, s: Sys, es: seq<Event>, ds: seq<Decision>, e: Event)
    requires Conserved(s, es, ds)
    ensures Conserved(Act(l, s, Enter(e)), es + [e], ds + [Next(l, s.st, e).decision])
  {
    NobodyDeliveredYet(s.delivered, |es|);
  }

  // Handing over moves a message from what a call holds to what it delivered.
  lemma HandOver(delivered: seq<Delivery>, held: seq<Message>, call: nat, c: nat, rest: seq<Message>)
    requires held != []
    ensures DeliveredBy(delivered + [Delivery(call, held[0])], c) + (if c == call then held[1..] else rest)
         == DeliveredBy(delivered, c) + if c == call then held else rest
  {
    DeliveredByAppend(delivered, Delivery(call, held[0]), c);
    assert held == [held[0]] + held[1..];
  }

  lemma DeliverConserves(l: Limits, s: Sys, es: seq<Event>, ds: seq<Decision>, call: nat)
    requires Conserved(s, es, ds)
    ensures Conserved(Act(l, s, Deliver(call)), es, ds)
  {
    if call < |s.calls| && s.calls[call] != [] {
      var held, s' := s.calls[call], Act(l, s, Deliver(call));
      forall c | 0 <= c < |es| ensures DeliveredBy(s'.delivered, c) + s'.calls[c] == MessagesOf(es[c], ds[c]) {
        HandOver(s.delivered, held, call, c, s.calls[c]);
      }
    }
  }

  // In every interleaving of critical sections and deliveries, what a call has
  // handed over followed by what it still holds is what its critical section
  // decided: nothing is lost, doubled or reordered, and a summary goes out
  // before the event that closed its window.
  lemma {:induction false} HandedOverExactlyOnce(l: Limits, actions: seq<Action>)
    ensures var s, es := ActAll(l, actions), Entered(actions);
      s.st == Run(l, es) && Conserved(s, es, Decisions(l, es))
  {
    if actions != [] {
      var front, a := Front(actions), Last(actions);
      var s, es := ActAll(l, front), Entered(front);
      HandedOverExactlyOnce(l, front);
      match a
      case Enter(e) =>
        EnterConserves(l, s, es, Decisions(l, es), e);
        assert Front(es + [e]) == es && Last(es + [e]) == e;
      case Deliver(c) =>
        assert Entered(actions) == es;
        DeliverConserves(l, s, es, Decisions(l, es), c);
    }
  }

  lemma {:induction false} DecisionAt(l: Limits, es: seq<Event>, c: nat)
    requires c < |es|
    ensures |Decisions(l, es)| == |es| && Decisions(l, es)[c] == LastDecision(l, es[..c + 1])
  {
    if c == |es| - 1 {
      assert es[..c + 1] == es;
      DecisionsLength(l, Front(es));
    } else {
      DecisionAt(l, Front(es), c);
      assert Front(es)[..c + 1] == es[..c + 1];
    }
  }

  lemma {:induction false} DecisionsLength(l: Limits, es: seq<Event>)
    ensures |Decisions(l, es)| == |es|
  {
    if es != [] {
      DecisionsLength(l, Front(es));
    }
  }

  // What goes out for a decision: the summary of the window that was closed,
  // then the event with its repeats, in either case only if there is one.
  ghost predicate GoesOut(messages: seq<Message>, now: Time, step: Step, d: Decision) {
    match (d.summary, d.outcome)
    case (Some(n), Some(Admitted(repeats))) =>
      step.Offer? && messages == [Suppressed(n, now), Passed(step.key, now, repeats)]
    case (None, Some(Admitted(repeats))) => step.Offer? && messages == [Passed(step.key, now, repeats)]
    case (Some(n), _) => messages == [Suppressed(n, now)]
    case (None, _) => messages == []
  }

  lemma MessagesGoOut(l: Limits, st: State, e: Event)
    ensures GoesOut(MessagesOf(e, Next(l, st, e).decision), e.now, e.step, Next(l, st, e).decision)
  {
  }

  // In every interleaving, what a call hands over and what it still holds are
  // together exactly what its decision sends out, in that order.
  lemma {:induction false} CallsHandOver(l: Limits, actions: seq<Action>, c: nat)
    requires c < |ActAll(l, actions).calls|
    ensures
      var s, es := ActAll(l, actions), Entered(actions);
      && c < |es|
      && GoesOut(DeliveredBy(s.delivered, c) + s.calls[c], es[c].now, es[c].step, LastDecision(l, es[..c + 1]))
  {
    var es := Entered(actions);
    HandedOverExactlyOnce(l, actions);
    DecisionAt(l, es, c);
    assert Front(es[..c + 1]) == es[..c] && Last(es[..c + 1]) == es[c];
    MessagesGoOut(l, Run(l, es[..c]), es[c]);
  }

  /******* In numbers *******/

  function InFlight(calls: seq<seq<Message>>): nat {
    if calls == [] then 0 else InFlight(Front(calls)) + |Last(calls)|
  }

  lemma {:induction false} InFlightUpdate(calls: seq<seq<Message>>, c: nat)
    requires c < |calls| && calls[c] != []
    ensures InFlight(calls[c := calls[c][1..]]) == InFlight(calls) - 1
  {
    var calls' := calls[c := calls[c][1..]];
    if c < |calls| - 1 {
      InFlightUpdate(Front(calls), c);
      assert Front(calls') == Front(calls)[c := calls[c][1..]];
    } else {
      assert Front(calls') == Front(calls);
    }
  }

  // What is in flight or handed over grows by what a critical section decides.
  lemma EnterCounts(l: Limits, s: Sys, e: Event)
    ensures var d := Next(l, s.st, e).decision;
      InFlight(Act(l, s, Enter(e)).calls) == InFlight(s.calls)
        + (if d.outcome.Some? && d.outcome.value.Admitted? then 1 else 0) + (if d.summary.Some? then 1 else 0)
  {
    var m := MessagesOf(e, Next(l, s.st, e).decision);
    assert Front(s.calls + [m]) == s.calls && Last(s.calls + [m]) == m;
  }

  lemma DeliverCounts(l: Limits, s: Sys, c: nat)
    ensures var s' := Act(l, s, Deliver(c));
      |s'.delivered| + InFlight(s'.calls) == |s.delivered| + InFlight(s.calls)
  {
    if c < |s.calls| && s.calls[c] != [] {
      InFlightUpdate(s.calls, c);
    }
  }

  lemma TallyAppend(l: Limits, es: seq<Event>, e: Event)
    ensures var c, c', d := Tally(l, es), Tally(l, es + [e]), Next(l, Run(l, es), e).decision;
      && c'.admitted == c.admitted + (if d.outcome.Some? && d.outcome.value.Admitted? then 1 else 0)
      && c'.summaries == c.summaries + (if d.summary.Some? then 1 else 0)
  {
    assert Front(es + [e]) == es && Last(es + [e]) == e;
  }

  // Everything admitted and every summary is in flight or handed over.
  lemma {:induction false} NothingIsLost(l: Limits, actions: seq<Action>)
    ensures var s, c := ActAll(l, actions), Tally(l, Entered(actions));
      |s.delivered| + InFlight(s.calls) == c.admitted + c.summaries
  {
    if actions != [] {
      var front, a := Front(actions), Last(actions);
      var s, es := ActAll(l, front), Entered(front);
      NothingIsLost(l, front);
      assert s.st == Run(l, es) by {
        HandedOverExactlyOnce(l, front);
      }
      match a
      case Enter(e) =>
        EnterCounts(l, s, e);
        TallyAppend(l, es, e);
      case Deliver(c) =>
        assert Entered(actions) == es;
        DeliverCounts(l, s, c);
    }
  }
}
