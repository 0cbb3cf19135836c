// What cannot be seen in the pitched flips of a condition: ignored and missing
// states, other conditions, other objects, and the sequence numbers of callbacks.
module Erasure {
  import opened Common
  import opened TrackerSpec
  import opened Slots
  import opened Invariant
  import opened Detector

  /******* What does not count can be erased *******/

  // What is shown decides: without minDuration always, with minDuration under
  // prompt timers, whatever the callbacks were.
  lemma {:induction false} SameObservationsSameFlips(spec: Spec, es1: seq<Event>, es2: seq<Event>,
                                                     key: string, typ: string, end: Time)
    requires IsWatched(typ) && Observations(spec, es1, key, typ) == Observations(spec, es2, key, typ)
    requires spec.minDuration > 0 ==> PromptUntil(spec, es1, end) && PromptUntil(spec, es2, end)
    ensures FlipsOf(spec, es1, key, typ) == FlipsOf(spec, es2, key, typ)
  {
    if spec.minDuration > 0 {
      TrackerRefinesDetector(spec, es1, key, typ, end);
      TrackerRefinesDetector(spec, es2, key, typ, end);
    } else {
      ImmediateFlipsAreChanges(spec, es1, key, typ);
      ImmediateFlipsAreChanges(spec, es2, key, typ);
    }
  }

  // Steps that show nothing of a condition, such as an update in which it is
  // ignored or missing, can be inserted or deleted without changing what is
  // shown.
  lemma {:induction false} ErasedStepShowsNothing(spec: Spec, es: seq<Event>, e: Event, rest: seq<Event>,
                                                  key: string, typ: string)
    requires !e.step.Close? && ObsOf(spec, e, key, typ) == []
    ensures Observations(spec, es + [e] + rest, key, typ) == Observations(spec, es + rest, key, typ)
    ensures ClosedBy(es + [e] + rest) <==> ClosedBy(es + rest)
    decreases |rest|
  {
    if rest == [] {
      assert es + [e] + rest == es + [e] && es + rest == es;
      ObservationsAppend(spec, es, e, key, typ);
    } else {
      ErasedStepShowsNothing(spec, es, e, Front(rest), key, typ);
      assert es + [e] + rest == es + [e] + Front(rest) + [Last(rest)];
      assert es + rest == es + Front(rest) + [Last(rest)];
      ObservationsAppend(spec, es + [e] + Front(rest), Last(rest), key, typ);
      ObservationsAppend(spec, es + Front(rest), Last(rest), key, typ);
    }
  }

  // Inserting or deleting such a step changes no flip of the condition and no
  // time of one. The two runs have the callbacks that each of them arms: an
  // erased step may change their sequence numbers.
  lemma {:induction false} ErasedStepChangesNothing(spec: Spec, es1: seq<Event>, es2: seq<Event>,
                                                    a: seq<Event>, e: Event, b: seq<Event>,
                                                    key: string, typ: string, end: Time)
    requires IsWatched(typ) && !e.step.Close? && ObsOf(spec, e, key, typ) == []
    requires Inputs(es1) == a + [e] + b && Inputs(es2) == a + b
    requires spec.minDuration > 0 ==> PromptUntil(spec, es1, end) && PromptUntil(spec, es2, end)
    ensures FlipsOf(spec, es1, key, typ) == FlipsOf(spec, es2, key, typ)
  {
    ErasedStepShowsNothing(spec, a, e, b, key, typ);
    InputsShowAll(spec, es1, key, typ);
    InputsShowAll(spec, es2, key, typ);
    SameObservationsSameFlips(spec, es1, es2, key, typ, end);
  }

  /******* Without minDuration *******/

  // What the first state of a lifetime is compared with: itself when the old
  // object did not have the condition, else its status there when that state
  // counts or is True, else nothing.
  function FirstCompared(spec: Spec, before: Option<Cond>, first: Cond): string {
    match before
    case None => first.status
    case Some(c) => if Counts(spec, c) || c.status == "True" then c.status else ""
  }

  // The status the last observation is compared with: that of the observation
  // before it, unless it is the first of its lifetime.
  function PreviousStatus(spec: Spec, obs: seq<Obs>): string
    requires obs != [] && Last(obs).Seen?
  {
    if |obs| > 1 && Last(Front(obs)).Seen? then Last(Front(obs)).state.status
    else FirstCompared(spec, Last(obs).before, Last(obs).state)
  }

  predicate Changed(spec: Spec, obs: seq<Obs>)
    requires obs != []
  {
    Last(obs).Seen?
    && var prev, status := PreviousStatus(spec, obs), Last(obs).state.status;
       status != prev && !(status == "True" && prev == "")
  }

  function Changes(spec: Spec, obs: seq<Obs>): seq<TimedFlip> {
    if obs == [] then []
    else Changes(spec, Front(obs)) + if Changed(spec, obs) then [TimedFlip(Last(obs).now, Last(obs).state)] else []
  }

  // What is reported is the last state that was not ignored.
  ghost predicate ReportsLast(s: Slot, obs: seq<Obs>) {
    && s.since.None?
    && (s.reported.Some? <==> obs != [] && Last(obs).Seen?)
    && (s.reported.Some? ==> s.reported.value.status == Last(obs).state.status)
  }

  lemma ImmediateStep(spec: Spec, s: Slot, now: Time, input: Input, obs: seq<Obs>, o: seq<Obs>)
    requires spec.minDuration <= 0 && ReportsLast(s, obs) && Shows(input, now, o)
    ensures
      var out := NextSlot(spec, s, now, input);
      ReportsLast(out.slot, obs + o) && Changes(spec, obs + o) == Changes(spec, obs) + Stamp(now, out.flips)
  {
    if o != [] {
      assert Front(obs + o) == obs && Last(obs + o) == o[0];
    } else {
      assert obs + o == obs;
    }
  }

  // Without minDuration the flips are the changes of status among the states
  // that are not ignored, in every run and under any callbacks.
  lemma {:induction false} ImmediateFlipsAreChanges(spec: Spec, es: seq<Event>, key: string, typ: string)
    requires spec.minDuration <= 0 && IsWatched(typ)
    ensures FlipsOf(spec, es, key, typ) == Changes(spec, Observations(spec, es, key, typ))
    ensures ReportsLast(SlotAt(Run(spec, es), key, typ), Observations(spec, es, key, typ))
  {
    if es != [] {
      ImmediateFlipsAreChanges(spec, Front(es), key, typ);
      var slot, input, o, out := ConditionStep(spec, es, key, typ);
      ImmediateStep(spec, slot, Last(es).now, input, Observations(spec, Front(es), key, typ), o);
    }
  }
}
