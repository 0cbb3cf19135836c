// A reference detector of lasting failures without timers, sequence numbers or
// deadlines to re-arm: it looks at one condition of one object, at its states
// that are not ignored, and checks at each of them whether a failure has been
// lasting for minDuration by then. Under prompt timers the tracker pitches
// exactly what the detector finds.
module Detector {
  import opened Common
  import opened TrackerSpec
  import opened Slots
  import opened Invariant

  // What the detector is told: a state that is not ignored (with the state of
  // the same condition in the old object), or that the object is gone.
  datatype Obs = Seen(now: Time, before: Option<Cond>, state: Cond) | Gone(now: Time)

  datatype Detector =
    | Unseen
    | Settled(reported: string)                          // the last state is the reported one
    | Lasting(reported: string, since: Time, last: Cond) // a failure that is not reported yet

  datatype Verdict = Verdict(d: Detector, flips: seq<TimedFlip>)

  // The lazy check: a failure that lasted minDuration by `now` became a flip
  // when it had, with the last state seen.
  function Elapse(minDuration: Time, d: Detector, now: Time): Verdict {
    if d.Lasting? && d.since + minDuration <= now then
      Verdict(Settled(d.last.status), [TimedFlip(d.since + minDuration, d.last)])
    else
      Verdict(d, [])
  }

  // The next state after the check. A first state is compared with True if the
  // old object was True, and with nothing otherwise.
  function Judge(d: Detector, now: Time, before: Option<Cond>, c: Cond): Verdict {
    var reported := if !d.Unseen? then d.reported
                    else if before.Some? && before.value.status == "True" then "True" else "";
    if c.status == reported then Verdict(Settled(reported), [])
    else if c.status == "True" then Verdict(Settled("True"), if reported == "" then [] else [TimedFlip(now, c)])
    else if d.Lasting? then Verdict(d.(last := c), [])
    else Verdict(Lasting(reported, now, c), [])
  }

  function DetectNext(minDuration: Time, d: Detector, o: Obs): Verdict {
    var e := Elapse(minDuration, d, o.now);
    match o
    case Gone(_) => Verdict(Unseen, e.flips)
    case Seen(now, before, state) =>
      var j := Judge(e.d, now, before, state);
      Verdict(j.d, e.flips + j.flips)
  }

  function Detect(minDuration: Time, obs: seq<Obs>): Verdict {
    if obs == [] then Verdict(Unseen, [])
    else
      var v := Detect(minDuration, Front(obs));
      var w := DetectNext(minDuration, v.d, Last(obs));
      Verdict(w.d, v.flips + w.flips)
  }

  // All flips the detector finds in obs up to time `end`.
  function DetectedFlips(minDuration: Time, obs: seq<Obs>, end: Time): seq<TimedFlip> {
    var v := Detect(minDuration, obs);
    v.flips + Elapse(minDuration, v.d, end).flips
  }

  // The detector after the first n states.
  function DetectUpTo(minDuration: Time, obs: seq<Obs>, n: nat): Verdict
    requires n <= |obs|
  {
    if n == 0 then Verdict(Unseen, [])
    else
      var v := DetectUpTo(minDuration, obs, n - 1);
      var w := DetectNext(minDuration, v.d, obs[n - 1]);
      Verdict(w.d, v.flips + w.flips)
  }

  lemma {:induction false} DetectUpToFront(minDuration: Time, obs: seq<Obs>, n: nat)
    requires n < |obs|
    ensures DetectUpTo(minDuration, obs, n) == DetectUpTo(minDuration, Front(obs), n)
  {
    if n > 0 {
      DetectUpToFront(minDuration, obs, n - 1);
      assert Front(obs)[n - 1] == obs[n - 1];
    }
  }

  lemma {:induction false} DetectUpToAll(minDuration: Time, obs: seq<Obs>)
    ensures DetectUpTo(minDuration, obs, |obs|) == Detect(minDuration, obs)
  {
    if obs != [] {
      DetectUpToAll(minDuration, Front(obs));
      DetectUpToFront(minDuration, obs, |obs| - 1);
    }
  }

  /******* What a run shows the detector *******/

  predicate ClosedBy(es: seq<Event>) {
    es != [] && (Last(es).step.Close? || ClosedBy(Front(es)))
  }

  // A state counts unless its status is ignored, or it has a reason that is.
  predicate Counts(spec: Spec, c: Cond) {
    c.status !in spec.ignoreStatuses && (c.reason == "" || c.reason !in spec.ignoreReasons)
  }

  function ObsOf(spec: Spec, e: Event, key: string, typ: string): seq<Obs> {
    match e.step
    case Update(oldU, newU) =>
      if newU.key == key && typ in newU.conds && Counts(spec, newU.conds[typ])
      then [Seen(e.now, Get(oldU.conds, typ), newU.conds[typ])] else []
    case Fire(_) => []
    case Forget(k) => if k == key then [Gone(e.now)] else []
    case Close => [Gone(e.now)]
  }

  function Observations(spec: Spec, es: seq<Event>, key: string, typ: string): seq<Obs> {
    if es == [] then []
    else
      var front := Observations(spec, Front(es), key, typ);
      if ClosedBy(Front(es)) then front else front + ObsOf(spec, Last(es), key, typ)
  }

  // The steps of a run that come from outside: all but the callbacks.
  function Inputs(es: seq<Event>): seq<Event> {
    if es == [] then []
    else Inputs(Front(es)) + if Last(es).step.Fire? then [] else [Last(es)]
  }

  lemma InputsAppend(es: seq<Event>, e: Event)
    ensures Inputs(es + [e]) == Inputs(es) + if e.step.Fire? then [] else [e]
  {
    assert Front(es + [e]) == es && Last(es + [e]) == e;
  }

  lemma ObservationsAppend(spec: Spec, es: seq<Event>, e: Event, key: string, typ: string)
    ensures Observations(spec, es + [e], key, typ) ==
      Observations(spec, es, key, typ) + if ClosedBy(es) then [] else ObsOf(spec, e, key, typ)
    ensures ClosedBy(es + [e]) <==> e.step.Close? || ClosedBy(es)
  {
    assert Front(es + [e]) == es && Last(es + [e]) == e;
  }

  // `inputs` shows what es shows.
  ghost predicate ShowsSame(spec: Spec, inputs: seq<Event>, es: seq<Event>, key: string, typ: string) {
    && Observations(spec, inputs, key, typ) == Observations(spec, es, key, typ)
    && (ClosedBy(inputs) <==> ClosedBy(es))
  }

  lemma CallbackShowsNothing(spec: Spec, inputs: seq<Event>, es: seq<Event>, e: Event, key: string, typ: string)
    requires ShowsSame(spec, inputs, es, key, typ) && e.step.Fire?
    ensures ShowsSame(spec, inputs, es + [e], key, typ)
  {
    ObservationsAppend(spec, es, e, key, typ);
  }

  lemma InputShowsSame(spec: Spec, inputs: seq<Event>, es: seq<Event>, e: Event, key: string, typ: string)
    requires ShowsSame(spec, inputs, es, key, typ)
    ensures ShowsSame(spec, inputs + [e], es + [e], key, typ)
  {
    ObservationsAppend(spec, es, e, key, typ);
    ObservationsAppend(spec, inputs, e, key, typ);
  }

  // Callbacks show nothing.
  lemma {:induction false} InputsShowAll(spec: Spec, es: seq<Event>, key: string, typ: string)
    ensures ShowsSame(spec, Inputs(es), es, key, typ)
  {
    if es != [] {
      var front, e := Front(es), Last(es);
      InputsShowAll(spec, front, key, typ);
      assert es == front + [e];
      if e.step.Fire? {
        assert Inputs(es) == Inputs(front);
        CallbackShowsNothing(spec, Inputs(front), front, e, key, typ);
      } else {
        InputShowsSame(spec, Inputs(front), front, e, key, typ);
      }
    }
  }

  /******* Prompt timers *******/

  // Every callback that is due has run before anything else happens, and none
  // is late. Callbacks that were stopped or are not due may run as they like.
  ghost predicate Settles(s: Sys, now: Time) {
    forall cb :: cb in s.live ==> now < cb.at
  }

  ghost predicate PromptStep(s: Sys, e: Event) {
    if e.step.Fire? then forall cb :: cb in s.live ==> e.now <= cb.at else Settles(s, e.now)
  }

  ghost predicate Prompt(spec: Spec, es: seq<Event>) {
    es == [] || (Prompt(spec, Front(es)) && PromptStep(Run(spec, Front(es)), Last(es)))
  }

  // Timers are prompt, and by `end` all that are due have run.
  ghost predicate PromptUntil(spec: Spec, es: seq<Event>, end: Time) {
    Ordered(es) && Prompt(spec, es) && Settles(Run(spec, es), end) && (es != [] ==> Last(es).now <= end)
  }

  /******* Refinement *******/

  function Abstract(s: Slot): Detector {
    if s.reported.None? then Unseen
    else if s.since.Some? && s.current.Some? then Lasting(s.reported.value.status, s.since.value, s.current.value)
    else Settled(s.reported.value.status)
  }

  lemma ObserveIsJudge(spec: Spec, s: Slot, now: Time, before: Option<Cond>, c: Cond)
    requires SlotInv(spec, s) && spec.minDuration > 0
    ensures
      var out := ObserveSlot(spec, s, now, before, c);
      var v := Judge(Abstract(s), now, before, c);
      v.d == Abstract(out.slot) && v.flips == Stamp(now, out.flips)
  {
  }

  lemma ClosedByRun(spec: Spec, es: seq<Event>)
    ensures Run(spec, es).closed <==> ClosedBy(es)
  {
    if es != [] {
      ClosedByRun(spec, Front(es));
    }
  }

  // One step of a run, seen from one slot.
  lemma RunSlot(spec: Spec, es: seq<Event>, key: string, typ: string)
    requires es != [] && IsWatched(typ)
    ensures
      var s := Run(spec, Front(es));
      var out := NextSlot(spec, SlotAt(s, key, typ), Last(es).now, InputOf(spec, s, Last(es).step, key, typ));
      && SlotInv(spec, SlotAt(s, key, typ)) && SlotInv(spec, SlotAt(Run(spec, es), key, typ))
      && SlotAt(Run(spec, es), key, typ) == out.slot
      && FlipsOf(spec, es, key, typ) == FlipsOf(spec, Front(es), key, typ) + Stamp(Last(es).now, out.flips)
  {
    RunInv(spec, Front(es));
    RunInv(spec, es);
    StepSlot(spec, Run(spec, Front(es)), Last(es), key, typ);
  }

  // A live timer that is not late means that the pending failure is not late.
  lemma PendingIsLive(spec: Spec, s: Sys, key: string, typ: string)
    requires Inv(spec, s) && SlotAt(s, key, typ).since.Some? && IsWatched(typ)
    ensures exists cb :: cb in s.live && cb.at <= SlotAt(s, key, typ).since.value + spec.minDuration
  {
    var st := s.objects[key];
    assert ObjectInv(spec, key, st);
    EarliestDueIsMinimum(spec, st.failingSince);
    var cb := st.timer.value;
    assert cb in s.live && cb.at == st.due.value;
  }

  // The tracker is where the detector is; or a deadline was met at this very
  // time and the detector has not looked yet.
  ghost predicate Simulates(minDuration: Time, now: Time, s: Slot, flips: seq<TimedFlip>, v: Verdict) {
    || (Abstract(s) == v.d && flips == v.flips)
    || (var e := Elapse(minDuration, v.d, now); Abstract(s) == e.d && flips == v.flips + e.flips)
  }

  function LastTime(es: seq<Event>): Time {
    if es == [] then 0 else Last(es).now
  }

  predicate Shows(input: Input, now: Time, o: seq<Obs>) {
    match input
    case Observe(before, after) => o == [Seen(now, before, after)]
    case Reset => o == [Gone(now)]
    case _ => o == []
  }

  predicate OnTime(spec: Spec, s: Slot, now: Time, input: Input) {
    s.since.Some? ==>
      if input.Expire? || input.Skip? then now <= s.since.value + spec.minDuration
      else now < s.since.value + spec.minDuration
  }

  // After close nothing is looked at any more.
  function InputUnlessClosed(spec: Spec, s: Sys, step: Step, key: string, typ: string): Input {
    if s.closed then Skip else InputOf(spec, s, step, key, typ)
  }

  function ObsUnlessClosed(spec: Spec, s: Sys, e: Event, key: string, typ: string): seq<Obs> {
    if s.closed then [] else ObsOf(spec, e, key, typ)
  }

  lemma InputIsShown(spec: Spec, s: Sys, e: Event, key: string, typ: string)
    requires Inv(spec, s)
    ensures Shows(InputUnlessClosed(spec, s, e.step, key, typ), e.now, ObsUnlessClosed(spec, s, e, key, typ))
    ensures NextSlot(spec, SlotAt(s, key, typ), e.now, InputOf(spec, s, e.step, key, typ))
         == NextSlot(spec, SlotAt(s, key, typ), e.now, InputUnlessClosed(spec, s, e.step, key, typ))
  {
  }

  lemma PromptIsNotLate(spec: Spec, s: Sys, e: Event, key: string, typ: string)
    requires Inv(spec, s) && IsWatched(typ) && PromptStep(s, e) && SlotAt(s, key, typ).since.Some?
    ensures var due := SlotAt(s, key, typ).since.value + spec.minDuration;
      e.now <= due && (!e.step.Fire? ==> e.now < due)
  {
    PendingIsLive(spec, s, key, typ);
  }

  lemma FireOnlyExpires(spec: Spec, s: Sys, step: Step, key: string, typ: string)
    requires step.Fire?
    ensures var input := InputUnlessClosed(spec, s, step, key, typ); input.Expire? || input.Skip?
  {
  }

  lemma PromptIsOnTime(spec: Spec, s: Sys, e: Event, key: string, typ: string)
    requires Inv(spec, s) && IsWatched(typ) && PromptStep(s, e)
    ensures OnTime(spec, SlotAt(s, key, typ), e.now, InputUnlessClosed(spec, s, e.step, key, typ))
  {
    if SlotAt(s, key, typ).since.Some? {
      PromptIsNotLate(spec, s, e, key, typ);
      if e.step.Fire? {
        FireOnlyExpires(spec, s, e.step, key, typ);
      }
    }
  }

  lemma DetectAppend(minDuration: Time, obs: seq<Obs>, o: seq<Obs>)
    requires |o| <= 1
    ensures
      var v := Detect(minDuration, obs);
      var w := if o == [] then Verdict(v.d, []) else DetectNext(minDuration, v.d, o[0]);
      Detect(minDuration, obs + o) == Verdict(w.d, v.flips + w.flips)
  {
    if o == [] {
      assert obs + o == obs;
    } else {
      assert Front(obs + o) == obs && Last(obs + o) == o[0];
    }
  }

  lemma ObservationsStep(spec: Spec, es: seq<Event>, key: string, typ: string)
    requires es != []
    ensures Observations(spec, es, key, typ) ==
      Observations(spec, Front(es), key, typ) + ObsUnlessClosed(spec, Run(spec, Front(es)), Last(es), key, typ)
  {
    ClosedByRun(spec, Front(es));
  }

  // One step of a run, seen from one condition: the slot before, what the step
  // is to it, what it shows, and what comes out.
  lemma ConditionStep(spec: Spec, es: seq<Event>, key: string, typ: string)
    returns (slot: Slot, input: Input, o: seq<Obs>, out: Output)
    requires es != [] && IsWatched(typ)
    ensures slot == SlotAt(Run(spec, Front(es)), key, typ) && SlotInv(spec, slot)
    ensures out == NextSlot(spec, slot, Last(es).now, input) && Shows(input, Last(es).now, o)
    ensures SlotAt(Run(spec, es), key, typ) == out.slot && SlotInv(spec, out.slot)
    ensures FlipsOf(spec, es, key, typ) == FlipsOf(spec, Front(es), key, typ) + Stamp(Last(es).now, out.flips)
    ensures Observations(spec, es, key, typ) == Observations(spec, Front(es), key, typ) + o
    ensures PitchedStates(LastPitch(spec, es), key, typ) == out.flips
    ensures input == InputUnlessClosed(spec, Run(spec, Front(es)), Last(es).step, key, typ)
    ensures out.slot.since.Some? ==> o == ObsOf(spec, Last(es), key, typ)
  {
    var s := Run(spec, Front(es));
    slot := SlotAt(s, key, typ);
    input := InputUnlessClosed(spec, s, Last(es).step, key, typ);
    o := ObsUnlessClosed(spec, s, Last(es), key, typ);
    out := NextSlot(spec, slot, Last(es).now, input);
    RunInv(spec, Front(es));
    RunSlot(spec, es, key, typ);
    StepSlot(spec, s, Last(es), key, typ);
    InputIsShown(spec, s, Last(es), key, typ);
    ObservationsStep(spec, es, key, typ);
    if s.closed {
      assert slot == EMPTY;
    }
  }

  lemma SimulateStep(spec: Spec, s: Slot, flips: seq<TimedFlip>, v: Verdict, last: Time, now: Time,
                     input: Input, o: seq<Obs>)
    requires SlotInv(spec, s) && spec.minDuration > 0 && last <= now
    requires Simulates(spec.minDuration, last, s, flips, v)
    requires OnTime(spec, s, now, input) && Shows(input, now, o)
    ensures
      var out := NextSlot(spec, s, now, input);
      var w := if o == [] then Verdict(v.d, []) else DetectNext(spec.minDuration, v.d, o[0]);
      Simulates(spec.minDuration, now, out.slot, flips + Stamp(now, out.flips), Verdict(w.d, v.flips + w.flips))
  {
    var e := Elapse(spec.minDuration, v.d, now);
    match input
    case Observe(before, after) =>
      assert Abstract(s) == e.d && flips == v.flips + e.flips;
      ObserveIsJudge(spec, s, now, before, after);
    case Reset =>
      assert flips == v.flips + e.flips;
    case Expire =>
    case Skip =>
  }

  lemma PromptFront(spec: Spec, es: seq<Event>)
    requires es != [] && Ordered(es) && Prompt(spec, es)
    ensures Ordered(Front(es)) && Prompt(spec, Front(es)) && PromptStep(Run(spec, Front(es)), Last(es))
    ensures Front(es) != [] ==> LastTime(Front(es)) <= Last(es).now
  {
    assert Front(es) != [] ==> es[|es| - 2].now <= es[|es| - 1].now;
  }

  ghost predicate RunSimulates(spec: Spec, es: seq<Event>, now: Time, key: string, typ: string) {
    Simulates(spec.minDuration, now, SlotAt(Run(spec, es), key, typ), FlipsOf(spec, es, key, typ),
              Detect(spec.minDuration, Observations(spec, es, key, typ)))
  }

  lemma {:induction false} SimulateNext(spec: Spec, es: seq<Event>, last: Time, key: string, typ: string)
    requires spec.minDuration > 0 && IsWatched(typ) && es != [] && last <= Last(es).now
    requires PromptStep(Run(spec, Front(es)), Last(es)) && RunSimulates(spec, Front(es), last, key, typ)
    ensures RunSimulates(spec, es, Last(es).now, key, typ)
  {
    var slot, input, o, out := ConditionStep(spec, es, key, typ);
    assert OnTime(spec, slot, Last(es).now, input) by {
      RunInv(spec, Front(es));
      PromptIsOnTime(spec, Run(spec, Front(es)), Last(es), key, typ);
    }
    var obs := Observations(spec, Front(es), key, typ);
    DetectAppend(spec.minDuration, obs, o);
    SimulateStep(spec, slot, FlipsOf(spec, Front(es), key, typ), Detect(spec.minDuration, obs),
                 last, Last(es).now, input, o);
  }

  lemma {:induction false} SimulateRun(spec: Spec, es: seq<Event>, key: string, typ: string)
    requires spec.minDuration > 0 && IsWatched(typ) && Ordered(es) && Prompt(spec, es)
    ensures RunSimulates(spec, es, LastTime(es), key, typ)
  {
    if es != [] {
      PromptFront(spec, es);
      SimulateRun(spec, Front(es), key, typ);
      SimulateNext(spec, es, if Front(es) == [] then Last(es).now else LastTime(Front(es)), key, typ);
    }
  }

  // When nothing is due any more, the detector has to look once more.
  lemma SettledSimulation(minDuration: Time, last: Time, end: Time, s: Slot, flips: seq<TimedFlip>, v: Verdict)
    requires Simulates(minDuration, last, s, flips, v) && last <= end
    requires s.since.Some? && s.current.Some? && s.reported.Some? ==> end < s.since.value + minDuration
    ensures flips == v.flips + Elapse(minDuration, v.d, end).flips
  {
  }

  lemma SettledIsNotDue(spec: Spec, s: Sys, key: string, typ: string, end: Time)
    requires Inv(spec, s) && IsWatched(typ) && Settles(s, end)
    ensures SlotAt(s, key, typ).since.Some? ==> end < SlotAt(s, key, typ).since.value + spec.minDuration
  {
    if SlotAt(s, key, typ).since.Some? {
      PendingIsLive(spec, s, key, typ);
    }
  }

  // The refinement: with minDuration and prompt timers, the flips of a
  // condition (states and times) up to a time `end` are those the timerless
  // detector finds, over every run with any number of objects.
  lemma {:induction false} TrackerRefinesDetector(spec: Spec, es: seq<Event>, key: string, typ: string, end: Time)
    requires spec.minDuration > 0 && IsWatched(typ) && Ordered(es) && Prompt(spec, es)
    requires es != [] ==> Last(es).now <= end
    requires Settles(Run(spec, es), end)
    ensures FlipsOf(spec, es, key, typ) == DetectedFlips(spec.minDuration, Observations(spec, es, key, typ), end)
  {
    SimulateRun(spec, es, key, typ);
    RunInv(spec, es);
    SettledIsNotDue(spec, Run(spec, es), key, typ, end);
    SettledSimulation(spec.minDuration, if es == [] then end else LastTime(es), end, SlotAt(Run(spec, es), key, typ),
                      FlipsOf(spec, es, key, typ), Detect(spec.minDuration, Observations(spec, es, key, typ)));
  }
}
