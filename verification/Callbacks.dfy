// What a callback does: stale ones are harmless, those on time pitch what is
// due, and with nothing else happening the timers run dry.
module Callbacks {
  import opened Common
  import opened TrackerSpec
  import opened Slots
  import opened Invariant
  import opened Detector

  /******* Sequence numbers *******/

  predicate KeepsLifetime(step: Step, key: string) {
    step != Forget(key) && !step.Close?
  }

  lemma UpdateKeepsSeq(spec: Spec, st: Tracked, oldU: Obj, newU: Obj, now: Time)
    requires SlotsInv(spec, st) && (st.timer.None? || TimerInv(spec, newU.key, st))
    ensures UpdateObject(spec, st, oldU, newU, now).0.seqNo >= st.seqNo
  {
    ObserveOnlyWatched(spec, oldU, newU, now, st.(obj := newU), |WATCHED|);
    ScheduleInv(spec, newU.key, ObserveUpTo(spec, oldU, newU, now, st.(obj := newU), |WATCHED|).st);
  }

  lemma SeqStep(spec: Spec, s: Sys, e: Event, key: string)
    requires Inv(spec, s) && key in s.objects && KeepsLifetime(e.step, key)
    ensures var s' := After(spec, s, e);
      && key in s'.objects && s'.objects[key].seqNo >= s.objects[key].seqNo
      && (e.step.Fire? && e.step.cb.key == key && Matches(s, e.step.cb) ==> s'.objects[key].seqNo > s.objects[key].seqNo)
  {
    var st := s.objects[key];
    assert ObjectInv(spec, key, st);
    if e.step.Update? && e.step.newU.key == key {
      UpdateKeepsSeq(spec, st, e.step.oldU, e.step.newU, e.now);
    } else if e.step.Fire? && Matches(s, e.step.cb) && e.step.cb.key == key {
      FireObjectInv(spec, key, st, e.now);
    }
  }

  lemma {:induction false} SeqGrows(spec: Spec, es: seq<Event>, i: nat, j: nat, key: string)
    requires i <= j <= |es| && key in Run(spec, es[..i]).objects
    requires forall m :: i <= m < j ==> KeepsLifetime(es[m].step, key)
    ensures key in Run(spec, es[..j]).objects
    ensures Run(spec, es[..j]).objects[key].seqNo >= Run(spec, es[..i]).objects[key].seqNo
    decreases j
  {
    if i < j {
      SeqGrows(spec, es, i, j - 1, key);
      assert Front(es[..j]) == es[..j - 1] && Last(es[..j]) == es[j - 1];
      RunInv(spec, es[..j - 1]);
      SeqStep(spec, Run(spec, es[..j - 1]), es[j - 1], key);
    }
  }

  // Step i runs a callback of key that is accepted.
  ghost predicate Accepted(spec: Spec, es: seq<Event>, i: nat, key: string) {
    i < |es| && es[i].step.Fire? && es[i].step.cb.key == key && Matches(Run(spec, es[..i]), es[i].step.cb)
  }

  // Within one lifetime the accepted callbacks have increasing sequence
  // numbers: none is acted on twice.
  lemma SeqIsActedOnOnce(spec: Spec, es: seq<Event>, i: nat, j: nat, key: string)
    requires i < j && Accepted(spec, es, i, key) && Accepted(spec, es, j, key)
    requires forall m :: i <= m < j ==> KeepsLifetime(es[m].step, key)
    ensures es[i].step.cb.seqNo < es[j].step.cb.seqNo
  {
    assert Front(es[..i + 1]) == es[..i] && Last(es[..i + 1]) == es[i];
    RunInv(spec, es[..i]);
    SeqStep(spec, Run(spec, es[..i]), es[i], key);
    SeqGrows(spec, es, i + 1, j, key);
  }

  // The timer of an object is still cb, or its number has been passed.
  ghost predicate KeptOrPassed(s: Sys, key: string, cb: Callback) {
    key in s.objects && (s.objects[key].timer == Some(cb) || s.objects[key].seqNo > cb.seqNo)
  }

  lemma UpdateKeepsOrPasses(spec: Spec, st: Tracked, oldU: Obj, newU: Obj, now: Time)
    requires SlotsInv(spec, st) && TimerInv(spec, newU.key, st) && st.timer.Some?
    ensures var st' := UpdateObject(spec, st, oldU, newU, now).0; st'.timer == st.timer || st'.seqNo > st.seqNo
  {
    ObserveOnlyWatched(spec, oldU, newU, now, st.(obj := newU), |WATCHED|);
    ScheduleInv(spec, newU.key, ObserveUpTo(spec, oldU, newU, now, st.(obj := newU), |WATCHED|).st);
  }

  lemma OtherStepKeepsObject(spec: Spec, s: Sys, e: Event, key: string)
    requires key in s.objects && KeepsLifetime(e.step, key)
    requires e.step.Update? ==> e.step.newU.key != key || s.closed
    requires e.step.Fire? ==> e.step.cb.key != key || !Matches(s, e.step.cb)
    ensures key in After(spec, s, e).objects && After(spec, s, e).objects[key] == s.objects[key]
  {
  }

  lemma UpdatedObject(spec: Spec, s: Sys, e: Event, key: string)
    requires key in s.objects && !s.closed && e.step.Update? && e.step.newU.key == key
    ensures key in After(spec, s, e).objects
    ensures After(spec, s, e).objects[key] == UpdateObject(spec, s.objects[key], e.step.oldU, e.step.newU, e.now).0
  {
  }

  lemma KeptOrPassedNext(spec: Spec, s: Sys, e: Event, key: string, cb: Callback)
    requires Inv(spec, s) && KeptOrPassed(s, key, cb) && KeepsLifetime(e.step, key)
    ensures KeptOrPassed(After(spec, s, e), key, cb)
  {
    var st := s.objects[key];
    assert ObjectInv(spec, key, st);
    if e.step.Update? && e.step.newU.key == key {
      UpdatedObject(spec, s, e, key);
      UpdateKeepsSeq(spec, st, e.step.oldU, e.step.newU, e.now);
      if st.timer == Some(cb) {
        UpdateKeepsOrPasses(spec, st, e.step.oldU, e.step.newU, e.now);
      }
    } else if e.step.Fire? && e.step.cb.key == key && Matches(s, e.step.cb) {
      SeqStep(spec, s, e, key);
    } else {
      OtherStepKeepsObject(spec, s, e, key);
    }
  }

  ghost predicate KeptOrPassedBy(spec: Spec, es: seq<Event>, j: nat, key: string, cb: Callback)
    requires j <= |es|
  {
    KeptOrPassed(Run(spec, es[..j]), key, cb)
  }

  lemma {:induction false} KeptOrPassedStep(spec: Spec, es: seq<Event>, j: nat, key: string, cb: Callback)
    requires j < |es| && KeptOrPassedBy(spec, es, j, key, cb) && KeepsLifetime(es[j].step, key)
    ensures KeptOrPassedBy(spec, es, j + 1, key, cb)
  {
    assert Front(es[..j + 1]) == es[..j] && Last(es[..j + 1]) == es[j];
    RunInv(spec, es[..j]);
    KeptOrPassedNext(spec, Run(spec, es[..j]), es[j], key, cb);
  }

  lemma {:induction false} StaysKeptOrPassed(spec: Spec, es: seq<Event>, i: nat, j: nat, key: string, cb: Callback)
    requires i <= j <= |es| && KeptOrPassedBy(spec, es, i, key, cb)
    requires forall m :: i <= m < j ==> KeepsLifetime(es[m].step, key)
    ensures KeptOrPassedBy(spec, es, j, key, cb)
    decreases j
  {
    if i < j {
      StaysKeptOrPassed(spec, es, i, j - 1, key, cb);
      KeptOrPassedStep(spec, es, j - 1, key, cb);
    }
  }

  // Once an object has the timer cb, at every later step of the same lifetime it
  // still has it or its number has been passed.
  lemma {:induction false} TimerIsKeptOrPassed(spec: Spec, es: seq<Event>, i: nat, j: nat, key: string, cb: Callback)
    requires i <= j <= |es| && key in Run(spec, es[..i]).objects && Run(spec, es[..i]).objects[key].timer == Some(cb)
    requires forall m :: i <= m < j ==> KeepsLifetime(es[m].step, key)
    ensures KeptOrPassed(Run(spec, es[..j]), key, cb)
  {
    StaysKeptOrPassed(spec, es, i, j, key, cb);
  }

  // So a callback that was replaced or stopped is accepted again only in a later
  // lifetime: within its own it is accepted if and only if it is still the timer.
  lemma {:induction false} AcceptedIffStillTimer(spec: Spec, es: seq<Event>, i: nat, j: nat, key: string, cb: Callback)
    requires i <= j <= |es| && key in Run(spec, es[..i]).objects && Run(spec, es[..i]).objects[key].timer == Some(cb)
    requires forall m :: i <= m < j ==> KeepsLifetime(es[m].step, key)
    ensures key in Run(spec, es[..j]).objects
    ensures Matches(Run(spec, es[..j]), cb) <==> Run(spec, es[..j]).objects[key].timer == Some(cb)
  {
    RunInv(spec, es[..i]);
    assert ObjectInv(spec, key, Run(spec, es[..i]).objects[key]);
    TimerIsKeptOrPassed(spec, es, i, j, key, cb);
    RunInv(spec, es[..j]);
    assert ObjectInv(spec, key, Run(spec, es[..j]).objects[key]);
  }

  /******* Stale callbacks *******/

  lemma AcceptedCallback(spec: Spec, s: Sys, now: Time, cb: Callback)
    requires Matches(s, cb)
    ensures
      var (st', ev) := FireObject(spec, cb.key, s.objects[cb.key], now);
      && After(spec, s, Event(now, Fire(cb))).objects == s.objects[cb.key := st']
      && Emit(spec, s, Event(now, Fire(cb))) == if ev.Some? then Some(Pitch(s.objects[cb.key].obj, ev.value)) else None
  {
  }

  lemma NothingExpires(spec: Spec, st: Tracked, now: Time, n: nat)
    requires n <= |WATCHED|
    requires forall typ :: typ in st.failingSince ==> now < st.failingSince[typ] + spec.minDuration
    ensures ExpireUpTo(spec, now, st, n) == Expired(st, [], Failing(0, None))
  {
  }

  // The state of an object whose timer was armed again for the same deadline.
  function ArmedAgain(key: string, st: Tracked): Tracked {
    var n := st.seqNo + 1;
    st.(seqNo := n, timer := if st.due.Some? then Some(Callback(key, n, st.due.value)) else None)
  }

  lemma FireEarly(spec: Spec, key: string, st: Tracked, now: Time)
    requires ObjectInv(spec, key, st) && (st.due.Some? ==> now < st.due.value)
    ensures FireObject(spec, key, st, now) == (ArmedAgain(key, st), None)
  {
    EarliestDueIsMinimum(spec, st.failingSince);
    NothingExpires(spec, st.(timer := None), now, |WATCHED|);
  }

  // A callback that is accepted before the deadline, such as one left over from
  // a forgotten object, pitches nothing, leaves everything pending, and the
  // timer is armed again for the same deadline.
  lemma EarlyCallbackIsHarmless(spec: Spec, s: Sys, now: Time, cb: Callback)
    requires Inv(spec, s) && Matches(s, cb)
    requires s.objects[cb.key].due.Some? ==> now < s.objects[cb.key].due.value
    ensures
      var e := Event(now, Fire(cb));
      var st, s' := ArmedAgain(cb.key, s.objects[cb.key]), After(spec, s, e);
      && Emit(spec, s, e) == None
      && s'.objects == s.objects[cb.key := st]
      && (st.timer.Some? ==> st.timer.value in s'.live)
  {
    FireEarly(spec, cb.key, s.objects[cb.key], now);
    AcceptedCallback(spec, s, now, cb);
  }

  /******* Callbacks on time *******/

  lemma ExpireOne(spec: Spec, now: Time, acc: Expired, typ: string)
    ensures var r := ExpireType(spec, now, acc, typ);
      && (forall t :: t in r.st.failingSince <==>
            t in acc.st.failingSince && !(t == typ && acc.st.failingSince[t] + spec.minDuration <= now))
      && (forall t :: t in r.st.failingSince ==> r.st.failingSince[t] == acc.st.failingSince[t])
  {
  }

  // x has taken out of `pending` what is due, and nothing else, and says since
  // when the longest of these failures has lasted.
  ghost predicate TakesOutDue(spec: Spec, pending: map<string, Time>, now: Time, x: Expired) {
    && (forall t :: t in x.st.failingSince <==> t in pending && now < pending[t] + spec.minDuration)
    && (EarliestDue(spec, pending).Some? && EarliestDue(spec, pending).value <= now ==>
          var first := EarliestDue(spec, pending).value - spec.minDuration;
          |x.flips| > 0 && x.failing == Failing(now - first, Some(first)))
  }

  lemma LongestOfTwo(spec: Spec, st: Tracked, now: Time)
    requires spec.minDuration > 0 && EarliestDue(spec, st.failingSince).Some?
    requires EarliestDue(spec, st.failingSince).value <= now
    ensures
      var x := ExpireUpTo(spec, now, st, |WATCHED|);
      var first := EarliestDue(spec, st.failingSince).value - spec.minDuration;
      |x.flips| > 0 && x.failing == Failing(now - first, Some(first))
  {
    var x0, x1 := ExpireUpTo(spec, now, st, 0), ExpireUpTo(spec, now, st, 1);
    assert x1 == ExpireType(spec, now, x0, WATCHED[0]);
    assert WATCHED[1] in st.failingSince <==> WATCHED[1] in x1.st.failingSince;
  }

  lemma ExpireAll(spec: Spec, st: Tracked, now: Time)
    requires spec.minDuration > 0 && OnlyWatched(st)
    ensures TakesOutDue(spec, st.failingSince, now, ExpireUpTo(spec, now, st, |WATCHED|))
  {
    var r, y := WATCHED[0], WATCHED[1];
    assert forall t :: IsWatched(t) <==> t == r || t == y;
    var x0, x1 := ExpireUpTo(spec, now, st, 0), ExpireUpTo(spec, now, st, 1);
    ExpireOne(spec, now, x0, r);
    ExpireOne(spec, now, x1, y);
    if EarliestDue(spec, st.failingSince).Some? && EarliestDue(spec, st.failingSince).value <= now {
      LongestOfTwo(spec, st, now);
    }
  }

  lemma DueIsTakenOut(spec: Spec, pending: map<string, Time>, now: Time, x: Expired)
    requires TakesOutDue(spec, pending, now, x)
    requires forall typ :: typ in pending ==> IsWatched(typ)
    requires EarliestDue(spec, pending).Some? && EarliestDue(spec, pending).value <= now
    ensures x.st.failingSince.Keys < pending.Keys
  {
    EarliestDueIsMinimum(spec, pending);
    var typ :| typ in pending && EarliestDue(spec, pending).value == pending[typ] + spec.minDuration;
    assert typ in pending.Keys && typ !in x.st.failingSince.Keys;
  }

  lemma PendingNeedsMinDuration(spec: Spec, key: string, st: Tracked)
    requires ObjectInv(spec, key, st) && st.due.Some?
    ensures spec.minDuration > 0
  {
    EarliestDueIsMinimum(spec, st.failingSince);
    var typ :| typ in st.failingSince && st.due.value == st.failingSince[typ] + spec.minDuration;
    assert IsWatched(typ) && SlotInv(spec, SlotOf(st, typ));
  }

  lemma ScheduleKeepsPending(spec: Spec, key: string, st: Tracked)
    ensures Schedule(spec, key, st).failingSince == st.failingSince
  {
  }

  lemma FireEventSays(x: Expired)
    requires |x.flips| > 0
    ensures FireEventOf(x).Some? && FireEventOf(x).value.flips == x.flips
    ensures FireEventOf(x).value.failing == Some(x.failing)
  {
  }

  lemma FewerKeys(a: map<string, Time>, b: map<string, Time>)
    requires a.Keys < b.Keys
    ensures |a| < |b|
  {
    assert b.Keys == a.Keys + (b.Keys - a.Keys);
    assert |a| == |a.Keys| && |b| == |b.Keys|;
  }

  // The event has flips and says "Failing for" since the earliest pending
  // failure began.
  ghost predicate ReportsEarliest(spec: Spec, st: Tracked, now: Time, ev: K8sEvent)
    requires st.due.Some?
  {
    var first := st.due.value - spec.minDuration;
    |ev.flips| > 0 && ev.failing == Some(Failing(now - first, Some(first)))
  }

  // What was due is no longer pending, and something was.
  ghost predicate DropsDue(spec: Spec, st: Tracked, now: Time, st': Tracked) {
    && |st'.failingSince| < |st.failingSince|
    && forall t :: t in st'.failingSince <==> t in st.failingSince && now < st.failingSince[t] + spec.minDuration
  }

  lemma ExpiredOnTime(spec: Spec, key: string, st: Tracked, now: Time, x: Expired)
    requires ObjectInv(spec, key, st) && st.due.Some? && st.due.value <= now
    requires TakesOutDue(spec, st.failingSince, now, x)
    ensures |x.flips| > 0 && DropsDue(spec, st, now, x.st)
    ensures x.failing == Failing(now - (st.due.value - spec.minDuration), Some(st.due.value - spec.minDuration))
  {
    DueIsTakenOut(spec, st.failingSince, now, x);
    FewerKeys(x.st.failingSince, st.failingSince);
  }

  lemma FireOnTime(spec: Spec, key: string, st: Tracked, now: Time)
    requires ObjectInv(spec, key, st) && st.due.Some? && st.due.value <= now
    ensures
      var (st', ev) := FireObject(spec, key, st, now);
      ev.Some? && ReportsEarliest(spec, st, now, ev.value) && DropsDue(spec, st, now, st')
  {
    var x := ExpireUpTo(spec, now, st.(timer := None), |WATCHED|);
    PendingNeedsMinDuration(spec, key, st);
    ExpireAll(spec, st.(timer := None), now);
    ExpiredOnTime(spec, key, st, now, x);
    ScheduleKeepsPending(spec, key, x.st);
    FireEventSays(x);
  }

  // An accepted callback that is on time pitches at least one flip, says how
  // long the longest of the failures has lasted, and leaves fewer pending.
  lemma {:induction false} CallbackOnTimePitches(spec: Spec, s: Sys, now: Time, cb: Callback)
    requires Inv(spec, s) && Matches(s, cb)
    requires s.objects[cb.key].due.Some? && s.objects[cb.key].due.value <= now
    ensures
      var st, s', p := s.objects[cb.key], After(spec, s, Event(now, Fire(cb))), Emit(spec, s, Event(now, Fire(cb)));
      && p.Some? && p.value.obj == st.obj
      && ReportsEarliest(spec, st, now, p.value.event)
      && cb.key in s'.objects && DropsDue(spec, st, now, s'.objects[cb.key])
  {
    FireOnTime(spec, cb.key, s.objects[cb.key], now);
    AcceptedCallback(spec, s, now, cb);
  }

  lemma OnlyCallbacksSayFailing(spec: Spec, s: Sys, e: Event)
    requires Emit(spec, s, e).Some? && Emit(spec, s, e).value.event.failing.Some?
    ensures e.step.Fire? && Matches(s, e.step.cb)
  {
  }

  lemma CallbackBeforeDueIsSilent(spec: Spec, s: Sys, now: Time, cb: Callback)
    requires Inv(spec, s) && Matches(s, cb) && Emit(spec, s, Event(now, Fire(cb))).Some?
    ensures s.objects[cb.key].due.Some? && s.objects[cb.key].due.value <= now
  {
    if !(s.objects[cb.key].due.Some? && s.objects[cb.key].due.value <= now) {
      EarlyCallbackIsHarmless(spec, s, now, cb);
    }
  }

  lemma DueIsNow(spec: Spec, s: Sys, e: Event, key: string)
    requires Inv(spec, s) && PromptStep(s, e) && e.step.Fire?
    requires key in s.objects && s.objects[key].due.Some? && s.objects[key].due.value <= e.now
    ensures s.objects[key].due.value == e.now
  {
    assert ObjectInv(spec, key, s.objects[key]);
    assert s.objects[key].timer.value in s.live;
  }

  lemma SaysMinDuration(spec: Spec, st: Tracked, now: Time, ev: K8sEvent)
    requires st.due == Some(now) && ReportsEarliest(spec, st, now, ev)
    ensures LastedMinDuration(spec, now, ev)
  {
  }

  ghost predicate LastedMinDuration(spec: Spec, now: Time, ev: K8sEvent) {
    ev.failing == Some(Failing(spec.minDuration, Some(now - spec.minDuration)))
  }

  lemma PromptCallback(spec: Spec, s: Sys, now: Time, cb: Callback)
    requires Inv(spec, s) && Matches(s, cb) && PromptStep(s, Event(now, Fire(cb)))
    requires Emit(spec, s, Event(now, Fire(cb))).Some?
    ensures LastedMinDuration(spec, now, Emit(spec, s, Event(now, Fire(cb))).value.event)
  {
    CallbackBeforeDueIsSilent(spec, s, now, cb);
    CallbackOnTimePitches(spec, s, now, cb);
    DueIsNow(spec, s, Event(now, Fire(cb)), cb.key);
    SaysMinDuration(spec, s.objects[cb.key], now, Emit(spec, s, Event(now, Fire(cb))).value.event);
  }

  // Under prompt timers "Failing for" is minDuration exactly.
  lemma {:induction false} PromptFailuresLastMinDuration(spec: Spec, es: seq<Event>)
    requires es != [] && Prompt(spec, es)
    requires LastPitch(spec, es).Some? && LastPitch(spec, es).value.event.failing.Some?
    ensures LastedMinDuration(spec, Last(es).now, LastPitch(spec, es).value.event)
  {
    var s, e := Run(spec, Front(es)), Last(es);
    assert Inv(spec, s) by {
      RunInv(spec, Front(es));
    }
    OnlyCallbacksSayFailing(spec, s, e);
    assert e == Event(e.now, Fire(e.step.cb));
    PromptCallback(spec, s, e.now, e.step.cb);
  }

  /******* Running dry *******/

  // The callback of an armed timer, run when it is due.
  function DueCallback(st: Tracked): Event
    requires st.timer.Some?
  {
    Event(st.timer.value.at, Fire(st.timer.value))
  }

  lemma DueStep(spec: Spec, s: Sys, key: string)
    requires Inv(spec, s) && key in s.objects && s.objects[key].timer.Some?
    ensures
      var e := DueCallback(s.objects[key]);
      var s' := After(spec, s, e);
      && Inv(spec, s') && key in s'.objects
      && |s'.objects[key].failingSince| < |s.objects[key].failingSince|
      && Emit(spec, s, e).Some? && LastedMinDuration(spec, e.now, Emit(spec, s, e).value.event)
  {
    var st := s.objects[key];
    assert ObjectInv(spec, key, st);
    CallbackOnTimePitches(spec, s, st.due.value, st.timer.value);
    SaysMinDuration(spec, st, st.due.value, Emit(spec, s, DueCallback(st)).value.event);
    StepInv(spec, s, DueCallback(st));
  }

  datatype Drained = Drained(s: Sys, pitches: seq<Pitch>)

  // Nothing but the timer of one object runs, each time when it is due.
  ghost function Drain(spec: Spec, s: Sys, key: string): Drained
    requires Inv(spec, s) && key in s.objects
    decreases |s.objects[key].failingSince|
  {
    if s.objects[key].timer.None? then Drained(s, [])
    else
      var e := DueCallback(s.objects[key]);
      DueStep(spec, s, key);
      var rest := Drain(spec, After(spec, s, e), key);
      Drained(rest.s, [Emit(spec, s, e).value] + rest.pitches)
  }

  ghost predicate FailedFor(minDuration: Time, p: Pitch) {
    p.event.failing.Some? && p.event.failing.value.longest == minDuration
  }

  lemma NoTimerNothingPending(spec: Spec, s: Sys, key: string)
    requires Inv(spec, s) && key in s.objects && s.objects[key].timer.None?
    ensures s.objects[key].failingSince == map[]
  {
    assert ObjectInv(spec, key, s.objects[key]);
    EarliestDueIsMinimum(spec, s.objects[key].failingSince);
  }

  // d ends s with no timer armed and nothing pending, after no more pitches
  // than failures were pending, each "Failing for" minDuration.
  ghost predicate RanDry(spec: Spec, pending: nat, key: string, d: Drained) {
    && |d.pitches| <= pending
    && (forall p :: p in d.pitches ==> FailedFor(spec.minDuration, p))
    && Inv(spec, d.s) && key in d.s.objects
    && d.s.objects[key].timer.None? && d.s.objects[key].failingSince == map[]
  }

  lemma OnePitchMore(spec: Spec, fewer: nat, pending: nat, key: string, rest: Drained, p: Pitch, now: Time)
    requires RanDry(spec, fewer, key, rest) && fewer < pending && LastedMinDuration(spec, now, p.event)
    ensures RanDry(spec, pending, key, Drained(rest.s, [p] + rest.pitches))
  {
  }

  // The timers run dry: after at most as many callbacks as failures were
  // pending, nothing is pending and no timer is armed.
  lemma {:induction false} TimersRunDry(spec: Spec, s: Sys, key: string)
    requires Inv(spec, s) && key in s.objects
    ensures RanDry(spec, |s.objects[key].failingSince|, key, Drain(spec, s, key))
    decreases |s.objects[key].failingSince|
  {
    if s.objects[key].timer.Some? {
      var e := DueCallback(s.objects[key]);
      DueStep(spec, s, key);
      var s' := After(spec, s, e);
      TimersRunDry(spec, s', key);
      OnePitchMore(spec, |s'.objects[key].failingSince|, |s.objects[key].failingSince|, key,
        Drain(spec, s', key), Emit(spec, s, e).value, e.now);
    } else {
      NoTimerNothingPending(spec, s, key);
    }
  }
}
