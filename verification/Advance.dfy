// Time goes on: a clock that has only run what it holds, each callback when it
// was due, gets to any later time with one callback for each pending failure at
// most.
module Advance {
  import opened Common
  import opened TrackerSpec
  import opened Slots
  import opened Invariant
  import opened Detector
  import opened Callbacks

  /******* What the clock holds *******/

  predicate IsArmed(s: Sys, cb: Callback) {
    cb.key in s.objects && s.objects[cb.key].timer == Some(cb)
  }

  // The clock holds the timers of the objects, each once, and nothing else.
  ghost predicate HoldsTimers(s: Sys) {
    forall cb :: s.live[cb] == if IsArmed(s, cb) then 1 else 0
  }

  // None of them is overdue, and no pending failure is.
  ghost predicate NothingOverdue(s: Sys, now: Time) {
    forall cb :: cb in s.live ==> now <= cb.at
  }

  // The clock runs only what it holds.
  predicate RunsHeld(s: Sys, e: Event) {
    e.step.Fire? ==> e.step.cb in s.live
  }

  ghost predicate Held(spec: Spec, es: seq<Event>) {
    es == [] || (Held(spec, Front(es)) && RunsHeld(Run(spec, Front(es)), Last(es)))
  }

  lemma HeldIsAccepted(spec: Spec, s: Sys, cb: Callback)
    requires Inv(spec, s) && HoldsTimers(s) && cb in s.live
    ensures Matches(s, cb) && IsArmed(s, cb)
  {
    assert s.live[cb] == 1;
    assert ObjectInv(spec, cb.key, s.objects[cb.key]);
  }

  lemma RearmedHolds(s: Sys, key: string, st': Tracked, before: Option<Callback>, live: multiset<Callback>)
    requires forall cb :: live[cb] == if cb.key == key then (if before == Some(cb) then 1 else 0)
                                      else if IsArmed(s, cb) then 1 else 0
    requires before.Some? ==> before.value.key == key
    requires st'.timer.Some? ==> st'.timer.value.key == key
    ensures HoldsTimers(Sys(s.objects[key := st'], false, Rearmed(live, before, st'.timer)))
  {
  }

  lemma HoldsAfterUpdate(spec: Spec, s: Sys, now: Time, oldU: Obj, newU: Obj)
    requires Inv(spec, s) && HoldsTimers(s) && !s.closed
    ensures HoldsTimers(After(spec, s, Event(now, Update(oldU, newU))))
  {
    var st := Lookup(s, newU);
    var st' := UpdateObject(spec, st, oldU, newU, now).0;
    assert newU.key in s.objects ==> ObjectInv(spec, newU.key, st);
    assert newU.key !in s.objects ==> st.timer.None?;
    UpdateInv(spec, s, now, oldU, newU);
    assert ObjectInv(spec, newU.key, st') by {
      assert After(spec, s, Event(now, Update(oldU, newU))).objects[newU.key] == st';
    }
    RearmedHolds(s, newU.key, st', st.timer, s.live);
  }

  lemma LetGoOfTimer(s: Sys, cb: Callback)
    requires HoldsTimers(s) && IsArmed(s, cb)
    ensures forall c :: (s.live - multiset{cb})[c] == if c.key != cb.key && IsArmed(s, c) then 1 else 0
  {
  }

  lemma AfterHeld(spec: Spec, s: Sys, now: Time, cb: Callback, st': Tracked)
    requires Matches(s, cb) && st' == FireObject(spec, cb.key, s.objects[cb.key], now).0
    ensures After(spec, s, Event(now, Fire(cb)))
         == Sys(s.objects[cb.key := st'], false, Rearmed(s.live - multiset{cb}, None, st'.timer))
  {
  }

  lemma HoldsAfterAccepted(spec: Spec, s: Sys, now: Time, cb: Callback, st': Tracked)
    requires HoldsTimers(s) && Matches(s, cb) && IsArmed(s, cb)
    requires st' == FireObject(spec, cb.key, s.objects[cb.key], now).0
    requires st'.timer.Some? ==> st'.timer.value.key == cb.key
    ensures HoldsTimers(After(spec, s, Event(now, Fire(cb))))
  {
    LetGoOfTimer(s, cb);
    RearmedHolds(s, cb.key, st', None, s.live - multiset{cb});
    AfterHeld(spec, s, now, cb, st');
  }

  lemma HoldsAfterFire(spec: Spec, s: Sys, now: Time, cb: Callback)
    requires Inv(spec, s) && HoldsTimers(s) && cb in s.live
    ensures HoldsTimers(After(spec, s, Event(now, Fire(cb))))
  {
    HeldIsAccepted(spec, s, cb);
    var st := s.objects[cb.key];
    var st' := FireObject(spec, cb.key, st, now).0;
    FireObjectInv(spec, cb.key, st, now);
    HoldsAfterAccepted(spec, s, now, cb, st');
  }

  lemma ForgottenHolds(s: Sys, key: string, timer: Option<Callback>)
    requires HoldsTimers(s) && key in s.objects && timer == s.objects[key].timer
    requires timer.Some? ==> timer.value.key == key
    ensures HoldsTimers(s.(objects := s.objects - {key}, live := Without(s.live, timer)))
  {
    var s' := s.(objects := s.objects - {key}, live := Without(s.live, timer));
    forall cb ensures s'.live[cb] == if IsArmed(s', cb) then 1 else 0 {
      assert s.live[cb] == if IsArmed(s, cb) then 1 else 0;
    }
  }

  lemma HoldsAfterForget(spec: Spec, s: Sys, now: Time, key: string)
    requires Inv(spec, s) && HoldsTimers(s)
    ensures HoldsTimers(After(spec, s, Event(now, Forget(key))))
  {
    TimersAreOwn(spec, s);
    if key in s.objects {
      ForgottenHolds(s, key, s.objects[key].timer);
    }
  }

  lemma NothingHeld(s: Sys, cb: Callback)
    requires HoldsTimers(s) && (IsArmed(s, cb) ==> cb in Armed(s.objects))
    ensures (s.live - multiset(Armed(s.objects)))[cb] == 0
  {
    assert s.live[cb] <= 1;
  }

  lemma HoldsAfterClose(spec: Spec, s: Sys, now: Time)
    requires Inv(spec, s) && HoldsTimers(s)
    ensures HoldsTimers(After(spec, s, Event(now, Close)))
  {
    forall cb ensures (s.live - multiset(Armed(s.objects)))[cb] == 0 {
      assert IsArmed(s, cb) ==> s.objects[cb.key].timer.value in Armed(s.objects);
      NothingHeld(s, cb);
    }
  }

  lemma HoldsStep(spec: Spec, s: Sys, e: Event)
    requires Inv(spec, s) && HoldsTimers(s) && RunsHeld(s, e)
    ensures HoldsTimers(After(spec, s, e))
  {
    match e.step
    case Update(oldU, newU) =>
      if !s.closed { HoldsAfterUpdate(spec, s, e.now, oldU, newU); }
    case Fire(cb) => HoldsAfterFire(spec, s, e.now, cb);
    case Forget(key) => HoldsAfterForget(spec, s, e.now, key);
    case Close => HoldsAfterClose(spec, s, e.now);
  }

  lemma {:induction false} HoldsRun(spec: Spec, es: seq<Event>)
    requires Held(spec, es)
    ensures HoldsTimers(Run(spec, es))
  {
    if es != [] {
      HoldsRun(spec, Front(es));
      RunInv(spec, Front(es));
      HoldsStep(spec, Run(spec, Front(es)), Last(es));
    }
  }

  /******* Nothing is overdue *******/

  ghost predicate Ahead(spec: Spec, now: Time, pending: map<string, Time>) {
    forall typ :: typ in pending ==> now < pending[typ] + spec.minDuration
  }

  lemma PendingAfterUpdate(spec: Spec, st: Tracked, oldU: Obj, newU: Obj, now: Time, typ: string)
    requires IsWatched(typ) && SlotInv(spec, SlotOf(st, typ))
    ensures
      var since, since' := SlotOf(st, typ).since,
        SlotOf(ObserveUpTo(spec, oldU, newU, now, st.(obj := newU), |WATCHED|).st, typ).since;
      since'.Some? ==> since' == since || (since' == Some(now) && spec.minDuration > 0)
  {
    UpdateObjectSlot(spec, st, oldU, newU, now, typ);
  }

  lemma AheadAfterUpdate(spec: Spec, st: Tracked, oldU: Obj, newU: Obj, now: Time)
    requires SlotsInv(spec, st) && Ahead(spec, now, st.failingSince)
    ensures Ahead(spec, now, UpdateObject(spec, st, oldU, newU, now).0.failingSince)
  {
    var o := ObserveUpTo(spec, oldU, newU, now, st.(obj := newU), |WATCHED|);
    ScheduleKeepsPending(spec, newU.key, o.st);
    ObserveOnlyWatched(spec, oldU, newU, now, st.(obj := newU), |WATCHED|);
    forall typ | typ in o.st.failingSince ensures now < o.st.failingSince[typ] + spec.minDuration {
      assert IsWatched(typ);
      PendingAfterUpdate(spec, st, oldU, newU, now, typ);
    }
  }

  lemma AheadAfterFire(spec: Spec, key: string, st: Tracked, now: Time)
    requires ObjectInv(spec, key, st)
    ensures Ahead(spec, now, FireObject(spec, key, st, now).0.failingSince)
  {
    var x := ExpireUpTo(spec, now, st.(timer := None), |WATCHED|);
    ScheduleKeepsPending(spec, key, x.st);
    ExpireOnlyWatched(spec, now, st.(timer := None), |WATCHED|);
    forall typ | typ in x.st.failingSince ensures now < x.st.failingSince[typ] + spec.minDuration {
      assert IsWatched(typ);
      FireObjectSlot(spec, st, now, typ);
      assert SlotOf(x.st, typ).since == Some(x.st.failingSince[typ]);
    }
  }

  lemma AheadIsNotDue(spec: Spec, key: string, st: Tracked, now: Time)
    requires ObjectInv(spec, key, st) && Ahead(spec, now, st.failingSince)
    ensures st.timer.Some? ==> now < st.timer.value.at
  {
    EarliestDueIsMinimum(spec, st.failingSince);
  }

  lemma SettledIsAhead(spec: Spec, s: Sys, key: string, now: Time)
    requires Inv(spec, s) && key in s.objects && Settles(s, now)
    ensures Ahead(spec, now, s.objects[key].failingSince)
  {
    var st := s.objects[key];
    assert ObjectInv(spec, key, st);
    forall typ | typ in st.failingSince ensures now < st.failingSince[typ] + spec.minDuration {
      assert IsWatched(typ);
      SettledIsNotDue(spec, s, key, typ, now);
    }
  }

  lemma RearmedIn(live: multiset<Callback>, before: Option<Callback>, after: Option<Callback>)
    ensures forall cb :: cb in Rearmed(live, before, after) ==> cb in live || after == Some(cb)
  {
  }

  lemma PunctualUpdate(spec: Spec, s: Sys, now: Time, oldU: Obj, newU: Obj)
    requires Inv(spec, s) && !s.closed && Settles(s, now)
    ensures NothingOverdue(After(spec, s, Event(now, Update(oldU, newU))), now)
  {
    var st := Lookup(s, newU);
    var st' := UpdateObject(spec, st, oldU, newU, now).0;
    if newU.key in s.objects {
      assert ObjectInv(spec, newU.key, st);
      SettledIsAhead(spec, s, newU.key, now);
    }
    UpdateObjectInv(spec, st, oldU, newU, now);
    AheadAfterUpdate(spec, st, oldU, newU, now);
    AheadIsNotDue(spec, newU.key, st', now);
    RearmedIn(s.live, st.timer, st'.timer);
  }

  lemma PunctualFire(spec: Spec, s: Sys, now: Time, cb: Callback)
    requires Inv(spec, s) && NothingOverdue(s, now)
    ensures NothingOverdue(After(spec, s, Event(now, Fire(cb))), now)
  {
    if Matches(s, cb) {
      var st := s.objects[cb.key];
      var st' := FireObject(spec, cb.key, st, now).0;
      FireObjectInv(spec, cb.key, st, now);
      AheadAfterFire(spec, cb.key, st, now);
      AheadIsNotDue(spec, cb.key, st', now);
      RearmedIn(s.live - multiset{cb}, None, st'.timer);
    }
  }

  lemma {:induction false} PunctualRun(spec: Spec, es: seq<Event>)
    requires es != [] && Prompt(spec, es)
    ensures NothingOverdue(Run(spec, es), Last(es).now)
  {
    var s, e := Run(spec, Front(es)), Last(es);
    RunInv(spec, Front(es));
    match e.step
    case Update(oldU, newU) =>
      if !s.closed { PunctualUpdate(spec, s, e.now, oldU, newU); }
    case Fire(cb) => PunctualFire(spec, s, e.now, cb);
    case Forget(key) =>
    case Close =>
  }

  /******* Time goes on *******/

  // The pending failures of all objects.
  function Pending(s: Sys): set<(string, string)> {
    set k, typ | k in s.objects && typ in s.objects[k].failingSince :: (k, typ)
  }

  lemma FewerPending(s: Sys, s': Sys, key: string)
    requires key in s.objects && key in s'.objects && s'.objects == s.objects[key := s'.objects[key]]
    requires s'.objects[key].failingSince.Keys < s.objects[key].failingSince.Keys
    ensures |Pending(s')| < |Pending(s)|
  {
    assert !(s.objects[key].failingSince.Keys <= s'.objects[key].failingSince.Keys);
    var typ :| typ in s.objects[key].failingSince.Keys && typ !in s'.objects[key].failingSince.Keys;
    assert (key, typ) in Pending(s) - Pending(s');
    SmallerSet(Pending(s'), Pending(s));
  }

  lemma SmallerSet<T>(a: set<T>, b: set<T>)
    requires a < b
    ensures |a| < |b|
  {
    assert b == a + (b - a);
  }

  lemma ProperSubset(a: map<string, Time>, b: map<string, Time>)
    requires a.Keys <= b.Keys && |a| < |b|
    ensures a.Keys < b.Keys
  {
    assert |a| == |a.Keys| && |b| == |b.Keys|;
    assert a.Keys != b.Keys;
  }

  lemma DueStepDropsPending(spec: Spec, s: Sys, key: string)
    requires Inv(spec, s) && key in s.objects && s.objects[key].timer.Some?
    ensures |Pending(After(spec, s, DueCallback(s.objects[key])))| < |Pending(s)|
  {
    var st := s.objects[key];
    var cb, now := st.timer.value, st.timer.value.at;
    assert ObjectInv(spec, key, st);
    FireOnTime(spec, key, st, now);
    var st' := FireObject(spec, key, st, now).0;
    ProperSubset(st'.failingSince, st.failingSince);
    AcceptedCallback(spec, s, now, cb);
    FewerPending(s, After(spec, s, Event(now, Fire(cb))), key);
  }

  /******* Advancing the clock *******/

  // A prompt run, up to time `end`, of a clock that runs only what it holds.
  ghost predicate Ticks(spec: Spec, es: seq<Event>, end: Time) {
    Ordered(es) && Prompt(spec, es) && Held(spec, es) && (es != [] ==> Last(es).now <= end)
  }

  lemma {:induction false} EarliestHeld(live: multiset<Callback>, end: Time) returns (cb: Callback)
    requires exists c :: c in live && c.at <= end
    ensures cb in live && cb.at <= end && forall c :: c in live ==> cb.at <= c.at
    decreases |live|
  {
    cb :| cb in live && cb.at <= end;
    var rest := live[cb := 0];
    if exists c :: c in rest && c.at <= cb.at {
      assert |rest| < |live|;
      var c := EarliestHeld(rest, cb.at);
      cb := c;
    }
  }

  // The next callback the clock holds is the due timer of an object.
  lemma HeldStep(spec: Spec, s: Sys, cb: Callback)
    requires Inv(spec, s) && HoldsTimers(s) && cb in s.live
    ensures var e := Event(cb.at, Fire(cb));
      |Pending(After(spec, s, e))| < |Pending(s)| && Emit(spec, s, e).Some?
  {
    HeldIsAccepted(spec, s, cb);
    assert Event(cb.at, Fire(cb)) == DueCallback(s.objects[cb.key]);
    DueStep(spec, s, cb.key);
    DueStepDropsPending(spec, s, cb.key);
  }

  lemma OrderedAppend(es: seq<Event>, e: Event)
    requires Ordered(es) && (es != [] ==> Last(es).now <= e.now)
    ensures Ordered(es + [e])
  {
  }

  lemma TickAppend(spec: Spec, es: seq<Event>, e: Event, end: Time)
    requires Ticks(spec, es, end) && e.now <= end && (es != [] ==> Last(es).now <= e.now)
    requires PromptStep(Run(spec, es), e) && RunsHeld(Run(spec, es), e)
    ensures Ticks(spec, es + [e], end)
  {
    assert Front(es + [e]) == es && Last(es + [e]) == e;
    OrderedAppend(es, e);
  }

  lemma AppendIsStep(spec: Spec, es: seq<Event>, e: Event)
    ensures Run(spec, es + [e]) == After(spec, Run(spec, es), e)
    ensures LastPitch(spec, es + [e]) == Emit(spec, Run(spec, es), e)
  {
    assert Front(es + [e]) == es && Last(es + [e]) == e;
  }

  ghost predicate IsNext(s: Sys, cb: Callback) {
    cb in s.live && forall c :: c in s.live ==> cb.at <= c.at
  }

  lemma TickOn(spec: Spec, es: seq<Event>, cb: Callback, end: Time)
    requires Ticks(spec, es, end) && cb.at <= end && IsNext(Run(spec, es), cb)
    ensures var es' := es + [Event(cb.at, Fire(cb))];
      && Ticks(spec, es', end) && LastPitch(spec, es').Some?
      && |Pending(Run(spec, es'))| < |Pending(Run(spec, es))|
  {
    if es != [] {
      PunctualRun(spec, es);
    }
    TickAppend(spec, es, Event(cb.at, Fire(cb)), end);
    AppendIsStep(spec, es, Event(cb.at, Fire(cb)));
    RunInv(spec, es);
    HoldsRun(spec, es);
    HeldStep(spec, Run(spec, es), cb);
  }

  // Callbacks that are run after es, each of which pitches something.
  ghost predicate PitchingCallbacks(spec: Spec, es: seq<Event>, more: seq<Event>) {
    forall i :: 0 <= i < |more| ==> more[i].step.Fire? && LastPitch(spec, es + more[..i + 1]).Some?
  }

  lemma PrefixOfMore(es: seq<Event>, e: Event, more: seq<Event>, i: nat)
    requires i <= |more|
    ensures es + ([e] + more)[..i + 1] == es + [e] + more[..i]
  {
  }

  lemma OneCallbackMore(spec: Spec, es: seq<Event>, e: Event, more: seq<Event>)
    requires e.step.Fire? && LastPitch(spec, es + [e]).Some? && PitchingCallbacks(spec, es + [e], more)
    ensures PitchingCallbacks(spec, es, [e] + more)
  {
    forall i | 0 <= i < |more| + 1
      ensures ([e] + more)[i].step.Fire? && LastPitch(spec, es + ([e] + more)[..i + 1]).Some?
    {
      PrefixOfMore(es, e, more, i);
      if i == 0 {
        assert es + [e] + more[..0] == es + [e];
      } else {
        assert more[i - 1].step.Fire? && LastPitch(spec, es + [e] + more[..i - 1 + 1]).Some?;
      }
    }
  }

  ghost predicate Arrives(spec: Spec, es: seq<Event>, end: Time) {
    Ticks(spec, es, end) && Settles(Run(spec, es), end)
  }

  // `more` are callbacks that take the run es to time `end`: each of them
  // pitches, and none is due by then.
  ghost predicate Advances(spec: Spec, es: seq<Event>, more: seq<Event>, end: Time) {
    Arrives(spec, es + more, end) && PitchingCallbacks(spec, es, more)
  }

  lemma NothingToRun(spec: Spec, es: seq<Event>, end: Time)
    requires Ticks(spec, es, end) && Settles(Run(spec, es), end)
    ensures Advances(spec, es, [], end)
  {
    assert es + [] == es;
  }

  lemma OneMoreAdvances(spec: Spec, es: seq<Event>, e: Event, rest: seq<Event>, end: Time)
    requires e.step.Fire? && LastPitch(spec, es + [e]).Some? && Advances(spec, es + [e], rest, end)
    ensures Advances(spec, es, [e] + rest, end)
  {
    Regroup(es, e, rest);
    OneCallbackMore(spec, es, e, rest);
  }

  lemma Regroup(es: seq<Event>, e: Event, rest: seq<Event>)
    ensures es + ([e] + rest) == es + [e] + rest
  {
  }

  lemma NextHeld(s: Sys, end: Time) returns (cb: Callback)
    requires !Settles(s, end)
    ensures IsNext(s, cb) && cb.at <= end
  {
    cb := EarliestHeld(s.live, end);
  }

  // From any prompt run of a clock that ran only what it held, the clock gets to
  // any later time by running what falls due; it takes no more callbacks than
  // failures are pending.
  lemma {:induction false} AdvanceTo(spec: Spec, es: seq<Event>, end: Time) returns (more: seq<Event>)
    requires Ticks(spec, es, end)
    ensures Advances(spec, es, more, end) && |more| <= |Pending(Run(spec, es))|
    decreases |Pending(Run(spec, es))|
  {
    if Settles(Run(spec, es), end) {
      NothingToRun(spec, es, end);
      more := [];
    } else {
      var cb := NextHeld(Run(spec, es), end);
      var e := Event(cb.at, Fire(cb));
      TickOn(spec, es, cb, end);
      var rest := AdvanceTo(spec, es + [e], end);
      OneMoreAdvances(spec, es, e, rest, end);
      more := [e] + rest;
    }
  }
}
