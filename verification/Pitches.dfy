// What the last step of a run pitches, told from the settings, the states and
// the updates alone: which states are skipped, which event goes out, what it
// says and of which object.
module Pitches {
  import opened Common
  import opened TrackerSpec
  import opened Slots
  import opened Invariant
  import opened Detector
  import opened PlainFlips
  import opened Advance

  // The last step is an update of an open tracker.
  predicate UpdatesLast(es: seq<Event>) {
    es != [] && !ClosedBy(Front(es)) && Last(es).step.Update?
  }

  /******* Ignored states *******/

  // A state with an ignored status, or with a reason that is ignored, leaves
  // everything known about its condition alone and pitches nothing of it; any
  // other becomes the current one.
  lemma {:induction false} IgnoredIff(spec: Spec, es: seq<Event>, typ: string, c: Cond)
    requires UpdatesLast(es) && IsWatched(typ)
    requires typ in Last(es).step.newU.conds && Last(es).step.newU.conds[typ] == c
    ensures
      var key := Last(es).step.newU.key;
      if c.status in spec.ignoreStatuses || (c.reason != "" && c.reason in spec.ignoreReasons) then
        && SlotAt(Run(spec, es), key, typ) == SlotAt(Run(spec, Front(es)), key, typ)
        && PitchedStates(LastPitch(spec, es), key, typ) == []
      else
        SlotAt(Run(spec, es), key, typ).current == Some(c)
  {
    ClosedByRun(spec, Front(es));
    var slot, input, o, out := ConditionStep(spec, es, Last(es).step.newU.key, typ);
  }

  /******* Events *******/

  // Whatever pitches flips: Ready to False makes the event an error, any other
  // failure a warning, and only recoveries make it a success.
  lemma {:induction false} SeverityOfPitch(spec: Spec, es: seq<Event>)
    requires es != [] && LastPitch(spec, es).Some? && LastPitch(spec, es).value.event.flips != []
    ensures SaysWorst(LastPitch(spec, es).value.event)
  {
    SeverityIsWorst(LastPitch(spec, es).value.event.flips);
  }

  // An update without flips is pitched if and only if the generation changed
  // and the informer wants more than flips; whatever minDuration is, and
  // whatever is pending or ignored.
  lemma {:induction false} UpdateWithoutFlips(spec: Spec, es: seq<Event>)
    requires UpdatesLast(es) && (LastPitch(spec, es).Some? ==> LastPitch(spec, es).value.event.flips == [])
    ensures
      var oldU, newU := Last(es).step.oldU, Last(es).step.newU;
      LastPitch(spec, es) ==
        if spec.updates != "flips" && oldU.generation != newU.generation
        then Some(Pitch(newU, K8sEvent([], "info", None))) else None
  {
    ClosedByRun(spec, Front(es));
  }

  lemma {:induction false} UpdateWithFlips(spec: Spec, es: seq<Event>)
    requires es != [] && Last(es).step.Update?
    requires LastPitch(spec, es).Some? && LastPitch(spec, es).value.event.flips != []
    ensures LastPitch(spec, es).value.obj == Last(es).step.newU && LastPitch(spec, es).value.event.failing.None?
  {
  }

  // Only updates and callbacks pitch, and a callback never without flips.
  lemma {:induction false} OthersAreSilent(spec: Spec, es: seq<Event>)
    requires es != [] && LastPitch(spec, es).Some?
    ensures Last(es).step.Update? || Last(es).step.Fire?
    ensures Last(es).step.Fire? ==> LastPitch(spec, es).value.event.flips != []
  {
  }

  /******* Flips *******/

  lemma ExpireTypeAddsOne(spec: Spec, now: Time, acc: Expired, typ: string) returns (c: Option<Cond>)
    ensures ExpireType(spec, now, acc, typ).flips == acc.flips + One(typ, c)
  {
    var st := acc.st;
    if typ !in st.failingSince || now < st.failingSince[typ] + spec.minDuration {
      c := None;
    } else {
      c := Some(if typ in st.current then st.current[typ] else NOT_KNOWN);
    }
  }

  lemma ExpiredListed(spec: Spec, now: Time, st: Tracked) returns (a: Option<Cond>, b: Option<Cond>)
    ensures ExpireUpTo(spec, now, st, |WATCHED|).flips == Listed(a, b)
  {
    var x0 := Expired(st, [], Failing(0, None));
    var x1 := ExpireType(spec, now, x0, WATCHED[0]);
    ExpireTwice(spec, now, st);
    a := ExpireTypeAddsOne(spec, now, x0, WATCHED[0]);
    b := ExpireTypeAddsOne(spec, now, x1, WATCHED[1]);
    assert [] + One(WATCHED[0], a) == One(WATCHED[0], a);
  }

  lemma EmittedListed(spec: Spec, s: Sys, e: Event) returns (a: Option<Cond>, b: Option<Cond>)
    requires Emit(spec, s, e).Some?
    ensures Emit(spec, s, e).value.event.flips == Listed(a, b)
  {
    match e.step
    case Update(oldU, newU) =>
      a, b := ObservedListed(spec, oldU, newU, e.now, Lookup(s, newU).(obj := newU));
      if Listed(a, b) == [] {
        a, b := None, None;
      }
    case Fire(cb) =>
      a, b := ExpiredListed(spec, e.now, s.objects[cb.key].(timer := None));
    case Forget(_) =>
    case Close =>
  }

  // The flips of a pitch are one of Ready, if any, and then one of Synced.
  lemma {:induction false} FlipsInOrder(spec: Spec, es: seq<Event>) returns (ready: Option<Cond>, synced: Option<Cond>)
    requires es != [] && LastPitch(spec, es).Some?
    ensures
      var p := LastPitch(spec, es).value;
      && p.event.flips == (if ready.Some? then [Flip("Ready", ready.value)] else [])
                        + (if synced.Some? then [Flip("Synced", synced.value)] else [])
      && PitchedStates(Some(p), p.obj.key, "Ready") == AsSeq(ready)
      && PitchedStates(Some(p), p.obj.key, "Synced") == AsSeq(synced)
  {
    ready, synced := EmittedListed(spec, Run(spec, Front(es)), Last(es));
    ListedStates(ready, synced, "Ready");
    ListedStates(ready, synced, "Synced");
  }

  /******* Objects *******/

  // The version of an object that the tracker keeps.
  function Kept(s: Sys, key: string): Option<Obj> {
    if key in s.objects then Some(s.objects[key].obj) else None
  }

  lemma KeptByUpdate(spec: Spec, s: Sys, now: Time, oldU: Obj, newU: Obj, key: string)
    requires Inv(spec, s) && !s.closed
    ensures Kept(After(spec, s, Event(now, Update(oldU, newU))), key) == if newU.key == key then Some(newU) else Kept(s, key)
  {
    assert newU.key in s.objects ==> ObjectInv(spec, newU.key, s.objects[newU.key]);
    UpdateObjectInv(spec, Lookup(s, newU), oldU, newU, now);
  }

  lemma KeptByFire(spec: Spec, s: Sys, now: Time, cb: Callback, key: string)
    requires Inv(spec, s)
    ensures Kept(After(spec, s, Event(now, Fire(cb))), key) == Kept(s, key)
  {
    if Matches(s, cb) {
      assert ObjectInv(spec, cb.key, s.objects[cb.key]);
      FireObjectInv(spec, cb.key, s.objects[cb.key], now);
      AfterHeld(spec, s, now, cb, FireObject(spec, cb.key, s.objects[cb.key], now).0);
    }
  }

  lemma KeptAfter(spec: Spec, s: Sys, e: Event, key: string)
    requires Inv(spec, s) && !s.closed
    ensures Kept(After(spec, s, e), key) ==
      match e.step
      case Update(_, newU) => if newU.key == key then Some(newU) else Kept(s, key)
      case Fire(_) => Kept(s, key)
      case Forget(k) => if k == key then None else Kept(s, key)
      case Close => None
  {
    match e.step
    case Update(oldU, newU) => KeptByUpdate(spec, s, e.now, oldU, newU, key);
    case Fire(cb) => KeptByFire(spec, s, e.now, cb, key);
    case Forget(_) =>
    case Close =>
  }

  // Every tracked object is kept in the latest version a run was told.
  lemma {:induction false} KeptIsLatest(spec: Spec, es: seq<Event>, key: string)
    requires !ClosedBy(es)
    ensures Kept(Run(spec, es), key) == Latest(es, key)
  {
    if es != [] {
      KeptIsLatest(spec, Front(es), key);
      RunInv(spec, Front(es));
      ClosedByRun(spec, Front(es));
      KeptAfter(spec, Run(spec, Front(es)), Last(es), key);
    }
  }

  // What a step pitches is about the latest version of the object.
  lemma {:induction false} PitchesLatest(spec: Spec, es: seq<Event>)
    requires es != [] && LastPitch(spec, es).Some?
    ensures var obj := LastPitch(spec, es).value.obj; Latest(es, obj.key) == Some(obj)
  {
    var s := Run(spec, Front(es));
    ClosedByRun(spec, Front(es));
    RunInv(spec, Front(es));
    if Last(es).step.Fire? {
      var key := Last(es).step.cb.key;
      assert ObjectInv(spec, key, s.objects[key]);
      KeptIsLatest(spec, Front(es), key);
    }
  }

  /******* Timers *******/

  // An update keeps the timer of an object if and only if it leaves the earliest
  // deadline as it is; then the clock is not touched.
  lemma {:induction false} TimerKeptIff(spec: Spec, es: seq<Event>)
    requires UpdatesLast(es) && Last(es).step.newU.key in Run(spec, Front(es)).objects
    requires Run(spec, Front(es)).objects[Last(es).step.newU.key].timer.Some?
    ensures
      var key, s, s' := Last(es).step.newU.key, Run(spec, Front(es)), Run(spec, es);
      && key in s'.objects
      && (s'.objects[key].timer == s.objects[key].timer <==> s'.objects[key].due == s.objects[key].due)
      && (s'.objects[key].timer == s.objects[key].timer ==> s'.live == s.live)
  {
    var key, s := Last(es).step.newU.key, Run(spec, Front(es));
    var st, oldU, newU := s.objects[key], Last(es).step.oldU, Last(es).step.newU;
    ClosedByRun(spec, Front(es));
    RunInv(spec, Front(es));
    assert ObjectInv(spec, key, st);
    UpdateKeepsOrArms(spec, st, oldU, newU, Last(es).now);
  }

  lemma UpdateKeepsOrArms(spec: Spec, st: Tracked, oldU: Obj, newU: Obj, now: Time)
    requires ObjectInv(spec, newU.key, st) && st.timer.Some?
    ensures var st' := UpdateObject(spec, st, oldU, newU, now).0; st'.timer == st.timer <==> st'.due == st.due
  {
    var o := ObserveUpTo(spec, oldU, newU, now, st.(obj := newU), |WATCHED|);
    ObserveOnlyWatched(spec, oldU, newU, now, st.(obj := newU), |WATCHED|);
    ScheduleInv(spec, newU.key, o.st);
  }
}
