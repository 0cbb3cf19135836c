// What every reachable state of the tracker satisfies, whatever callbacks the
// environment runs and whenever it runs them.
module Invariant {
  import opened Common
  import opened TrackerSpec
  import opened Slots

  predicate IsWatched(typ: string) {
    typ in WATCHED
  }

  // Reported and current are known together; a failure is pending exactly
  // while they differ, is never True, and only exists with minDuration.
  ghost predicate SlotInv(spec: Spec, s: Slot) {
    && (s.reported.Some? <==> s.current.Some?)
    && (s.since.Some? <==> s.current.Some? && s.current.value.status != s.reported.value.status)
    && (s.since.Some? ==> s.current.value.status != "True" && spec.minDuration > 0)
    && (s.current.Some? ==> !spec.Ignores(s.current.value))
  }

  ghost predicate OnlyWatched(st: Tracked) {
    && (forall typ :: typ in st.reported ==> IsWatched(typ))
    && (forall typ :: typ in st.current ==> IsWatched(typ))
    && (forall typ :: typ in st.failingSince ==> IsWatched(typ))
  }

  ghost predicate SlotsInv(spec: Spec, st: Tracked) {
    OnlyWatched(st) && forall typ :: IsWatched(typ) ==> SlotInv(spec, SlotOf(st, typ))
  }

  // The timer is armed for the earliest pending deadline, with the current
  // sequence number, and for nothing else.
  ghost predicate TimerInv(spec: Spec, key: string, st: Tracked) {
    && st.due == EarliestDue(spec, st.failingSince)
    && st.timer == if st.due.Some? then Some(Callback(key, st.seqNo, st.due.value)) else None
  }

  ghost predicate ObjectInv(spec: Spec, key: string, st: Tracked) {
    st.obj.key == key && SlotsInv(spec, st) && TimerInv(spec, key, st)
  }

  ghost predicate Inv(spec: Spec, s: Sys) {
    && (s.closed ==> s.objects == map[])
    && (forall k :: k in s.objects ==> ObjectInv(spec, k, s.objects[k]))
    && (forall k :: k in s.objects && s.objects[k].timer.Some? ==> s.objects[k].timer.value in s.live)
  }

  /******* Deadlines *******/

  // due is the deadline of some pending failure and no later than any of them.
  lemma EarliestDueIsMinimum(spec: Spec, fs: map<string, Time>)
    requires forall typ :: typ in fs ==> IsWatched(typ)
    ensures EarliestDue(spec, fs).None? <==> fs == map[]
    ensures EarliestDue(spec, fs).Some? ==>
      exists typ :: typ in fs && EarliestDue(spec, fs).value == fs[typ] + spec.minDuration
    ensures forall typ :: typ in fs ==>
      EarliestDue(spec, fs).Some? && EarliestDue(spec, fs).value <= fs[typ] + spec.minDuration
  {
    var r, y := WATCHED[0], WATCHED[1];
    assert forall typ :: IsWatched(typ) <==> typ == r || typ == y;
    var due := EarliestDue(spec, fs);
    if due.Some? {
      var typ := if r in fs && due.value == fs[r] + spec.minDuration then r else y;
      assert typ in fs && due.value == fs[typ] + spec.minDuration;
    } else {
      assert fs == map[];
    }
  }

  /******* Only watched conditions are pitched *******/

  ghost predicate FlipsWatched(flips: seq<Flip>) {
    forall f :: f in flips ==> IsWatched(f.typ)
  }

  lemma ObserveFlipsWatched(spec: Spec, oldU: Obj, newU: Obj, now: Time, st: Tracked, n: nat)
    requires n <= |WATCHED|
    ensures FlipsWatched(ObserveUpTo(spec, oldU, newU, now, st, n).flips)
  {
    if n > 0 {
      ObserveFlipsWatched(spec, oldU, newU, now, st, n - 1);
      assert IsWatched(WATCHED[n - 1]);
    }
  }

  lemma ExpireFlipsWatched(spec: Spec, now: Time, st: Tracked, n: nat)
    requires n <= |WATCHED|
    ensures FlipsWatched(ExpireUpTo(spec, now, st, n).flips)
  {
    if n > 0 {
      ExpireFlipsWatched(spec, now, st, n - 1);
      assert IsWatched(WATCHED[n - 1]);
    }
  }

  lemma EmittedFlipsWatched(spec: Spec, s: Sys, e: Event)
    requires Emit(spec, s, e).Some?
    ensures FlipsWatched(Emit(spec, s, e).value.event.flips)
  {
    match e.step
    case Update(oldU, newU) =>
      ObserveFlipsWatched(spec, oldU, newU, e.now, Lookup(s, newU).(obj := newU), |WATCHED|);
    case Fire(cb) =>
      ExpireFlipsWatched(spec, e.now, s.objects[cb.key].(timer := None), |WATCHED|);
    case Forget(_) =>
    case Close =>
  }

  /******* Preservation *******/

  lemma ObserveTypeOnlyWatched(spec: Spec, oldU: Obj, newU: Obj, now: Time, acc: Observed, typ: string)
    requires IsWatched(typ) && OnlyWatched(acc.st)
    ensures OnlyWatched(ObserveType(spec, oldU, newU, now, acc, typ).st)
  {
  }

  // The passes over the conditions leave object and timer alone.
  ghost predicate SameTimer(a: Tracked, b: Tracked) {
    a.obj == b.obj && a.timer == b.timer && a.due == b.due && a.seqNo == b.seqNo
  }

  lemma ObserveTypeKeepsTimer(spec: Spec, oldU: Obj, newU: Obj, now: Time, acc: Observed, typ: string)
    ensures SameTimer(ObserveType(spec, oldU, newU, now, acc, typ).st, acc.st)
  {
  }

  lemma {:induction false} ObserveOnlyWatched(spec: Spec, oldU: Obj, newU: Obj, now: Time, st: Tracked, n: nat)
    requires n <= |WATCHED| && OnlyWatched(st)
    ensures OnlyWatched(ObserveUpTo(spec, oldU, newU, now, st, n).st)
    ensures SameTimer(ObserveUpTo(spec, oldU, newU, now, st, n).st, st)
  {
    if n > 0 {
      var acc := ObserveUpTo(spec, oldU, newU, now, st, n - 1);
      ObserveOnlyWatched(spec, oldU, newU, now, st, n - 1);
      assert IsWatched(WATCHED[n - 1]);
      ObserveTypeOnlyWatched(spec, oldU, newU, now, acc, WATCHED[n - 1]);
      ObserveTypeKeepsTimer(spec, oldU, newU, now, acc, WATCHED[n - 1]);
    }
  }

  lemma ExpireOnlyWatched(spec: Spec, now: Time, st: Tracked, n: nat)
    requires n <= |WATCHED| && OnlyWatched(st)
    ensures OnlyWatched(ExpireUpTo(spec, now, st, n).st) && SameTimer(ExpireUpTo(spec, now, st, n).st, st)
  {
    if n > 0 {
      ExpireOnlyWatched(spec, now, st, n - 1);
      assert IsWatched(WATCHED[n - 1]);
    }
  }

  lemma ScheduleInv(spec: Spec, key: string, st: Tracked)
    requires st.timer.None? || (st.due.Some? && st.timer == Some(Callback(key, st.seqNo, st.due.value)))
    ensures var st' := Schedule(spec, key, st);
      && TimerInv(spec, key, st')
      && st'.(timer := st.timer, due := st.due, seqNo := st.seqNo) == st
      && (st' == st || st'.seqNo == st.seqNo + 1)
      && (st.timer.None? ==> st'.seqNo == st.seqNo + 1)
  {
  }

  lemma ObservedSlotInv(spec: Spec, st: Tracked, oldU: Obj, newU: Obj, now: Time, typ: string)
    requires IsWatched(typ) && SlotInv(spec, SlotOf(st, typ))
    ensures SlotInv(spec, SlotOf(ObserveUpTo(spec, oldU, newU, now, st.(obj := newU), |WATCHED|).st, typ))
  {
    UpdateObjectSlot(spec, st, oldU, newU, now, typ);
  }

  lemma ObserveSlotsInv(spec: Spec, st: Tracked, oldU: Obj, newU: Obj, now: Time)
    requires SlotsInv(spec, st)
    ensures SlotsInv(spec, ObserveUpTo(spec, oldU, newU, now, st.(obj := newU), |WATCHED|).st)
  {
    ObserveOnlyWatched(spec, oldU, newU, now, st.(obj := newU), |WATCHED|);
    forall typ | IsWatched(typ)
      ensures SlotInv(spec, SlotOf(ObserveUpTo(spec, oldU, newU, now, st.(obj := newU), |WATCHED|).st, typ))
    {
      ObservedSlotInv(spec, st, oldU, newU, now, typ);
    }
  }

  // The timer and the sequence number do not matter to the slots.
  lemma SameMapsSameSlots(spec: Spec, a: Tracked, b: Tracked)
    requires SlotsInv(spec, a)
    requires b.reported == a.reported && b.current == a.current && b.failingSince == a.failingSince
    ensures SlotsInv(spec, b)
  {
    assert forall typ :: SlotOf(b, typ) == SlotOf(a, typ);
  }

  lemma UpdateObjectInv(spec: Spec, st: Tracked, oldU: Obj, newU: Obj, now: Time)
    requires SlotsInv(spec, st)
    requires st.timer.None? || TimerInv(spec, newU.key, st)
    ensures ObjectInv(spec, newU.key, UpdateObject(spec, st, oldU, newU, now).0)
    ensures UpdateObject(spec, st, oldU, newU, now).0.obj == newU
  {
    var o := ObserveUpTo(spec, oldU, newU, now, st.(obj := newU), |WATCHED|);
    ObserveOnlyWatched(spec, oldU, newU, now, st.(obj := newU), |WATCHED|);
    ObserveSlotsInv(spec, st, oldU, newU, now);
    ScheduleInv(spec, newU.key, o.st);
    SameMapsSameSlots(spec, o.st, Schedule(spec, newU.key, o.st));
  }

  lemma ExpiredSlotInv(spec: Spec, st: Tracked, now: Time, typ: string)
    requires IsWatched(typ) && SlotInv(spec, SlotOf(st, typ))
    ensures SlotInv(spec, SlotOf(ExpireUpTo(spec, now, st.(timer := None), |WATCHED|).st, typ))
  {
    FireObjectSlot(spec, st, now, typ);
  }

  lemma ExpireSlotsInv(spec: Spec, st: Tracked, now: Time)
    requires SlotsInv(spec, st)
    ensures SlotsInv(spec, ExpireUpTo(spec, now, st.(timer := None), |WATCHED|).st)
  {
    ExpireOnlyWatched(spec, now, st.(timer := None), |WATCHED|);
    forall typ | IsWatched(typ)
      ensures SlotInv(spec, SlotOf(ExpireUpTo(spec, now, st.(timer := None), |WATCHED|).st, typ))
    {
      ExpiredSlotInv(spec, st, now, typ);
    }
  }

  lemma FireObjectInv(spec: Spec, key: string, st: Tracked, now: Time)
    requires ObjectInv(spec, key, st)
    ensures var st' := FireObject(spec, key, st, now).0;
      ObjectInv(spec, key, st') && st'.obj == st.obj && st'.seqNo == st.seqNo + 1
  {
    var x := ExpireUpTo(spec, now, st.(timer := None), |WATCHED|);
    ExpireOnlyWatched(spec, now, st.(timer := None), |WATCHED|);
    ExpireSlotsInv(spec, st, now);
    ScheduleInv(spec, key, x.st);
    SameMapsSameSlots(spec, x.st, Schedule(spec, key, x.st));
  }

  // Replacing one object keeps the invariant when the timers of the others stay live.
  lemma ReplaceInv(spec: Spec, s: Sys, key: string, st: Tracked, live: multiset<Callback>)
    requires Inv(spec, s) && !s.closed
    requires ObjectInv(spec, key, st) && (st.timer.Some? ==> st.timer.value in live)
    requires forall cb :: cb in s.live && cb.key != key ==> cb in live
    ensures Inv(spec, Sys(s.objects[key := st], false, live))
  {
    var s' := Sys(s.objects[key := st], false, live);
    forall k | k in s'.objects
      ensures ObjectInv(spec, k, s'.objects[k])
      ensures s'.objects[k].timer.Some? ==> s'.objects[k].timer.value in live
    {
      if k != key {
        assert ObjectInv(spec, k, s.objects[k]);
      }
    }
  }

  lemma RearmedKeepsOthers(live: multiset<Callback>, key: string, before: Option<Callback>, after: Option<Callback>)
    requires before.Some? ==> before.value.key == key && before.value in live
    ensures forall cb :: cb in live && cb.key != key ==> cb in Rearmed(live, before, after)
    ensures after.Some? ==> after.value in Rearmed(live, before, after)
  {
  }

  lemma UpdateInv(spec: Spec, s: Sys, now: Time, oldU: Obj, newU: Obj)
    requires Inv(spec, s) && !s.closed
    ensures Inv(spec, After(spec, s, Event(now, Update(oldU, newU))))
  {
    var st := Lookup(s, newU);
    assert newU.key in s.objects ==> ObjectInv(spec, newU.key, st);
    UpdateObjectInv(spec, st, oldU, newU, now);
    var st' := UpdateObject(spec, st, oldU, newU, now).0;
    RearmedKeepsOthers(s.live, newU.key, st.timer, st'.timer);
    ReplaceInv(spec, s, newU.key, st', Rearmed(s.live, st.timer, st'.timer));
  }

  lemma FireInv(spec: Spec, s: Sys, now: Time, cb: Callback)
    requires Inv(spec, s)
    ensures Inv(spec, After(spec, s, Event(now, Fire(cb))))
  {
    var live := s.live - multiset{cb};
    if Matches(s, cb) {
      var st := s.objects[cb.key];
      FireObjectInv(spec, cb.key, st, now);
      var st' := FireObject(spec, cb.key, st, now).0;
      RearmedKeepsOthers(live, cb.key, None, st'.timer);
      ReplaceInv(spec, s, cb.key, st', Rearmed(live, None, st'.timer));
    } else {
      forall k | k in s.objects && s.objects[k].timer.Some? ensures s.objects[k].timer.value in live {
        assert ObjectInv(spec, k, s.objects[k]);
        assert s.objects[k].timer.value != cb;
      }
    }
  }

  lemma ForgetInv(spec: Spec, s: Sys, now: Time, key: string)
    requires Inv(spec, s)
    ensures Inv(spec, After(spec, s, Event(now, Forget(key))))
  {
    if key in s.objects {
      var live := Without(s.live, s.objects[key].timer);
      forall k | k in s.objects && k != key && s.objects[k].timer.Some? ensures s.objects[k].timer.value in live {
        assert ObjectInv(spec, k, s.objects[k]) && ObjectInv(spec, key, s.objects[key]);
      }
    }
  }

  // Every step keeps the invariant: update, an arbitrary callback, forget and
  // re-creation, close.
  lemma StepInv(spec: Spec, s: Sys, e: Event)
    requires Inv(spec, s)
    ensures Inv(spec, After(spec, s, e))
  {
    match e.step
    case Update(oldU, newU) =>
      if !s.closed { UpdateInv(spec, s, e.now, oldU, newU); }
    case Fire(cb) => FireInv(spec, s, e.now, cb);
    case Forget(key) => ForgetInv(spec, s, e.now, key);
    case Close =>
  }

  lemma {:induction false} RunInv(spec: Spec, es: seq<Event>)
    ensures Inv(spec, Run(spec, es))
  {
    if es != [] {
      RunInv(spec, Front(es));
      StepInv(spec, Run(spec, Front(es)), Last(es));
    }
  }

  // Every timer carries the key of its object.
  ghost predicate OwnTimers(objects: map<string, Tracked>) {
    forall k :: k in objects && objects[k].timer.Some? ==> objects[k].timer.value.key == k
  }

  lemma TimersAreOwn(spec: Spec, s: Sys)
    requires Inv(spec, s)
    ensures OwnTimers(s.objects)
  {
    forall k | k in s.objects && s.objects[k].timer.Some? ensures s.objects[k].timer.value.key == k {
      assert ObjectInv(spec, k, s.objects[k]);
    }
  }

  // No pending failure is ever lost: after any run an object has a timer if
  // and only if a failure is pending, and then a callback that is due at the
  // earliest deadline and will be accepted is still with the clock.
  lemma NoPendingFailureIsLost(spec: Spec, es: seq<Event>, key: string)
    requires key in Run(spec, es).objects
    ensures var s := Run(spec, es); var st := s.objects[key];
      && (st.timer.Some? <==> st.failingSince != map[])
      && (st.timer.Some? ==>
            && st.timer.value in s.live
            && Matches(s, st.timer.value)
            && (exists typ :: typ in st.failingSince && st.timer.value.at == st.failingSince[typ] + spec.minDuration)
            && (forall typ :: typ in st.failingSince ==> st.timer.value.at <= st.failingSince[typ] + spec.minDuration))
  {
    RunInv(spec, es);
    EarliestDueIsMinimum(spec, Run(spec, es).objects[key].failingSince);
  }

  // The maps of an object agree with each other after any run.
  lemma MapsAgree(spec: Spec, es: seq<Event>, key: string)
    requires key in Run(spec, es).objects
    ensures var st := Run(spec, es).objects[key];
      && st.obj.key == key
      && st.reported.Keys == st.current.Keys
      && (forall typ :: typ in st.failingSince <==>
            typ in st.current && typ in st.reported && st.current[typ].status != st.reported[typ].status)
      && (forall typ :: typ in st.failingSince ==> st.current[typ].status != "True")
      && (spec.minDuration <= 0 ==> st.failingSince == map[])
  {
    RunInv(spec, es);
    var st := Run(spec, es).objects[key];
    forall typ ensures IsWatched(typ) ==> SlotInv(spec, SlotOf(st, typ)) {}
    forall typ ensures typ in st.reported <==> typ in st.current {
      assert IsWatched(typ) ==> SlotInv(spec, SlotOf(st, typ));
    }
    forall typ ensures typ in st.failingSince <==>
            typ in st.current && typ in st.reported && st.current[typ].status != st.reported[typ].status {
      assert IsWatched(typ) ==> SlotInv(spec, SlotOf(st, typ));
    }
    forall typ | typ in st.failingSince ensures st.current[typ].status != "True" && spec.minDuration > 0 {
      assert IsWatched(typ) ==> SlotInv(spec, SlotOf(st, typ));
    }
  }
}
