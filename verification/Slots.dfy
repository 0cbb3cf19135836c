// One watched condition of one object, seen on its own. The maps of an object
// are projected to a Slot, every step to what it means for that slot, and the
// projection is shown to commute with the steps of the tracker.
module Slots {
  import opened Common
  import opened TrackerSpec

  datatype Slot = Slot(reported: Option<Cond>, current: Option<Cond>, since: Option<Time>)

  const EMPTY := Slot(None, None, None)

  datatype Input =
    | Observe(before: Option<Cond>, after: Cond)  // a state that is not ignored
    | Expire                                      // the callback of the object runs
    | Reset                                       // the object is forgotten
    | Skip

  datatype Output = Output(slot: Slot, flips: seq<Cond>)

  function ObserveSlot(spec: Spec, s: Slot, now: Time, before: Option<Cond>, after: Cond): Output {
    var rep := if s.reported.Some? then s.reported.value else Baseline(spec, before, after);
    if after.status == rep.status then
      Output(Slot(Some(rep), Some(after), None), [])
    else if after.status == "True" then
      Output(Slot(Some(after), Some(after), None), if rep.status != "" then [after] else [])
    else if spec.minDuration <= 0 then
      Output(Slot(Some(after), Some(after), s.since), [after])
    else
      Output(Slot(Some(rep), Some(after), if s.since.Some? then s.since else Some(now)), [])
  }

  function ExpireSlot(spec: Spec, s: Slot, now: Time): Output {
    if s.since.Some? && s.since.value + spec.minDuration <= now then
      var state := if s.current.Some? then s.current.value else NOT_KNOWN;
      Output(Slot(Some(state), s.current, None), [state])
    else
      Output(s, [])
  }

  function NextSlot(spec: Spec, s: Slot, now: Time, input: Input): Output {
    match input
    case Observe(before, after) => ObserveSlot(spec, s, now, before, after)
    case Expire => ExpireSlot(spec, s, now)
    case Reset => Output(EMPTY, [])
    case Skip => Output(s, [])
  }

  function InputOf(spec: Spec, s: Sys, step: Step, key: string, typ: string): Input {
    match step
    case Update(oldU, newU) =>
      if s.closed || newU.key != key || typ !in newU.conds || spec.Ignores(newU.conds[typ]) then Skip
      else Observe(Get(oldU.conds, typ), newU.conds[typ])
    case Fire(cb) => if cb.key == key && Matches(s, cb) then Expire else Skip
    case Forget(k) => if k == key then Reset else Skip
    case Close => Reset
  }

  function SlotOf(st: Tracked, typ: string): Slot {
    Slot(Get(st.reported, typ), Get(st.current, typ), Get(st.failingSince, typ))
  }

  function SlotAt(s: Sys, key: string, typ: string): Slot {
    if key in s.objects then SlotOf(s.objects[key], typ) else EMPTY
  }

  /******* The projection commutes with the loops of update and fire *******/

  lemma StatesOfAppend(flips: seq<Flip>, f: Flip, typ: string)
    ensures StatesOf(flips + [f], typ) == StatesOf(flips, typ) + if f.typ == typ then [f.state] else []
  {
    assert Front(flips + [f]) == flips;
  }

  lemma ObserveOwnType(spec: Spec, oldU: Obj, newU: Obj, now: Time, acc: Observed, t: string)
    requires t in newU.conds && !spec.Ignores(newU.conds[t])
    ensures
      var r := ObserveType(spec, oldU, newU, now, acc, t);
      var out := ObserveSlot(spec, SlotOf(acc.st, t), now, Get(oldU.conds, t), newU.conds[t]);
      && SlotOf(r.st, t) == out.slot
      && r.flips == acc.flips + (if out.flips == [] then [] else [Flip(t, out.flips[0])])
      && |out.flips| <= 1
  {
  }

  lemma ObserveOtherType(spec: Spec, oldU: Obj, newU: Obj, now: Time, acc: Observed, typ: string, t: string)
    requires typ != t || t !in newU.conds || spec.Ignores(newU.conds[t])
    ensures
      var r := ObserveType(spec, oldU, newU, now, acc, t);
      && SlotOf(r.st, typ) == SlotOf(acc.st, typ)
      && (r.flips == acc.flips || (typ != t && t in newU.conds && r.flips == acc.flips + [Flip(t, newU.conds[t])]))
  {
  }

  // What an update does to the slot of one condition.
  function UpdatedSlot(spec: Spec, s: Slot, oldU: Obj, newU: Obj, now: Time, typ: string): Output {
    if typ in newU.conds && !spec.Ignores(newU.conds[typ])
    then ObserveSlot(spec, s, now, Get(oldU.conds, typ), newU.conds[typ])
    else Output(s, [])
  }

  // A pass over one condition, seen from the slot of a condition.
  ghost predicate Passes(flips: seq<Flip>, after: Tracked, flips': seq<Flip>, typ: string, out: Output) {
    SlotOf(after, typ) == out.slot && StatesOf(flips', typ) == StatesOf(flips, typ) + out.flips
  }

  lemma ObserveOwnTypeSlot(spec: Spec, oldU: Obj, newU: Obj, now: Time, acc: Observed, t: string)
    ensures
      var r := ObserveType(spec, oldU, newU, now, acc, t);
      Passes(acc.flips, r.st, r.flips, t, UpdatedSlot(spec, SlotOf(acc.st, t), oldU, newU, now, t))
  {
    if t in newU.conds {
      StatesOfAppend(acc.flips, Flip(t, newU.conds[t]), t);
    }
    if t in newU.conds && !spec.Ignores(newU.conds[t]) {
      ObserveOwnType(spec, oldU, newU, now, acc, t);
      var out := ObserveSlot(spec, SlotOf(acc.st, t), now, Get(oldU.conds, t), newU.conds[t]);
      assert out.flips == [] || out.flips == [newU.conds[t]];
    } else {
      ObserveOtherType(spec, oldU, newU, now, acc, t, t);
    }
  }

  lemma ObserveOtherTypeSlot(spec: Spec, oldU: Obj, newU: Obj, now: Time, acc: Observed, typ: string, t: string)
    requires typ != t
    ensures
      var r := ObserveType(spec, oldU, newU, now, acc, t);
      Passes(acc.flips, r.st, r.flips, typ, Output(SlotOf(acc.st, typ), []))
  {
    if t in newU.conds {
      StatesOfAppend(acc.flips, Flip(t, newU.conds[t]), typ);
    }
    ObserveOtherType(spec, oldU, newU, now, acc, typ, t);
  }

  lemma ExpireOwnType(spec: Spec, now: Time, acc: Expired, t: string)
    ensures
      var r := ExpireType(spec, now, acc, t);
      Passes(acc.flips, r.st, r.flips, t, ExpireSlot(spec, SlotOf(acc.st, t), now))
  {
    var state := if t in acc.st.current then acc.st.current[t] else NOT_KNOWN;
    StatesOfAppend(acc.flips, Flip(t, state), t);
  }

  lemma ExpireOtherType(spec: Spec, now: Time, acc: Expired, typ: string, t: string)
    requires typ != t
    ensures
      var r := ExpireType(spec, now, acc, t);
      Passes(acc.flips, r.st, r.flips, typ, Output(SlotOf(acc.st, typ), []))
  {
    var state := if t in acc.st.current then acc.st.current[t] else NOT_KNOWN;
    StatesOfAppend(acc.flips, Flip(t, state), typ);
  }

  // Two passes, one of which is over the condition itself.
  lemma TwoPasses(st0: Tracked, st1: Tracked, flips1: seq<Flip>, st2: Tracked, flips2: seq<Flip>, typ: string, out: Output)
    requires
      || (Passes([], st1, flips1, typ, out) && Passes(flips1, st2, flips2, typ, Output(SlotOf(st1, typ), [])))
      || (Passes([], st1, flips1, typ, Output(SlotOf(st0, typ), [])) && Passes(flips1, st2, flips2, typ, out))
    ensures SlotOf(st2, typ) == out.slot && StatesOf(flips2, typ) == out.flips
  {
    assert StatesOf([], typ) == [];
    assert [] + out.flips == out.flips && out.flips + [] == out.flips;
  }

  lemma UpdateObjectSlot(spec: Spec, st: Tracked, oldU: Obj, newU: Obj, now: Time, typ: string)
    requires typ in WATCHED
    ensures
      var o := ObserveUpTo(spec, oldU, newU, now, st.(obj := newU), |WATCHED|);
      var out := UpdatedSlot(spec, SlotOf(st, typ), oldU, newU, now, typ);
      SlotOf(o.st, typ) == out.slot && StatesOf(o.flips, typ) == out.flips
  {
    var o0 := Observed(st.(obj := newU), []);
    var o1 := ObserveType(spec, oldU, newU, now, o0, WATCHED[0]);
    var o2 := ObserveType(spec, oldU, newU, now, o1, WATCHED[1]);
    ObserveTwice(spec, oldU, newU, now, st.(obj := newU));
    assert SlotOf(o0.st, typ) == SlotOf(st, typ);
    if typ == WATCHED[0] {
      ObserveOwnTypeSlot(spec, oldU, newU, now, o0, WATCHED[0]);
      ObserveOtherTypeSlot(spec, oldU, newU, now, o1, typ, WATCHED[1]);
    } else {
      ObserveOtherTypeSlot(spec, oldU, newU, now, o0, typ, WATCHED[0]);
      ObserveOwnTypeSlot(spec, oldU, newU, now, o1, WATCHED[1]);
    }
    TwoPasses(o0.st, o1.st, o1.flips, o2.st, o2.flips, typ, UpdatedSlot(spec, SlotOf(st, typ), oldU, newU, now, typ));
  }

  lemma ObserveTwice(spec: Spec, oldU: Obj, newU: Obj, now: Time, st: Tracked)
    ensures ObserveUpTo(spec, oldU, newU, now, st, |WATCHED|) ==
      ObserveType(spec, oldU, newU, now, ObserveType(spec, oldU, newU, now, Observed(st, []), WATCHED[0]), WATCHED[1])
  {
    assert ObserveUpTo(spec, oldU, newU, now, st, 1) ==
      ObserveType(spec, oldU, newU, now, ObserveUpTo(spec, oldU, newU, now, st, 0), WATCHED[0]);
  }

  lemma ExpireTwice(spec: Spec, now: Time, st: Tracked)
    ensures ExpireUpTo(spec, now, st, |WATCHED|) ==
      ExpireType(spec, now, ExpireType(spec, now, Expired(st, [], Failing(0, None)), WATCHED[0]), WATCHED[1])
  {
    assert ExpireUpTo(spec, now, st, 1) == ExpireType(spec, now, ExpireUpTo(spec, now, st, 0), WATCHED[0]);
  }

  lemma FireObjectSlot(spec: Spec, st: Tracked, now: Time, typ: string)
    requires typ in WATCHED
    ensures
      var x := ExpireUpTo(spec, now, st.(timer := None), |WATCHED|);
      var out := ExpireSlot(spec, SlotOf(st, typ), now);
      SlotOf(x.st, typ) == out.slot && StatesOf(x.flips, typ) == out.flips
  {
    var x0 := Expired(st.(timer := None), [], Failing(0, None));
    var x1 := ExpireType(spec, now, x0, WATCHED[0]);
    var x2 := ExpireType(spec, now, x1, WATCHED[1]);
    ExpireTwice(spec, now, st.(timer := None));
    assert SlotOf(x0.st, typ) == SlotOf(st, typ);
    if typ == WATCHED[0] {
      ExpireOwnType(spec, now, x0, WATCHED[0]);
      ExpireOtherType(spec, now, x1, typ, WATCHED[1]);
    } else {
      ExpireOtherType(spec, now, x0, typ, WATCHED[0]);
      ExpireOwnType(spec, now, x1, WATCHED[1]);
    }
    TwoPasses(x0.st, x1.st, x1.flips, x2.st, x2.flips, typ, ExpireSlot(spec, SlotOf(st, typ), now));
  }

  function StatesIn(ev: Option<K8sEvent>, typ: string): seq<Cond> {
    if ev.Some? then StatesOf(ev.value.flips, typ) else []
  }

  lemma UpdateSlot(spec: Spec, s: Sys, oldU: Obj, newU: Obj, now: Time, key: string, typ: string)
    requires typ in WATCHED && !s.closed && newU.key == key
    ensures
      var e := Event(now, Update(oldU, newU));
      var out := NextSlot(spec, SlotAt(s, key, typ), now, InputOf(spec, s, e.step, key, typ));
      SlotAt(After(spec, s, e), key, typ) == out.slot
      && PitchedStates(Emit(spec, s, e), key, typ) == out.flips
  {
    var st := Lookup(s, newU);
    UpdateObjectSlot(spec, st, oldU, newU, now, typ);
    var o := ObserveUpTo(spec, oldU, newU, now, st.(obj := newU), |WATCHED|);
    var (st', ev) := UpdateObject(spec, st, oldU, newU, now);
    assert SlotOf(st', typ) == SlotOf(o.st, typ);
    assert StatesIn(ev, typ) == StatesOf(o.flips, typ);
    assert SlotAt(s, key, typ) == SlotOf(st, typ);
    assert After(spec, s, Event(now, Update(oldU, newU))).objects[key] == st';
  }

  lemma FireSlot(spec: Spec, s: Sys, cb: Callback, now: Time, typ: string)
    requires typ in WATCHED && Matches(s, cb) && s.objects[cb.key].obj.key == cb.key
    ensures
      var e := Event(now, Fire(cb));
      var out := ExpireSlot(spec, SlotAt(s, cb.key, typ), now);
      SlotAt(After(spec, s, e), cb.key, typ) == out.slot
      && PitchedStates(Emit(spec, s, e), cb.key, typ) == out.flips
  {
    var st := s.objects[cb.key];
    FireObjectSlot(spec, st, now, typ);
    var x := ExpireUpTo(spec, now, st.(timer := None), |WATCHED|);
    var (st', ev) := FireObject(spec, cb.key, st, now);
    assert SlotOf(st', typ) == SlotOf(x.st, typ);
    assert StatesIn(ev, typ) == StatesOf(x.flips, typ);
    assert After(spec, s, Event(now, Fire(cb))).objects[cb.key] == st';
  }

  // The step is a step of the slot: same next state, same pitched states.
  ghost predicate StepsSlot(spec: Spec, s: Sys, e: Event, key: string, typ: string) {
    var out := NextSlot(spec, SlotAt(s, key, typ), e.now, InputOf(spec, s, e.step, key, typ));
    SlotAt(After(spec, s, e), key, typ) == out.slot
    && PitchedStates(Emit(spec, s, e), key, typ) == out.flips
  }

  lemma OtherUpdate(spec: Spec, s: Sys, e: Event, key: string, typ: string)
    requires e.step.Update? && (s.closed || e.step.newU.key != key)
    ensures StepsSlot(spec, s, e, key, typ)
  {
  }

  lemma OtherFire(spec: Spec, s: Sys, e: Event, key: string, typ: string)
    requires e.step.Fire?
    requires !Matches(s, e.step.cb) || (e.step.cb.key != key && s.objects[e.step.cb.key].obj.key != key)
    ensures StepsSlot(spec, s, e, key, typ)
  {
  }

  lemma ResetSlot(spec: Spec, s: Sys, e: Event, key: string, typ: string)
    requires e.step.Forget? || e.step.Close?
    ensures StepsSlot(spec, s, e, key, typ)
  {
  }

  // Whole steps: the slot after a step, and what the step pitches for it.
  lemma StepSlot(spec: Spec, s: Sys, e: Event, key: string, typ: string)
    requires typ in WATCHED
    requires forall k :: k in s.objects ==> s.objects[k].obj.key == k
    ensures StepsSlot(spec, s, e, key, typ)
  {
    if e.step.Update? && !s.closed && e.step.newU.key == key {
      UpdateSlot(spec, s, e.step.oldU, e.step.newU, e.now, key, typ);
      assert e == Event(e.now, Update(e.step.oldU, e.step.newU));
    } else if e.step.Fire? && Matches(s, e.step.cb) && e.step.cb.key == key {
      FireSlot(spec, s, e.step.cb, e.now, typ);
      assert e == Event(e.now, Fire(e.step.cb));
    } else if e.step.Update? {
      OtherUpdate(spec, s, e, key, typ);
    } else if e.step.Fire? {
      OtherFire(spec, s, e, key, typ);
    } else {
      ResetSlot(spec, s, e, key, typ);
    }
  }
}
