// Objects do not interfere with each other, and close is final.
module Isolation {
  import opened Common
  import opened TrackerSpec
  import opened Invariant
  import opened Detector

  predicate Concerns(step: Step, key: string) {
    match step
    case Update(_, newU) => newU.key == key
    case Fire(cb) => cb.key == key
    case Forget(k) => k == key
    case Close => true
  }

  // The steps of a run that concern one object.
  function Restrict(es: seq<Event>, key: string): seq<Event> {
    if es == [] then []
    else Restrict(Front(es), key) + if Concerns(Last(es).step, key) then [Last(es)] else []
  }

  datatype TimedPitch = TimedPitch(at: Time, pitch: Pitch)

  function OwnPitch(now: Time, p: Option<Pitch>, key: string): seq<TimedPitch> {
    if p.Some? && p.value.obj.key == key then [TimedPitch(now, p.value)] else []
  }

  // Everything a run pitches for one object.
  function PitchesOf(spec: Spec, es: seq<Event>, key: string): seq<TimedPitch> {
    if es == [] then []
    else PitchesOf(spec, Front(es), key) + OwnPitch(Last(es).now, LastPitch(spec, es), key)
  }

  ghost predicate SameObject(s1: Sys, s2: Sys, key: string) {
    s1.closed == s2.closed && Get(s1.objects, key) == Get(s2.objects, key)
  }

  lemma OwnStep(spec: Spec, s1: Sys, s2: Sys, e: Event, key: string)
    requires SameObject(s1, s2, key) && Concerns(e.step, key)
    ensures SameObject(After(spec, s1, e), After(spec, s2, e), key)
    ensures Emit(spec, s1, e) == Emit(spec, s2, e)
  {
    assert key in s1.objects <==> key in s2.objects;
    assert key in s1.objects ==> s1.objects[key] == s2.objects[key];
    match e.step
    case Update(oldU, newU) => assert Lookup(s1, newU) == Lookup(s2, newU);
    case Fire(cb) =>
    case Forget(k) =>
    case Close =>
  }

  lemma ForeignUpdate(spec: Spec, s: Sys, now: Time, oldU: Obj, newU: Obj, key: string)
    requires newU.key != key
    ensures var e := Event(now, Update(oldU, newU));
      SameObject(s, After(spec, s, e), key) && (Emit(spec, s, e).Some? ==> Emit(spec, s, e).value.obj.key != key)
  {
  }

  lemma ForeignFire(spec: Spec, s: Sys, now: Time, cb: Callback, key: string)
    requires cb.key != key && (cb.key in s.objects ==> s.objects[cb.key].obj.key == cb.key)
    ensures var e := Event(now, Fire(cb));
      SameObject(s, After(spec, s, e), key) && (Emit(spec, s, e).Some? ==> Emit(spec, s, e).value.obj.key != key)
  {
  }

  lemma ForeignStep(spec: Spec, s: Sys, e: Event, key: string)
    requires Inv(spec, s) && !Concerns(e.step, key)
    ensures SameObject(s, After(spec, s, e), key)
    ensures Emit(spec, s, e).Some? ==> Emit(spec, s, e).value.obj.key != key
  {
    match e.step
    case Update(oldU, newU) =>
      assert e == Event(e.now, Update(oldU, newU));
      ForeignUpdate(spec, s, e.now, oldU, newU, key);
    case Fire(cb) =>
      assert e == Event(e.now, Fire(cb));
      assert cb.key in s.objects ==> ObjectInv(spec, cb.key, s.objects[cb.key]);
      ForeignFire(spec, s, e.now, cb, key);
    case Forget(k) =>
    case Close =>
  }

  lemma RestrictStep(es: seq<Event>, key: string)
    requires es != []
    ensures Restrict(es, key) ==
      if Concerns(Last(es).step, key) then Restrict(Front(es), key) + [Last(es)] else Restrict(Front(es), key)
  {
  }

  lemma RunStep(spec: Spec, es: seq<Event>, front: seq<Event>, e: Event, key: string)
    requires es != [] && Front(es) == front && Last(es) == e
    ensures Run(spec, es) == After(spec, Run(spec, front), e)
    ensures PitchesOf(spec, es, key) == PitchesOf(spec, front, key) + OwnPitch(e.now, Emit(spec, Run(spec, front), e), key)
  {
  }

  // In any interleaving over any number of objects, the state of an object and
  // everything pitched for it are those of its own steps alone.
  lemma {:induction false} ObjectsDoNotInterfere(spec: Spec, es: seq<Event>, key: string)
    ensures SameObject(Run(spec, es), Run(spec, Restrict(es, key)), key)
    ensures PitchesOf(spec, es, key) == PitchesOf(spec, Restrict(es, key), key)
  {
    if es != [] {
      var front, e := Front(es), Last(es);
      var own := Restrict(front, key);
      ObjectsDoNotInterfere(spec, front, key);
      RestrictStep(es, key);
      InterferenceStep(spec, es, front, own, e, key);
    }
  }

  lemma InterferenceStep(spec: Spec, es: seq<Event>, front: seq<Event>, own: seq<Event>, e: Event, key: string)
    requires es != [] && Front(es) == front && Last(es) == e
    requires SameObject(Run(spec, front), Run(spec, own), key)
    requires PitchesOf(spec, front, key) == PitchesOf(spec, own, key)
    ensures
      var own' := if Concerns(e.step, key) then own + [e] else own;
      && SameObject(Run(spec, es), Run(spec, own'), key)
      && PitchesOf(spec, es, key) == PitchesOf(spec, own', key)
  {
    RunStep(spec, es, front, e, key);
    if Concerns(e.step, key) {
      OwnStep(spec, Run(spec, front), Run(spec, own), e, key);
      RunStep(spec, own + [e], own, e, key);
    } else {
      RunInv(spec, front);
      ForeignStep(spec, Run(spec, front), e, key);
    }
  }

  // After close no update and no callback pitches anything or tracks anything.
  lemma CloseIsFinal(spec: Spec, es: seq<Event>)
    requires es != [] && ClosedBy(Front(es))
    ensures LastPitch(spec, es) == None
    ensures Run(spec, es).closed && Run(spec, es).objects == map[]
  {
    RunInv(spec, Front(es));
    ClosedByRun(spec, Front(es));
  }
}
