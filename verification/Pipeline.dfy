// The condition tracker feeding the throttle, together with any other source:
// when the cooldown leaves the debounced flips alone.
module Pipeline {
  import opened Common
  import T = TrackerSpec
  import H = ThrottleSpec
  import ThrottleHistory
  import opened Invariant
  import opened History

  // A step of the tracker and when it reaches the throttle, an offer of another
  // source, or a flush.
  datatype Input = Tracker(h: Handed) | Other(now: Time, key: string) | Tick(now: Time) {
    // The time the throttle sees.
    function At(): Time {
      match this
      case Tracker(h) => h.at
      case Other(now, _) => now
      case Tick(now) => now
    }
  }

  // The cooldown key of the flips of an object, and which flips it is made for.
  type KeyOf = (string, seq<T.Flip>) -> string
  type Tidy = (string, seq<T.Flip>) -> bool

  // Flips with one key are flips of one object whose last condition is the same
  // and failed in both or recovered in both; they are never without a key.
  ghost predicate Keys(keyOf: KeyOf, tidy: Tidy) {
    && (forall k, f :: tidy(k, f) ==> keyOf(k, f) != "")
    && (forall k1, f1, k2, f2 :: tidy(k1, f1) && tidy(k2, f2) && keyOf(k1, f1) == keyOf(k2, f2) ==>
          SameProblem(k1, f1, k2, f2))
  }

  predicate SameProblem(k1: string, f1: seq<T.Flip>, k2: string, f2: seq<T.Flip>) {
    k1 == k2
    && (f1 != [] && f2 != [] ==> Last(f1).typ == Last(f2).typ && Fails(Last(f1)) == Fails(Last(f2)))
  }

  predicate Fails(f: T.Flip) {
    f.state.status != "True"
  }

  // Whatever a run of the tracker pitches is tidy.
  ghost predicate AllTidy(spec: T.Spec, es: seq<T.Event>, tidy: Tidy) {
    es == []
    || (AllTidy(spec, Front(es), tidy)
        && var p := T.LastPitch(spec, es);
           p.Some? && p.value.event.flips != [] ==> tidy(p.value.obj.key, p.value.event.flips))
  }

  // The steps of the tracker, in the order they reach the throttle.
  function TrackerRun(js: seq<Input>): seq<Handed> {
    if js == [] then []
    else TrackerRun(Front(js)) + if Last(js).Tracker? then [Last(js).h] else []
  }

  function TrackerEvents(js: seq<Input>): seq<T.Event> {
    EventsIn(TrackerRun(js))
  }

  // What a pitch offers to the throttle; a generation change has no key.
  function OfferOf(keyOf: KeyOf, now: Time, p: Option<T.Pitch>): seq<H.Event> {
    if p.None? then []
    else if p.value.event.flips == [] then [H.Event(now, H.Offer(""))]
    else [H.Event(now, H.Offer(keyOf(p.value.obj.key, p.value.event.flips)))]
  }

  function EventsOf(spec: T.Spec, keyOf: KeyOf, front: seq<T.Event>, j: Input): seq<H.Event> {
    match j
    case Tracker(h) => OfferOf(keyOf, h.at, T.Emit(spec, T.Run(spec, front), h.e))
    case Other(now, key) => [H.Event(now, H.Offer(key))]
    case Tick(now) => [H.Event(now, H.Flush)]
  }

  function ThrottleRun(spec: T.Spec, keyOf: KeyOf, js: seq<Input>): seq<H.Event> {
    if js == [] then []
    else ThrottleRun(spec, keyOf, Front(js)) + EventsOf(spec, keyOf, TrackerEvents(Front(js)), Last(js))
  }

  // The clocks of the throttle and of the tracker do not go back, and the
  // tracker takes no step before the throttle has the pitch of the last one.
  predicate InOrder(js: seq<Input>) {
    && (forall i, j :: 0 <= i < j < |js| ==> js[i].At() <= js[j].At())
    && (forall i :: 0 <= i < |js| && js[i].Tracker? ==> js[i].h.e.now <= js[i].At())
    && (forall i, j :: 0 <= i < j < |js| && js[i].Tracker? && js[j].Tracker? ==> js[i].At() <= js[j].h.e.now)
  }

  // The other sources do not use the keys of flips.
  ghost predicate Foreign(keyOf: KeyOf, tidy: Tidy, js: seq<Input>) {
    forall i :: 0 <= i < |js| && js[i].Other? ==> forall k, f :: tidy(k, f) ==> keyOf(k, f) != js[i].key
  }

  /******* Order *******/

  // Everything handed over so far belongs to some input.
  ghost predicate Within(hs: seq<Handed>, js: seq<Input>) {
    forall h :: h in hs ==> Tracker(h) in js
  }

  lemma {:induction false} TrackerRunIsInTurn(js: seq<Input>)
    requires InOrder(js)
    ensures InTurn(TrackerRun(js)) && Within(TrackerRun(js), js)
  {
    if js != [] {
      var hs := TrackerRun(Front(js));
      TrackerRunIsInTurn(Front(js));
      if Last(js).Tracker? {
        InTurnMore(hs, Last(js).h, js);
      } else {
        assert TrackerRun(js) == hs;
      }
    }
  }

  lemma InTurnMore(hs: seq<Handed>, h: Handed, js: seq<Input>)
    requires js != [] && Last(js) == Tracker(h) && InOrder(js) && InTurn(hs) && Within(hs, Front(js))
    ensures InTurn(hs + [h]) && Within(hs + [h], js)
  {
    assert js[|js| - 1] == Tracker(h);
    forall i | 0 <= i < |hs| ensures hs[i].at <= h.e.now {
      assert Tracker(hs[i]) in Front(js);
      var j :| 0 <= j < |js| - 1 && Front(js)[j] == Tracker(hs[i]);
      assert js[j].Tracker? && js[j].At() <= js[|js| - 1].h.e.now;
    }
  }

  lemma ThrottleAppend(ts: seq<H.Event>, more: seq<H.Event>, now: Time)
    requires H.Ordered(ts) && (forall e :: e in ts ==> e.now <= now)
    requires |more| <= 1 && (more != [] ==> more[0].now == now)
    ensures H.Ordered(ts + more) && (forall e :: e in ts + more ==> e.now <= now)
  {
  }

  lemma OneEvent(spec: T.Spec, keyOf: KeyOf, front: seq<T.Event>, j: Input)
    ensures var more := EventsOf(spec, keyOf, front, j);
      |more| <= 1 && (more != [] ==> more[0].now == j.At())
  {
  }

  lemma {:induction false} ThrottleRunIsOrdered(spec: T.Spec, keyOf: KeyOf, js: seq<Input>)
    requires InOrder(js)
    ensures H.Ordered(ThrottleRun(spec, keyOf, js))
    ensures js != [] ==> forall e :: e in ThrottleRun(spec, keyOf, js) ==> e.now <= Last(js).At()
  {
    if js != [] {
      var front := Front(js);
      ThrottleRunIsOrdered(spec, keyOf, front);
      assert front != [] ==> Last(front).At() <= Last(js).At();
      var more := EventsOf(spec, keyOf, TrackerEvents(front), Last(js));
      OneEvent(spec, keyOf, TrackerEvents(front), Last(js));
      ThrottleAppend(ThrottleRun(spec, keyOf, front), more, Last(js).At());
    }
  }

  /******* What was pitched *******/

  // A failure, or a recovery, handed over at time t.
  predicate WasPitched(flips: seq<T.TimedFlip>, fails: bool, t: Time) {
    exists i :: 0 <= i < |flips| && flips[i].at == t && IsFailure(flips[i]) == fails
  }

  lemma StampHas(now: Time, states: seq<T.Cond>, c: T.Cond)
    requires c in states
    ensures WasPitched(T.Stamp(now, states), c.status != "True", now)
  {
    var i :| 0 <= i < |states| && states[i] == c;
    assert T.Stamp(now, states)[i] == T.TimedFlip(now, c);
  }

  lemma LastFlipIsListed(flips: seq<T.Flip>)
    requires flips != []
    ensures Last(flips).state in T.StatesOf(flips, Last(flips).typ)
  {
    var states := T.StatesOf(flips, Last(flips).typ);
    assert states[|states| - 1] == Last(flips).state;
  }

  // What the last step of the tracker hands over for one condition.
  function HandedNow(spec: T.Spec, hs: seq<Handed>, key: string, typ: string): seq<T.TimedFlip>
    requires hs != [] && EventsIn(hs) != []
  {
    T.Stamp(Last(hs).at, T.PitchedStates(T.LastPitch(spec, EventsIn(hs)), key, typ))
  }

  // The last flip of what a step pitches is handed over with it.
  lemma PitchedNow(spec: T.Spec, hs: seq<Handed>, p: T.Pitch)
    requires hs != [] && EventsIn(hs) != [] && T.LastPitch(spec, EventsIn(hs)) == Some(p) && p.event.flips != []
    ensures IsWatched(Last(p.event.flips).typ)
    ensures WasPitched(HandedNow(spec, hs, p.obj.key, Last(p.event.flips).typ), Fails(Last(p.event.flips)), Last(hs).at)
  {
    var es, f := EventsIn(hs), Last(p.event.flips);
    EmittedFlipsWatched(spec, T.Run(spec, Front(es)), Last(es));
    assert f in p.event.flips;
    LastFlipIsListed(p.event.flips);
    StampHas(Last(hs).at, T.PitchedStates(T.LastPitch(spec, es), p.obj.key, f.typ), f.state);
  }

  lemma WasPitchedInEither(a: seq<T.TimedFlip>, b: seq<T.TimedFlip>, fails: bool, t: Time)
    requires WasPitched(a, fails, t) || WasPitched(b, fails, t)
    ensures WasPitched(a + b, fails, t)
  {
    if i :| 0 <= i < |a| && a[i].at == t && IsFailure(a[i]) == fails {
      assert (a + b)[i] == a[i];
    } else {
      var i :| 0 <= i < |b| && b[i].at == t && IsFailure(b[i]) == fails;
      assert (a + b)[|a| + i] == b[i];
    }
  }

  lemma LastOffer(spec: T.Spec, keyOf: KeyOf, js: seq<Input>)
    requires js != []
    ensures
      var front, j := Front(js), Last(js);
      var more := EventsOf(spec, keyOf, TrackerEvents(front), j);
      && |more| <= 1
      && (more == [] ==> ThrottleRun(spec, keyOf, js) == ThrottleRun(spec, keyOf, front))
      && (more != [] ==>
            && ThrottleRun(spec, keyOf, js) != []
            && Front(ThrottleRun(spec, keyOf, js)) == ThrottleRun(spec, keyOf, front)
            && Last(ThrottleRun(spec, keyOf, js)) == more[0])
  {
  }

  lemma LastStep(js: seq<Input>)
    requires js != []
    ensures !Last(js).Tracker? ==> TrackerRun(js) == TrackerRun(Front(js))
    ensures Last(js).Tracker? ==>
      && TrackerRun(js) != [] && Front(TrackerRun(js)) == TrackerRun(Front(js)) && Last(TrackerRun(js)) == Last(js).h
      && TrackerEvents(js) != [] && Front(TrackerEvents(js)) == TrackerEvents(Front(js))
      && Last(TrackerEvents(js)) == Last(js).h.e
  {
    if Last(js).Tracker? {
      assert TrackerRun(js) == TrackerRun(Front(js)) + [Last(js).h];
      EventsInLast(TrackerRun(js));
    }
  }

  lemma TidyBefore(spec: T.Spec, js: seq<Input>, tidy: Tidy)
    requires js != [] && AllTidy(spec, TrackerEvents(js), tidy)
    ensures AllTidy(spec, TrackerEvents(Front(js)), tidy)
  {
    LastStep(js);
  }

  // The throttle admits what the last input offers, and that under the key k.
  ghost predicate AdmitsLast(l: H.Limits, spec: T.Spec, keyOf: KeyOf, js: seq<Input>, k: string)
    requires js != []
  {
    var more := EventsOf(spec, keyOf, TrackerEvents(Front(js)), Last(js));
    && more != [] && ThrottleHistory.Offers(more[0], k)
    && ThrottleRun(spec, keyOf, js) != []
    && ThrottleHistory.IsAdmitted(H.LastDecision(l, ThrottleRun(spec, keyOf, js)))
  }

  // When the last event of another source with this key was admitted.
  ghost function ForeignAdmitted(l: H.Limits, spec: T.Spec, keyOf: KeyOf, js: seq<Input>, k: string): Option<Time> {
    if js == [] then None
    else if Last(js).Other? && AdmitsLast(l, spec, keyOf, js, k) then Some(Last(js).At())
    else ForeignAdmitted(l, spec, keyOf, Front(js), k)
  }

  lemma LastAdmittedStep(l: H.Limits, spec: T.Spec, keyOf: KeyOf, js: seq<Input>, k: string)
    requires js != []
    ensures ThrottleHistory.LastAdmitted(l, ThrottleRun(spec, keyOf, js), k) ==
      if AdmitsLast(l, spec, keyOf, js, k) then Some(Last(js).At())
      else ThrottleHistory.LastAdmitted(l, ThrottleRun(spec, keyOf, Front(js)), k)
  {
    LastOffer(spec, keyOf, js);
    OneEvent(spec, keyOf, TrackerEvents(Front(js)), Last(js));
  }

  // What the tracker offers under the key of some flips is of the same problem.
  lemma TrackerPitched(l: H.Limits, spec: T.Spec, keyOf: KeyOf, tidy: Tidy, js: seq<Input>, key: string, flips: seq<T.Flip>)
    requires Keys(keyOf, tidy) && tidy(key, flips) && flips != [] && js != [] && Last(js).Tracker?
    requires AllTidy(spec, TrackerEvents(js), tidy) && AdmitsLast(l, spec, keyOf, js, keyOf(key, flips))
    ensures WasPitched(FlipsHanded(spec, TrackerRun(js), key, Last(flips).typ), Fails(Last(flips)), Last(js).At())
  {
    var hs := TrackerRun(js);
    LastStep(js);
    var p := T.LastPitch(spec, TrackerEvents(js)).value;
    assert tidy(p.obj.key, p.event.flips) && SameProblem(p.obj.key, p.event.flips, key, flips);
    PitchedNow(spec, hs, p);
    WasPitchedInEither(FlipsHanded(spec, Front(hs), key, Last(flips).typ), HandedNow(spec, hs, key, Last(flips).typ),
                       Fails(Last(flips)), Last(js).At());
  }

  lemma StillPitched(spec: T.Spec, js: seq<Input>, key: string, typ: string, fails: bool, t: Time)
    requires js != [] && WasPitched(FlipsHanded(spec, TrackerRun(Front(js)), key, typ), fails, t)
    ensures WasPitched(FlipsHanded(spec, TrackerRun(js), key, typ), fails, t)
  {
    LastStep(js);
    if Last(js).Tracker? {
      var hs := TrackerRun(js);
      WasPitchedInEither(FlipsHanded(spec, Front(hs), key, typ), HandedNow(spec, hs, key, typ), fails, t);
    }
  }

  // Under the key of some flips the throttle last admitted, at that time, a
  // pitch of the tracker of the same problem or an event of another source.
  ghost predicate ComesFrom(l: H.Limits, spec: T.Spec, keyOf: KeyOf, js: seq<Input>,
                            key: string, flips: seq<T.Flip>, last: Time)
    requires flips != []
  {
    || WasPitched(FlipsHanded(spec, TrackerRun(js), key, Last(flips).typ), Fails(Last(flips)), last)
    || ForeignAdmitted(l, spec, keyOf, js, keyOf(key, flips)) == Some(last)
  }

  lemma {:induction false} AdmittedComesFrom(l: H.Limits, spec: T.Spec, keyOf: KeyOf, tidy: Tidy, js: seq<Input>,
                                             key: string, flips: seq<T.Flip>)
    requires Keys(keyOf, tidy) && tidy(key, flips) && flips != [] && AllTidy(spec, TrackerEvents(js), tidy)
    requires ThrottleHistory.LastAdmitted(l, ThrottleRun(spec, keyOf, js), keyOf(key, flips)).Some?
    ensures ComesFrom(l, spec, keyOf, js, key, flips,
                      ThrottleHistory.LastAdmitted(l, ThrottleRun(spec, keyOf, js), keyOf(key, flips)).value)
  {
    var k := keyOf(key, flips);
    if js != [] {
      LastAdmittedStep(l, spec, keyOf, js, k);
      TidyBefore(spec, js, tidy);
      if !AdmitsLast(l, spec, keyOf, js, k) {
        AdmittedComesFrom(l, spec, keyOf, tidy, Front(js), key, flips);
        var last := ThrottleHistory.LastAdmitted(l, ThrottleRun(spec, keyOf, Front(js)), k).value;
        if WasPitched(FlipsHanded(spec, TrackerRun(Front(js)), key, Last(flips).typ), Fails(Last(flips)), last) {
          StillPitched(spec, js, key, Last(flips).typ, Fails(Last(flips)), last);
        }
      } else if Last(js).Tracker? {
        TrackerPitched(l, spec, keyOf, tidy, js, key, flips);
      }
    }
  }

  lemma {:induction false} ForeignIsAdmitted(l: H.Limits, spec: T.Spec, keyOf: KeyOf, js: seq<Input>, k: string)
    requires InOrder(js) && ForeignAdmitted(l, spec, keyOf, js, k).Some?
    ensures
      var foreign := ForeignAdmitted(l, spec, keyOf, js, k).value;
      var last := ThrottleHistory.LastAdmitted(l, ThrottleRun(spec, keyOf, js), k);
      js != [] && last.Some? && foreign <= last.value && foreign <= Last(js).At()
  {
    LastAdmittedStep(l, spec, keyOf, js, k);
    if !(Last(js).Other? && AdmitsLast(l, spec, keyOf, js, k)) {
      ForeignIsAdmitted(l, spec, keyOf, Front(js), k);
      assert Last(Front(js)).At() <= Last(js).At();
    }
  }

  lemma {:induction false} NothingForeign(l: H.Limits, spec: T.Spec, keyOf: KeyOf, tidy: Tidy, js: seq<Input>,
                                          key: string, flips: seq<T.Flip>)
    requires Foreign(keyOf, tidy, js) && tidy(key, flips)
    ensures ForeignAdmitted(l, spec, keyOf, js, keyOf(key, flips)).None?
  {
    if js != [] {
      assert Last(js) == js[|js| - 1];
      NothingForeign(l, spec, keyOf, tidy, Front(js), key, flips);
    }
  }

  lemma SameKindApart(minDuration: Time, flips: seq<T.TimedFlip>, more: seq<T.TimedFlip>, fails: bool, t1: Time, t2: Time)
    requires Apart(minDuration, flips + more)
    requires WasPitched(flips, fails, t1) && WasPitched(more, fails, t2)
    ensures t2 - t1 >= minDuration
  {
    var i :| 0 <= i < |flips| && flips[i].at == t1 && IsFailure(flips[i]) == fails;
    var j :| 0 <= j < |more| && more[j].at == t2 && IsFailure(more[j]) == fails;
    assert (flips + more)[i] == flips[i] && (flips + more)[|flips| + j] == more[j];
  }

  lemma TrackerOffers(spec: T.Spec, keyOf: KeyOf, front: seq<T.Event>, h: Handed, p: Option<T.Pitch>)
    requires p == T.Emit(spec, T.Run(spec, front), h.e)
    ensures EventsOf(spec, keyOf, front, Tracker(h)) == OfferOf(keyOf, h.at, p)
  {
  }

  // One more step of the tracker, which does not wait for anything.
  lemma FeedOne(spec: T.Spec, keyOf: KeyOf, js: seq<Input>, h: Handed, s: T.Sys)
    requires s == T.Run(spec, TrackerEvents(js))
    ensures var js' := js + [Tracker(h)];
      && TrackerEvents(js') != [] && T.Run(spec, TrackerEvents(js')) == T.After(spec, s, h.e)
      && T.LastPitch(spec, TrackerEvents(js')) == T.Emit(spec, s, h.e)
      && ThrottleRun(spec, keyOf, js') == ThrottleRun(spec, keyOf, js) + OfferOf(keyOf, h.at, T.Emit(spec, s, h.e))
  {
    assert Front(js + [Tracker(h)]) == js && Last(js + [Tracker(h)]) == Tracker(h);
    LastStep(js + [Tracker(h)]);
    TrackerOffers(spec, keyOf, TrackerEvents(js), h, T.Emit(spec, s, h.e));
  }

  /******* The cooldown *******/

  // The last input makes the tracker pitch flips.
  ghost predicate PitchesFlips(spec: T.Spec, js: seq<Input>) {
    && js != [] && Last(js).Tracker? && TrackerEvents(js) != []
    && var p := T.LastPitch(spec, TrackerEvents(js)); p.Some? && p.value.event.flips != []
  }

  ghost function KeyOfLast(spec: T.Spec, keyOf: KeyOf, js: seq<Input>): string
    requires PitchesFlips(spec, js)
  {
    var p := T.LastPitch(spec, TrackerEvents(js)).value;
    keyOf(p.obj.key, p.event.flips)
  }

  lemma PitchIsEmitted(spec: T.Spec, js: seq<Input>)
    requires js != [] && Last(js).Tracker?
    ensures TrackerEvents(js) != []
    ensures T.LastPitch(spec, TrackerEvents(js)) == T.Emit(spec, T.Run(spec, TrackerEvents(Front(js))), Last(js).h.e)
  {
    LastStep(js);
  }

  lemma OfferedFlips(spec: T.Spec, keyOf: KeyOf, js: seq<Input>)
    requires PitchesFlips(spec, js)
    ensures EventsOf(spec, keyOf, TrackerEvents(Front(js)), Last(js)) ==
      [H.Event(Last(js).At(), H.Offer(KeyOfLast(spec, keyOf, js)))]
  {
    PitchIsEmitted(spec, js);
    TrackerOffers(spec, keyOf, TrackerEvents(Front(js)), Last(js).h, T.LastPitch(spec, TrackerEvents(js)));
  }

  lemma FlipsAreOffered(spec: T.Spec, keyOf: KeyOf, js: seq<Input>)
    requires PitchesFlips(spec, js)
    ensures var ts := ThrottleRun(spec, keyOf, js);
      && ts != [] && Last(ts) == H.Event(Last(js).At(), H.Offer(KeyOfLast(spec, keyOf, js)))
      && Front(ts) == ThrottleRun(spec, keyOf, Front(js))
  {
    LastOffer(spec, keyOf, js);
    OfferedFlips(spec, keyOf, js);
  }

  // What the throttle got from the tracker of the same problem, it got
  // minDuration ago at the latest.
  lemma HandedBeforeIsOld(spec: T.Spec, js: seq<Input>, p: T.Pitch, t: Time)
    requires spec.minDuration > 0 && InOrder(js) && PitchesFlips(spec, js) && T.LastPitch(spec, TrackerEvents(js)) == Some(p)
    requires WasPitched(FlipsHanded(spec, TrackerRun(Front(js)), p.obj.key, Last(p.event.flips).typ),
                        Fails(Last(p.event.flips)), t)
    ensures Last(js).At() - t >= spec.minDuration
  {
    var hs, f := TrackerRun(js), Last(p.event.flips);
    LastStep(js);
    TrackerRunIsInTurn(js);
    PitchedNow(spec, hs, p);
    HandedFlipsAreApart(spec, hs, p.obj.key, f.typ);
    SameKindApart(spec.minDuration, FlipsHanded(spec, Front(hs), p.obj.key, f.typ),
                  HandedNow(spec, hs, p.obj.key, f.typ), Fails(f), t, Last(hs).at);
  }

  // A generation change is offered without a key, and no cooldown drops it.
  lemma {:induction false} GenerationChangesPass(l: H.Limits, spec: T.Spec, keyOf: KeyOf, js: seq<Input>)
    requires InOrder(js) && js != [] && Last(js).Tracker? && TrackerEvents(js) != []
    requires var p := T.LastPitch(spec, TrackerEvents(js)); p.Some? && p.value.event.flips == []
    ensures var ts := ThrottleRun(spec, keyOf, js);
      && ts != [] && Last(ts) == H.Event(Last(js).At(), H.Offer(""))
      && H.LastDecision(l, ts).outcome.Some? && H.LastDecision(l, ts).outcome != Some(H.CooldownDrop)
  {
    PitchIsEmitted(spec, js);
    TrackerOffers(spec, keyOf, TrackerEvents(Front(js)), Last(js).h, T.LastPitch(spec, TrackerEvents(js)));
    LastOffer(spec, keyOf, js);
    ThrottleRunIsOrdered(spec, keyOf, js);
    ThrottleHistory.CooldownIff(l, ThrottleRun(spec, keyOf, js), "");
  }

  // With a cooldown of at most minDuration the cooldown drops flips that the
  // tracker pitches if and only if another source had an event with their key
  // admitted less than the cooldown ago.
  lemma {:induction false} FlipsDroppedIffForeign(l: H.Limits, spec: T.Spec, keyOf: KeyOf, tidy: Tidy, js: seq<Input>)
    requires spec.minDuration > 0 && l.cooldown <= spec.minDuration
    requires Keys(keyOf, tidy) && AllTidy(spec, TrackerEvents(js), tidy) && InOrder(js) && PitchesFlips(spec, js)
    ensures ThrottleRun(spec, keyOf, js) != []
    ensures
      var foreign := ForeignAdmitted(l, spec, keyOf, Front(js), KeyOfLast(spec, keyOf, js));
      H.LastDecision(l, ThrottleRun(spec, keyOf, js)).outcome == Some(H.CooldownDrop) <==>
        foreign.Some? && Last(js).At() - foreign.value < l.cooldown
  {
    var ts, k := ThrottleRun(spec, keyOf, js), KeyOfLast(spec, keyOf, js);
    var p := T.LastPitch(spec, TrackerEvents(js)).value;
    FlipsAreOffered(spec, keyOf, js);
    ThrottleRunIsOrdered(spec, keyOf, js);
    ThrottleHistory.CooldownIff(l, ts, k);
    var last := ThrottleHistory.LastAdmitted(l, ThrottleRun(spec, keyOf, Front(js)), k);
    if last.Some? {
      TidyBefore(spec, js, tidy);
      AdmittedComesFrom(l, spec, keyOf, tidy, Front(js), p.obj.key, p.event.flips);
      if ForeignAdmitted(l, spec, keyOf, Front(js), k) != last {
        HandedBeforeIsOld(spec, js, p, last.value);
      }
    }
    if ForeignAdmitted(l, spec, keyOf, Front(js), k).Some? {
      ForeignIsAdmitted(l, spec, keyOf, Front(js), k);
      assert Last(Front(js)).At() <= Last(js).At();
    }
  }

  // In particular never, when no other source uses the keys of flips.
  lemma {:induction false} CooldownSparesFlips(l: H.Limits, spec: T.Spec, keyOf: KeyOf, tidy: Tidy, js: seq<Input>)
    requires spec.minDuration > 0 && l.cooldown <= spec.minDuration
    requires Keys(keyOf, tidy) && AllTidy(spec, TrackerEvents(js), tidy) && InOrder(js) && PitchesFlips(spec, js)
    requires Foreign(keyOf, tidy, Front(js))
    ensures
      var ts := ThrottleRun(spec, keyOf, js);
      && ts != [] && Last(ts) == H.Event(Last(js).At(), H.Offer(KeyOfLast(spec, keyOf, js)))
      && H.LastDecision(l, ts).outcome.Some? && H.LastDecision(l, ts).outcome != Some(H.CooldownDrop)
  {
    var p := T.LastPitch(spec, TrackerEvents(js)).value;
    FlipsAreOffered(spec, keyOf, js);
    NothingForeign(l, spec, keyOf, tidy, Front(js), p.obj.key, p.event.flips);
    FlipsDroppedIffForeign(l, spec, keyOf, tidy, js);
  }
}
