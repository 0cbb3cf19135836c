// A cooldown longer than minDuration does drop flips: a failure that comes back
// as soon as it has recovered is pitched by the tracker and dropped downstream.
module PipelineLimit {
  import opened Common
  import opened TrackerSpec
  import H = ThrottleSpec
  import ThrottleHistory
  import opened History
  import opened Pipeline
  import opened Samples

  const UP := State("True")
  const DOWN := State("False")
  const HEALTHY := Obj(KEY, 1, map["Ready" := UP])
  const BROKEN := Obj(KEY, 1, map["Ready" := DOWN])

  // The object after each of the five steps of the run below.
  function ObjectAfter(d: Time, n: nat): Tracked {
    var t, f := map["Ready" := UP], map["Ready" := DOWN];
    if n == 1 then Tracked(t, f, map["Ready" := 0], BROKEN, Some(Callback(KEY, 1, d)), Some(d), 1)
    else if n == 2 then Tracked(f, f, map[], BROKEN, None, None, 2)
    else if n == 3 then Tracked(t, t, map[], HEALTHY, None, None, 3)
    else if n == 4 then Tracked(t, f, map["Ready" := d], BROKEN, Some(Callback(KEY, 4, d + d)), Some(d + d), 4)
    else Tracked(f, f, map[], BROKEN, None, None, 5)
  }

  const FAILURE := [Flip("Ready", DOWN)]
  const RECOVERY := [Flip("Ready", UP)]

  // Both passes, unrolled for an object that only has the first condition.
  lemma ObserveReady(spec: Spec, oldU: Obj, newU: Obj, now: Time, st: Tracked)
    requires "Synced" !in newU.conds
    ensures ObserveUpTo(spec, oldU, newU, now, st, |WATCHED|) == ObserveType(spec, oldU, newU, now, Observed(st, []), "Ready")
  {
    var o0, o1 := ObserveUpTo(spec, oldU, newU, now, st, 0), ObserveUpTo(spec, oldU, newU, now, st, 1);
    assert o0 == Observed(st, []) && o1 == ObserveType(spec, oldU, newU, now, o0, WATCHED[0]);
  }

  lemma ExpireReady(spec: Spec, now: Time, st: Tracked)
    requires "Synced" !in st.failingSince
    ensures ExpireUpTo(spec, now, st, |WATCHED|) == ExpireType(spec, now, Expired(st, [], Failing(0, None)), "Ready")
  {
    var x0, x1 := ExpireUpTo(spec, now, st, 0), ExpireUpTo(spec, now, st, 1);
    assert x0 == Expired(st, [], Failing(0, None)) && x1 == ExpireType(spec, now, x0, WATCHED[0]);
  }

  lemma Break(d: Time, st: Tracked, now: Time, n: nat)
    requires d > 0
    requires (st == Fresh(BROKEN) && n == 1 && now == 0) || (st == ObjectAfter(d, 3) && n == 4 && now == d)
    ensures UpdateObject(SpecOf(d), st, HEALTHY, BROKEN, now) == (ObjectAfter(d, n), None)
  {
    ObserveReady(SpecOf(d), HEALTHY, BROKEN, now, st.(obj := BROKEN));
    var o := ObserveUpTo(SpecOf(d), HEALTHY, BROKEN, now, st.(obj := BROKEN), |WATCHED|);
    assert o.flips == [] && o.st.failingSince == map["Ready" := now];
    assert o.st.reported == map["Ready" := UP] && o.st.current == map["Ready" := DOWN];
  }

  lemma Expire(d: Time, n: nat, now: Time)
    requires d > 0 && ((n == 1 && now == d) || (n == 4 && now == d + d))
    ensures FireObject(SpecOf(d), KEY, ObjectAfter(d, n), now).0 == ObjectAfter(d, n + 1)
    ensures var ev := FireObject(SpecOf(d), KEY, ObjectAfter(d, n), now).1; ev.Some? && ev.value.flips == FAILURE
  {
    ExpireReady(SpecOf(d), now, ObjectAfter(d, n).(timer := None));
    var x := ExpireUpTo(SpecOf(d), now, ObjectAfter(d, n).(timer := None), |WATCHED|);
    assert x.flips == FAILURE && x.st.failingSince == map[] && x.st.reported == map["Ready" := DOWN];
  }

  lemma Recover(d: Time)
    requires d > 0
    ensures UpdateObject(SpecOf(d), ObjectAfter(d, 2), BROKEN, HEALTHY, d).0 == ObjectAfter(d, 3)
    ensures var ev := UpdateObject(SpecOf(d), ObjectAfter(d, 2), BROKEN, HEALTHY, d).1; ev.Some? && ev.value.flips == RECOVERY
  {
    ObserveReady(SpecOf(d), BROKEN, HEALTHY, d, ObjectAfter(d, 2).(obj := HEALTHY));
    var o := ObserveUpTo(SpecOf(d), BROKEN, HEALTHY, d, ObjectAfter(d, 2).(obj := HEALTHY), |WATCHED|);
    assert o.flips == RECOVERY && o.st.failingSince == map[];
    assert o.st.reported == map["Ready" := UP] && o.st.current == map["Ready" := UP];
  }

  /******* The run *******/

  // Fails at 0, is pitched at d, recovers and fails again at d, is pitched at d + d.
  function Nth(d: Time, n: nat): Event {
    if n == 1 then Event(0, Update(HEALTHY, BROKEN))
    else if n == 2 then Event(d, Fire(Callback(KEY, 1, d)))
    else if n == 3 then Event(d, Update(BROKEN, HEALTHY))
    else if n == 4 then Event(d, Update(HEALTHY, BROKEN))
    else Event(d + d, Fire(Callback(KEY, 4, d + d)))
  }

  // Everything reaches the throttle at once.
  function InputOf(d: Time, n: nat): Input {
    Tracker(Handed(Nth(d, n), Nth(d, n).now))
  }

  function PitchedFlips(n: nat): seq<Flip> {
    if n == 2 || n == 5 then FAILURE else if n == 3 then RECOVERY else []
  }

  ghost predicate IsAt(d: Time, n: nat, s: Sys) {
    !s.closed && if n == 0 then s.objects == map[] else s.objects == map[KEY := ObjectAfter(d, n)]
  }

  lemma UpdateStep(d: Time, s: Sys, now: Time, oldU: Obj, newU: Obj)
    requires newU.key == KEY && !s.closed && (s.objects == map[] || s.objects.Keys == {KEY})
    ensures
      var (st, ev) := UpdateObject(SpecOf(d), Lookup(s, newU), oldU, newU, now);
      var s' := After(SpecOf(d), s, Event(now, Update(oldU, newU)));
      && !s'.closed && s'.objects == map[KEY := st]
      && Emit(SpecOf(d), s, Event(now, Update(oldU, newU))) == if ev.Some? then Some(Pitch(newU, ev.value)) else None
  {
  }

  lemma FireStep(d: Time, s: Sys, now: Time, cb: Callback, st: Tracked)
    requires cb.key == KEY && !s.closed && s.objects == map[KEY := st] && st.seqNo == cb.seqNo
    ensures
      var (st', ev) := FireObject(SpecOf(d), KEY, st, now);
      var s' := After(SpecOf(d), s, Event(now, Fire(cb)));
      && !s'.closed && s'.objects == map[KEY := st']
      && Emit(SpecOf(d), s, Event(now, Fire(cb))) == if ev.Some? then Some(Pitch(st.obj, ev.value)) else None
  {
  }

  ghost predicate Pitches(p: Option<Pitch>, flips: seq<Flip>) {
    if flips == [] then p.None? else p.Some? && p.value.obj.key == KEY && p.value.event.flips == flips
  }

  lemma UpdateTo(d: Time, n: nat, s: Sys)
    requires d > 0 && (n == 1 || n == 3 || n == 4) && IsAt(d, n - 1, s)
    ensures IsAt(d, n, After(SpecOf(d), s, Nth(d, n))) && Pitches(Emit(SpecOf(d), s, Nth(d, n)), PitchedFlips(n))
  {
    var e := Nth(d, n);
    UpdateStep(d, s, e.now, e.step.oldU, e.step.newU);
    if n == 1 {
      Break(d, Fresh(BROKEN), 0, 1);
    } else if n == 3 {
      Recover(d);
    } else {
      Break(d, ObjectAfter(d, 3), d, 4);
    }
  }

  lemma FireTo(d: Time, n: nat, s: Sys)
    requires d > 0 && (n == 2 || n == 5) && IsAt(d, n - 1, s)
    ensures IsAt(d, n, After(SpecOf(d), s, Nth(d, n))) && Pitches(Emit(SpecOf(d), s, Nth(d, n)), PitchedFlips(n))
  {
    var e := Nth(d, n);
    FireStep(d, s, e.now, e.step.cb, ObjectAfter(d, n - 1));
    Expire(d, n - 1, e.now);
  }

  // One step of the run, from state n - 1 to state n.
  lemma RunStep(d: Time, n: nat, s: Sys)
    requires d > 0 && 1 <= n <= 5 && IsAt(d, n - 1, s)
    ensures IsAt(d, n, After(SpecOf(d), s, Nth(d, n))) && Pitches(Emit(SpecOf(d), s, Nth(d, n)), PitchedFlips(n))
  {
    if n == 2 || n == 5 {
      FireTo(d, n, s);
    } else {
      UpdateTo(d, n, s);
    }
  }

  function OfferedBy(d: Time, n: nat, keyOf: KeyOf): seq<H.Event> {
    if PitchedFlips(n) == [] then [] else [H.Event(Nth(d, n).now, H.Offer(keyOf(KEY, PitchedFlips(n))))]
  }

  // The first n steps, the object after them, and what they offered.
  datatype Told = Told(js: seq<Input>, s: Sys, ts: seq<H.Event>)

  ghost predicate IsTold(d: Time, n: nat, keyOf: KeyOf, t: Told) {
    && |t.js| == n && (forall i :: 0 <= i < n ==> t.js[i] == InputOf(d, i + 1))
    && t.s == Run(SpecOf(d), TrackerEvents(t.js))
    && t.ts == ThrottleRun(SpecOf(d), keyOf, t.js)
  }

  lemma OfferOfPitch(now: Time, keyOf: KeyOf, p: Option<Pitch>, flips: seq<Flip>)
    requires Pitches(p, flips)
    ensures OfferOf(keyOf, now, p) == if flips == [] then [] else [H.Event(now, H.Offer(keyOf(KEY, flips)))]
  {
  }

  lemma NothingTold(d: Time, keyOf: KeyOf)
    ensures IsTold(d, 0, keyOf, Told([], INITIAL, [])) && IsAt(d, 0, INITIAL)
  {
  }

  // One more step, and what it pitches.
  lemma TellOne(d: Time, n: nat, keyOf: KeyOf, t: Told, p: Option<Pitch>) returns (t': Told)
    requires n > 0 && IsTold(d, n - 1, keyOf, t) && p == Emit(SpecOf(d), t.s, Nth(d, n)) && Pitches(p, PitchedFlips(n))
    ensures IsTold(d, n, keyOf, t') && t'.ts == t.ts + OfferedBy(d, n, keyOf)
    ensures t'.s == After(SpecOf(d), t.s, Nth(d, n))
    ensures TrackerEvents(t'.js) != [] && LastPitch(SpecOf(d), TrackerEvents(t'.js)) == p
  {
    var h := Handed(Nth(d, n), Nth(d, n).now);
    FeedOne(SpecOf(d), keyOf, t.js, h, t.s);
    OfferOfPitch(h.at, keyOf, p, PitchedFlips(n));
    t' := Told(t.js + [Tracker(h)], After(SpecOf(d), t.s, Nth(d, n)), t.ts + OfferedBy(d, n, keyOf));
  }

  function ThreeOffers(d: Time, keyOf: KeyOf): seq<H.Event> {
    var failure, recovery := keyOf(KEY, FAILURE), keyOf(KEY, RECOVERY);
    [H.Event(d, H.Offer(failure)), H.Event(d, H.Offer(recovery)), H.Event(d + d, H.Offer(failure))]
  }

  function OffersTo(d: Time, n: nat, keyOf: KeyOf): seq<H.Event> {
    if n == 0 then [] else OffersTo(d, n - 1, keyOf) + OfferedBy(d, n, keyOf)
  }

  ghost predicate TellsTo(d: Time, n: nat, keyOf: KeyOf, t: Told) {
    IsTold(d, n, keyOf, t) && IsAt(d, n, t.s) && t.ts == OffersTo(d, n, keyOf)
  }

  lemma {:induction false} TellOneMore(d: Time, n: nat, keyOf: KeyOf, t: Told) returns (t': Told)
    requires d > 0 && 1 <= n <= 5 && TellsTo(d, n - 1, keyOf, t)
    ensures TellsTo(d, n, keyOf, t')
    ensures TrackerEvents(t'.js) != [] && Pitches(LastPitch(SpecOf(d), TrackerEvents(t'.js)), PitchedFlips(n))
  {
    RunStep(d, n, t.s);
    t' := TellOne(d, n, keyOf, t, Emit(SpecOf(d), t.s, Nth(d, n)));
  }

  lemma {:induction false} TellTo(d: Time, n: nat, keyOf: KeyOf) returns (t: Told)
    requires d > 0 && n <= 5
    ensures TellsTo(d, n, keyOf, t)
  {
    if n == 0 {
      NothingTold(d, keyOf);
      t := Told([], INITIAL, []);
    } else {
      var before := TellTo(d, n - 1, keyOf);
      t := TellOneMore(d, n, keyOf, before);
    }
  }

  lemma OffersAreThree(d: Time, keyOf: KeyOf)
    ensures OffersTo(d, 5, keyOf) == ThreeOffers(d, keyOf)
  {
    assert OffersTo(d, 1, keyOf) == [] && OffersTo(d, 2, keyOf) == OfferedBy(d, 2, keyOf);
    assert OffersTo(d, 4, keyOf) == OffersTo(d, 3, keyOf) == OfferedBy(d, 2, keyOf) + OfferedBy(d, 3, keyOf);
  }

  lemma TellAll(d: Time, keyOf: KeyOf) returns (t: Told)
    requires d > 0
    ensures IsTold(d, 5, keyOf, t) && t.ts == ThreeOffers(d, keyOf)
    ensures TrackerEvents(t.js) != [] && Pitches(LastPitch(SpecOf(d), TrackerEvents(t.js)), FAILURE)
  {
    var before := TellTo(d, 4, keyOf);
    t := TellOneMore(d, 5, keyOf, before);
    OffersAreThree(d, keyOf);
  }

  lemma FirstOfferIsAdmitted(l: H.Limits, now: Time, key: string)
    ensures ThrottleHistory.LastAdmitted(l, [H.Event(now, H.Offer(key))], key) == Some(now)
  {
    var ts := [H.Event(now, H.Offer(key))];
    assert Front(ts) == [];
  }

  // The converse of CooldownSparesFlips: for every cooldown above minDuration
  // there is a run in which the cooldown drops a failure the tracker pitches.
  lemma LongerCooldownDropsFlips(l: H.Limits, d: Time, keyOf: KeyOf, tidy: Tidy) returns (js: seq<Input>)
    requires 0 < d < l.cooldown && Keys(keyOf, tidy) && tidy(KEY, FAILURE) && tidy(KEY, RECOVERY)
    ensures InOrder(js) && Foreign(keyOf, tidy, js) && PitchesFlips(SpecOf(d), js)
    ensures LastPitch(SpecOf(d), TrackerEvents(js)).value.event.flips == FAILURE
    ensures ThrottleRun(SpecOf(d), keyOf, js) != []
    ensures H.LastDecision(l, ThrottleRun(SpecOf(d), keyOf, js)).outcome == Some(H.CooldownDrop)
  {
    var t := TellAll(d, keyOf);
    js := t.js;
    ToldInOrder(d, js, keyOf, tidy);
    assert js[4].Tracker?;
    assert !SameProblem(KEY, FAILURE, KEY, RECOVERY);
    DroppedAgain(l, d, keyOf(KEY, FAILURE), keyOf(KEY, RECOVERY));
  }

  lemma ToldInOrder(d: Time, js: seq<Input>, keyOf: KeyOf, tidy: Tidy)
    requires d > 0 && |js| == 5 && forall i :: 0 <= i < 5 ==> js[i] == InputOf(d, i + 1)
    ensures InOrder(js) && Foreign(keyOf, tidy, js)
  {
  }

  lemma DroppedAgain(l: H.Limits, d: Time, f: string, t: string)
    requires 0 < d < l.cooldown && f != "" && f != t
    ensures var ts := [H.Event(d, H.Offer(f)), H.Event(d, H.Offer(t)), H.Event(d + d, H.Offer(f))];
      H.LastDecision(l, ts).outcome == Some(H.CooldownDrop)
  {
    var ts := [H.Event(d, H.Offer(f)), H.Event(d, H.Offer(t)), H.Event(d + d, H.Offer(f))];
    var front := Front(ts);
    assert front == [H.Event(d, H.Offer(f)), H.Event(d, H.Offer(t))];
    assert Front(front) == [H.Event(d, H.Offer(f))];
    FirstOfferIsAdmitted(l, d, f);
    assert ThrottleHistory.LastAdmitted(l, front, f) == Some(d);
    ThrottleHistory.CooldownIff(l, ts, f);
  }
}
