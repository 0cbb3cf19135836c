// The plain flip filter of an informer without a condition filter, and when the
// tracker agrees with it.
module PlainFlips {
  import opened Common
  import opened TrackerSpec
  import opened Slots
  import opened Invariant
  import opened Detector
  import opened Erasure
  import opened Callbacks
  import Tracker

  function FlippedUpTo(oldU: Obj, newU: Obj, n: nat): seq<Flip>
    requires n <= |WATCHED|
  {
    if n == 0 then []
    else
      var typ := WATCHED[n - 1];
      FlippedUpTo(oldU, newU, n - 1)
      + if typ in oldU.conds && typ in newU.conds && oldU.conds[typ].status != newU.conds[typ].status
        then [Flip(typ, newU.conds[typ])] else []
  }

  // Whether an update is pitched without a condition filter, and how.
  function UpdateEvent(mode: string, oldU: Obj, newU: Obj): Option<K8sEvent> {
    var flips := FlippedUpTo(oldU, newU, |WATCHED|);
    if mode == UPDATES_ALL then Some(K8sEvent([], "", None))
    else if (mode == UPDATES_CONDITIONS || mode == UPDATES_FLIPS) && flips != [] then Some(FlipEvent(flips))
    else if mode != UPDATES_FLIPS && oldU.generation != newU.generation then Some(GENERATION_EVENT)
    else None
  }

  // A watched condition that both versions have, with another status.
  predicate Flipped(oldU: Obj, newU: Obj, typ: string) {
    typ in WATCHED && typ in oldU.conds && typ in newU.conds && oldU.conds[typ].status != newU.conds[typ].status
  }

  // The flip of one condition between two versions, if any.
  function FlipOf(oldU: Obj, newU: Obj, typ: string): seq<Flip> {
    if Flipped(oldU, newU, typ) then [Flip(typ, newU.conds[typ])] else []
  }

  lemma FlippedInOrder(oldU: Obj, newU: Obj)
    ensures FlippedUpTo(oldU, newU, |WATCHED|) == FlipOf(oldU, newU, "Ready") + FlipOf(oldU, newU, "Synced")
  {
    assert FlippedUpTo(oldU, newU, 1) == FlippedUpTo(oldU, newU, 0) + FlipOf(oldU, newU, WATCHED[0]);
    assert FlippedUpTo(oldU, newU, 1) == FlipOf(oldU, newU, WATCHED[0]);
  }

  // Which updates are pitched, and as what: with `all` every one, with nothing
  // said about it; in the modes that watch flips one with flips, in the order
  // Ready, Synced, with their new states; in every mode but `flips` a generation
  // change that no flip hides.
  lemma {:induction false} PlainlyPitchedIff(mode: string, oldU: Obj, newU: Obj)
    ensures
      var ev, flips := UpdateEvent(mode, oldU, newU), FlipOf(oldU, newU, "Ready") + FlipOf(oldU, newU, "Synced");
      if mode == "all" then ev == Some(K8sEvent([], "", None))
      else if (mode == "conditions" || mode == "flips") && flips != [] then
        ev.Some? && ev.value.flips == flips && ev.value.failing.None? && SaysWorst(ev.value)
      else ev == if mode != "flips" && oldU.generation != newU.generation then Some(K8sEvent([], "info", None)) else None
  {
    FlippedInOrder(oldU, newU);
    if FlippedUpTo(oldU, newU, |WATCHED|) != [] {
      SeverityIsWorst(FlippedUpTo(oldU, newU, |WATCHED|));
    }
  }

  // Ready to False is an error, any other failure a warning, only recoveries
  // are a success.
  ghost predicate SaysWorst(ev: K8sEvent) {
    && (ev.severity == "error" <==> exists f :: f in ev.flips && f.typ == "Ready" && f.state.status == "False")
    && (ev.severity == "success" <==> forall f :: f in ev.flips ==> f.state.status == "True")
    && (ev.severity == "warning" <==> ev.severity != "error" && ev.severity != "success")
  }

  // The same decision, as one pass over the watched conditions.
  method DecideUpdate(mode: string, oldU: Obj, newU: Obj) returns (ev: Option<K8sEvent>)
    ensures ev == UpdateEvent(mode, oldU, newU)
  {
    if mode == UPDATES_ALL {
      return Some(K8sEvent([], "", None));
    }
    if mode == UPDATES_CONDITIONS || mode == UPDATES_FLIPS {
      var flips := [];
      for i := 0 to |WATCHED|
        invariant flips == FlippedUpTo(oldU, newU, i)
      {
        var typ := WATCHED[i];
        if typ in oldU.conds && typ in newU.conds && oldU.conds[typ].status != newU.conds[typ].status {
          flips := flips + [Flip(typ, newU.conds[typ])];
        }
      }
      if flips != [] {
        var e := Tracker.FlipEventOf(flips);
        return Some(e);
      }
    }
    if mode != UPDATES_FLIPS && oldU.generation != newU.generation {
      return Some(GENERATION_EVENT);
    }
    return None;
  }

  /******* Flips are listed in the order of the watched conditions *******/

  function One(typ: string, c: Option<Cond>): seq<Flip> {
    if c.Some? then [Flip(typ, c.value)] else []
  }

  function AsSeq(c: Option<Cond>): seq<Cond> {
    if c.Some? then [c.value] else []
  }

  function Listed(a: Option<Cond>, b: Option<Cond>): seq<Flip> {
    One(WATCHED[0], a) + One(WATCHED[1], b)
  }

  lemma ListedStates(a: Option<Cond>, b: Option<Cond>, typ: string)
    requires typ in WATCHED
    ensures StatesOf(Listed(a, b), typ) == AsSeq(if typ == WATCHED[0] then a else b)
  {
    var first := One(WATCHED[0], a);
    assert StatesOf(first, typ) == if typ == WATCHED[0] then AsSeq(a) else [] by {
      if a.Some? {
        StatesOfAppend([], Flip(WATCHED[0], a.value), typ);
        assert [] + [Flip(WATCHED[0], a.value)] == first;
      }
    }
    if b.Some? {
      StatesOfAppend(first, Flip(WATCHED[1], b.value), typ);
    } else {
      assert Listed(a, b) == first;
    }
  }

  function FlippedTo(oldU: Obj, newU: Obj, typ: string): Option<Cond> {
    if typ in oldU.conds && typ in newU.conds && oldU.conds[typ].status != newU.conds[typ].status
    then Some(newU.conds[typ]) else None
  }

  lemma FlippedListed(oldU: Obj, newU: Obj)
    ensures FlippedUpTo(oldU, newU, |WATCHED|) == Listed(FlippedTo(oldU, newU, WATCHED[0]), FlippedTo(oldU, newU, WATCHED[1]))
  {
    var f0, f1 := FlippedUpTo(oldU, newU, 0), FlippedUpTo(oldU, newU, 1);
    assert f0 == [] && f1 == f0 + One(WATCHED[0], FlippedTo(oldU, newU, WATCHED[0]));
  }

  lemma FlippedStates(oldU: Obj, newU: Obj, typ: string)
    requires typ in WATCHED
    ensures StatesOf(FlippedUpTo(oldU, newU, |WATCHED|), typ) == AsSeq(FlippedTo(oldU, newU, typ))
  {
    var a, b := FlippedTo(oldU, newU, WATCHED[0]), FlippedTo(oldU, newU, WATCHED[1]);
    FlippedListed(oldU, newU);
    ListedStates(a, b, typ);
    assert FlippedTo(oldU, newU, typ) == if typ == WATCHED[0] then a else b;
  }

  lemma ObserveTypeAddsOne(spec: Spec, oldU: Obj, newU: Obj, now: Time, acc: Observed, typ: string)
    returns (c: Option<Cond>)
    ensures ObserveType(spec, oldU, newU, now, acc, typ).flips == acc.flips + One(typ, c)
  {
    var flips := ObserveType(spec, oldU, newU, now, acc, typ).flips;
    c := if flips == acc.flips then None else Some(newU.conds[typ]);
  }

  lemma ObservedListed(spec: Spec, oldU: Obj, newU: Obj, now: Time, st: Tracked)
    returns (a: Option<Cond>, b: Option<Cond>)
    ensures ObserveUpTo(spec, oldU, newU, now, st, |WATCHED|).flips == Listed(a, b)
  {
    var o0, o1 := ObserveUpTo(spec, oldU, newU, now, st, 0), ObserveUpTo(spec, oldU, newU, now, st, 1);
    a := ObserveTypeAddsOne(spec, oldU, newU, now, o0, WATCHED[0]);
    b := ObserveTypeAddsOne(spec, oldU, newU, now, o1, WATCHED[1]);
    assert o0.flips == [] && [] + One(WATCHED[0], a) == One(WATCHED[0], a);
    assert o1.flips == One(WATCHED[0], a);
  }

  // Lists of flips are equal when they show the same of both conditions.
  lemma SameStatesSameFlips(a: Option<Cond>, b: Option<Cond>, c: Option<Cond>, d: Option<Cond>)
    ensures Listed(a, b) == Listed(c, d) <==>
      && StatesOf(Listed(a, b), WATCHED[0]) == StatesOf(Listed(c, d), WATCHED[0])
      && StatesOf(Listed(a, b), WATCHED[1]) == StatesOf(Listed(c, d), WATCHED[1])
  {
    ListedStates(a, b, WATCHED[0]);
    ListedStates(a, b, WATCHED[1]);
    ListedStates(c, d, WATCHED[0]);
    ListedStates(c, d, WATCHED[1]);
    SameSeq(a, c);
    SameSeq(b, d);
  }

  lemma SameSeq(a: Option<Cond>, b: Option<Cond>)
    ensures AsSeq(a) == AsSeq(b) <==> a == b
  {
    if a.Some? && b.Some? {
      assert AsSeq(a)[0] == a.value && AsSeq(b)[0] == b.value;
    }
  }

  /******* A stream of updates of one object *******/

  // The latest version of an object that a run was told, until it is deleted.
  function Latest(es: seq<Event>, key: string): Option<Obj> {
    if es == [] then None
    else match Last(es).step
      case Update(_, newU) => if newU.key == key then Some(newU) else Latest(Front(es), key)
      case Fire(_) => Latest(Front(es), key)
      case Forget(k) => if k == key then None else Latest(Front(es), key)
      case Close => None
  }

  ghost predicate NoneIgnored(spec: Spec, u: Obj) {
    forall typ :: typ in u.conds && IsWatched(typ) ==> Counts(spec, u.conds[typ])
  }

  // The old object of every update is the latest one, and nothing is ignored.
  ghost predicate PlainStream(spec: Spec, es: seq<Event>, key: string) {
    es == []
    || (&& PlainStream(spec, Front(es), key)
        && (Last(es).step.Update? && Last(es).step.newU.key == key ==>
              var oldU, newU := Last(es).step.oldU, Last(es).step.newU;
              && NoneIgnored(spec, oldU) && NoneIgnored(spec, newU)
              && (Latest(Front(es), key).Some? ==> Latest(Front(es), key).value == oldU)))
  }

  // The status last shown of a condition in this lifetime.
  function Shown(spec: Spec, es: seq<Event>, key: string, typ: string): Option<string> {
    var obs := Observations(spec, es, key, typ);
    if obs != [] && Last(obs).Seen? then Some(Last(obs).state.status) else None
  }

  lemma {:induction false} ShownIsLatest(spec: Spec, es: seq<Event>, key: string, typ: string)
    requires PlainStream(spec, es, key) && IsWatched(typ) && !ClosedBy(es)
    ensures Latest(es, key).None? ==> Shown(spec, es, key, typ).None?
    ensures Latest(es, key).Some? && typ in Latest(es, key).value.conds ==>
      Shown(spec, es, key, typ) == Some(Latest(es, key).value.conds[typ].status)
  {
    if es != [] {
      ShownIsLatest(spec, Front(es), key, typ);
      var o := ObsOf(spec, Last(es), key, typ);
      assert Observations(spec, es, key, typ) == Observations(spec, Front(es), key, typ) + o;
      if o == [] {
        assert Observations(spec, es, key, typ) == Observations(spec, Front(es), key, typ);
      }
    }
  }

  // What the plain filter does not see: a condition that had vanished comes
  // back with another status. What the tracker does not see: True after a
  // blank status.
  predicate Reappears(shown: Option<string>, before: Option<Cond>, after: Option<Cond>) {
    before.None? && after.Some? && shown.Some? && after.value.status != shown.value
    && !(after.value.status == "True" && shown.value == "")
  }

  predicate FromBlank(before: Option<Cond>, after: Option<Cond>) {
    before.Some? && after.Some? && before.value.status == "" && after.value.status == "True"
  }

  predicate Agrees(shown: Option<string>, before: Option<Cond>, after: Option<Cond>) {
    !Reappears(shown, before, after) && !FromBlank(before, after)
  }

  lemma SlotAgrees(spec: Spec, s: Slot, now: Time, shown: Option<string>, before: Option<Cond>, after: Option<Cond>)
    requires spec.minDuration <= 0
    requires s.reported.Some? <==> shown.Some?
    requires s.reported.Some? ==> s.reported.value.status == shown.value
    requires before.Some? ==> Counts(spec, before.value) && (shown.Some? ==> before.value.status == shown.value)
    ensures
      var tracked := if after.Some? then ObserveSlot(spec, s, now, before, after.value).flips else [];
      var plain := if before.Some? && after.Some? && before.value.status != after.value.status
                   then [after.value] else [];
      tracked == plain <==> Agrees(shown, before, after)
  {
  }

  lemma EventsAgree(spec: Spec, oldU: Obj, newU: Obj, a: seq<Flip>)
    requires spec.updates == UPDATES_CONDITIONS || spec.updates == UPDATES_FLIPS
    ensures UpdateEventOf(spec, oldU, newU, a) == UpdateEvent(spec.updates, oldU, newU)
      <==> a == FlippedUpTo(oldU, newU, |WATCHED|)
  {
    var b := FlippedUpTo(oldU, newU, |WATCHED|);
    assert FlipEvent(a).flips == a && FlipEvent(b).flips == b && GENERATION_EVENT.flips == [];
  }

  lemma TypeAgrees(spec: Spec, st: Tracked, oldU: Obj, newU: Obj, now: Time, typ: string, shown: Option<string>)
    requires spec.minDuration <= 0 && NoneIgnored(spec, oldU) && NoneIgnored(spec, newU) && IsWatched(typ)
    requires Matching(SlotOf(st, typ), shown, Get(oldU.conds, typ))
    ensures
      StatesOf(ObserveUpTo(spec, oldU, newU, now, st.(obj := newU), |WATCHED|).flips, typ)
        == StatesOf(FlippedUpTo(oldU, newU, |WATCHED|), typ)
      <==> Agrees(shown, Get(oldU.conds, typ), Get(newU.conds, typ))
  {
    FlippedStates(oldU, newU, typ);
    UpdateObjectSlot(spec, st, oldU, newU, now, typ);
    SlotAgrees(spec, SlotOf(st, typ), now, shown, Get(oldU.conds, typ), Get(newU.conds, typ));
  }

  // One update of a tracked or new object: the flips of the tracker are those
  // of the plain filter if and only if every watched condition agrees.
  lemma UpdateAgrees(spec: Spec, st: Tracked, oldU: Obj, newU: Obj, now: Time,
                     shown0: Option<string>, shown1: Option<string>)
    requires spec.minDuration <= 0 && NoneIgnored(spec, oldU) && NoneIgnored(spec, newU)
    requires Matching(SlotOf(st, WATCHED[0]), shown0, Get(oldU.conds, WATCHED[0]))
    requires Matching(SlotOf(st, WATCHED[1]), shown1, Get(oldU.conds, WATCHED[1]))
    ensures
      ObserveUpTo(spec, oldU, newU, now, st.(obj := newU), |WATCHED|).flips == FlippedUpTo(oldU, newU, |WATCHED|)
      <==> && Agrees(shown0, Get(oldU.conds, WATCHED[0]), Get(newU.conds, WATCHED[0]))
           && Agrees(shown1, Get(oldU.conds, WATCHED[1]), Get(newU.conds, WATCHED[1]))
  {
    assert IsWatched(WATCHED[0]) && IsWatched(WATCHED[1]);
    var a, b := ObservedListed(spec, oldU, newU, now, st.(obj := newU));
    FlippedListed(oldU, newU);
    TypeAgrees(spec, st, oldU, newU, now, WATCHED[0], shown0);
    TypeAgrees(spec, st, oldU, newU, now, WATCHED[1], shown1);
    SameStatesSameFlips(a, b, FlippedTo(oldU, newU, WATCHED[0]), FlippedTo(oldU, newU, WATCHED[1]));
  }

  predicate Matching(s: Slot, shown: Option<string>, before: Option<Cond>) {
    && (s.reported.Some? <==> shown.Some?)
    && (s.reported.Some? ==> s.reported.value.status == shown.value)
    && (before.Some? && shown.Some? ==> before.value.status == shown.value)
  }

  lemma StreamMatches(spec: Spec, es: seq<Event>, oldU: Obj, key: string, typ: string)
    requires spec.minDuration <= 0 && IsWatched(typ) && !ClosedBy(es) && PlainStream(spec, es, key)
    requires Latest(es, key).Some? ==> Latest(es, key).value == oldU
    ensures Matching(SlotAt(Run(spec, es), key, typ), Shown(spec, es, key, typ), Get(oldU.conds, typ))
  {
    ImmediateFlipsAreChanges(spec, es, key, typ);
    ShownIsLatest(spec, es, key, typ);
  }

  // Without minDuration, with nothing ignored and each old object the latest
  // one, the tracker pitches for an update exactly what the plain filter does
  // if and only if no watched condition that had vanished comes back with
  // another status and none turns True from a blank one.
  lemma TrackerIsPlainFilter(spec: Spec, es: seq<Event>, key: string)
    requires spec.minDuration <= 0 && (spec.updates == UPDATES_CONDITIONS || spec.updates == UPDATES_FLIPS)
    requires es != [] && PlainStream(spec, es, key) && !ClosedBy(Front(es))
    requires Last(es).step.Update? && Last(es).step.newU.key == key
    ensures
      var oldU, newU := Last(es).step.oldU, Last(es).step.newU;
      var plain := UpdateEvent(spec.updates, oldU, newU);
      LastPitch(spec, es) == (if plain.Some? then Some(Pitch(newU, plain.value)) else None)
      <==> && Agrees(Shown(spec, Front(es), key, WATCHED[0]), Get(oldU.conds, WATCHED[0]), Get(newU.conds, WATCHED[0]))
           && Agrees(Shown(spec, Front(es), key, WATCHED[1]), Get(oldU.conds, WATCHED[1]), Get(newU.conds, WATCHED[1]))
  {
    var front, oldU, newU, now := Front(es), Last(es).step.oldU, Last(es).step.newU, Last(es).now;
    var r, y := WATCHED[0], WATCHED[1];
    assert IsWatched(r) && IsWatched(y);
    var s := Run(spec, front);
    var st := Lookup(s, newU);
    ClosedByRun(spec, front);
    StreamMatches(spec, front, oldU, key, r);
    StreamMatches(spec, front, oldU, key, y);
    assert SlotOf(st, r) == SlotAt(s, key, r) && SlotOf(st, y) == SlotAt(s, key, y);
    UpdateAgrees(spec, st, oldU, newU, now, Shown(spec, front, key, r), Shown(spec, front, key, y));
    EventsAgree(spec, oldU, newU, ObserveUpTo(spec, oldU, newU, now, st.(obj := newU), |WATCHED|).flips);
  }

  // A condition that is present stays present, with a status.
  ghost predicate NeverVanishes(es: seq<Event>, key: string) {
    forall i :: 0 <= i < |es| && es[i].step.Update? && es[i].step.newU.key == key ==>
      KeepsConditions(es[i].step.oldU, es[i].step.newU)
  }

  ghost predicate KeepsConditions(oldU: Obj, newU: Obj) {
    forall typ :: IsWatched(typ) && typ in oldU.conds ==> typ in newU.conds && oldU.conds[typ].status != ""
  }

  lemma {:induction false} ShownIsPresent(spec: Spec, es: seq<Event>, key: string, typ: string)
    requires PlainStream(spec, es, key) && IsWatched(typ) && !ClosedBy(es) && NeverVanishes(es, key)
    ensures Shown(spec, es, key, typ).Some? ==> Latest(es, key).Some? && typ in Latest(es, key).value.conds
  {
    if es != [] {
      ShownIsPresent(spec, Front(es), key, typ);
      ShownIsLatest(spec, Front(es), key, typ);
      var o := ObsOf(spec, Last(es), key, typ);
      assert Observations(spec, es, key, typ) == Observations(spec, Front(es), key, typ) + o;
      if o == [] {
        assert Observations(spec, es, key, typ) == Observations(spec, Front(es), key, typ);
      }
      if Last(es).step.Update? && Last(es).step.newU.key == key {
        assert KeepsConditions(es[|es| - 1].step.oldU, es[|es| - 1].step.newU);
      }
    }
  }

  // With conditions that never vanish the two agree on every update of the
  // stream, in both modes; callbacks in between pitch nothing.
  lemma TrackerIsPlainFilterOnSteadyStreams(spec: Spec, es: seq<Event>, key: string)
    requires spec.minDuration <= 0 && (spec.updates == UPDATES_CONDITIONS || spec.updates == UPDATES_FLIPS)
    requires es != [] && PlainStream(spec, es, key) && !ClosedBy(Front(es)) && NeverVanishes(es, key)
    requires Last(es).step.Update? && Last(es).step.newU.key == key
    ensures
      var newU := Last(es).step.newU;
      var plain := UpdateEvent(spec.updates, Last(es).step.oldU, newU);
      LastPitch(spec, es) == if plain.Some? then Some(Pitch(newU, plain.value)) else None
  {
    assert IsWatched(WATCHED[0]) && IsWatched(WATCHED[1]);
    ShownIsPresent(spec, Front(es), key, WATCHED[0]);
    ShownIsPresent(spec, Front(es), key, WATCHED[1]);
    assert KeepsConditions(es[|es| - 1].step.oldU, es[|es| - 1].step.newU);
    TrackerIsPlainFilter(spec, es, key);
  }

  lemma CallbacksAreSilentWithoutMinDuration(spec: Spec, es: seq<Event>)
    requires spec.minDuration <= 0 && es != [] && Last(es).step.Fire?
    ensures LastPitch(spec, es) == None
  {
    var s, e := Run(spec, Front(es)), Last(es);
    RunInv(spec, Front(es));
    if Matches(s, e.step.cb) {
      var st := s.objects[e.step.cb.key];
      assert ObjectInv(spec, e.step.cb.key, st);
      if st.due.Some? {
        PendingNeedsMinDuration(spec, e.step.cb.key, st);
      }
      assert e == Event(e.now, Fire(e.step.cb));
      EarlyCallbackIsHarmless(spec, s, e.now, e.step.cb);
    }
  }
}
