// The condition tracker as it works: objects whose maps and timers are updated
// in place. Every method is one step under the tracker's lock and is proved to
// take the view of the tracker where the transition system of TrackerSpec goes.
module Tracker {
  import opened Common
  import opened TrackerSpec
  import opened Invariant

  // The time source and the callbacks it still holds.
  class Clock {
    var now: Time
    var live: multiset<Callback>

    constructor (now: Time)
      ensures this.now == now && live == multiset{}
    {
      this.now := now;
      live := multiset{};
    }

    // Calls fire(key, seqNo) once d has passed, unless stopped first.
    method AfterFunc(d: Time, key: string, seqNo: nat) returns (cb: Callback)
      modifies this`live
      ensures cb == Callback(key, seqNo, now + d)
      ensures live == old(live) + multiset{cb}
    {
      cb := Callback(key, seqNo, now + d);
      live := live + multiset{cb};
    }

    // Lets go of a callback: it is stopped, or it runs now.
    method Release(cb: Callback)
      modifies this`live
      ensures live == old(live) - multiset{cb}
    {
      live := live - multiset{cb};
    }

    method Advance(d: Time)
      requires d >= 0
      modifies this`now
      ensures now == old(now) + d
    {
      now := now + d;
    }
  }

  class ObjectState {
    var reported: map<string, Cond>
    var current: map<string, Cond>
    var failingSince: map<string, Time>
    var obj: Obj
    var timer: Option<Callback>
    var due: Option<Time>
    var seqNo: nat

    constructor (u: Obj)
      ensures View() == Fresh(u)
    {
      reported, current, failingSince := map[], map[], map[];
      obj, timer, due, seqNo := u, None, None, 0;
    }

    ghost function View(): Tracked
      reads this
    {
      Tracked(reported, current, failingSince, obj, timer, due, seqNo)
    }
  }

  // Titles are the flips themselves; the severity is that of the worst flip.
  method FlipEventOf(flips: seq<Flip>) returns (ev: K8sEvent)
    ensures ev == FlipEvent(flips)
  {
    var rank := 0;
    for i := 0 to |flips|
      invariant rank == Rank(flips[..i])
    {
      var r := 1;
      if flips[i].state.status == "False" && flips[i].typ == "Ready" {
        r := 3;
      } else if flips[i].state.status != "True" {
        r := 2;
      }
      assert flips[..i + 1][..i] == flips[..i];
      if r > rank {
        rank := r;
      }
    }
    assert flips[..|flips|] == flips;
    ev := K8sEvent(flips, SeverityOf(rank), None);
  }

  class ConditionTracker {
    const spec: Spec
    const clock: Clock
    var objects: map<string, ObjectState>
    var closed: bool

    constructor (spec: Spec, clock: Clock)
      requires clock.live == multiset{}
      ensures Valid() && View() == INITIAL
      ensures this.spec == spec && this.clock == clock
    {
      this.spec := spec;
      this.clock := clock;
      objects := map[];
      closed := false;
    }

    ghost function Objects(): map<string, Tracked>
      reads this, objects.Values
    {
      map k | k in objects :: objects[k].View()
    }

    ghost function View(): Sys
      reads this, clock, objects.Values
    {
      Sys(Objects(), closed, clock.live)
    }

    // No two keys share their state.
    ghost predicate Distinct()
      reads this
    {
      forall j, k :: j in objects && k in objects && j != k ==> objects[j] != objects[k]
    }

    ghost predicate Valid()
      reads this, clock, objects.Values
    {
      Distinct() && Inv(spec, View())
    }

    // One watched condition of an update.
    method ObserveCondition(st: ObjectState, oldU: Obj, newU: Obj, now: Time, typ: string, sofar: seq<Flip>)
      returns (flips: seq<Flip>)
      modifies st
      ensures Observed(st.View(), flips) == ObserveType(spec, oldU, newU, now, Observed(old(st.View()), sofar), typ)
    {
      flips := sofar;
      if typ !in newU.conds || spec.Ignores(newU.conds[typ]) {
        return;
      }
      var after := newU.conds[typ];
      st.current := st.current[typ := after];
      if typ !in st.reported {
        var rep := NOT_KNOWN;
        if typ in oldU.conds && oldU.conds[typ].status == "True" {
          rep := oldU.conds[typ];
        } else if spec.minDuration <= 0 && typ in oldU.conds && !spec.Ignores(oldU.conds[typ]) {
          rep := oldU.conds[typ];
        } else if spec.minDuration <= 0 && typ !in oldU.conds {
          rep := after;
        }
        st.reported := st.reported[typ := rep];
      }
      var rep := st.reported[typ];
      if after.status == rep.status {
        st.failingSince := st.failingSince - {typ};
      } else if after.status == "True" {
        st.failingSince := st.failingSince - {typ};
        st.reported := st.reported[typ := after];
        if rep.status != "" {
          flips := flips + [Flip(typ, after)];
        }
      } else if spec.minDuration <= 0 {
        st.reported := st.reported[typ := after];
        flips := flips + [Flip(typ, after)];
      } else if typ !in st.failingSince {
        st.failingSince := st.failingSince[typ := now];
      }
    }

    // One pass over the watched conditions of an update.
    method Observe(st: ObjectState, oldU: Obj, newU: Obj, now: Time) returns (flips: seq<Flip>)
      modifies st
      ensures Observed(st.View(), flips) == ObserveUpTo(spec, oldU, newU, now, old(st.View()), |WATCHED|)
    {
      flips := [];
      for i := 0 to |WATCHED|
        invariant Observed(st.View(), flips) == ObserveUpTo(spec, oldU, newU, now, old(st.View()), i)
      {
        flips := ObserveCondition(st, oldU, newU, now, WATCHED[i], flips);
      }
    }

    // The earliest deadline, found in whatever order the map is walked.
    method Earliest(failingSince: map<string, Time>) returns (due: Option<Time>)
      requires forall typ :: typ in failingSince ==> IsWatched(typ)
      ensures due == EarliestDue(spec, failingSince)
    {
      due := None;
      var rest := failingSince.Keys;
      while rest != {}
        invariant rest <= failingSince.Keys
        invariant due.None? <==> rest == failingSince.Keys
        invariant forall typ :: typ in failingSince && typ !in rest ==>
                    due.Some? && due.value <= failingSince[typ] + spec.minDuration
        invariant due.Some? ==>
                    exists typ :: typ in failingSince && typ !in rest && due.value == failingSince[typ] + spec.minDuration
        decreases rest
      {
        var typ :| typ in rest;
        var d := failingSince[typ] + spec.minDuration;
        if due.None? || d < due.value {
          due := Some(d);
        }
        rest := rest - {typ};
      }
      EarliestDueIsMinimum(spec, failingSince);
    }

    // Brings the timer in line with what is pending.
    method ScheduleTimer(key: string, st: ObjectState, now: Time)
      requires now == clock.now
      requires forall typ :: typ in st.failingSince ==> IsWatched(typ)
      requires st.timer.Some? ==> st.timer.value.seqNo == st.seqNo
      modifies st, clock`live
      ensures st.View() == Schedule(spec, key, old(st.View()))
      ensures clock.live == Rearmed(old(clock.live), old(st.timer), st.timer)
    {
      var due := Earliest(st.failingSince);
      if st.timer.Some? && due == st.due {
        return;
      }
      StopTimer(st);
      st.seqNo := st.seqNo + 1;
      st.due := due;
      if due.None? {
        return;
      }
      var cb := clock.AfterFunc(due.value - now, key, st.seqNo);
      st.timer := Some(cb);
    }

    method StopTimer(st: ObjectState)
      modifies st`timer, clock`live
      ensures st.timer == None && clock.live == Without(old(clock.live), old(st.timer))
    {
      if st.timer.Some? {
        clock.Release(st.timer.value);
        st.timer := None;
      }
    }

    // The conditions and the timer of one object, and what to pitch for it.
    method UpdateState(st: ObjectState, oldU: Obj, newU: Obj, now: Time) returns (ev: Option<K8sEvent>)
      requires now == clock.now
      requires SlotsInv(spec, st.View()) && (st.timer.Some? ==> TimerInv(spec, newU.key, st.View()))
      modifies st, clock`live
      ensures (st.View(), ev) == UpdateObject(spec, old(st.View()), oldU, newU, now)
      ensures clock.live == Rearmed(old(clock.live), old(st.timer), st.timer)
    {
      st.obj := newU;
      ghost var before := st.View();
      var flips := Observe(st, oldU, newU, now);
      ObserveOnlyWatched(spec, oldU, newU, now, before, |WATCHED|);
      ScheduleTimer(newU.key, st, now);
      if flips != [] {
        var e := FlipEventOf(flips);
        return Some(e);
      }
      if spec.updates != UPDATES_FLIPS && oldU.generation != newU.generation {
        return Some(GENERATION_EVENT);
      }
      return None;
    }

    // Every object but the one with this key is as in `others`.
    ghost predicate OthersAre(others: map<string, Tracked>, key: string)
      reads this, objects.Values
    {
      && (forall k :: k in others && k != key ==> k in objects && objects[k].View() == others[k])
      && (forall k :: k in objects && k != key ==> k in others)
    }

    // The state of an object, created when it is seen for the first time.
    method StateOf(u: Obj) returns (st: ObjectState)
      requires Distinct()
      modifies this`objects
      ensures Distinct() && u.key in objects && objects[u.key] == st && st.View() == Lookup(old(View()), u)
      ensures OthersAre(old(Objects()), u.key)
      ensures st !in old(objects.Values) ==> fresh(st)
      ensures forall k :: k in objects && k != u.key ==> k in old(objects) && objects[k] == old(objects)[k]
    {
      if u.key in objects {
        st := objects[u.key];
      } else {
        st := new ObjectState(u);
        objects := objects[u.key := st];
      }
    }

    // An update while the tracker is open.
    method UpdateOpen(oldU: Obj, newU: Obj) returns (ev: Option<K8sEvent>)
      requires Distinct()
      requires var st := Lookup(View(), newU);
        SlotsInv(spec, st) && (st.timer.Some? ==> TimerInv(spec, newU.key, st))
      modifies this`objects, objects.Values, clock`live
      ensures Distinct() && fresh(objects.Values - old(objects.Values))
      ensures
        var st := Lookup(old(View()), newU);
        var (st', ev') := UpdateObject(spec, st, oldU, newU, clock.now);
        && Objects() == old(Objects())[newU.key := st'] && ev == ev'
        && clock.live == Rearmed(old(clock.live), st.timer, st'.timer)
    {
      ghost var others := Objects();
      var st := StateOf(newU);
      label found:
      ev := UpdateState(st, oldU, newU, clock.now);
      assert OthersAre(others, newU.key) by {
        assert forall k :: k in objects && k != newU.key ==> objects[k].View() == old@found(objects[k].View());
      }
      Replaced(others, newU.key);
    }

    method Update(oldU: Obj, newU: Obj) returns (pitched: Option<Pitch>)
      requires Valid()
      modifies this`objects, objects.Values, clock`live
      ensures Valid() && fresh(objects.Values - old(objects.Values))
      ensures View() == After(spec, old(View()), Event(clock.now, TrackerSpec.Update(oldU, newU)))
      ensures pitched == Emit(spec, old(View()), Event(clock.now, TrackerSpec.Update(oldU, newU)))
    {
      if closed {
        return None;
      }
      ghost var s := View();
      assert newU.key in s.objects ==> ObjectInv(spec, newU.key, s.objects[newU.key]);
      UpdateInv(spec, s, clock.now, oldU, newU);
      var ev := UpdateOpen(oldU, newU);
      pitched := if ev.Some? then Some(Pitch(newU, ev.value)) else None;
    }

    // One pass over the watched conditions of a callback.
    method ExpirePending(st: ObjectState, now: Time) returns (flips: seq<Flip>, failing: Failing)
      modifies st
      ensures Expired(st.View(), flips, failing) == ExpireUpTo(spec, now, old(st.View()), |WATCHED|)
    {
      flips := [];
      var longest: Time, first: Option<Time> := 0, None;
      for i := 0 to |WATCHED|
        invariant Expired(st.View(), flips, Failing(longest, first)) == ExpireUpTo(spec, now, old(st.View()), i)
      {
        var typ := WATCHED[i];
        if typ in st.failingSince && now >= st.failingSince[typ] + spec.minDuration {
          var since := st.failingSince[typ];
          var state := if typ in st.current then st.current[typ] else NOT_KNOWN;
          st.failingSince := st.failingSince - {typ};
          st.reported := st.reported[typ := state];
          flips := flips + [Flip(typ, state)];
          if now - since > longest {
            longest, first := now - since, Some(since);
          }
        }
      }
      failing := Failing(longest, first);
    }

    method FireState(key: string, st: ObjectState, now: Time) returns (ev: Option<K8sEvent>)
      requires now == clock.now && ObjectInv(spec, key, st.View())
      modifies st, clock`live
      ensures (st.View(), ev) == FireObject(spec, key, old(st.View()), now)
      ensures clock.live == Rearmed(old(clock.live), None, st.timer)
    {
      ghost var before := st.View();
      st.timer := None;
      var flips, failing := ExpirePending(st, now);
      ExpireOnlyWatched(spec, now, before.(timer := None), |WATCHED|);
      ScheduleTimer(key, st, now);
      if flips == [] {
        return None;
      }
      var e := FlipEventOf(flips);
      return Some(e.(failing := Some(failing)));
    }

    // A callback that is accepted.
    method FireAccepted(cb: Callback) returns (pitched: Option<Pitch>)
      requires Distinct() && cb.key in objects && ObjectInv(spec, cb.key, objects[cb.key].View())
      modifies objects.Values, clock`live
      ensures
        var (st, ev) := FireObject(spec, cb.key, old(objects[cb.key].View()), clock.now);
        && Objects() == old(Objects())[cb.key := st]
        && clock.live == Rearmed(old(clock.live), None, st.timer)
        && pitched == if ev.Some? then Some(Pitch(old(objects[cb.key].obj), ev.value)) else None
    {
      ghost var others := Objects();
      var st := objects[cb.key];
      label found:
      var ev := FireState(cb.key, st, clock.now);
      assert st.obj == old(st.obj) by {
        ExpireOnlyWatched(spec, clock.now, others[cb.key].(timer := None), |WATCHED|);
      }
      pitched := if ev.Some? then Some(Pitch(st.obj, ev.value)) else None;
      assert OthersAre(others, cb.key) by {
        assert forall k :: k in objects && k != cb.key ==> objects[k].View() == old@found(objects[k].View());
      }
      Replaced(others, cb.key);
    }

    // Runs the callback cb, whichever it is; the clock lets go of it first.
    method Fire(cb: Callback) returns (pitched: Option<Pitch>)
      requires Valid()
      modifies objects.Values, clock`live
      ensures Valid()
      ensures View() == After(spec, old(View()), Event(clock.now, TrackerSpec.Fire(cb)))
      ensures pitched == Emit(spec, old(View()), Event(clock.now, TrackerSpec.Fire(cb)))
    {
      ghost var s := View();
      var accepted := !closed && cb.key in objects && objects[cb.key].seqNo == cb.seqNo;
      assert accepted <==> Matches(s, cb);
      LetGo(cb);
      if !accepted {
        IgnoredIs(s, cb);
        return None;
      }
      assert ObjectInv(spec, cb.key, s.objects[cb.key]);
      pitched := FireAccepted(cb);
      FiredIs(s, cb, pitched);
    }

    lemma IgnoredIs(s: Sys, cb: Callback)
      requires Inv(spec, s) && !Matches(s, cb)
      requires Objects() == s.objects && closed == s.closed && clock.live == s.live - multiset{cb}
      ensures Inv(spec, View())
      ensures View() == After(spec, s, Event(clock.now, TrackerSpec.Fire(cb)))
      ensures Emit(spec, s, Event(clock.now, TrackerSpec.Fire(cb))) == None
    {
      AfterIgnored(spec, s, clock.now, cb);
    }

    lemma FiredIs(s: Sys, cb: Callback, pitched: Option<Pitch>)
      requires Inv(spec, s) && Matches(s, cb) && closed == s.closed
      requires
        var (st, ev) := FireObject(spec, cb.key, s.objects[cb.key], clock.now);
        && Objects() == s.objects[cb.key := st]
        && clock.live == Rearmed(s.live - multiset{cb}, None, st.timer)
        && pitched == if ev.Some? then Some(Pitch(s.objects[cb.key].obj, ev.value)) else None
      ensures Inv(spec, View())
      ensures View() == After(spec, s, Event(clock.now, TrackerSpec.Fire(cb)))
      ensures pitched == Emit(spec, s, Event(clock.now, TrackerSpec.Fire(cb)))
    {
      AfterAccepted(spec, s, clock.now, cb);
    }

    // The object is gone: nothing of it is kept, and the clock lets go of its callback.
    method Forget(key: string)
      requires Valid()
      modifies this`objects, clock`live
      ensures Valid()
      ensures View() == After(spec, old(View()), Event(clock.now, TrackerSpec.Forget(key)))
    {
      AfterForget(spec, View(), clock.now, key);
      Drop(key);
    }

    method Drop(key: string)
      modifies this`objects, clock`live
      ensures objects == old(objects) - {key}
      ensures Objects() == old(Objects()) - {key}
      ensures clock.live ==
        if key in old(objects) then Without(old(clock.live), old(objects)[key].timer) else old(clock.live)
    {
      ghost var before := Objects();
      if key in objects && objects[key].timer.Some? {
        clock.Release(objects[key].timer.value);
      }
      objects := objects - {key};
      Dropped(before, key);
    }

    lemma Dropped(before: map<string, Tracked>, key: string)
      requires objects.Keys == before.Keys - {key}
      requires forall k :: k in objects ==> objects[k].View() == before[k]
      ensures Objects() == before - {key}
    {
    }

    // Stops the timer of every object.
    method StopAll()
      requires OwnTimers(Objects())
      modifies clock`live
      ensures clock.live == old(clock.live) - multiset(Armed(old(Objects())))
    {
      ghost var live, done: set<string> := clock.live, {};
      var rest := objects.Keys;
      while rest != {}
        invariant Partition(objects.Keys, rest, done)
        invariant StoppedSo(old(Objects()), live, done)
        decreases rest
      {
        var key :| key in rest;
        MoveOne(objects.Keys, rest, done, key);
        StopObject(key, old(Objects()), live, done);
        rest, done := rest - {key}, done + {key};
      }
      AllArmed(old(Objects()));
    }

    // The timers of the objects in `done` are no longer live.
    ghost predicate StoppedSo(objs: map<string, Tracked>, live: multiset<Callback>, done: set<string>)
      reads this, clock, objects.Values
    {
      done <= objs.Keys && OwnTimers(objs) && Objects() == objs && clock.live == live - multiset(ArmedOf(objs, done))
    }

    method StopObject(key: string, ghost objs: map<string, Tracked>, ghost live: multiset<Callback>,
                      ghost done: set<string>)
      requires key in objects && key !in done && StoppedSo(objs, live, done)
      modifies clock`live
      ensures StoppedSo(objs, live, done + {key})
    {
      StopOne(objs, live, done, key);
      assert objs[key].timer == objects[key].timer;
      if objects[key].timer.Some? {
        LetGo(objects[key].timer.value);
      }
    }

    // The clock lets go of a callback; the objects are not touched.
    method LetGo(cb: Callback)
      modifies clock`live
      ensures Objects() == old(Objects()) && clock.live == old(clock.live) - multiset{cb}
    {
      clock.Release(cb);
      assert forall k :: k in objects ==> objects[k].View() == old(objects[k].View());
    }

    // The end of the tracker: no object, no callback, and a flag that says so.
    method Close()
      requires Valid()
      modifies this, clock`live
      ensures Valid()
      ensures View() == After(spec, old(View()), Event(clock.now, TrackerSpec.Close))
    {
      ghost var s := View();
      TimersAreOwn(spec, s);
      StepInv(spec, s, Event(clock.now, TrackerSpec.Close));
      StopAll();
      closed := true;
      objects := map[];
      assert Objects() == map[];
    }

    lemma Replaced(others: map<string, Tracked>, key: string)
      requires key in objects && OthersAre(others, key)
      ensures Objects() == others[key := objects[key].View()]
    {
    }
  }

  /******* Steps spelled out *******/

  lemma AfterIgnored(spec: Spec, s: Sys, now: Time, cb: Callback)
    requires Inv(spec, s) && !Matches(s, cb)
    ensures After(spec, s, Event(now, Fire(cb))) == s.(live := s.live - multiset{cb})
    ensures Emit(spec, s, Event(now, Fire(cb))) == None
    ensures Inv(spec, s.(live := s.live - multiset{cb}))
  {
    FireInv(spec, s, now, cb);
  }

  lemma AfterAccepted(spec: Spec, s: Sys, now: Time, cb: Callback)
    requires Inv(spec, s) && Matches(s, cb)
    ensures
      var (st', ev) := FireObject(spec, cb.key, s.objects[cb.key], now);
      var s' := Sys(s.objects[cb.key := st'], s.closed, Rearmed(s.live - multiset{cb}, None, st'.timer));
      && After(spec, s, Event(now, Fire(cb))) == s' && Inv(spec, s')
      && Emit(spec, s, Event(now, Fire(cb))) == if ev.Some? then Some(Pitch(s.objects[cb.key].obj, ev.value)) else None
  {
    FireInv(spec, s, now, cb);
  }

  lemma AfterForget(spec: Spec, s: Sys, now: Time, key: string)
    requires Inv(spec, s)
    ensures
      var s' := Sys(s.objects - {key}, s.closed,
                    if key in s.objects then Without(s.live, s.objects[key].timer) else s.live);
      After(spec, s, Event(now, Forget(key))) == s' && Inv(spec, s')
  {
    ForgetInv(spec, s, now, key);
    assert key !in s.objects ==> s.objects - {key} == s.objects;
  }

  ghost function ArmedOf(objects: map<string, Tracked>, keys: set<string>): set<Callback>
    requires keys <= objects.Keys
  {
    set k | k in keys && objects[k].timer.Some? :: objects[k].timer.value
  }

  lemma AllArmed(objects: map<string, Tracked>)
    ensures ArmedOf(objects, objects.Keys) == Armed(objects)
  {
  }

  ghost predicate Partition(all: set<string>, rest: set<string>, done: set<string>) {
    rest <= all && done == all - rest
  }

  lemma MoveOne(all: set<string>, rest: set<string>, done: set<string>, key: string)
    requires Partition(all, rest, done) && key in rest
    ensures Partition(all, rest - {key}, done + {key}) && key in all && key !in done
  {
  }

  lemma OneMore(a: set<Callback>, cb: Callback)
    requires cb !in a
    ensures multiset(a + {cb}) == multiset(a) + multiset{cb}
  {
  }

  // Timers of different objects are different callbacks.
  lemma StopOne(objects: map<string, Tracked>, live: multiset<Callback>, done: set<string>, key: string)
    requires OwnTimers(objects) && done <= objects.Keys && key in objects && key !in done
    ensures live - multiset(ArmedOf(objects, done + {key})) ==
      Without(live - multiset(ArmedOf(objects, done)), objects[key].timer)
  {
    var a, b := ArmedOf(objects, done), ArmedOf(objects, done + {key});
    if objects[key].timer.Some? {
      var cb := objects[key].timer.value;
      assert cb !in a;
      assert b == a + {cb};
      OneMore(a, cb);
      LessOneMore(live, multiset(a), multiset{cb});
    } else {
      assert b == a;
    }
  }

  lemma LessOneMore(live: multiset<Callback>, a: multiset<Callback>, b: multiset<Callback>)
    ensures live - (a + b) == live - a - b
  {
  }
}
