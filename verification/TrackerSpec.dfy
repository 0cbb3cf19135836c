// The condition tracker as a transition system over values: what one call of
// update, fire, forget or close does to the tracked objects, to the timers the
// clock still holds, and what it pitches. The class in Tracker.dfy works in
// place and is proved against these functions.
module TrackerSpec {
  import opened Common

  const UPDATES_CONDITIONS := "conditions"
  const UPDATES_FLIPS := "flips"
  const UPDATES_ALL := "all"

  const WATCHED: seq<string> := ["Ready", "Synced"]

  datatype Cond = Cond(status: string, reason: string)

  // The zero value of a reported state: "not known yet".
  const NOT_KNOWN := Cond("", "")

  datatype Obj = Obj(key: string, generation: int, conds: map<string, Cond>)

  datatype Spec = Spec(
    ignoreStatuses: seq<string>, ignoreReasons: seq<string>, minDuration: Time, updates: string)
  {
    predicate Ignores(c: Cond) {
      c.status in ignoreStatuses || (c.reason != "" && c.reason in ignoreReasons)
    }
  }

  datatype Flip = Flip(typ: string, state: Cond)

  // "Failing for <longest> (since <first>)".
  datatype Failing = Failing(longest: Time, first: Option<Time>)

  datatype K8sEvent = K8sEvent(flips: seq<Flip>, severity: string, failing: Option<Failing>)

  datatype Pitch = Pitch(obj: Obj, event: K8sEvent)

  // A call of fire(key, seqNo) that the clock owes from time `at` on.
  datatype Callback = Callback(key: string, seqNo: nat, at: Time)

  // The state kept for one object.
  datatype Tracked = Tracked(
    reported: map<string, Cond>, current: map<string, Cond>, failingSince: map<string, Time>,
    obj: Obj, timer: Option<Callback>, due: Option<Time>, seqNo: nat)

  function Fresh(u: Obj): Tracked {
    Tracked(map[], map[], map[], u, None, None, 0)
  }

  /******* Titles and severities *******/

  function FlipRank(f: Flip): nat {
    if f.state.status == "False" && f.typ == "Ready" then 3
    else if f.state.status != "True" then 2
    else 1
  }

  function Rank(flips: seq<Flip>): nat {
    if flips == [] then 0
    else
      var front := Rank(flips[..|flips| - 1]);
      var last := FlipRank(flips[|flips| - 1]);
      if last > front then last else front
  }

  function SeverityOf(rank: nat): string {
    if rank == 0 then "" else if rank == 1 then "success" else if rank == 2 then "warning" else "error"
  }

  function FlipEvent(flips: seq<Flip>): K8sEvent {
    K8sEvent(flips, SeverityOf(Rank(flips)), None)
  }

  lemma {:induction false} RankIsWorst(flips: seq<Flip>)
    ensures Rank(flips) <= 3
    ensures Rank(flips) == 0 <==> flips == []
    ensures Rank(flips) == 3 <==> exists f :: f in flips && f.typ == "Ready" && f.state.status == "False"
    ensures Rank(flips) <= 1 <==> forall f :: f in flips ==> f.state.status == "True"
  {
    if flips != [] {
      var front, last := flips[..|flips| - 1], flips[|flips| - 1];
      RankIsWorst(front);
      assert flips == front + [last];
    }
  }

  // Ready to False makes an event an error, any other failure a warning, and
  // only recoveries make it a success.
  lemma SeverityIsWorst(flips: seq<Flip>)
    requires flips != []
    ensures var severity := FlipEvent(flips).severity;
      && (severity == "error" <==> exists f :: f in flips && f.typ == "Ready" && f.state.status == "False")
      && (severity == "success" <==> forall f :: f in flips ==> f.state.status == "True")
      && (severity == "warning" <==> severity != "error" && severity != "success")
  {
    RankIsWorst(flips);
  }

  const GENERATION_EVENT := K8sEvent([], "info", None)

  /******* update *******/

  // The state a condition is compared with when it is first observed.
  function Baseline(spec: Spec, before: Option<Cond>, after: Cond): Cond {
    if before.Some? && before.value.status == "True" then before.value
    else if spec.minDuration <= 0 && before.Some? && !spec.Ignores(before.value) then before.value
    else if spec.minDuration <= 0 && before.None? then after
    else NOT_KNOWN
  }

  datatype Observed = Observed(st: Tracked, flips: seq<Flip>)

  function ObserveType(spec: Spec, oldU: Obj, newU: Obj, now: Time, acc: Observed, typ: string): Observed {
    if typ !in newU.conds || spec.Ignores(newU.conds[typ]) then acc
    else
      var st := acc.st;
      var after := newU.conds[typ];
      var rep := if typ in st.reported then st.reported[typ] else Baseline(spec, Get(oldU.conds, typ), after);
      var st := st.(current := st.current[typ := after], reported := st.reported[typ := rep]);
      if after.status == rep.status then
        acc.(st := st.(failingSince := st.failingSince - {typ}))
      else if after.status == "True" then
        Observed(st.(failingSince := st.failingSince - {typ}, reported := st.reported[typ := after]),
                 if rep.status != "" then acc.flips + [Flip(typ, after)] else acc.flips)
      else if spec.minDuration <= 0 then
        Observed(st.(reported := st.reported[typ := after]), acc.flips + [Flip(typ, after)])
      else
        acc.(st := if typ in st.failingSince then st else st.(failingSince := st.failingSince[typ := now]))
  }

  // The first n watched conditions of an update.
  function ObserveUpTo(spec: Spec, oldU: Obj, newU: Obj, now: Time, st: Tracked, n: nat): Observed
    requires n <= |WATCHED|
  {
    if n == 0 then Observed(st, [])
    else ObserveType(spec, oldU, newU, now, ObserveUpTo(spec, oldU, newU, now, st, n - 1), WATCHED[n - 1])
  }

  function UpdateEventOf(spec: Spec, oldU: Obj, newU: Obj, flips: seq<Flip>): Option<K8sEvent> {
    if flips != [] then Some(FlipEvent(flips))
    else if spec.updates != UPDATES_FLIPS && oldU.generation != newU.generation then Some(GENERATION_EVENT)
    else None
  }

  function UpdateObject(spec: Spec, st: Tracked, oldU: Obj, newU: Obj, now: Time): (Tracked, Option<K8sEvent>) {
    var o := ObserveUpTo(spec, oldU, newU, now, st.(obj := newU), |WATCHED|);
    (Schedule(spec, newU.key, o.st), UpdateEventOf(spec, oldU, newU, o.flips))
  }

  /******* schedule *******/

  function Earlier(a: Option<Time>, b: Option<Time>): Option<Time> {
    if a.None? then b else if b.None? then a else if b.value < a.value then b else a
  }

  function DueOf(spec: Spec, failingSince: map<string, Time>, typ: string): Option<Time> {
    if typ in failingSince then Some(failingSince[typ] + spec.minDuration) else None
  }

  // The earliest deadline of the pending failures.
  function EarliestDue(spec: Spec, failingSince: map<string, Time>): Option<Time> {
    Earlier(DueOf(spec, failingSince, WATCHED[0]), DueOf(spec, failingSince, WATCHED[1]))
  }

  function Schedule(spec: Spec, key: string, st: Tracked): Tracked {
    var due := EarliestDue(spec, st.failingSince);
    if st.timer.Some? && due == st.due then st
    else
      var n := st.seqNo + 1;
      st.(seqNo := n, due := due, timer := if due.None? then None else Some(Callback(key, n, due.value)))
  }

  /******* fire *******/

  datatype Expired = Expired(st: Tracked, flips: seq<Flip>, failing: Failing)

  function ExpireType(spec: Spec, now: Time, acc: Expired, typ: string): Expired {
    var st := acc.st;
    if typ !in st.failingSince || now < st.failingSince[typ] + spec.minDuration then acc
    else
      var since := st.failingSince[typ];
      var state := if typ in st.current then st.current[typ] else NOT_KNOWN;
      Expired(
        st.(failingSince := st.failingSince - {typ}, reported := st.reported[typ := state]),
        acc.flips + [Flip(typ, state)],
        if now - since > acc.failing.longest then Failing(now - since, Some(since)) else acc.failing)
  }

  function ExpireUpTo(spec: Spec, now: Time, st: Tracked, n: nat): Expired
    requires n <= |WATCHED|
  {
    if n == 0 then Expired(st, [], Failing(0, None))
    else ExpireType(spec, now, ExpireUpTo(spec, now, st, n - 1), WATCHED[n - 1])
  }

  function FireEventOf(x: Expired): Option<K8sEvent> {
    if x.flips == [] then None else Some(FlipEvent(x.flips).(failing := Some(x.failing)))
  }

  function FireObject(spec: Spec, key: string, st: Tracked, now: Time): (Tracked, Option<K8sEvent>) {
    var x := ExpireUpTo(spec, now, st.(timer := None), |WATCHED|);
    (Schedule(spec, key, x.st), FireEventOf(x))
  }

  /******* The tracker and its clock *******/

  // `live` are the callbacks the clock holds that neither ran nor were stopped.
  datatype Sys = Sys(objects: map<string, Tracked>, closed: bool, live: multiset<Callback>)

  const INITIAL := Sys(map[], false, multiset{})

  // Fire runs a callback. Nothing restricts which one: a callback that was
  // stopped may already have been waiting for the lock, so any (key, seqNo)
  // may run at any time.
  datatype Step = Update(oldU: Obj, newU: Obj) | Fire(cb: Callback) | Forget(key: string) | Close

  datatype Event = Event(now: Time, step: Step)

  function Without(live: multiset<Callback>, timer: Option<Callback>): multiset<Callback> {
    if timer.Some? then live - multiset{timer.value} else live
  }

  function Rearmed(live: multiset<Callback>, before: Option<Callback>, after: Option<Callback>): multiset<Callback> {
    if before == after then live
    else if after.Some? then Without(live, before) + multiset{after.value}
    else Without(live, before)
  }

  function Armed(objects: map<string, Tracked>): set<Callback> {
    set k | k in objects && objects[k].timer.Some? :: objects[k].timer.value
  }

  predicate Matches(s: Sys, cb: Callback) {
    !s.closed && cb.key in s.objects && s.objects[cb.key].seqNo == cb.seqNo
  }

  function Lookup(s: Sys, u: Obj): Tracked {
    if u.key in s.objects then s.objects[u.key] else Fresh(u)
  }

  function After(spec: Spec, s: Sys, e: Event): Sys {
    match e.step
    case Update(oldU, newU) =>
      if s.closed then s
      else
        var st := Lookup(s, newU);
        var st' := UpdateObject(spec, st, oldU, newU, e.now).0;
        s.(objects := s.objects[newU.key := st'], live := Rearmed(s.live, st.timer, st'.timer))
    case Fire(cb) =>
      var s := s.(live := s.live - multiset{cb});
      if !Matches(s, cb) then s
      else
        var st' := FireObject(spec, cb.key, s.objects[cb.key], e.now).0;
        s.(objects := s.objects[cb.key := st'], live := Rearmed(s.live, None, st'.timer))
    case Forget(key) =>
      if key !in s.objects then s
      else s.(objects := s.objects - {key}, live := Without(s.live, s.objects[key].timer))
    case Close =>
      Sys(map[], true, s.live - multiset(Armed(s.objects)))
  }

  function Emit(spec: Spec, s: Sys, e: Event): Option<Pitch> {
    match e.step
    case Update(oldU, newU) =>
      if s.closed then None
      else
        var ev := UpdateObject(spec, Lookup(s, newU), oldU, newU, e.now).1;
        if ev.Some? then Some(Pitch(newU, ev.value)) else None
    case Fire(cb) =>
      if !Matches(s, cb) then None
      else
        var st := s.objects[cb.key];
        var ev := FireObject(spec, cb.key, st, e.now).1;
        if ev.Some? then Some(Pitch(st.obj, ev.value)) else None
    case Forget(_) => None
    case Close => None
  }

  /******* Runs *******/

  function Run(spec: Spec, es: seq<Event>): Sys {
    if es == [] then INITIAL else After(spec, Run(spec, Front(es)), Last(es))
  }

  // What the last step of a run pitches.
  function LastPitch(spec: Spec, es: seq<Event>): Option<Pitch>
    requires es != []
  {
    Emit(spec, Run(spec, Front(es)), Last(es))
  }

  // The clock never goes back.
  predicate Ordered(es: seq<Event>) {
    forall i, j :: 0 <= i < j < |es| ==> es[i].now <= es[j].now
  }

  /******* Flips of one condition *******/

  function StatesOf(flips: seq<Flip>, typ: string): seq<Cond> {
    if flips == [] then []
    else StatesOf(Front(flips), typ) + if Last(flips).typ == typ then [Last(flips).state] else []
  }

  function PitchedStates(p: Option<Pitch>, key: string, typ: string): seq<Cond> {
    if p.Some? && p.value.obj.key == key then StatesOf(p.value.event.flips, typ) else []
  }

  datatype TimedFlip = TimedFlip(at: Time, state: Cond)

  function Stamp(now: Time, states: seq<Cond>): seq<TimedFlip> {
    seq(|states|, i requires 0 <= i < |states| => TimedFlip(now, states[i]))
  }

  // The flips of one condition of one object that a run pitches, in order.
  function FlipsOf(spec: Spec, es: seq<Event>, key: string, typ: string): seq<TimedFlip> {
    if es == [] then []
    else FlipsOf(spec, Front(es), key, typ) + Stamp(Last(es).now, PitchedStates(LastPitch(spec, es), key, typ))
  }
}
