// Safety over whole runs with arbitrary callbacks: where a pitched failure
// comes from, how flips of one condition follow each other, and how far apart
// failures are.
module History {
  import opened Common
  import opened TrackerSpec
  import opened Slots
  import opened Invariant
  import opened Detector

  /******* Every delayed failure is real *******/

  // From step j on the object was tracked without a break, and the condition
  // was neither True nor back at the reported status in any state shown.
  ghost predicate FailingFrom(spec: Spec, es: seq<Event>, j: nat, key: string, typ: string, reported: string) {
    && j < |es|
    && ObsOf(spec, es[j], key, typ) != []
    && forall i :: j <= i < |es| ==> KeepsFailing(ObsOf(spec, es[i], key, typ), reported)
  }

  predicate IsFailing(o: Obs, reported: string) {
    o.Seen? && o.state.status != "True" && o.state.status != reported
  }

  predicate KeepsFailing(o: seq<Obs>, reported: string) {
    o == [] || IsFailing(o[0], reported)
  }

  // A failure that has been running since `since`, and from a step not before
  // `from`.
  ghost predicate HasHistory(spec: Spec, es: seq<Event>, from: nat, key: string, typ: string, reported: string, since: Time) {
    exists j: nat :: from <= j && FailingFrom(spec, es, j, key, typ, reported) && es[j].now == since
  }

  lemma HistoryGoesOn(spec: Spec, es: seq<Event>, from: nat, key: string, typ: string, reported: string, since: Time)
    requires es != [] && HasHistory(spec, Front(es), from, key, typ, reported, since)
    requires KeepsFailing(ObsOf(spec, Last(es), key, typ), reported)
    ensures HasHistory(spec, es, from, key, typ, reported, since)
  {
    var j: nat :| from <= j && FailingFrom(spec, Front(es), j, key, typ, reported) && Front(es)[j].now == since;
    forall i | j <= i < |es| ensures KeepsFailing(ObsOf(spec, es[i], key, typ), reported) {
      if i < |es| - 1 {
        assert KeepsFailing(ObsOf(spec, Front(es)[i], key, typ), reported);
      }
    }
    assert FailingFrom(spec, es, j, key, typ, reported) && es[j].now == since;
  }

  lemma HistoryStarts(spec: Spec, es: seq<Event>, from: nat, key: string, typ: string, reported: string)
    requires es != [] && from < |es| && ObsOf(spec, Last(es), key, typ) != []
    requires KeepsFailing(ObsOf(spec, Last(es), key, typ), reported)
    ensures HasHistory(spec, es, from, key, typ, reported, Last(es).now)
  {
    assert FailingFrom(spec, es, |es| - 1, key, typ, reported) && es[|es| - 1].now == Last(es).now;
  }

  ghost predicate CurrentShown(s: Slot, obs: seq<Obs>) {
    s.current == if obs != [] && Last(obs).Seen? then Some(Last(obs).state) else None
  }

  lemma CurrentStep(spec: Spec, s: Slot, now: Time, input: Input, obs: seq<Obs>, o: seq<Obs>)
    requires CurrentShown(s, obs) && Shows(input, now, o)
    ensures CurrentShown(NextSlot(spec, s, now, input).slot, obs + o)
  {
    if o == [] {
      assert obs + o == obs;
    }
  }

  // The state kept as current is the last one that was not ignored.
  lemma {:induction false} CurrentIsLastShown(spec: Spec, es: seq<Event>, key: string, typ: string)
    requires IsWatched(typ)
    ensures CurrentShown(SlotAt(Run(spec, es), key, typ), Observations(spec, es, key, typ))
  {
    if es != [] {
      CurrentIsLastShown(spec, Front(es), key, typ);
      var slot, input, o, out := ConditionStep(spec, es, key, typ);
      CurrentStep(spec, slot, Last(es).now, input, Observations(spec, Front(es), key, typ), o);
    }
  }

  // How a slot comes to be pending: it was before, or the step starts it.
  lemma PendingStep(spec: Spec, s: Slot, now: Time, input: Input)
    requires SlotInv(spec, s) && NextSlot(spec, s, now, input).slot.since.Some?
    ensures var s' := NextSlot(spec, s, now, input).slot;
      && s'.reported.Some?
      && !input.Reset?
      && (input.Observe? ==> input.after.status != "True" && input.after.status != s'.reported.value.status)
      && (s.since.Some? ==> s'.since == s.since && s'.reported == s.reported)
      && (s.since.None? ==> input.Observe? && s'.since == Some(now))
  {
  }

  // The failure that is pending, if any, has a history from step `from` on.
  ghost predicate PendingSince(spec: Spec, es: seq<Event>, from: nat, key: string, typ: string, s: Slot) {
    s.since.Some? && s.reported.Some? ==>
      HasHistory(spec, es, from, key, typ, s.reported.value.status, s.since.value)
  }

  lemma {:induction false} PendingSinceStep(spec: Spec, es: seq<Event>, from: nat, key: string, typ: string)
    requires IsWatched(typ) && es != [] && from < |es|
    requires PendingSince(spec, Front(es), from, key, typ, SlotAt(Run(spec, Front(es)), key, typ))
    ensures PendingSince(spec, es, from, key, typ, SlotAt(Run(spec, es), key, typ))
  {
    var slot, input, o, out := ConditionStep(spec, es, key, typ);
    if out.slot.since.Some? {
      PendingStep(spec, slot, Last(es).now, input);
      var reported := out.slot.reported.value.status;
      if slot.since.Some? {
        HistoryGoesOn(spec, es, from, key, typ, reported, slot.since.value);
      } else {
        HistoryStarts(spec, es, from, key, typ, reported);
      }
    }
  }

  // What is pending after a run started after any step at which nothing was.
  lemma {:induction false} PendingHasHistory(spec: Spec, es: seq<Event>, from: nat, key: string, typ: string)
    requires IsWatched(typ) && from <= |es| && SlotAt(Run(spec, es[..from]), key, typ).since.None?
    ensures PendingSince(spec, es, from, key, typ, SlotAt(Run(spec, es), key, typ))
  {
    if from == |es| {
      assert es[..from] == es;
    } else {
      assert Front(es)[..from] == es[..from];
      PendingHasHistory(spec, Front(es), from, key, typ);
      PendingSinceStep(spec, es, from, key, typ);
    }
  }

  // What a callback pitches was pending, and due.
  lemma {:induction false} PitchedWasPending(spec: Spec, es: seq<Event>, key: string, typ: string, c: Cond)
    requires es != [] && Last(es).step.Fire? && IsWatched(typ)
    requires c in PitchedStates(LastPitch(spec, es), key, typ)
    ensures
      var s := SlotAt(Run(spec, Front(es)), key, typ);
      && SlotInv(spec, s) && s.since.Some? && s.since.value + spec.minDuration <= Last(es).now
      && s.current == Some(c) && SlotAt(Run(spec, es), key, typ).since.None?
    ensures Observations(spec, es, key, typ) == Observations(spec, Front(es), key, typ)
  {
    var slot, input, o, out := ConditionStep(spec, es, key, typ);
    assert input.Expire? && o == [];
  }

  // The last step comes at least minDuration after the failure began.
  ghost predicate IsReal(spec: Spec, es: seq<Event>, key: string, typ: string, reported: string)
    requires es != []
  {
    exists since: Time :: since + spec.minDuration <= Last(es).now && HasHistory(spec, es, 0, key, typ, reported, since)
  }

  lemma PendingIsReal(spec: Spec, es: seq<Event>, key: string, typ: string, since: Time, reported: string)
    requires es != [] && Last(es).step.Fire? && since + spec.minDuration <= Last(es).now
    requires HasHistory(spec, Front(es), 0, key, typ, reported, since)
    ensures IsReal(spec, es, key, typ, reported)
  {
    HistoryGoesOn(spec, es, 0, key, typ, reported, since);
  }

  // A failure that a callback pitches began at an update at least minDuration
  // earlier in the same lifetime; since then every state that was not ignored
  // was neither True nor the reported one, and the pitched state is the latest.
  lemma {:induction false} DelayedFailureIsReal(spec: Spec, es: seq<Event>, key: string, typ: string, c: Cond)
    requires es != [] && Last(es).step.Fire? && IsWatched(typ)
    requires c in PitchedStates(LastPitch(spec, es), key, typ)
    ensures
      var reported := SlotAt(Run(spec, Front(es)), key, typ).reported;
      var obs := Observations(spec, es, key, typ);
      && reported.Some? && IsReal(spec, es, key, typ, reported.value.status)
      && obs != [] && Last(obs).Seen? && Last(obs).state == c
      && c.status != "True" && c.status != reported.value.status
  {
    var s := SlotAt(Run(spec, Front(es)), key, typ);
    PitchedWasPending(spec, es, key, typ, c);
    CurrentIsLastShown(spec, Front(es), key, typ);
    assert Front(es)[..0] == [];
    PendingHasHistory(spec, Front(es), 0, key, typ);
    PendingIsReal(spec, es, key, typ, s.since.value, s.reported.value.status);
  }

  /******* Every lasting failure is pitched *******/

  // From obs[j] to obs[k] every state is neither True nor the reported one, and
  // they all come before `due`.
  predicate FailsThrough(obs: seq<Obs>, j: nat, k: nat, reported: string, due: Time)
    decreases k
  {
    && j <= k < |obs|
    && IsFailing(obs[k], reported) && obs[k].now < due
    && (j < k ==> FailsThrough(obs, j, k - 1, reported, due))
  }

  // What the detector compares a state with, if no failure is running.
  predicate ComparesWith(d: Detector, o: Obs, reported: string) {
    match d
    case Unseen => o.Seen? && reported == if o.before.Some? && o.before.value.status == "True" then "True" else ""
    case Settled(r) => reported == r
    case Lasting(_, _, _) => false
  }

  lemma FailureRuns(minDuration: Time, v: Verdict, o: Obs, reported: string)
    requires minDuration > 0 && ComparesWith(v.d, o, reported)
    requires IsFailing(o, reported)
    ensures DetectNext(minDuration, v.d, o).d == Lasting(reported, o.now, o.state)
  {
  }

  lemma FailureRunsOn(minDuration: Time, d: Detector, o: Obs)
    requires d.Lasting? && IsFailing(o, d.reported) && o.now < d.since + minDuration
    ensures DetectNext(minDuration, d, o).d == d.(last := o.state)
  {
  }

  lemma {:induction false} FlipsKept(minDuration: Time, obs: seq<Obs>, n: nat, m: nat, f: TimedFlip)
    requires n <= m <= |obs| && f in DetectUpTo(minDuration, obs, n).flips
    ensures f in DetectUpTo(minDuration, obs, m).flips
  {
    if n < m {
      FlipsKept(minDuration, obs, n, m - 1, f);
    }
  }

  // A failure begins when the condition was True before, or is seen for the
  // first time in this lifetime; `reported` is what it is compared with.
  predicate Begins(obs: seq<Obs>, j: nat, reported: string) {
    && j < |obs| && obs[j].Seen?
    && if j == 0 || obs[j - 1].Gone? then ComparesWith(Unseen, obs[j], reported)
       else obs[j - 1].state.status == "True" && reported == "True"
  }

  lemma TrueSettles(minDuration: Time, d: Detector, o: Obs)
    requires o.Seen? && o.state.status == "True"
    ensures DetectNext(minDuration, d, o).d == Settled("True")
  {
  }

  lemma BeginsCompares(minDuration: Time, obs: seq<Obs>, j: nat, reported: string)
    requires Begins(obs, j, reported)
    ensures ComparesWith(DetectUpTo(minDuration, obs, j).d, obs[j], reported)
  {
    if j > 0 && obs[j - 1].Seen? {
      TrueSettles(minDuration, DetectUpTo(minDuration, obs, j - 1).d, obs[j - 1]);
    }
  }

  // After obs[k] the failure that began with obs[j] still runs.
  lemma {:induction false} FailureStillRuns(minDuration: Time, obs: seq<Obs>, j: nat, k: nat, reported: string)
    requires minDuration > 0 && Begins(obs, j, reported)
    requires FailsThrough(obs, j, k, reported, obs[j].now + minDuration)
    ensures DetectUpTo(minDuration, obs, k + 1).d == Lasting(reported, obs[j].now, obs[k].state)
    decreases k
  {
    if k == j {
      BeginsCompares(minDuration, obs, j, reported);
      FailureRuns(minDuration, DetectUpTo(minDuration, obs, j), obs[j], reported);
    } else {
      FailureStillRuns(minDuration, obs, j, k - 1, reported);
      FailureRunsOn(minDuration, Lasting(reported, obs[j].now, obs[k - 1].state), obs[k]);
    }
  }

  // A failure that begins with obs[j] lasts for minDuration; obs[k] is its
  // latest state by then.
  ghost predicate Lasts(obs: seq<Obs>, j: nat, k: nat, reported: string, minDuration: Time, end: Time) {
    && Begins(obs, j, reported) && FailsThrough(obs, j, k, reported, obs[j].now + minDuration)
    && (k + 1 < |obs| ==> obs[j].now + minDuration <= obs[k + 1].now)
    && obs[j].now + minDuration <= end
  }

  // The flip a lasting failure becomes: when it has lasted, with its latest state.
  ghost predicate BecomesFlip(obs: seq<Obs>, minDuration: Time, end: Time, f: TimedFlip) {
    exists j: nat, k: nat, reported: string :: Lasts(obs, j, k, reported, minDuration, end)
      && f == TimedFlip(obs[j].now + minDuration, obs[k].state)
  }

  lemma FoundNext(minDuration: Time, d: Detector, o: Obs)
    requires d.Lasting? && d.since + minDuration <= o.now
    ensures TimedFlip(d.since + minDuration, d.last) in DetectNext(minDuration, d, o).flips
  {
  }

  lemma InEither<T>(a: seq<T>, b: seq<T>, x: T)
    requires x in a || x in b
    ensures x in a + b
  {
  }

  lemma DetectedHas(minDuration: Time, obs: seq<Obs>, v: Verdict, end: Time, f: TimedFlip)
    requires v == Detect(minDuration, obs) && (f in v.flips || f in Elapse(minDuration, v.d, end).flips)
    ensures f in DetectedFlips(minDuration, obs, end)
  {
    InEither(v.flips, Elapse(minDuration, v.d, end).flips, f);
  }

  lemma {:induction false} FoundLater(minDuration: Time, obs: seq<Obs>, n: nat, f: TimedFlip, d: Detector)
    requires n < |obs| && d == DetectUpTo(minDuration, obs, n).d && d.Lasting?
    requires d.since + minDuration <= obs[n].now && f == TimedFlip(d.since + minDuration, d.last)
    ensures f in Detect(minDuration, obs).flips
  {
    FoundNext(minDuration, d, obs[n]);
    InEither(DetectUpTo(minDuration, obs, n).flips, DetectNext(minDuration, d, obs[n]).flips, f);
    FlipsKept(minDuration, obs, n + 1, |obs|, f);
    DetectUpToAll(minDuration, obs);
  }

  // A failure that runs is found by the next state after its time, or at the end.
  lemma {:induction false} RunningIsFound(minDuration: Time, obs: seq<Obs>, n: nat, end: Time, d: Detector, f: TimedFlip)
    requires n <= |obs| && d == DetectUpTo(minDuration, obs, n).d && d.Lasting?
    requires f == TimedFlip(d.since + minDuration, d.last)
    requires if n < |obs| then f.at <= obs[n].now else f.at <= end
    ensures f in DetectedFlips(minDuration, obs, end)
  {
    if n < |obs| {
      FoundLater(minDuration, obs, n, f, d);
    } else {
      DetectUpToAll(minDuration, obs);
    }
    DetectedHas(minDuration, obs, Detect(minDuration, obs), end, f);
  }

  lemma LastsThenFound(minDuration: Time, obs: seq<Obs>, j: nat, k: nat, reported: string, end: Time, f: TimedFlip)
    requires j < |obs| && k < |obs| && obs[k].Seen?
    requires DetectUpTo(minDuration, obs, k + 1).d == Lasting(reported, obs[j].now, obs[k].state)
    requires f == TimedFlip(obs[j].now + minDuration, obs[k].state)
    requires f.at <= if k + 1 < |obs| then obs[k + 1].now else end
    ensures f in DetectedFlips(minDuration, obs, end)
  {
    RunningIsFound(minDuration, obs, k + 1, end, Lasting(reported, obs[j].now, obs[k].state), f);
  }

  lemma {:induction false} LastingIsDetected(minDuration: Time, obs: seq<Obs>, end: Time, f: TimedFlip)
    requires minDuration > 0 && BecomesFlip(obs, minDuration, end, f)
    ensures f in DetectedFlips(minDuration, obs, end)
  {
    var j: nat, k: nat, reported: string :| Lasts(obs, j, k, reported, minDuration, end)
      && f == TimedFlip(obs[j].now + minDuration, obs[k].state);
    FailureStillRuns(minDuration, obs, j, k, reported);
    LastsThenFound(minDuration, obs, j, k, reported, end, f);
  }

  // The converse of DelayedFailureIsReal under prompt timers: a failure that
  // begins and lasts for minDuration, with no state in between that is True or
  // the reported one, is pitched when it has, with the latest state.
  lemma {:induction false} LastingFailureIsPitched(spec: Spec, es: seq<Event>, key: string, typ: string,
                                                   end: Time, f: TimedFlip)
    requires spec.minDuration > 0 && IsWatched(typ) && PromptUntil(spec, es, end)
    requires BecomesFlip(Observations(spec, es, key, typ), spec.minDuration, end, f)
    ensures f in FlipsOf(spec, es, key, typ)
  {
    LastingIsDetected(spec.minDuration, Observations(spec, es, key, typ), end, f);
    TrackerRefinesDetector(spec, es, key, typ, end);
  }

  /******* No failure is pitched twice *******/

  // Step i is a callback that pitches the condition.
  ghost predicate CallbackPitches(spec: Spec, es: seq<Event>, i: nat, key: string, typ: string) {
    i < |es| && es[i].step.Fire? && PitchedStates(LastPitch(spec, es[..i + 1]), key, typ) != []
  }

  lemma {:induction false} PitchingTakesOut(spec: Spec, es: seq<Event>, i: nat, key: string, typ: string)
    requires IsWatched(typ) && CallbackPitches(spec, es, i, key, typ)
    ensures SlotAt(Run(spec, es[..i + 1]), key, typ).since.None?
    ensures var s := SlotAt(Run(spec, es[..i]), key, typ);
      s.since.Some? && s.reported.Some? && s.since.value + spec.minDuration <= es[i].now
  {
    assert Front(es[..i + 1]) == es[..i] && Last(es[..i + 1]) == es[i];
    PitchedWasPending(spec, es[..i + 1], key, typ, PitchedStates(LastPitch(spec, es[..i + 1]), key, typ)[0]);
  }

  // No failure is pitched twice: when two callbacks pitch a condition, what the
  // later one pitches began strictly after the earlier one, with an update
  // between them that is at least minDuration older than the later one, and
  // has not been interrupted since.
  lemma {:induction false} NoFailureIsPitchedTwice(spec: Spec, es: seq<Event>, i: nat, j: nat, key: string, typ: string)
    requires IsWatched(typ) && i < j && CallbackPitches(spec, es, i, key, typ) && CallbackPitches(spec, es, j, key, typ)
    ensures exists m: nat, reported: string ::
      i < m < j && FailingFrom(spec, es[..j], m, key, typ, reported) && es[m].now + spec.minDuration <= es[j].now
  {
    PitchingTakesOut(spec, es, i, key, typ);
    PitchingTakesOut(spec, es, j, key, typ);
    assert es[..j][..i + 1] == es[..i + 1];
    PendingHasHistory(spec, es[..j], i + 1, key, typ);
    var s := SlotAt(Run(spec, es[..j]), key, typ);
    var m: nat :| i + 1 <= m && FailingFrom(spec, es[..j], m, key, typ, s.reported.value.status)
                  && es[..j][m].now == s.since.value;
    assert es[..j][m] == es[m];
  }

  /******* How flips follow each other *******/

  // The flips pitched since the object was last forgotten.
  function LifetimeFlips(spec: Spec, es: seq<Event>, key: string, typ: string): seq<TimedFlip> {
    if es == [] || Last(es).step == Forget(key) || Last(es).step.Close? then []
    else LifetimeFlips(spec, Front(es), key, typ)
         + Stamp(Last(es).now, PitchedStates(LastPitch(spec, es), key, typ))
  }

  // The status of the last flip, "" when there is none.
  function LastStatus(flips: seq<TimedFlip>): string {
    if flips == [] then "" else Last(flips).state.status
  }

  ghost predicate FollowsFlips(spec: Spec, s: Slot, flips: seq<TimedFlip>) {
    && (flips != [] ==> s.reported.Some?)
    && (s.reported.Some? ==>
          var r := s.reported.value;
          || (flips != [] && r == Last(flips).state)
          || (LastStatus(flips) == "" && r.status == "True")
          || (flips == [] && (spec.minDuration > 0 ==> r.status == "")))
  }

  // Consecutive flips differ in status (two blank ones aside), and with
  // minDuration the first one is a failure.
  ghost predicate Alternates(spec: Spec, flips: seq<TimedFlip>) {
    && (forall i :: 0 < i < |flips| && flips[i].state.status == flips[i - 1].state.status ==>
          flips[i].state.status == "")
    && (spec.minDuration > 0 && flips != [] ==> flips[0].state.status != "True")
  }

  lemma StampOne(now: Time, states: seq<Cond>)
    requires |states| <= 1
    ensures Stamp(now, states) == if states == [] then [] else [TimedFlip(now, states[0])]
  {
  }

  lemma AlternatesAppend(spec: Spec, flips: seq<TimedFlip>, f: TimedFlip)
    requires Alternates(spec, flips)
    requires flips != [] && f.state.status == Last(flips).state.status ==> f.state.status == ""
    requires flips == [] && spec.minDuration > 0 ==> f.state.status != "True"
    ensures Alternates(spec, flips + [f])
  {
  }

  lemma FlipStep(spec: Spec, s: Slot, now: Time, input: Input, flips: seq<TimedFlip>)
    requires SlotInv(spec, s) && FollowsFlips(spec, s, flips) && Alternates(spec, flips) && !input.Reset?
    ensures
      var out := NextSlot(spec, s, now, input);
      var flips' := flips + Stamp(now, out.flips);
      FollowsFlips(spec, out.slot, flips') && Alternates(spec, flips')
  {
    var out := NextSlot(spec, s, now, input);
    StampOne(now, out.flips);
    if out.flips == [] {
      assert flips + Stamp(now, out.flips) == flips;
    } else {
      AlternatesAppend(spec, flips, TimedFlip(now, out.flips[0]));
    }
  }

  // Over every run of one lifetime: once a flip was pitched the reported state
  // is the last pitched one (or an unpitched True after a blank failure), and
  // the flips alternate.
  lemma {:induction false} FlipsAlternate(spec: Spec, es: seq<Event>, key: string, typ: string)
    requires IsWatched(typ)
    ensures FollowsFlips(spec, SlotAt(Run(spec, es), key, typ), LifetimeFlips(spec, es, key, typ))
    ensures Alternates(spec, LifetimeFlips(spec, es, key, typ))
  {
    if es != [] {
      FlipsAlternate(spec, Front(es), key, typ);
      var slot, input, o, out := ConditionStep(spec, es, key, typ);
      if Last(es).step != Forget(key) && !Last(es).step.Close? {
        FlipStep(spec, slot, Last(es).now, input, LifetimeFlips(spec, Front(es), key, typ));
      }
    }
  }

  // A recovery is pitched if and only if the last flip pitched in this lifetime
  // is a failure, and one whose status was not blank.
  lemma {:induction false} RecoveryIffFailureWasPitched(spec: Spec, es: seq<Event>, key: string, typ: string)
    requires spec.minDuration > 0 && IsWatched(typ) && es != []
    requires Last(es).step.Update? && !ClosedBy(Front(es))
    requires var newU := Last(es).step.newU;
      newU.key == key && typ in newU.conds && Counts(spec, newU.conds[typ]) && newU.conds[typ].status == "True"
    ensures
      var pitched := PitchedStates(LastPitch(spec, es), key, typ);
      var last := LastStatus(LifetimeFlips(spec, Front(es), key, typ));
      pitched == if last != "" && last != "True" then [Last(es).step.newU.conds[typ]] else []
  {
    FlipsAlternate(spec, Front(es), key, typ);
    ClosedByRun(spec, Front(es));
    var slot, input, o, out := ConditionStep(spec, es, key, typ);
  }

  predicate EndsInFailure(flips: seq<TimedFlip>) {
    LastStatus(flips) != "" && LastStatus(flips) != "True"
  }

  lemma RecoveryFollows(spec: Spec, s: Slot, now: Time, input: Input, flips: seq<TimedFlip>, c: Cond)
    requires SlotInv(spec, s) && FollowsFlips(spec, s, flips)
    requires c in NextSlot(spec, s, now, input).flips && c.status == "True"
    ensures (EndsInFailure(flips) <==> flips != []) && (spec.minDuration > 0 ==> flips != [])
  {
  }

  // Whatever minDuration is: a pitched recovery directly follows a pitched
  // failure with a status if and only if anything was pitched in its lifetime.
  // With minDuration something was.
  lemma {:induction false} RecoveryFollowsFailureIff(spec: Spec, es: seq<Event>, key: string, typ: string, c: Cond)
    requires IsWatched(typ) && es != [] && c in PitchedStates(LastPitch(spec, es), key, typ) && c.status == "True"
    ensures
      var flips := LifetimeFlips(spec, Front(es), key, typ);
      (EndsInFailure(flips) <==> flips != []) && (spec.minDuration > 0 ==> flips != [])
  {
    FlipsAlternate(spec, Front(es), key, typ);
    var slot, input, o, out := ConditionStep(spec, es, key, typ);
    RecoveryFollows(spec, slot, Last(es).now, input, LifetimeFlips(spec, Front(es), key, typ), c);
  }

  /******* What ends a pending failure *******/

  ghost predicate IsPending(spec: Spec, es: seq<Event>, key: string, typ: string) {
    SlotAt(Run(spec, es), key, typ).since.Some?
  }

  // The last step is an update that shows the state c of a condition.
  predicate ShowsLast(spec: Spec, es: seq<Event>, key: string, typ: string, c: Cond) {
    && es != [] && !ClosedBy(Front(es)) && Last(es).step.Update?
    && var newU := Last(es).step.newU;
       newU.key == key && typ in newU.conds && newU.conds[typ] == c && Counts(spec, c)
  }

  lemma {:induction false} ShownIsObserved(spec: Spec, es: seq<Event>, key: string, typ: string, c: Cond)
    requires IsWatched(typ) && ShowsLast(spec, es, key, typ, c)
    ensures
      var s := SlotAt(Run(spec, Front(es)), key, typ);
      && SlotInv(spec, s)
      && SlotAt(Run(spec, es), key, typ)
         == ObserveSlot(spec, s, Last(es).now, Get(Last(es).step.oldU.conds, typ), c).slot
  {
    ClosedByRun(spec, Front(es));
    var slot, input, o, out := ConditionStep(spec, es, key, typ);
  }

  // What ends a pending failure: an update ends it if and only if the state it
  // shows is True or has the status that is reported.
  lemma {:induction false} PendingEndsIff(spec: Spec, es: seq<Event>, key: string, typ: string, c: Cond)
    requires IsWatched(typ) && ShowsLast(spec, es, key, typ, c) && IsPending(spec, Front(es), key, typ)
    ensures SlotAt(Run(spec, Front(es)), key, typ).reported.Some?
    ensures !IsPending(spec, es, key, typ) <==>
      c.status == "True" || c.status == SlotAt(Run(spec, Front(es)), key, typ).reported.value.status
  {
    ShownIsObserved(spec, es, key, typ, c);
  }

  // The same in terms of what was pitched: a state whose status is not blank
  // ends a pending failure if and only if it is True or back at the status of
  // the last flip of the lifetime.
  lemma {:induction false} PendingEndsIffAsPitched(spec: Spec, es: seq<Event>, key: string, typ: string, c: Cond)
    requires IsWatched(typ) && ShowsLast(spec, es, key, typ, c) && IsPending(spec, Front(es), key, typ)
    requires c.status != ""
    ensures !IsPending(spec, es, key, typ) <==>
      c.status == "True" || c.status == LastStatus(LifetimeFlips(spec, Front(es), key, typ))
  {
    PendingEndsIff(spec, es, key, typ, c);
    FlipsAlternate(spec, Front(es), key, typ);
    ShownIsObserved(spec, es, key, typ, c);
  }

  /******* How far flips are apart *******/

  predicate IsFailure(f: TimedFlip) {
    f.state.status != "True"
  }

  // Failures are apart from each other, and recoveries from each other.
  ghost predicate Apart(minDuration: Time, flips: seq<TimedFlip>) {
    forall i, j :: 0 <= i < j < |flips| && (IsFailure(flips[i]) <==> IsFailure(flips[j]))
                   ==> flips[j].at - flips[i].at >= minDuration
  }

  ghost predicate PitchedBefore(flips: seq<TimedFlip>, now: Time) {
    forall i :: 0 <= i < |flips| ==> flips[i].at <= now
  }

  // All is quiet for minDuration before a failure that is the last flip.
  ghost predicate QuietBeforeFailure(minDuration: Time, flips: seq<TimedFlip>) {
    flips != [] && IsFailure(Last(flips)) ==> PitchedBefore(Front(flips), Last(flips).at - minDuration)
  }

  // A reported failure is the last flip, and a pending one is younger than all.
  ghost predicate Spaced(spec: Spec, s: Slot, now: Time, flips: seq<TimedFlip>) {
    && Apart(spec.minDuration, flips) && PitchedBefore(flips, now) && QuietBeforeFailure(spec.minDuration, flips)
    && (s.since.Some? ==> PitchedBefore(flips, s.since.value) && s.since.value <= now)
    && (s.reported.Some? && s.reported.value.status != "True" && s.reported.value.status != "" ==>
          flips != [] && IsFailure(Last(flips)))
  }

  lemma SpacedAppend(minDuration: Time, flips: seq<TimedFlip>, f: TimedFlip)
    requires minDuration > 0 && Apart(minDuration, flips) && PitchedBefore(flips, f.at)
    requires IsFailure(f) ==> PitchedBefore(flips, f.at - minDuration)
    requires !IsFailure(f) ==> flips != [] && IsFailure(Last(flips)) && QuietBeforeFailure(minDuration, flips)
    ensures Apart(minDuration, flips + [f]) && PitchedBefore(flips + [f], f.at)
    ensures QuietBeforeFailure(minDuration, flips + [f])
  {
    var all := flips + [f];
    assert Front(all) == flips && Last(all) == f;
    forall i | 0 <= i < |flips| && (IsFailure(flips[i]) <==> IsFailure(f)) ensures f.at - flips[i].at >= minDuration {
      if !IsFailure(f) {
        assert flips[i] == Front(flips)[i];
      }
    }
  }

  // A step whose flips are told at a time `at`, not before the step.
  lemma SpacedStep(spec: Spec, s: Slot, before: Time, now: Time, at: Time, input: Input, flips: seq<TimedFlip>)
    requires SlotInv(spec, s) && spec.minDuration > 0 && before <= now <= at
    requires Spaced(spec, s, before, flips)
    ensures
      var out := NextSlot(spec, s, now, input);
      Spaced(spec, out.slot, at, flips + Stamp(at, out.flips))
  {
    var out := NextSlot(spec, s, now, input);
    StampOne(at, out.flips);
    StillPitchedBefore(flips, before, now);
    StillPitchedBefore(flips, before, at);
    if out.flips == [] {
      assert flips + Stamp(at, out.flips) == flips;
    } else {
      SpacedFlip(spec, s, before, now, at, input, flips);
    }
  }

  lemma StillPitchedBefore(flips: seq<TimedFlip>, a: Time, b: Time)
    requires PitchedBefore(flips, a) && a <= b
    ensures PitchedBefore(flips, b)
  {
  }

  lemma SpacedFlip(spec: Spec, s: Slot, before: Time, now: Time, at: Time, input: Input, flips: seq<TimedFlip>)
    requires SlotInv(spec, s) && spec.minDuration > 0 && before <= now <= at
    requires Spaced(spec, s, before, flips) && NextSlot(spec, s, now, input).flips != []
    ensures
      var out := NextSlot(spec, s, now, input);
      Spaced(spec, out.slot, at, flips + Stamp(at, out.flips))
  {
    var out := NextSlot(spec, s, now, input);
    var f := TimedFlip(at, out.flips[0]);
    StampOne(at, out.flips);
    StillPitchedBefore(flips, before, at);
    if input.Expire? {
      StillPitchedBefore(flips, s.since.value, at - spec.minDuration);
    }
    SpacedAppend(spec.minDuration, flips, f);
    assert Last(flips + [f]) == f && out.slot.since.None? && out.slot.reported == Some(f.state);
  }

  // With minDuration two failures of a condition of an object are pitched at
  // least minDuration apart, and so are two recoveries, even when the object is
  // deleted and re-created in between and stale callbacks run.
  lemma {:induction false} FlipsAreApart(spec: Spec, es: seq<Event>, key: string, typ: string)
    requires spec.minDuration > 0 && IsWatched(typ) && Ordered(es)
    ensures Spaced(spec, SlotAt(Run(spec, es), key, typ), LastTime(es), FlipsOf(spec, es, key, typ))
  {
    if es != [] {
      var front := Front(es);
      FlipsAreApart(spec, front, key, typ);
      var slot, input, o, out := ConditionStep(spec, es, key, typ);
      SpacedStep(spec, slot, if front == [] then Last(es).now else LastTime(front), Last(es).now, Last(es).now, input,
                 FlipsOf(spec, front, key, typ));
    }
  }

  // A step and when what it pitches is handed over. The lock covers handing
  // over, so the next step comes after it.
  datatype Handed = Handed(e: Event, at: Time)

  function EventsIn(hs: seq<Handed>): seq<Event> {
    if hs == [] then [] else EventsIn(Front(hs)) + [Last(hs).e]
  }

  predicate InTurn(hs: seq<Handed>) {
    && (forall i :: 0 <= i < |hs| ==> hs[i].e.now <= hs[i].at)
    && (forall i, j :: 0 <= i < j < |hs| ==> hs[i].at <= hs[j].e.now)
  }

  // The flips of a condition with the times they are handed over.
  function FlipsHanded(spec: Spec, hs: seq<Handed>, key: string, typ: string): seq<TimedFlip> {
    if hs == [] then []
    else FlipsHanded(spec, Front(hs), key, typ)
         + Stamp(Last(hs).at, PitchedStates(LastPitch(spec, EventsIn(hs)), key, typ))
  }

  lemma EventsInLast(hs: seq<Handed>)
    requires hs != []
    ensures EventsIn(hs) != [] && Front(EventsIn(hs)) == EventsIn(Front(hs)) && Last(EventsIn(hs)) == Last(hs).e
  {
  }

  // The flips are as far apart where they are handed over, however long that
  // takes each time.
  lemma {:induction false} HandedFlipsAreApart(spec: Spec, hs: seq<Handed>, key: string, typ: string)
    requires spec.minDuration > 0 && IsWatched(typ) && InTurn(hs)
    ensures Spaced(spec, SlotAt(Run(spec, EventsIn(hs)), key, typ), if hs == [] then 0 else Last(hs).at,
                   FlipsHanded(spec, hs, key, typ))
  {
    if hs != [] {
      var front, h := Front(hs), Last(hs);
      HandedFlipsAreApart(spec, front, key, typ);
      EventsInLast(hs);
      var slot, input, o, out := ConditionStep(spec, EventsIn(hs), key, typ);
      assert front != [] ==> Last(front).at <= h.e.now;
      SpacedStep(spec, slot, if front == [] then h.e.now else Last(front).at, h.e.now, h.at, input,
                 FlipsHanded(spec, front, key, typ));
    }
  }

  // The failures among flips that are pitched in the closed interval [a, b].
  function FailuresIn(flips: seq<TimedFlip>, a: Time, b: Time): seq<TimedFlip> {
    if flips == [] then []
    else
      var f := Last(flips);
      FailuresIn(Front(flips), a, b) + if IsFailure(f) && a <= f.at <= b then [f] else []
  }

  lemma {:induction false} FailuresInAreFailures(flips: seq<TimedFlip>, a: Time, b: Time)
    ensures forall f :: f in FailuresIn(flips, a, b) ==> f in flips && IsFailure(f) && a <= f.at <= b
  {
    if flips != [] {
      FailuresInAreFailures(Front(flips), a, b);
    }
  }

  lemma {:induction false} FailuresInFit(minDuration: Time, flips: seq<TimedFlip>, a: Time, b: Time)
    requires minDuration > 0 && Apart(minDuration, flips)
    ensures var fs := FailuresIn(flips, a, b);
      fs != [] ==> (|fs| - 1) * minDuration <= Last(fs).at - a
  {
    if flips != [] {
      FailuresInFit(minDuration, Front(flips), a, b);
      var front, f := FailuresIn(Front(flips), a, b), Last(flips);
      if front != [] && IsFailure(f) && a <= f.at <= b {
        FailuresInAreFailures(Front(flips), a, b);
        var g := Last(front);
        assert g in Front(flips) && IsFailure(g);
        var i :| 0 <= i < |flips| - 1 && flips[i] == g;
        assert f.at - g.at >= minDuration;
        Multiple(|front|, minDuration);
        assert FailuresIn(flips, a, b) == front + [f];
      }
    }
  }

  lemma LastFailureIn(flips: seq<TimedFlip>, a: Time, b: Time)
    requires FailuresIn(flips, a, b) != []
    ensures Last(FailuresIn(flips, a, b)).at <= b
  {
    FailuresInAreFailures(flips, a, b);
    assert Last(FailuresIn(flips, a, b)) in FailuresIn(flips, a, b);
  }

  lemma FailuresInBound(minDuration: Time, flips: seq<TimedFlip>, a: Time, length: Time)
    requires minDuration > 0 && length >= 0 && Apart(minDuration, flips)
    ensures |FailuresIn(flips, a, a + length)| <= length / minDuration + 1
  {
    var n := |FailuresIn(flips, a, a + length)|;
    if n > 0 {
      assert (n - 1) * minDuration <= length by {
        FailuresInFit(minDuration, flips, a, a + length);
        LastFailureIn(flips, a, a + length);
      }
      QuotientBound(n - 1, minDuration, length);
    }
  }

  // In any closed interval of length L there are at most L / minDuration + 1
  // failures of one condition of one object.
  lemma FailuresPerInterval(spec: Spec, es: seq<Event>, key: string, typ: string, a: Time, length: Time)
    requires spec.minDuration > 0 && IsWatched(typ) && Ordered(es) && length >= 0
    ensures |FailuresIn(FlipsOf(spec, es, key, typ), a, a + length)| <= length / spec.minDuration + 1
  {
    FlipsAreApart(spec, es, key, typ);
    FailuresInBound(spec.minDuration, FlipsOf(spec, es, key, typ), a, length);
  }
}
