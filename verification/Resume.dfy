// Time goes on after any prompt run, even one in which stopped and stale
// callbacks ran: by any later time the flips of the reference detector have
// been pitched. And whatever comes from outside has a prompt run.
module Resume {
  import opened Common
  import opened TrackerSpec
  import opened Invariant
  import opened Detector
  import opened Callbacks
  import opened Advance

  /******* How much is left to run *******/

  // A callback that would come before its object has anything due.
  predicate IsEarly(s: Sys, cb: Callback) {
    cb.key in s.objects && s.objects[cb.key].due.Some? && cb.at < s.objects[cb.key].due.value
  }

  // The early callbacks, each as often as the clock holds it.
  function Early(s: Sys): set<(Callback, int)> {
    set cb, i | cb in s.live && 0 <= i < s.live[cb] && IsEarly(s, cb) :: (cb, i)
  }

  function Left(s: Sys): nat {
    |Early(s)| + |s.live|
  }

  ghost predicate LessLeft(s': Sys, s: Sys) {
    |Pending(s')| < |Pending(s)| || (|Pending(s')| == |Pending(s)| && Left(s') < Left(s))
  }

  lemma SubsetSize<T>(a: set<T>, b: set<T>)
    requires a <= b
    ensures |a| <= |b|
  {
    assert b == a + (b - a);
  }

  // A callback that is not accepted, or finds nothing pending, is gone.
  lemma OneLess(s: Sys, s': Sys, cb: Callback)
    requires cb in s.live && s'.live == s.live - multiset{cb} && Pending(s') == Pending(s)
    requires forall c :: IsEarly(s', c) ==> IsEarly(s, c)
    ensures LessLeft(s', s)
  {
    assert Early(s') <= Early(s);
    SubsetSize(Early(s'), Early(s));
  }

  // One that is early makes room for one that is not.
  lemma OneLessEarly(s: Sys, s': Sys, cb: Callback, next: Callback)
    requires cb in s.live && s'.live == s.live - multiset{cb} + multiset{next} && Pending(s') == Pending(s)
    requires forall c :: IsEarly(s', c) ==> IsEarly(s, c)
    requires IsEarly(s, cb) && !IsEarly(s', next)
    ensures LessLeft(s', s)
  {
    assert forall c :: IsEarly(s', c) ==> s'.live[c] <= s.live[c] && (c == cb ==> s'.live[c] < s.live[c]);
    var last := (cb, s.live[cb] - 1);
    assert last in Early(s) && last !in Early(s');
    assert Early(s') <= Early(s);
    SmallerSet(Early(s'), Early(s));
  }

  // Objects that are as they were, or have their timer armed again.
  lemma SamePending(s: Sys, s': Sys, key: string)
    requires key in s.objects && s'.objects == s.objects[key := ArmedAgain(key, s.objects[key])]
    ensures Pending(s') == Pending(s) && forall c :: IsEarly(s', c) <==> IsEarly(s, c)
  {
    var st := s.objects[key];
    assert ArmedAgain(key, st).failingSince == st.failingSince && ArmedAgain(key, st).due == st.due;
  }

  // An accepted callback that finds nothing due.
  lemma ArmedAgainIsLess(s: Sys, s': Sys, cb: Callback, st: Tracked)
    requires cb in s.live && cb.key in s.objects && st == s.objects[cb.key]
    requires st.due.Some? ==> cb.at < st.due.value
    requires s'.objects == s.objects[cb.key := ArmedAgain(cb.key, st)]
    requires s'.live == Rearmed(s.live - multiset{cb}, None, ArmedAgain(cb.key, st).timer)
    ensures LessLeft(s', s)
  {
    SamePending(s, s', cb.key);
    if st.due.Some? {
      OneLessEarly(s, s', cb, Callback(cb.key, st.seqNo + 1, st.due.value));
    } else {
      OneLess(s, s', cb);
    }
  }

  lemma EarlyStep(spec: Spec, s: Sys, cb: Callback)
    requires Inv(spec, s) && Matches(s, cb) && cb in s.live
    requires s.objects[cb.key].due.Some? ==> cb.at < s.objects[cb.key].due.value
    ensures LessLeft(After(spec, s, Event(cb.at, Fire(cb))), s)
  {
    var st := s.objects[cb.key];
    FireEarly(spec, cb.key, st, cb.at);
    AfterHeld(spec, s, cb.at, cb, ArmedAgain(cb.key, st));
    ArmedAgainIsLess(s, Sys(s.objects[cb.key := ArmedAgain(cb.key, st)], false,
                            Rearmed(s.live - multiset{cb}, None, ArmedAgain(cb.key, st).timer)), cb, st);
  }

  lemma IgnoredStep(spec: Spec, s: Sys, cb: Callback)
    requires !Matches(s, cb) && cb in s.live
    ensures LessLeft(After(spec, s, Event(cb.at, Fire(cb))), s)
  {
    var s' := After(spec, s, Event(cb.at, Fire(cb)));
    assert s' == s.(live := s.live - multiset{cb});
    assert forall c :: IsEarly(s', c) <==> IsEarly(s, c);
    OneLess(s, s', cb);
  }

  lemma NextIsTimer(spec: Spec, s: Sys, cb: Callback)
    requires Inv(spec, s) && Matches(s, cb) && IsNext(s, cb)
    requires s.objects[cb.key].due.Some? && s.objects[cb.key].due.value <= cb.at
    ensures s.objects[cb.key].timer == Some(cb)
  {
    assert ObjectInv(spec, cb.key, s.objects[cb.key]);
    assert s.objects[cb.key].timer.value in s.live;
  }

  // Whatever callback the clock runs next, less is left.
  lemma LessIsLeft(spec: Spec, s: Sys, cb: Callback)
    requires Inv(spec, s) && IsNext(s, cb)
    ensures LessLeft(After(spec, s, Event(cb.at, Fire(cb))), s)
  {
    if !Matches(s, cb) {
      IgnoredStep(spec, s, cb);
    } else if s.objects[cb.key].due.Some? && s.objects[cb.key].due.value <= cb.at {
      NextIsTimer(spec, s, cb);
      assert Event(cb.at, Fire(cb)) == DueCallback(s.objects[cb.key]);
      DueStepDropsPending(spec, s, cb.key);
    } else {
      EarlyStep(spec, s, cb);
    }
  }

  /******* Any prompt run goes on *******/

  ghost predicate PromptSoFar(spec: Spec, es: seq<Event>, end: Time) {
    Ordered(es) && Prompt(spec, es) && (es != [] ==> Last(es).now <= end)
  }

  lemma PromptAppend(spec: Spec, es: seq<Event>, e: Event, end: Time)
    requires PromptSoFar(spec, es, end) && e.now <= end && (es != [] ==> Last(es).now <= e.now)
    requires PromptStep(Run(spec, es), e)
    ensures PromptSoFar(spec, es + [e], end)
  {
    assert Front(es + [e]) == es && Last(es + [e]) == e;
    OrderedAppend(es, e);
  }

  lemma RunOn(spec: Spec, es: seq<Event>, cb: Callback, end: Time)
    requires PromptSoFar(spec, es, end) && cb.at <= end && IsNext(Run(spec, es), cb)
    ensures var es' := es + [Event(cb.at, Fire(cb))];
      PromptSoFar(spec, es', end) && LessLeft(Run(spec, es'), Run(spec, es))
  {
    if es != [] {
      PunctualRun(spec, es);
    }
    PromptAppend(spec, es, Event(cb.at, Fire(cb)), end);
    AppendIsStep(spec, es, Event(cb.at, Fire(cb)));
    RunInv(spec, es);
    LessIsLeft(spec, Run(spec, es), cb);
  }

  predicate OnlyCallbacks(es: seq<Event>) {
    forall i :: 0 <= i < |es| ==> es[i].step.Fire?
  }

  ghost predicate GoesOn(spec: Spec, es: seq<Event>, more: seq<Event>, end: Time) {
    OnlyCallbacks(more) && PromptUntil(spec, es + more, end)
  }

  lemma IsThere(spec: Spec, es: seq<Event>, end: Time)
    requires PromptSoFar(spec, es, end) && Settles(Run(spec, es), end)
    ensures GoesOn(spec, es, [], end)
  {
    assert es + [] == es;
  }

  lemma OneMoreGoesOn(spec: Spec, es: seq<Event>, e: Event, rest: seq<Event>, end: Time)
    requires e.step.Fire? && GoesOn(spec, es + [e], rest, end)
    ensures GoesOn(spec, es, [e] + rest, end)
  {
    Regroup(es, e, rest);
  }

  // Any prompt run, whatever callbacks ran in it, goes on to any later time
  // with callbacks alone.
  lemma {:induction false} PromptRunsGoOn(spec: Spec, es: seq<Event>, end: Time) returns (more: seq<Event>)
    requires PromptSoFar(spec, es, end)
    ensures GoesOn(spec, es, more, end)
    decreases |Pending(Run(spec, es))|, Left(Run(spec, es))
  {
    if Settles(Run(spec, es), end) {
      IsThere(spec, es, end);
      more := [];
    } else {
      var cb := NextHeld(Run(spec, es), end);
      var e := Event(cb.at, Fire(cb));
      RunOn(spec, es, cb, end);
      var rest := PromptRunsGoOn(spec, es + [e], end);
      OneMoreGoesOn(spec, es, e, rest, end);
      more := [e] + rest;
    }
  }

  lemma {:induction false} CallbacksShowNothing(spec: Spec, es: seq<Event>, more: seq<Event>, key: string, typ: string)
    requires OnlyCallbacks(more)
    ensures Observations(spec, es + more, key, typ) == Observations(spec, es, key, typ)
    decreases |more|
  {
    if more == [] {
      assert es + more == es;
    } else {
      CallbacksShowNothing(spec, es, Front(more), key, typ);
      assert Front(es + more) == es + Front(more) && Last(es + more) == Last(more);
    }
  }

  // However a prompt run got here, once the clock has advanced to `end` the
  // flips of every condition are those the timerless detector finds in what was
  // shown.
  lemma {:induction false} AdvanceFindsEveryFlip(spec: Spec, es: seq<Event>, end: Time) returns (more: seq<Event>)
    requires spec.minDuration > 0 && PromptSoFar(spec, es, end)
    ensures GoesOn(spec, es, more, end)
    ensures forall key, typ :: IsWatched(typ) ==>
      FlipsOf(spec, es + more, key, typ) == DetectedFlips(spec.minDuration, Observations(spec, es, key, typ), end)
  {
    more := PromptRunsGoOn(spec, es, end);
    forall key, typ | IsWatched(typ)
      ensures FlipsOf(spec, es + more, key, typ) == DetectedFlips(spec.minDuration, Observations(spec, es, key, typ), end)
    {
      CallbacksShowNothing(spec, es, more, key, typ);
      TrackerRefinesDetector(spec, es + more, key, typ, end);
    }
  }

  /******* Everything from outside has a prompt run *******/

  predicate NoCallbacks(es: seq<Event>) {
    forall i :: 0 <= i < |es| ==> !es[i].step.Fire?
  }

  lemma {:induction false} InputsOfMore(es: seq<Event>, more: seq<Event>)
    requires OnlyCallbacks(more)
    ensures Inputs(es + more) == Inputs(es)
    decreases |more|
  {
    if more == [] {
      assert es + more == es;
    } else {
      InputsOfMore(es, Front(more));
      assert es + more == es + Front(more) + [Last(more)];
      InputsAppend(es + Front(more), Last(more));
    }
  }

  lemma CallbacksOnly(spec: Spec, es: seq<Event>, more: seq<Event>, end: Time)
    requires Advances(spec, es, more, end)
    ensures OnlyCallbacks(more) && Arrives(spec, es + more, end)
  {
  }

  // The next input comes when nothing is due, then the clock goes on to `end`.
  lemma InputNext(spec: Spec, es: seq<Event>, e: Event, end: Time) returns (es': seq<Event>)
    requires Arrives(spec, es, e.now) && !e.step.Fire? && e.now <= end
    ensures Arrives(spec, es', end) && Inputs(es') == Inputs(es) + [e]
  {
    TickAppend(spec, es, e, e.now);
    assert Last(es + [e]) == e;
    var more := AdvanceTo(spec, es + [e], end);
    CallbacksOnly(spec, es + [e], more, end);
    InputsOfMore(es + [e], more);
    InputsAppend(es, e);
    es' := es + [e] + more;
  }

  // Whatever updates, deletions and closing come from outside, and whenever, the
  // clock has a prompt run for them that runs only what it holds.
  lemma {:induction false} InputsHavePromptRun(spec: Spec, inputs: seq<Event>, end: Time) returns (es: seq<Event>)
    requires Ordered(inputs) && NoCallbacks(inputs) && (inputs != [] ==> Last(inputs).now <= end)
    ensures Arrives(spec, es, end) && Inputs(es) == inputs
    decreases |inputs|
  {
    if inputs == [] {
      es := [];
    } else {
      var front, e := Front(inputs), Last(inputs);
      assert front != [] ==> Last(front).now <= e.now;
      var es0 := InputsHavePromptRun(spec, front, e.now);
      es := InputNext(spec, es0, e, end);
    }
  }

  lemma ArrivesPromptly(spec: Spec, es: seq<Event>, end: Time)
    requires Arrives(spec, es, end)
    ensures PromptUntil(spec, es, end)
  {
  }
}
