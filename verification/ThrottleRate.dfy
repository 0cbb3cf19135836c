// How many events and summaries the rate limit lets through in any interval.
module ThrottleRate {
  import opened Common
  import opened ThrottleSpec

  // Admitted events with a time in [a, b).
  function AdmittedIn(l: Limits, es: seq<Event>, a: Time, b: Time): nat {
    if es == [] then 0
    else
      var d := LastDecision(l, es);
      AdmittedIn(l, Front(es), a, b)
      + if a <= Last(es).now < b && d.outcome.Some? && d.outcome.value.Admitted? then 1 else 0
  }

  function SummariesIn(l: Limits, es: seq<Event>, a: Time, b: Time): nat {
    if es == [] then 0
    else
      SummariesIn(l, Front(es), a, b)
      + if a <= Last(es).now < b && LastDecision(l, es).summary.Some? then 1 else 0
  }

  // Windows that start in [a, b).
  function WindowsIn(l: Limits, es: seq<Event>, a: Time, b: Time): nat {
    if es == [] then 0
    else
      WindowsIn(l, Front(es), a, b)
      + if a <= Last(es).now < b && Opens(l, Run(l, Front(es)), Last(es).now) then 1 else 0
  }

  // n * d, one by one.
  function Times(n: nat, d: int): int {
    if n == 0 then 0 else Times(n - 1, d) + d
  }

  lemma {:induction false} TimesIsProduct(n: nat, d: int)
    ensures Times(n, d) == n * d
  {
    if n > 0 {
      TimesIsProduct(n - 1, d);
      Multiple(n, d);
    }
  }

  // The admitted events fit into the windows that started since a and one
  // before them, and these windows started at least `per` apart.
  ghost predicate Fits(l: Limits, st: State, now: Time, a: Time, admitted: nat, summaries: nat, windows: nat) {
    && st.sent <= l.max
    && (now < a ==> admitted == 0 && windows == 0)
    && summaries <= windows
    && admitted <= Times(windows, l.max) + st.sent
    && (st.windowEnd.None? ==> windows == 0 && admitted == 0 && st.sent == 0)
    && (st.windowEnd.Some? ==> st.windowEnd.value - l.per <= now)
    && (windows > 0 ==> st.windowEnd.Some? && a + Times(windows - 1, l.per) <= st.windowEnd.value - l.per)
  }

  lemma FitsTurn(l: Limits, st: State, now: Time, before: Time, a: Time, admitted: nat, summaries: nat, windows: nat)
    requires l.Valid() && l.max > 0 && before <= now
    requires Fits(l, st, before, a, admitted, summaries, windows)
    ensures
      var (st', summary) := Turn(l, st, now);
      Fits(l, st', now, a, admitted,
           summaries + if a <= now && summary.Some? then 1 else 0,
           windows + if a <= now && Opens(l, st, now) then 1 else 0)
  {
    assert Times(windows + 1, l.max) == Times(windows, l.max) + l.max;
  }

  lemma FitsAdmit(l: Limits, st: State, key: string, now: Time, a: Time, admitted: nat, summaries: nat, windows: nat)
    requires l.max > 0 && st.windowEnd.Some? && Fits(l, st, now, a, admitted, summaries, windows)
    ensures
      var (st', outcome) := Admit(l, st, key, now);
      Fits(l, st', now, a, admitted + if a <= now && outcome.Admitted? then 1 else 0, summaries, windows)
  {
  }

  lemma FitsStep(l: Limits, st: State, e: Event, before: Time, a: Time, admitted: nat, summaries: nat, windows: nat)
    requires l.Valid() && l.max > 0 && before <= e.now
    requires Fits(l, st, before, a, admitted, summaries, windows)
    ensures
      var r := Next(l, st, e);
      var isIn := a <= e.now;
      var admitted' := admitted
        + if isIn && r.decision.outcome.Some? && r.decision.outcome.value.Admitted? then 1 else 0;
      var summaries' := summaries + if isIn && r.decision.summary.Some? then 1 else 0;
      var windows' := windows + if isIn && Opens(l, st, e.now) then 1 else 0;
      Fits(l, r.st, e.now, a, admitted', summaries', windows')
  {
    var evicted := st.(seen := Evict(l, st.seen, e.now));
    FitsTurn(l, evicted, e.now, before, a, admitted, summaries, windows);
    var (st1, summary) := Turn(l, evicted, e.now);
    if e.step.Offer? {
      FitsAdmit(l, st1, e.step.key, e.now, a, admitted, summaries + if a <= e.now && summary.Some? then 1 else 0,
                windows + if a <= e.now && Opens(l, st, e.now) then 1 else 0);
    }
  }

  ghost predicate RunIsFit(l: Limits, es: seq<Event>, now: Time, a: Time, b: Time) {
    Fits(l, Run(l, es), now, a, AdmittedIn(l, es, a, b), SummariesIn(l, es, a, b), WindowsIn(l, es, a, b))
  }

  lemma RunFitsNext(l: Limits, es: seq<Event>, before: Time, a: Time, b: Time)
    requires l.Valid() && l.max > 0 && es != [] && before <= Last(es).now < b
    requires RunIsFit(l, Front(es), before, a, b)
    ensures RunIsFit(l, es, Last(es).now, a, b)
  {
    var front := Front(es);
    FitsStep(l, Run(l, front), Last(es), before, a, AdmittedIn(l, front, a, b),
             SummariesIn(l, front, a, b), WindowsIn(l, front, a, b));
  }

  lemma {:induction false} RunFits(l: Limits, es: seq<Event>, a: Time, b: Time)
    requires l.Valid() && l.max > 0 && Ordered(es) && es != [] && Last(es).now < b
    ensures RunIsFit(l, es, Last(es).now, a, b)
  {
    var front := Front(es);
    var before := if front == [] then Last(es).now else Last(front).now;
    if front != [] {
      RunFits(l, front, a, b);
    }
    RunFitsNext(l, es, before, a, b);
  }

  // The number of windows of length per that cover a positive `length`.
  function CeilDiv(length: Time, per: Time): int
    requires per > 0
  {
    (length - 1) / per + 1
  }

  lemma WindowsFit(windows: nat, per: Time, length: Time)
    requires per > 0 && windows > 0 && (windows - 1) * per < length
    ensures windows <= CeilDiv(length, per)
  {
    if windows == 1 {
      assert length > 0;
    }
    QuotientBound(windows - 1, per, length - 1);
  }

  lemma Scaled(max: nat, windows: nat, q: nat, admitted: nat, sent: nat)
    requires admitted <= max * windows + sent && sent <= max && windows <= q
    ensures admitted <= max * (q + 1)
  {
    MulMono(windows + 1, q + 1, max);
    assert (windows + 1) * max == max * windows + max;
    assert (q + 1) * max == max * (q + 1);
  }

  lemma FitsBound(l: Limits, st: State, now: Time, a: Time, length: Time, admitted: nat, summaries: nat, windows: nat)
    requires l.Valid() && l.max > 0 && length > 0 && now < a + length
    requires Fits(l, st, now, a, admitted, summaries, windows)
    ensures admitted <= l.max * (CeilDiv(length, l.per) + 1)
    ensures summaries <= windows <= CeilDiv(length, l.per)
  {
    WindowsFit(1, l.per, length);
    if windows > 0 {
      TimesIsProduct(windows - 1, l.per);
      WindowsFit(windows, l.per, length);
    }
    TimesIsProduct(windows, l.max);
    Scaled(l.max, windows, CeilDiv(length, l.per), admitted, st.sent);
  }

  // In any half-open interval of length L at most ceil(L / per) windows start,
  // at most max * (ceil(L / per) + 1) events are admitted, and there are no
  // more summaries than windows.
  lemma {:induction false} RateBound(l: Limits, es: seq<Event>, a: Time, length: Time)
    requires l.Valid() && l.max > 0 && Ordered(es) && length > 0
    ensures AdmittedIn(l, es, a, a + length) <= l.max * (CeilDiv(length, l.per) + 1)
    ensures SummariesIn(l, es, a, a + length) <= WindowsIn(l, es, a, a + length) <= CeilDiv(length, l.per)
  {
    if es == [] {
      FitsBound(l, INITIAL, a, a, length, 0, 0, 0);
    } else if Last(es).now >= a + length {
      RateBound(l, Front(es), a, length);
    } else {
      RunFits(l, es, a, a + length);
      FitsBound(l, Run(l, es), Last(es).now, a, length, AdmittedIn(l, es, a, a + length),
                SummariesIn(l, es, a, a + length), WindowsIn(l, es, a, a + length));
    }
  }

  /******* One window *******/

  // Offers with a time in [a, b) that the rate limit drops.
  function RateDropsIn(l: Limits, es: seq<Event>, a: Time, b: Time): nat {
    if es == [] then 0
    else
      RateDropsIn(l, Front(es), a, b)
      + if a <= Last(es).now < b && LastDecision(l, es).outcome == Some(RateDrop) then 1 else 0
  }

  lemma {:induction false} NothingIn(l: Limits, es: seq<Event>, a: Time, b: Time)
    requires forall e :: e in es ==> e.now < a
    ensures AdmittedIn(l, es, a, b) == RateDropsIn(l, es, a, b) == WindowsIn(l, es, a, b) == 0
  {
    if es != [] {
      NothingIn(l, Front(es), a, b);
      assert Last(es) in es;
    }
  }

  // The counters say what happened since the current window started.
  ghost predicate Counted(st: State, admitted: nat, dropped: nat, windows: nat) {
    st.sent == admitted && st.suppressed == dropped && windows == 1
  }

  lemma CountedAdmit(l: Limits, st: State, key: string, now: Time, admitted: nat, dropped: nat)
    requires l.max > 0 && st.sent <= l.max && Counted(st, admitted, dropped, 1)
    ensures
      var (st', outcome) := Admit(l, st, key, now);
      && st'.sent <= l.max && st'.windowEnd == st.windowEnd
      && Counted(st', admitted + (if outcome.Admitted? then 1 else 0), dropped + (if outcome == RateDrop then 1 else 0), 1)
  {
  }

  lemma {:induction false} OldWindowIsOver(l: Limits, es: seq<Event>, now: Time)
    requires l.Valid() && l.max > 0 && Ordered(es) && es != []
    ensures Run(l, es).windowEnd.Some? && Last(es).now < Run(l, es).windowEnd.value
    ensures Opens(l, Run(l, es), now) ==> forall e :: e in es ==> e.now < now
  {
    if Opens(l, Run(l, es), now) {
      forall e | e in es ensures e.now <= Last(es).now {
        var i :| 0 <= i < |es| && es[i] == e;
      }
    }
  }

  ghost predicate WindowCounted(l: Limits, es: seq<Event>, st: State, b: Time)
    requires es != []
  {
    && st.windowEnd.Some? && st.windowEnd.value - l.per <= Last(es).now && st.sent <= l.max
    && var start := st.windowEnd.value - l.per;
       Counted(st, AdmittedIn(l, es, start, b), RateDropsIn(l, es, start, b), WindowsIn(l, es, start, b))
  }

  // A step that starts no window counts on.
  lemma CountsOn(l: Limits, st: State, e: Event, admitted: nat, dropped: nat)
    requires l.max > 0 && !Opens(l, st, e.now) && st.sent <= l.max && Counted(st, admitted, dropped, 1)
    ensures
      var r := Next(l, st, e);
      && r.st.windowEnd == st.windowEnd && r.st.sent <= l.max
      && Counted(r.st, admitted + (if r.decision.outcome.Some? && r.decision.outcome.value.Admitted? then 1 else 0),
                 dropped + (if r.decision.outcome == Some(RateDrop) then 1 else 0), 1)
  {
    if e.step.Offer? {
      CountedAdmit(l, CloseWindow(l, st, e.now).0, e.step.key, e.now, admitted, dropped);
    }
  }

  // A step that starts a window begins to count.
  lemma CountsAnew(l: Limits, st: State, e: Event)
    requires l.max > 0 && Opens(l, st, e.now) && (st.windowEnd.None? ==> st.sent == 0 && st.suppressed == 0)
    ensures
      var r := Next(l, st, e);
      && r.st.windowEnd == Some(e.now + l.per) && r.st.sent <= l.max
      && Counted(r.st, if r.decision.outcome.Some? && r.decision.outcome.value.Admitted? then 1 else 0,
                 if r.decision.outcome == Some(RateDrop) then 1 else 0, 1)
  {
    if e.step.Offer? {
      CountedAdmit(l, CloseWindow(l, st, e.now).0, e.step.key, e.now, 0, 0);
    }
  }

  // After any run the current window has admitted at most max events, exactly
  // those that `sent` counts; `suppressed` counts the others it dropped.
  lemma {:induction false} WindowAdmitsMax(l: Limits, es: seq<Event>, b: Time)
    requires l.Valid() && l.max > 0 && Ordered(es) && es != [] && Last(es).now < b
    ensures WindowCounted(l, es, Run(l, es), b)
  {
    var front, e := Front(es), Last(es);
    var st := Run(l, front);
    if Opens(l, st, e.now) {
      if front != [] {
        OldWindowIsOver(l, front, e.now);
      }
      CountsAnew(l, st, e);
      NothingIn(l, front, e.now, b);
    } else {
      assert Last(front).now <= e.now;
      WindowAdmitsMax(l, front, b);
      var start := st.windowEnd.value - l.per;
      CountsOn(l, st, e, AdmittedIn(l, front, start, b), RateDropsIn(l, front, start, b));
    }
  }

  lemma NextDrops(l: Limits, st: State, e: Event)
    requires l.max > 0 && e.step.Offer? && st.windowEnd.Some?
    ensures
      var d := Next(l, st, e).decision;
      d.outcome == Some(RateDrop) <==>
        d.outcome != Some(CooldownDrop) && !Opens(l, st, e.now) && st.sent >= l.max
  {
  }

  // The rate limit drops an offer if and only if the cooldown does not, the
  // current window is not over, and max events were admitted in it.
  lemma {:induction false} RateDropIff(l: Limits, es: seq<Event>)
    requires l.Valid() && l.max > 0 && Ordered(es) && |es| > 1 && Last(es).step.Offer?
    ensures
      var front, e := Front(es), Last(es);
      var windowEnd := Run(l, front).windowEnd;
      && windowEnd.Some?
      && (LastDecision(l, es).outcome == Some(RateDrop) <==>
            && LastDecision(l, es).outcome != Some(CooldownDrop)
            && e.now < windowEnd.value
            && AdmittedIn(l, front, windowEnd.value - l.per, e.now + 1) == l.max)
  {
    assert Last(Front(es)).now <= Last(es).now;
    WindowAdmitsMax(l, Front(es), Last(es).now + 1);
    NextDrops(l, Run(l, Front(es)), Last(es));
  }

  // The first offer is admitted, whatever its key is.
  lemma FirstOfferIsAdmitted(l: Limits, e: Event)
    requires e.step.Offer?
    ensures LastDecision(l, [e]).outcome == Some(Admitted(None))
  {
    assert Front([e]) == [] && Last([e]) == e;
  }

  // Step i of a run starts a window.
  ghost predicate OpensAt(l: Limits, es: seq<Event>, i: nat) {
    i < |es| && Opens(l, Run(l, es[..i]), es[i].now)
  }

  lemma OpensUntil(l: Limits, st: State, e: Event)
    requires l.max > 0 && Opens(l, st, e.now)
    ensures Next(l, st, e).st.windowEnd == Some(e.now + l.per)
  {
  }

  lemma WindowEndGrows(l: Limits, st: State, e: Event)
    requires l.Valid() && l.max > 0 && st.windowEnd.Some?
    ensures Next(l, st, e).st.windowEnd.Some? && Next(l, st, e).st.windowEnd.value >= st.windowEnd.value
  {
  }

  lemma {:induction false} WindowEndSince(l: Limits, es: seq<Event>, i: nat, j: nat)
    requires l.Valid() && l.max > 0 && OpensAt(l, es, i) && i < j <= |es|
    ensures Run(l, es[..j]).windowEnd.Some? && Run(l, es[..j]).windowEnd.value >= es[i].now + l.per
    decreases j
  {
    assert Front(es[..j]) == es[..j - 1] && Last(es[..j]) == es[j - 1];
    if j == i + 1 {
      OpensUntil(l, Run(l, es[..i]), es[i]);
    } else {
      WindowEndSince(l, es, i, j - 1);
      WindowEndGrows(l, Run(l, es[..j - 1]), es[j - 1]);
    }
  }

  // Windows start at least `per` apart.
  lemma {:induction false} WindowsAreApart(l: Limits, es: seq<Event>, i: nat, j: nat)
    requires l.Valid() && l.max > 0 && i < j && OpensAt(l, es, i) && OpensAt(l, es, j)
    ensures es[j].now - es[i].now >= l.per
  {
    WindowEndSince(l, es, i, j);
  }

  lemma SummaryOf(l: Limits, st: State, e: Event)
    ensures Next(l, st, e).decision.summary ==
      if Opens(l, st, e.now) && st.windowEnd.Some? && st.suppressed > 0 then Some(st.suppressed) else None
  {
  }

  // Only the start of a window produces a summary, at most one, and it counts
  // exactly what the rate limit dropped in the window before.
  lemma {:induction false} SummaryCountsWindow(l: Limits, es: seq<Event>)
    requires l.Valid() && l.max > 0 && Ordered(es) && |es| > 1
    ensures
      var front, e := Front(es), Last(es);
      var st := Run(l, front);
      && st.windowEnd.Some?
      && var dropped := RateDropsIn(l, front, st.windowEnd.value - l.per, Last(front).now + 1);
         LastDecision(l, es).summary ==
           if st.windowEnd.value <= e.now && dropped > 0 then Some(dropped) else None
  {
    WindowAdmitsMax(l, Front(es), Last(Front(es)).now + 1);
    SummaryOf(l, Run(l, Front(es)), Last(es));
  }

  /******* The bound is reached *******/

  // n offers without a key at time t.
  function Burst(n: nat, t: Time): seq<Event> {
    seq(n, _ => Event(t, Offer("")))
  }

  lemma {:induction false} OffersInWindow(l: Limits, es: seq<Event>, n: nat, t: Time, a: Time, b: Time)
    requires l.max > 0 && a <= t < b
    requires var st := Run(l, es); st.windowEnd.Some? && t < st.windowEnd.value && st.sent + n <= l.max
    ensures var es' := es + Burst(n, t); var st, st' := Run(l, es), Run(l, es');
      && st'.windowEnd == st.windowEnd && st'.sent == st.sent + n
      && AdmittedIn(l, es', a, b) == AdmittedIn(l, es, a, b) + n
  {
    if n == 0 {
      assert es + Burst(n, t) == es;
    } else {
      OffersInWindow(l, es, n - 1, t, a, b);
      assert Front(es + Burst(n, t)) == es + Burst(n - 1, t);
      assert Last(es + Burst(n, t)) == Event(t, Offer(""));
    }
  }

  lemma OfferOpensWindow(l: Limits, es: seq<Event>, t: Time, a: Time, b: Time)
    requires l.max > 0 && a <= t < b
    requires var st := Run(l, es); st.windowEnd.Some? && st.windowEnd.value <= t
    ensures var es' := es + Burst(1, t); var st := Run(l, es');
      && st.windowEnd == Some(t + l.per) && st.sent == 1
      && AdmittedIn(l, es', a, b) == AdmittedIn(l, es, a, b) + 1
  {
    assert Front(es + Burst(1, t)) == es && Last(es + Burst(1, t)) == Event(t, Offer(""));
  }

  // A flush that starts a window, a burst at its end and one right after it.
  function FirstBurst(l: Limits): seq<Event> {
    [Event(0, Flush)] + Burst(l.max, l.per - 1)
  }

  function TwoBursts(l: Limits): seq<Event>
    requires l.max > 0
  {
    FirstBurst(l) + Burst(1, l.per) + Burst(l.max - 1, l.per)
  }

  lemma FirstBurstAdmitted(l: Limits, a: Time, b: Time)
    requires l.max > 0 && l.per > 1 && 0 < a <= l.per - 1 < b
    ensures Run(l, FirstBurst(l)).windowEnd == Some(l.per) && AdmittedIn(l, FirstBurst(l), a, b) == l.max
  {
    var es := [Event(0, Flush)];
    assert Front(es) == [] && Last(es) == Event(0, Flush);
    assert Run(l, es).windowEnd == Some(l.per) && Run(l, es).sent == 0 && AdmittedIn(l, es, a, b) == 0;
    OffersInWindow(l, es, l.max, l.per - 1, a, b);
  }

  lemma SecondBurstOpens(l: Limits, a: Time, b: Time)
    requires l.max > 0 && l.per > 1 && 0 < a <= l.per - 1 && l.per < b
    ensures var es := FirstBurst(l) + Burst(1, l.per); var st := Run(l, es);
      st.windowEnd == Some(l.per + l.per) && st.sent == 1 && AdmittedIn(l, es, a, b) == l.max + 1
  {
    FirstBurstAdmitted(l, a, b);
    OfferOpensWindow(l, FirstBurst(l), l.per, a, b);
  }

  lemma TwoBurstsAdmitted(l: Limits, a: Time, b: Time)
    requires l.max > 0 && l.per > 1 && 0 < a <= l.per - 1 && l.per < b
    ensures AdmittedIn(l, TwoBursts(l), a, b) == 2 * l.max
  {
    var first := FirstBurst(l) + Burst(1, l.per);
    SecondBurstOpens(l, a, b);
    assert AdmittedIn(l, first + Burst(l.max - 1, l.per), a, b) == AdmittedIn(l, first, a, b) + (l.max - 1) by {
      OffersInWindow(l, first, l.max - 1, l.per, a, b);
    }
  }

  lemma TwoBurstsOrdered(l: Limits)
    requires l.max > 0 && l.per > 1
    ensures Ordered(TwoBursts(l))
  {
    var es := TwoBursts(l);
    assert |es| == 1 + 2 * l.max;
    forall i | 0 <= i < |es| ensures es[i].now == if i == 0 then 0 else if i <= l.max then l.per - 1 else l.per {}
  }

  // Windows do not slide: 2 * max events pass within an interval of length per,
  // which is all that RateBound allows.
  lemma BoundIsReached(l: Limits)
    requires l.max > 0 && l.per > 1
    ensures Ordered(TwoBursts(l))
    ensures AdmittedIn(l, TwoBursts(l), l.per - 1, l.per - 1 + l.per) == 2 * l.max == l.max * (CeilDiv(l.per, l.per) + 1)
  {
    TwoBurstsOrdered(l);
    TwoBurstsAdmitted(l, l.per - 1, l.per - 1 + l.per);
    OneWindow(l.per);
  }

  lemma OneWindow(per: Time)
    requires per > 0
    ensures CeilDiv(per, per) == 1
  {
  }

  // With windows of one unit of time no interval of that length has two of them.
  lemma {:induction false} OneUnitAdmitsMax(l: Limits, es: seq<Event>, a: Time)
    requires l.Valid() && l.max > 0 && l.per == 1 && Ordered(es)
    ensures AdmittedIn(l, es, a, a + 1) <= l.max
  {
    if es != [] && Last(es).now > a {
      OneUnitAdmitsMax(l, Front(es), a);
    } else if es != [] && Last(es).now == a {
      WindowAdmitsMax(l, es, a + 1);
      OldWindowIsOver(l, es, a);
    } else if es != [] {
      forall e | e in es ensures e.now < a {
        var i :| 0 <= i < |es| && es[i] == e;
      }
      NothingIn(l, es, a, a + 1);
    }
  }

  // A run that admits as much within one interval of length per as the bound allows.
  ghost predicate Reaches(l: Limits, es: seq<Event>, a: Time) {
    Ordered(es) && AdmittedIn(l, es, a, a + l.per) == 2 * l.max
  }

  // The bound is reached if and only if a window is longer than one unit of time.
  lemma {:induction false} BoundIsReachedIff(l: Limits)
    requires l.Valid() && l.max > 0
    ensures l.per > 1 <==> exists es, a :: Reaches(l, es, a)
  {
    if l.per > 1 {
      BoundIsReached(l);
      assert Reaches(l, TwoBursts(l), l.per - 1);
    } else if es, a :| Reaches(l, es, a) {
      OneUnitAdmitsMax(l, es, a);
    }
  }
}
