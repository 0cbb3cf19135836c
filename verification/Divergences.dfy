// Runs on which the tracker does something else than its documentation, its
// comments or the plain filter suggest. The exact conditions are in History,
// Baselines, Callbacks and PlainFlips; these are inputs on which they fail.
module Divergences {
  import opened Common
  import opened TrackerSpec
  import opened Invariant
  import opened Detector
  import opened Erasure
  import opened Baselines
  import opened History
  import opened Callbacks
  import opened PlainFlips
  import opened Advance
  import opened Resume
  import opened Samples

  const READY := "Ready"

  // An object with one condition, or none.
  function App(status: Option<string>): Obj {
    Obj(KEY, 1, if status.Some? then map[READY := State(status.value)] else map[])
  }

  // An update of the object that changes its condition.
  datatype Change = Change(now: Time, before: Option<string>, after: Option<string>)

  function UpdateOf(c: Change): Event {
    Event(c.now, Update(App(c.before), App(c.after)))
  }

  function Updates(cs: seq<Change>): seq<Event> {
    if cs == [] then [] else Updates(Front(cs)) + [UpdateOf(Last(cs))]
  }

  function ShownBy(c: Change): seq<Obs> {
    if c.after.None? then []
    else [Seen(c.now, if c.before.Some? then Some(State(c.before.value)) else None, State(c.after.value))]
  }

  function Showing(cs: seq<Change>): seq<Obs> {
    if cs == [] then [] else Showing(Front(cs)) + ShownBy(Last(cs))
  }

  lemma {:induction false} UpdatesShow(d: Time, cs: seq<Change>)
    ensures Observations(SpecOf(d), Updates(cs), KEY, READY) == Showing(cs) && !ClosedBy(Updates(cs))
    ensures NoCallbacks(Updates(cs)) && |Updates(cs)| == |cs|
  {
    if cs != [] {
      UpdatesShow(d, Front(cs));
      ObservationsAppend(SpecOf(d), Updates(Front(cs)), UpdateOf(Last(cs)), KEY, READY);
    }
  }

  lemma {:induction false} UpdatesInOrder(cs: seq<Change>)
    requires forall i, j :: 0 <= i < j < |cs| ==> cs[i].now <= cs[j].now
    ensures Ordered(Updates(cs)) && (cs != [] ==> Updates(cs) != [] && Last(Updates(cs)).now == Last(cs).now)
  {
    if cs != [] {
      UpdatesInOrder(Front(cs));
      assert Front(cs) != [] ==> Last(Front(cs)).now <= Last(cs).now;
      OrderedAppend(Updates(Front(cs)), UpdateOf(Last(cs)));
    }
  }

  // A prompt run for some changes, and what it pitches.
  ghost predicate PitchesIn(d: Time, es: seq<Event>, cs: seq<Change>, end: Time, flips: seq<TimedFlip>) {
    && Inputs(es) == Updates(cs) && PromptUntil(SpecOf(d), es, end)
    && FlipsOf(SpecOf(d), es, KEY, READY) == flips
  }

  lemma RunFor(d: Time, cs: seq<Change>, end: Time, flips: seq<TimedFlip>) returns (es: seq<Event>)
    requires d > 0 && cs != [] && Last(cs).now <= end && DetectedFlips(d, Showing(cs), end) == flips
    requires forall i, j :: 0 <= i < j < |cs| ==> cs[i].now <= cs[j].now
    ensures PitchesIn(d, es, cs, end, flips)
  {
    UpdatesShow(d, cs);
    UpdatesInOrder(cs);
    es := InputsHavePromptRun(SpecOf(d), Updates(cs), end);
    ArrivesPromptly(SpecOf(d), es, end);
    InputsShowAll(SpecOf(d), es, KEY, READY);
    assert IsWatched(READY);
    TrackerRefinesDetector(SpecOf(d), es, KEY, READY, end);
  }

  // One more state, seen by the detector.
  lemma DetectOne(d: Time, obs: seq<Obs>, o: Obs)
    ensures
      var v := Detect(d, obs);
      var w := DetectNext(d, v.d, o);
      Detect(d, obs + [o]) == Verdict(w.d, v.flips + w.flips)
  {
    DetectAppend(d, obs, [o]);
  }

  function Seeing(now: Time, before: string, after: string): Obs {
    Seen(now, Some(State(before)), State(after))
  }

  function Turns(now: Time, before: string, after: string): Change {
    Change(now, Some(before), Some(after))
  }

  lemma ShowingOne(cs: seq<Change>, c: Change)
    ensures Showing(cs + [c]) == Showing(cs) + ShownBy(c)
  {
    assert Front(cs + [c]) == cs;
  }

  lemma ThreeTurns(a: Change, b: Change, c: Change)
    ensures Showing([a]) == ShownBy(a) && Showing([a, b]) == ShownBy(a) + ShownBy(b)
    ensures Showing([a, b, c]) == ShownBy(a) + ShownBy(b) + ShownBy(c)
  {
    ShowingOne([], a);
    ShowingOne([a], b);
    ShowingOne([a, b], c);
    assert [] + [a] == [a] && [a] + [b] == [a, b] && [a, b] + [c] == [a, b, c];
  }

  lemma DetectedThree(d: Time, a: Obs, b: Obs, c: Obs, u: Verdict, v: Verdict, w: Verdict, end: Time)
    requires u == DetectNext(d, Unseen, a) && v == DetectNext(d, u.d, b) && w == DetectNext(d, v.d, c)
    ensures DetectedFlips(d, [a, b], end) == u.flips + v.flips + Elapse(d, v.d, end).flips
    ensures DetectedFlips(d, [a, b, c], end) == u.flips + v.flips + w.flips + Elapse(d, w.d, end).flips
  {
    DetectOne(d, [], a);
    DetectOne(d, [a], b);
    DetectOne(d, [a, b], c);
    assert [] + [a] == [a] && [a] + [b] == [a, b] && [a, b] + [c] == [a, b, c];
  }

  lemma ThreeSeen(a: Change, b: Change, c: Change, x: Obs, y: Obs, z: Obs)
    requires ShownBy(a) == [x] && ShownBy(b) == [y] && ShownBy(c) == [z]
    ensures Showing([a, b]) == [x, y] && Showing([a, b, c]) == [x, y, z]
  {
    ThreeTurns(a, b, c);
  }

  lemma Starting(d: Time, v: Detector, o: Obs, reported: string)
    requires d > 0 && ComparesWith(v, o, reported) && IsFailing(o, reported)
    ensures DetectNext(d, v, o) == Verdict(Lasting(reported, o.now, o.state), [])
  {
  }

  // A failure that has lasted by the time of the next state.
  lemma Elapsed(d: Time, v: Detector, o: Obs)
    requires v.Lasting? && v.since + d <= o.now && o.Seen?
    ensures
      var j := Judge(Settled(v.last.status), o.now, o.before, o.state);
      DetectNext(d, v, o) == Verdict(j.d, [TimedFlip(v.since + d, v.last)] + j.flips)
  {
  }

  lemma BackAtReported(d: Time, v: Detector, o: Obs)
    requires v.Lasting? && o.now < v.since + d && o.Seen? && o.state.status == v.reported
    ensures DetectNext(d, v, o) == Verdict(Settled(v.reported), [])
  {
  }

  /******* A failure ends without True *******/

  lemma DetectWithoutTrue(d: Time, t: Time, u: Time, end: Time)
    requires 0 < d <= t <= u < t + d <= end
    ensures var a, b, c := Seeing(0, "True", "False"), Seeing(t, "False", "Unknown"), Seeing(u, "Unknown", "False");
      && DetectedFlips(d, [a, b], end) == [TimedFlip(d, State("False")), TimedFlip(t + d, State("Unknown"))]
      && DetectedFlips(d, [a, b, c], end) == [TimedFlip(d, State("False"))]
  {
    var a, b, c := Seeing(0, "True", "False"), Seeing(t, "False", "Unknown"), Seeing(u, "Unknown", "False");
    var failing, retrying := Lasting("True", 0, State("False")), Lasting("False", t, State("Unknown"));
    Starting(d, Unseen, a, "True");
    Elapsed(d, failing, b);
    assert DetectNext(d, failing, b) == Verdict(retrying, [TimedFlip(d, State("False"))]);
    BackAtReported(d, retrying, c);
    DetectedThree(d, a, b, c, Verdict(failing, []), Verdict(retrying, [TimedFlip(d, State("False"))]),
                  Verdict(Settled("False"), []), end);
  }

  lemma LastingUnknown(d: Time, t: Time, u: Time, end: Time) returns (es: seq<Event>)
    requires 0 < d <= t <= u < t + d <= end
    ensures PitchesIn(d, es, [Turns(0, "True", "False"), Turns(t, "False", "Unknown")], end,
                      [TimedFlip(d, State("False")), TimedFlip(t + d, State("Unknown"))])
  {
    var a, b := Turns(0, "True", "False"), Turns(t, "False", "Unknown");
    ThreeSeen(a, b, b, Seeing(0, "True", "False"), Seeing(t, "False", "Unknown"), Seeing(t, "False", "Unknown"));
    DetectWithoutTrue(d, t, u, end);
    es := RunFor(d, [a, b], end, [TimedFlip(d, State("False")), TimedFlip(t + d, State("Unknown"))]);
  }

  lemma UnknownAndBack(d: Time, t: Time, u: Time, end: Time) returns (es: seq<Event>)
    requires 0 < d <= t <= u < t + d <= end
    ensures PitchesIn(d, es,
                      [Turns(0, "True", "False"), Turns(t, "False", "Unknown"), Turns(u, "Unknown", "False")], end,
                      [TimedFlip(d, State("False"))])
  {
    var a, b, c := Turns(0, "True", "False"), Turns(t, "False", "Unknown"), Turns(u, "Unknown", "False");
    ThreeSeen(a, b, c, Seeing(0, "True", "False"), Seeing(t, "False", "Unknown"), Seeing(u, "Unknown", "False"));
    DetectWithoutTrue(d, t, u, end);
    es := RunFor(d, [a, b, c], end, [TimedFlip(d, State("False"))]);
  }

  // A False that was pitched, then Unknown: it is pitched too when it lasts.
  // With False again in between nothing more is pitched, although the condition
  // was never True.
  lemma FailureEndsWithoutTrue(d: Time, t: Time, u: Time, end: Time) returns (two: seq<Event>, three: seq<Event>)
    requires 0 < d <= t <= u < t + d <= end
    ensures PitchesIn(d, two, [Turns(0, "True", "False"), Turns(t, "False", "Unknown")], end,
                      [TimedFlip(d, State("False")), TimedFlip(t + d, State("Unknown"))])
    ensures PitchesIn(d, three,
                      [Turns(0, "True", "False"), Turns(t, "False", "Unknown"), Turns(u, "Unknown", "False")], end,
                      [TimedFlip(d, State("False"))])
  {
    two := LastingUnknown(d, t, u, end);
    three := UnknownAndBack(d, t, u, end);
  }

  /******* A blank status *******/

  lemma DetectBlankTwice(d: Time, t: Time, u: Time, end: Time)
    requires 0 < d <= t <= u && u + d <= end
    ensures var a, b, c := Seeing(0, "True", ""), Seeing(t, "", "True"), Seeing(u, "True", "");
      DetectedFlips(d, [a, b, c], end) == [TimedFlip(d, State("")), TimedFlip(u + d, State(""))]
  {
    var a, b, c := Seeing(0, "True", ""), Seeing(t, "", "True"), Seeing(u, "True", "");
    var first, again := Lasting("True", 0, State("")), Lasting("True", u, State(""));
    var x, y, z := Verdict(first, []), Verdict(Settled("True"), [TimedFlip(d, State(""))]), Verdict(again, []);
    assert x == DetectNext(d, Unseen, a) by { Starting(d, Unseen, a, "True"); }
    assert y == DetectNext(d, first, b) by { Elapsed(d, first, b); }
    assert z == DetectNext(d, Settled("True"), c) by { Starting(d, Settled("True"), c, "True"); }
    assert Elapse(d, again, end).flips == [TimedFlip(u + d, State(""))];
    DetectedThree(d, a, b, c, x, y, z, end);
  }

  // A blank failure is pitched, its recovery is not, and the next flip is a
  // blank failure once more.
  lemma BlankFailureTwice(d: Time, t: Time, u: Time, end: Time) returns (es: seq<Event>)
    requires 0 < d <= t <= u && u + d <= end
    ensures PitchesIn(d, es, [Turns(0, "True", ""), Turns(t, "", "True"), Turns(u, "True", "")], end,
                      [TimedFlip(d, State("")), TimedFlip(u + d, State(""))])
  {
    var a, b, c := Turns(0, "True", ""), Turns(t, "", "True"), Turns(u, "True", "");
    ThreeSeen(a, b, c, Seeing(0, "True", ""), Seeing(t, "", "True"), Seeing(u, "True", ""));
    DetectBlankTwice(d, t, u, end);
    es := RunFor(d, [a, b, c], end, [TimedFlip(d, State("")), TimedFlip(u + d, State(""))]);
  }

  /******* A baseline that shows *******/

  lemma DetectedTwo(d: Time, a: Obs, b: Obs, u: Verdict, v: Verdict, end: Time)
    requires u == DetectNext(d, Unseen, a) && v == DetectNext(d, u.d, b)
    ensures DetectedFlips(d, [a, b], end) == u.flips + v.flips + Elapse(d, v.d, end).flips
  {
    DetectedThree(d, a, b, b, u, v, DetectNext(d, v.d, b), end);
  }

  lemma RunsOn(d: Time, v: Detector, o: Obs)
    requires v.Lasting? && o.now < v.since + d && IsFailing(o, v.reported)
    ensures DetectNext(d, v, o) == Verdict(v.(last := o.state), [])
  {
  }

  // The first state of a condition whose old state was not True.
  lemma FirstIsBlank(d: Time, o: Obs)
    requires o.Seen? && o.state.status == "" && !WasTrue(o)
    ensures DetectNext(d, Unseen, o) == Verdict(Settled(""), [])
  {
  }

  lemma TrueIsNoFlip(d: Time, o: Obs)
    requires o.Seen? && o.state.status == "True"
    ensures DetectNext(d, Settled(""), o) == Verdict(Settled("True"), [])
  {
  }

  lemma RunForTwo(d: Time, a: Change, b: Change, x: Obs, y: Obs, end: Time, flips: seq<TimedFlip>)
    returns (es: seq<Event>)
    requires d > 0 && a.now <= b.now <= end && ShownBy(a) == [x] && ShownBy(b) == [y]
    requires DetectedFlips(d, [x, y], end) == flips
    ensures PitchesIn(d, es, [a, b], end, flips)
  {
    ThreeSeen(a, b, b, x, y, y);
    es := RunFor(d, [a, b], end, flips);
  }

  lemma DetectLaterBlank(d: Time, t: Time, end: Time)
    requires 0 < t < d <= end
    ensures DetectedFlips(d, [Seeing(0, "True", "False"), Seeing(t, "False", "")], end) == [TimedFlip(d, State(""))]
    ensures DetectedFlips(d, [Seeing(0, "False", "False"), Seeing(t, "False", "")], end) == []
  {
    var a1, a2, b := Seeing(0, "True", "False"), Seeing(0, "False", "False"), Seeing(t, "False", "");
    var hi, lo := Lasting("True", 0, State("False")), Lasting("", 0, State("False"));
    Starting(d, Unseen, a1, "True");
    RunsOn(d, hi, b);
    Starting(d, Unseen, a2, "");
    BackAtReported(d, lo, b);
    DetectedTwo(d, a1, b, Verdict(hi, []), Verdict(Lasting("True", 0, State("")), []), end);
    DetectedTwo(d, a2, b, Verdict(lo, []), Verdict(Settled(""), []), end);
  }

  // The first state is False and a blank one follows: it is pitched when the old
  // object was True, and not when it was False.
  lemma LaterBlankShows(d: Time, t: Time, end: Time) returns (healthy: seq<Event>, failing: seq<Event>)
    requires 0 < t < d <= end
    ensures PitchesIn(d, healthy, [Turns(0, "True", "False"), Turns(t, "False", "")], end, [TimedFlip(d, State(""))])
    ensures PitchesIn(d, failing, [Turns(0, "False", "False"), Turns(t, "False", "")], end, [])
  {
    DetectLaterBlank(d, t, end);
    healthy := RunForTwo(d, Turns(0, "True", "False"), Turns(t, "False", ""),
                         Seeing(0, "True", "False"), Seeing(t, "False", ""), end, [TimedFlip(d, State(""))]);
    failing := RunForTwo(d, Turns(0, "False", "False"), Turns(t, "False", ""),
                         Seeing(0, "False", "False"), Seeing(t, "False", ""), end, []);
  }

  lemma DetectBlankThenTrue(d: Time, t: Time, end: Time)
    requires 0 < t < d <= end
    ensures DetectedFlips(d, [Seeing(0, "True", ""), Seeing(t, "", "True")], end) == []
    ensures DetectedFlips(d, [Seeing(0, "False", ""), Seeing(t, "", "True")], end) == []
  {
    var a1, a2, b := Seeing(0, "True", ""), Seeing(0, "False", ""), Seeing(t, "", "True");
    Starting(d, Unseen, a1, "True");
    BackAtReported(d, Lasting("True", 0, State("")), b);
    FirstIsBlank(d, a2);
    TrueIsNoFlip(d, b);
    DetectedTwo(d, a1, b, Verdict(Lasting("True", 0, State("")), []), Verdict(Settled("True"), []), end);
    DetectedTwo(d, a2, b, Verdict(Settled(""), []), Verdict(Settled("True"), []), end);
  }

  // The first state is blank and a True follows in time: nothing is pitched,
  // whatever the old object was.
  lemma BlankThenTrueHides(d: Time, t: Time, end: Time) returns (healthy: seq<Event>, failing: seq<Event>)
    requires 0 < t < d <= end
    ensures PitchesIn(d, healthy, [Turns(0, "True", ""), Turns(t, "", "True")], end, [])
    ensures PitchesIn(d, failing, [Turns(0, "False", ""), Turns(t, "", "True")], end, [])
  {
    DetectBlankThenTrue(d, t, end);
    healthy := RunForTwo(d, Turns(0, "True", ""), Turns(t, "", "True"),
                         Seeing(0, "True", ""), Seeing(t, "", "True"), end, []);
    failing := RunForTwo(d, Turns(0, "False", ""), Turns(t, "", "True"),
                         Seeing(0, "False", ""), Seeing(t, "", "True"), end, []);
  }

  lemma DetectBlankAtOnce(d: Time, end: Time)
    requires 0 < d <= end
    ensures DetectedFlips(d, [Seeing(0, "True", ""), Seeing(0, "", "False")], end) == [TimedFlip(d, State("False"))]
    ensures DetectedFlips(d, [Seeing(0, "False", ""), Seeing(0, "", "False")], end) == [TimedFlip(d, State("False"))]
  {
    var a1, a2, b := Seeing(0, "True", ""), Seeing(0, "False", ""), Seeing(0, "", "False");
    Starting(d, Unseen, a1, "True");
    RunsOn(d, Lasting("True", 0, State("")), b);
    FirstIsBlank(d, a2);
    Starting(d, Settled(""), b, "");
    DetectedTwo(d, a1, b, Verdict(Lasting("True", 0, State("")), []), Verdict(Lasting("True", 0, State("False")), []), end);
    DetectedTwo(d, a2, b, Verdict(Settled(""), []), Verdict(Lasting("", 0, State("False")), []), end);
  }

  // The first state is blank and a False follows at once: it is pitched at the
  // same time, whatever the old object was.
  lemma BlankForNoTimeHides(d: Time, end: Time) returns (healthy: seq<Event>, failing: seq<Event>)
    requires 0 < d <= end
    ensures PitchesIn(d, healthy, [Turns(0, "True", ""), Turns(0, "", "False")], end, [TimedFlip(d, State("False"))])
    ensures PitchesIn(d, failing, [Turns(0, "False", ""), Turns(0, "", "False")], end, [TimedFlip(d, State("False"))])
  {
    DetectBlankAtOnce(d, end);
    healthy := RunForTwo(d, Turns(0, "True", ""), Turns(0, "", "False"),
                         Seeing(0, "True", ""), Seeing(0, "", "False"), end, [TimedFlip(d, State("False"))]);
    failing := RunForTwo(d, Turns(0, "False", ""), Turns(0, "", "False"),
                         Seeing(0, "False", ""), Seeing(0, "", "False"), end, [TimedFlip(d, State("False"))]);
  }

  /******* Without minDuration *******/

  lemma ImmediateRun(cs: seq<Change>)
    ensures FlipsOf(SpecOf(0), Updates(cs), KEY, READY) == Changes(SpecOf(0), Showing(cs))
  {
    UpdatesShow(0, cs);
    assert IsWatched(READY);
    ImmediateFlipsAreChanges(SpecOf(0), Updates(cs), KEY, READY);
  }

  lemma OneChange(o: Obs)
    requires o.Seen? && o.before == Some(State("False")) && o.state == State("True")
    ensures Changes(SpecOf(0), [o]) == [TimedFlip(o.now, o.state)]
  {
    assert Front([o]) == [] && [] + [TimedFlip(o.now, o.state)] == [TimedFlip(o.now, o.state)];
  }

  // The first update seen is a recovery: it is pitched although nothing was.
  lemma RecoveryOfUnseenFailure()
    ensures FlipsOf(SpecOf(0), Updates([Turns(0, "False", "True")]), KEY, READY) == [TimedFlip(0, State("True"))]
  {
    var a := Turns(0, "False", "True");
    ThreeTurns(a, a, a);
    ImmediateRun([a]);
    OneChange(Seeing(0, "False", "True"));
  }

  lemma ChangeAfter(a: Obs, b: Obs)
    requires a.Seen? && b.Seen? && a.before == Some(a.state) && a.state == State("False") && b.state == State("True")
    ensures Changes(SpecOf(0), [a, b]) == [TimedFlip(b.now, b.state)]
  {
    assert Front([a, b]) == [a] && Front([a]) == [];
    assert Changes(SpecOf(0), [a]) == [];
  }

  // The same one update later: the failure was there when the object was seen
  // first, and nobody pitched it.
  lemma RecoveryOfSilentFailure(t: Time)
    ensures FlipsOf(SpecOf(0), Updates([Turns(0, "False", "False"), Turns(t, "False", "True")]), KEY, READY)
      == [TimedFlip(t, State("True"))]
  {
    var a, b := Turns(0, "False", "False"), Turns(t, "False", "True");
    ThreeTurns(a, b, b);
    ImmediateRun([a, b]);
    ChangeAfter(Seeing(0, "False", "False"), Seeing(t, "False", "True"));
  }

  lemma ChangesOfTwo(a: Obs, b: Obs)
    requires a.Seen? && b.Seen? && a.before == Some(a.state) && a.state == State("True") && b.state == State("False")
    ensures Changes(SpecOf(0), [a, b]) == [TimedFlip(b.now, b.state)]
  {
    assert Front([a, b]) == [a] && Front([a]) == [];
    assert Changes(SpecOf(0), [a]) == [];
  }

  function Vanishing(): seq<Change> {
    [Turns(0, "True", "True"), Change(1, Some("True"), None), Change(2, None, Some("False"))]
  }

  lemma VanishingShows()
    ensures Showing(Vanishing()) == [Seeing(0, "True", "True"), Seen(2, None, State("False"))]
  {
    var a, b, c := Turns(0, "True", "True"), Change(1, Some("True"), None), Change(2, None, Some("False"));
    ThreeTurns(a, b, c);
  }

  lemma VanishingFlips()
    ensures FlipsOf(SpecOf(0), Updates(Vanishing()), KEY, READY) == [TimedFlip(2, State("False"))]
  {
    VanishingShows();
    ImmediateRun(Vanishing());
    ChangesOfTwo(Seeing(0, "True", "True"), Seen(2, None, State("False")));
  }

  lemma VanishingTurnsNothing(c: Change)
    requires c in Vanishing()
    ensures c.before.None? || c.after.None? || c.before == c.after
  {
  }

  ghost predicate PlainlySilent(mode: string, cs: seq<Change>) {
    forall c :: c in cs ==> UpdateEvent(mode, App(c.before), App(c.after)) == None
  }

  // A condition vanishes and comes back as a failure: the tracker pitches it,
  // the plain filter pitches none of the updates.
  lemma VanishedConditionComesBack(mode: string)
    requires mode == UPDATES_CONDITIONS || mode == UPDATES_FLIPS
    ensures FlipsOf(SpecOf(0), Updates(Vanishing()), KEY, READY) == [TimedFlip(2, State("False"))]
    ensures PlainlySilent(mode, Vanishing())
  {
    VanishingFlips();
    forall c | c in Vanishing() ensures UpdateEvent(mode, App(c.before), App(c.after)) == None {
      VanishingTurnsNothing(c);
      SameStatus(mode, c);
    }
  }

  lemma SameStatus(mode: string, c: Change)
    requires mode == UPDATES_CONDITIONS || mode == UPDATES_FLIPS
    requires c.before.None? || c.after.None? || c.before == c.after
    ensures UpdateEvent(mode, App(c.before), App(c.after)) == None
  {
    FlippedListed(App(c.before), App(c.after));
  }

  lemma OtherStatus(before: string, after: string)
    requires before != after
    ensures FlippedUpTo(App(Some(before)), App(Some(after)), |WATCHED|) == [Flip(READY, State(after))]
  {
    var oldU, newU := App(Some(before)), App(Some(after));
    FlippedListed(oldU, newU);
    assert FlippedTo(oldU, newU, WATCHED[0]) == Some(State(after)) && FlippedTo(oldU, newU, WATCHED[1]) == None;
  }

  lemma NoChange(o: Obs)
    requires o.Seen? && o.before == Some(State("")) && o.state == State("True")
    ensures Changes(SpecOf(0), [o]) == []
  {
    assert Front([o]) == [];
  }

  lemma BlankThenTrueFlips()
    ensures FlipsOf(SpecOf(0), Updates([Turns(0, "", "True")]), KEY, READY) == []
  {
    var a := Turns(0, "", "True");
    ThreeTurns(a, a, a);
    ImmediateRun([a]);
    NoChange(Seeing(0, "", "True"));
  }

  // True after a blank status: the plain filter pitches it, the tracker does not.
  lemma TrueAfterBlank(mode: string)
    requires mode == UPDATES_CONDITIONS || mode == UPDATES_FLIPS
    ensures FlipsOf(SpecOf(0), Updates([Turns(0, "", "True")]), KEY, READY) == []
    ensures UpdateEvent(mode, App(Some("")), App(Some("True"))) == Some(FlipEvent([Flip(READY, State("True"))]))
  {
    BlankThenTrueFlips();
    OtherStatus("", "True");
  }

  /******* A stale callback *******/

  // An object fails, is deleted, and fails again before the first callback
  // would have been due.
  function Failed(): Event {
    UpdateOf(Turns(0, "True", "False"))
  }

  function Recreated(t: Time): seq<Event> {
    [Failed(), Event(t, Forget(KEY)), UpdateOf(Turns(t, "True", "False"))]
  }

  function FirstTimer(d: Time): Callback {
    Callback(KEY, 1, d)
  }

  // The first update of an object that fails arms a timer with number 1.
  lemma FirstUpdateArms(d: Time, s: Sys, t: Time)
    requires d > 0 && Inv(SpecOf(d), s) && !s.closed && KEY !in s.objects
    ensures var s' := After(SpecOf(d), s, UpdateOf(Turns(t, "True", "False")));
      && !s'.closed && KEY in s'.objects && s'.objects[KEY].seqNo == 1
      && s'.objects[KEY].due == Some(t + d) && s'.objects[KEY].timer == Some(Callback(KEY, 1, t + d))
      && s'.live == s.live + multiset{Callback(KEY, 1, t + d)} && s'.objects.Keys == s.objects.Keys + {KEY}
  {
    var newU, oldU := App(Some("False")), App(Some("True"));
    var st := Fresh(newU);
    assert Lookup(s, newU) == st && st.(obj := newU) == st;
    var o := ObserveUpTo(SpecOf(d), oldU, newU, t, st, |WATCHED|);
    var o0, o1 := ObserveUpTo(SpecOf(d), oldU, newU, t, st, 0), ObserveUpTo(SpecOf(d), oldU, newU, t, st, 1);
    assert o.st == o1.st && o1.st.failingSince == map[READY := t];
    assert o.st.timer.None? && o.st.seqNo == 0;
    assert EarliestDue(SpecOf(d), o.st.failingSince) == Some(t + d);
  }

  lemma RecreatedRuns(d: Time, t: Time)
    ensures var spec, es := SpecOf(d), Recreated(t);
      && Run(spec, es[..1]) == After(spec, INITIAL, Failed())
      && Run(spec, es[..2]) == After(spec, Run(spec, es[..1]), Event(t, Forget(KEY)))
      && Run(spec, es) == After(spec, Run(spec, es[..2]), UpdateOf(Turns(t, "True", "False")))
  {
    var es := Recreated(t);
    assert Front(es) == es[..2] && Front(es[..2]) == es[..1] && Front(es[..1]) == [];
  }

  lemma DeletedAgain(d: Time, t: Time, s: Sys)
    requires Inv(SpecOf(d), s) && !s.closed && s.objects.Keys == {KEY}
    requires s.objects[KEY].timer == Some(FirstTimer(d)) && s.live == multiset{FirstTimer(d)}
    ensures After(SpecOf(d), s, Event(t, Forget(KEY))) == INITIAL
  {
  }

  // The callback pitches nothing and has the timer of its object armed again.
  ghost predicate OnlyArmsAgain(d: Time, now: Time, s: Sys, cb: Callback)
    requires cb.key in s.objects
  {
    var spec, e := SpecOf(d), Event(now, Fire(cb));
    && Emit(spec, s, e) == None
    && After(spec, s, e).objects == s.objects[cb.key := ArmedAgain(cb.key, s.objects[cb.key])]
  }

  lemma RunsEarly(d: Time, now: Time, s: Sys, cb: Callback)
    requires Inv(SpecOf(d), s) && Matches(s, cb) && s.objects[cb.key].due.Some? && now < s.objects[cb.key].due.value
    ensures OnlyArmsAgain(d, now, s, cb)
  {
    EarlyCallbackIsHarmless(SpecOf(d), s, now, cb);
  }

  // The callback is accepted, and all it does is to arm the timer for `due`.
  ghost predicate IsHarmless(d: Time, now: Time, s: Sys, cb: Callback, due: Time) {
    && Matches(s, cb) && OnlyArmsAgain(d, now, s, cb) && ArmsFor(s.objects[cb.key], cb.key, due)
  }

  ghost predicate ArmsFor(st: Tracked, key: string, due: Time) {
    ArmedAgain(key, st).timer == Some(Callback(key, 2, due))
  }

  lemma ArmedForSecondTime(st: Tracked, key: string, due: Time)
    requires st.seqNo == 1 && st.due == Some(due)
    ensures ArmsFor(st, key, due)
  {
  }

  lemma Stale(d: Time, now: Time, s: Sys, cb: Callback, due: Time)
    requires Inv(SpecOf(d), s) && Matches(s, cb) && now < due
    requires s.objects[cb.key].seqNo == 1 && s.objects[cb.key].due == Some(due)
    ensures IsHarmless(d, now, s, cb, due)
  {
    RunsEarly(d, now, s, cb);
    ArmedForSecondTime(s.objects[cb.key], cb.key, due);
  }

  lemma RecreatedStates(d: Time, t: Time)
    requires d > 0
    ensures var es := Recreated(t);
      && Run(SpecOf(d), es[..1]).live == multiset{FirstTimer(d)} && Run(SpecOf(d), es[..2]) == INITIAL
  {
    RecreatedRuns(d, t);
    RunInv(SpecOf(d), []);
    RunInv(SpecOf(d), Recreated(t)[..1]);
    FirstUpdateArms(d, INITIAL, 0);
    DeletedAgain(d, t, Run(SpecOf(d), Recreated(t)[..1]));
  }

  // The object is pending in its second lifetime, under the number of its first.
  ghost predicate PendingAgain(d: Time, t: Time, s: Sys) {
    && Inv(SpecOf(d), s) && !s.closed && KEY in s.objects
    && s.objects[KEY].seqNo == 1 && s.objects[KEY].due == Some(t + d)
  }

  lemma RecreatedIsPending(d: Time, t: Time)
    requires 0 < t <= d
    ensures PendingAgain(d, t, Run(SpecOf(d), Recreated(t)))
  {
    RecreatedStates(d, t);
    RunInv(SpecOf(d), []);
    RunInv(SpecOf(d), Recreated(t));
    RecreatedRuns(d, t);
    FirstUpdateArms(d, INITIAL, t);
  }

  lemma StaleWhenPending(d: Time, t: Time, s: Sys)
    requires 0 < t <= d && PendingAgain(d, t, s)
    ensures IsHarmless(d, d, s, FirstTimer(d), t + d)
  {
    Stale(d, d, s, FirstTimer(d), t + d);
  }

  // The first callback was stopped but runs all the same, at its time. Its
  // number is that of the new lifetime, so it is accepted; it pitches nothing,
  // and the failure stays pending until minDuration after it began.
  lemma StaleCallbackIsAccepted(d: Time, t: Time)
    requires 0 < t <= d
    ensures
      var spec, es, cb := SpecOf(d), Recreated(t), FirstTimer(d);
      && Run(spec, es[..1]).live == multiset{cb} && Run(spec, es[..2]).live == multiset{}
      && IsHarmless(d, d, Run(spec, es), cb, t + d)
  {
    RecreatedStates(d, t);
    RecreatedIsPending(d, t);
    StaleWhenPending(d, t, Run(SpecOf(d), Recreated(t)));
  }
}
