// What the cooldown does, told from the history of a run alone, and that
// forgetting old keys does not change it.
module ThrottleHistory {
  import opened Common
  import opened ThrottleSpec

  predicate Offers(e: Event, key: string) {
    e.step == Offer(key)
  }

  predicate IsAdmitted(d: Decision) {
    d.outcome.Some? && d.outcome.value.Admitted?
  }

  // When the last event with this key was admitted.
  function LastAdmitted(l: Limits, es: seq<Event>, key: string): Option<Time> {
    if es == [] then None
    else if Offers(Last(es), key) && IsAdmitted(LastDecision(l, es)) then Some(Last(es).now)
    else LastAdmitted(l, Front(es), key)
  }

  // How many events with this key the cooldown dropped since then.
  function DroppedSince(l: Limits, es: seq<Event>, key: string): nat {
    if es == [] then 0
    else if Offers(Last(es), key) && IsAdmitted(LastDecision(l, es)) then 0
    else DroppedSince(l, Front(es), key)
         + if Offers(Last(es), key) && LastDecision(l, es).outcome == Some(CooldownDrop) then 1 else 0
  }

  // The entry of a key is the history of the key, until twice the cooldown.
  function Remembered(l: Limits, last: Option<Time>, dropped: nat, now: Time): Option<Seen> {
    if last.Some? && now - last.value < 2 * l.cooldown then Some(Seen(last.value, dropped)) else None
  }

  lemma EvictRemembers(l: Limits, seen: map<string, Seen>, key: string, last: Option<Time>, dropped: nat,
                        before: Time, now: Time)
    requires before <= now && Get(seen, key) == Remembered(l, last, dropped, before)
    ensures Get(Evict(l, seen, now), key) == Remembered(l, last, dropped, now)
  {
  }

  lemma {:induction false} SeenIsHistory(l: Limits, es: seq<Event>, key: string)
    requires Keyed(l, key) && Ordered(es) && es != []
    ensures Get(Run(l, es).seen, key) ==
      Remembered(l, LastAdmitted(l, es, key), DroppedSince(l, es, key), Last(es).now)
    decreases |es|, 1
  {
    SeenBefore(l, es, key);
  }

  // What the entry of a key is when the window of the last step is closed.
  lemma {:induction false} SeenBefore(l: Limits, es: seq<Event>, key: string)
    requires Keyed(l, key) && Ordered(es) && es != []
    ensures var front := Front(es);
      Get(CloseWindow(l, Run(l, front), Last(es).now).0.seen, key) ==
        Remembered(l, LastAdmitted(l, front, key), DroppedSince(l, front, key), Last(es).now)
    decreases |es|, 0
  {
    var front, e := Front(es), Last(es);
    if front != [] {
      assert Last(front).now <= e.now;
      SeenIsHistory(l, front, key);
      EvictRemembers(l, Run(l, front).seen, key, LastAdmitted(l, front, key), DroppedSince(l, front, key),
                     Last(front).now, e.now);
    }
  }

  // An offer is dropped by the cooldown if and only if an event with its key
  // was admitted less than the cooldown ago. Rate limited offers do not count.
  lemma CooldownIff(l: Limits, es: seq<Event>, key: string)
    requires es != [] && Ordered(es) && Offers(Last(es), key)
    ensures LastDecision(l, es).outcome == Some(CooldownDrop) <==>
      && Keyed(l, key)
      && LastAdmitted(l, Front(es), key).Some?
      && Last(es).now - LastAdmitted(l, Front(es), key).value < l.cooldown
  {
    if Keyed(l, key) {
      SeenBefore(l, es, key);
    }
  }

  // Repeat counts are exact: an admitted event carries "Repeats: n since t" if
  // and only if its key was last admitted at t, less than twice the cooldown
  // ago, and n > 0 offers of the key were dropped by the cooldown since.
  lemma RepeatsAreExact(l: Limits, es: seq<Event>, key: string)
    requires es != [] && Ordered(es) && Offers(Last(es), key) && IsAdmitted(LastDecision(l, es))
    ensures
      var last, n := LastAdmitted(l, Front(es), key), DroppedSince(l, Front(es), key);
      LastDecision(l, es).outcome.value.repeats ==
        if Keyed(l, key) && n > 0 && last.Some? && Last(es).now - last.value < 2 * l.cooldown
        then Some(Repeats(n, last.value)) else None
    ensures
      var last := LastAdmitted(l, Front(es), key);
      Keyed(l, key) && last.Some? ==> l.cooldown <= Last(es).now - last.value
  {
    CooldownIff(l, es, key);
    if Keyed(l, key) {
      SeenBefore(l, es, key);
    }
  }

  /******* Events with one key are the cooldown apart *******/

  ghost predicate AdmittedAt(l: Limits, es: seq<Event>, i: nat, key: string) {
    i < |es| && Offers(es[i], key) && IsAdmitted(LastDecision(l, es[..i + 1]))
  }

  lemma {:induction false} LastAdmittedSince(l: Limits, es: seq<Event>, i: nat, key: string)
    requires Ordered(es) && AdmittedAt(l, es, i, key)
    ensures LastAdmitted(l, es, key).Some? && LastAdmitted(l, es, key).value >= es[i].now
  {
    if i == |es| - 1 {
      assert es[..i + 1] == es;
    } else if !(Offers(Last(es), key) && IsAdmitted(LastDecision(l, es))) {
      assert Front(es)[..i + 1] == es[..i + 1];
      LastAdmittedSince(l, Front(es), i, key);
    }
  }

  lemma AdmittedAreApart(l: Limits, es: seq<Event>, i: nat, j: nat, key: string)
    requires Keyed(l, key) && Ordered(es) && i < j
    requires AdmittedAt(l, es, i, key) && AdmittedAt(l, es, j, key)
    ensures es[j].now - es[i].now >= l.cooldown
  {
    var upTo := es[..j + 1];
    assert Front(upTo) == es[..j] && Last(upTo) == es[j];
    assert es[..j][..i + 1] == es[..i + 1];
    LastAdmittedSince(l, es[..j], i, key);
    CooldownIff(l, upTo, key);
  }

  /******* Eviction *******/

  // The same throttle with a map that never forgets.
  function NextKeeping(l: Limits, st: State, e: Event): Result {
    var (st1, summary) := Turn(l, st, e.now);
    match e.step
    case Flush => Result(st1, Decision(summary, None))
    case Offer(key) =>
      var (st2, outcome) := Admit(l, st1, key, e.now);
      Result(st2, Decision(summary, Some(outcome)))
  }

  function RunKeeping(l: Limits, es: seq<Event>): State {
    if es == [] then INITIAL else NextKeeping(l, RunKeeping(l, Front(es)), Last(es)).st
  }

  function DecisionsKeeping(l: Limits, es: seq<Event>): seq<Decision> {
    if es == [] then []
    else DecisionsKeeping(l, Front(es)) + [NextKeeping(l, RunKeeping(l, Front(es)), Last(es)).decision]
  }

  // Equal up to the repeats an admitted event carries.
  predicate SameVerdict(a: Decision, b: Decision) {
    && a.summary == b.summary
    && (a.outcome.Some? <==> b.outcome.Some?)
    && (a.outcome.Some? ==> a.outcome == b.outcome || (a.outcome.value.Admitted? && b.outcome.value.Admitted?))
  }

  ghost predicate EvictedFrom(l: Limits, st: State, keeping: State, now: Time) {
    st == keeping.(seen := Evict(l, keeping.seen, now))
  }

  lemma EvictTwice(l: Limits, seen: map<string, Seen>, before: Time, now: Time)
    requires before <= now
    ensures Evict(l, Evict(l, seen, before), now) == Evict(l, seen, now)
  {
  }

  lemma TurnKeeps(l: Limits, st: State, keeping: State, before: Time, now: Time)
    requires before <= now && EvictedFrom(l, st, keeping, before)
    ensures EvictedFrom(l, CloseWindow(l, st, now).0, Turn(l, keeping, now).0, now)
    ensures CloseWindow(l, st, now).1 == Turn(l, keeping, now).1
  {
    EvictTwice(l, keeping.seen, before, now);
  }

  lemma AdmitKeeps(l: Limits, st: State, keeping: State, key: string, now: Time)
    requires l.Valid() && EvictedFrom(l, st, keeping, now)
    ensures EvictedFrom(l, Admit(l, st, key, now).0, Admit(l, keeping, key, now).0, now)
    ensures var a, b := Admit(l, st, key, now).1, Admit(l, keeping, key, now).1;
      a == b || (a.Admitted? && b.Admitted?)
  {
    var st', keeping' := Admit(l, st, key, now).0, Admit(l, keeping, key, now).0;
    assert st'.seen == Evict(l, keeping'.seen, now);
  }

  lemma KeepingStep(l: Limits, st: State, keeping: State, before: Time, e: Event)
    requires l.Valid() && before <= e.now && EvictedFrom(l, st, keeping, before)
    ensures
      var r, k := Next(l, st, e), NextKeeping(l, keeping, e);
      EvictedFrom(l, r.st, k.st, e.now) && SameVerdict(r.decision, k.decision)
  {
    TurnKeeps(l, st, keeping, before, e.now);
    if e.step.Offer? {
      AdmitKeeps(l, CloseWindow(l, st, e.now).0, Turn(l, keeping, e.now).0, e.step.key, e.now);
    }
  }

  // Forgetting keys after twice the cooldown changes no decision in any run,
  // compared with a map that never forgets.
  lemma {:induction false} EvictionIsInvisible(l: Limits, es: seq<Event>)
    requires l.Valid() && Ordered(es)
    ensures |Decisions(l, es)| == |DecisionsKeeping(l, es)| == |es|
    ensures forall i :: 0 <= i < |es| ==> SameVerdict(Decisions(l, es)[i], DecisionsKeeping(l, es)[i])
    ensures es != [] ==> EvictedFrom(l, Run(l, es), RunKeeping(l, es), Last(es).now)
  {
    if es != [] {
      var front, e := Front(es), Last(es);
      EvictionIsInvisible(l, front);
      var before := if front == [] then e.now else Last(front).now;
      assert EvictedFrom(l, Run(l, front), RunKeeping(l, front), before);
      KeepingStep(l, Run(l, front), RunKeeping(l, front), before, e);
    }
  }
}
