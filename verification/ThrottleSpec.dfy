// The throttle as a transition system over values: the cooldown per key and the
// rate limit over every message, both decided under one lock.
module ThrottleSpec {
  import opened Common

  // cooldown 0 and max 0 are off.
  datatype Limits = Limits(cooldown: Time, max: nat, per: Time) {
    // What profile validation guarantees.
    predicate Valid() {
      cooldown >= 0 && (max > 0 ==> per > 0)
    }
  }

  datatype Seen = Seen(last: Time, repeats: nat)

  datatype State = State(seen: map<string, Seen>, windowEnd: Option<Time>, sent: nat, suppressed: nat)

  const INITIAL := State(map[], None, 0, 0)

  // "Repeats: <n> since <since>".
  datatype Repeats = Repeats(n: nat, since: Time)

  datatype Outcome =
    | Admitted(repeats: Option<Repeats>)
    | CooldownDrop
    | RateDrop

  /******* closeWindow *******/

  predicate Expired(l: Limits, now: Time, s: Seen) {
    now - s.last >= 2 * l.cooldown
  }

  function Evict(l: Limits, seen: map<string, Seen>, now: Time): map<string, Seen> {
    map k | k in seen && !Expired(l, now, seen[k]) :: seen[k]
  }

  // Whether closeWindow starts a new window.
  predicate Opens(l: Limits, st: State, now: Time) {
    l.max > 0 && (st.windowEnd.None? || st.windowEnd.value <= now)
  }

  // The new rate limit window, and how many events the summary of the old one counts.
  function Turn(l: Limits, st: State, now: Time): (State, Option<nat>) {
    if !Opens(l, st, now) then (st, None)
    else if st.windowEnd.None? then (st.(windowEnd := Some(now + l.per)), None)
    else
      (st.(sent := 0, suppressed := 0, windowEnd := Some(now + l.per)),
       if st.suppressed == 0 then None else Some(st.suppressed))
  }

  function CloseWindow(l: Limits, st: State, now: Time): (State, Option<nat>) {
    Turn(l, st.(seen := Evict(l, st.seen, now)), now)
  }

  /******* admit *******/

  predicate Keyed(l: Limits, key: string) {
    l.cooldown > 0 && key != ""
  }

  function RepeatsOf(l: Limits, st: State, key: string): Option<Repeats> {
    if Keyed(l, key) && key in st.seen && st.seen[key].repeats > 0
    then Some(Repeats(st.seen[key].repeats, st.seen[key].last)) else None
  }

  function Admit(l: Limits, st: State, key: string, now: Time): (State, Outcome) {
    if Keyed(l, key) && key in st.seen && now - st.seen[key].last < l.cooldown then
      (st.(seen := st.seen[key := st.seen[key].(repeats := st.seen[key].repeats + 1)]), CooldownDrop)
    else if l.max > 0 && st.sent >= l.max then
      (st.(suppressed := st.suppressed + 1), RateDrop)
    else
      (st.(sent := if l.max > 0 then st.sent + 1 else st.sent,
           seen := if Keyed(l, key) then st.seen[key := Seen(now, 0)] else st.seen),
       Admitted(RepeatsOf(l, st, key)))
  }

  /******* Steps and runs *******/

  // Offer is the critical section of Pitch, Flush that of Flush.
  datatype Step = Offer(key: string) | Flush

  datatype Event = Event(now: Time, step: Step)

  // What one critical section decides: the summary of the window it closes and
  // what becomes of the offered event.
  datatype Decision = Decision(summary: Option<nat>, outcome: Option<Outcome>)

  datatype Result = Result(st: State, decision: Decision)

  function Next(l: Limits, st: State, e: Event): Result {
    var (st1, summary) := CloseWindow(l, st, e.now);
    match e.step
    case Flush => Result(st1, Decision(summary, None))
    case Offer(key) =>
      var (st2, outcome) := Admit(l, st1, key, e.now);
      Result(st2, Decision(summary, Some(outcome)))
  }

  function Run(l: Limits, es: seq<Event>): State {
    if es == [] then INITIAL else Next(l, Run(l, Front(es)), Last(es)).st
  }

  // What the last step of a run decides.
  function LastDecision(l: Limits, es: seq<Event>): Decision
    requires es != []
  {
    Next(l, Run(l, Front(es)), Last(es)).decision
  }

  // What every step decides.
  function Decisions(l: Limits, es: seq<Event>): seq<Decision> {
    if es == [] then [] else Decisions(l, Front(es)) + [LastDecision(l, es)]
  }

  predicate Ordered(es: seq<Event>) {
    forall i, j :: 0 <= i < j < |es| ==> es[i].now <= es[j].now
  }
}
