// The throttle as it works: its map, counters and window are updated in place.
// Every method is proved to take the view of the throttle where ThrottleSpec
// goes, and to hand over what was decided.
module Throttle {
  import opened Common
  import opened ThrottleSpec
  import opened ThrottleDelivery

  // The wrapped pitcher: it may fail on any message it is handed.
  class Target {
    var log: seq<Message>
    var answers: seq<bool>

    constructor ()
      ensures log == [] && answers == []
    {
      log, answers := [], [];
    }

    method Pitch(m: Message) returns (ok: bool)
      modifies this
      ensures log == old(log) + [m] && answers == old(answers) + [ok]
    {
      ok := *;
      log, answers := log + [m], answers + [ok];
    }
  }

  class Entry {
    var last: Time
    var repeats: nat

    constructor (last: Time)
      ensures this.last == last && repeats == 0
    {
      this.last := last;
      repeats := 0;
    }

    ghost function View(): Seen
      reads this
    {
      Seen(last, repeats)
    }
  }

  class Pitcher {
    const limits: Limits
    const next: Target
    var seen: map<string, Entry>
    var windowEnd: Option<Time>
    var sent: nat
    var suppressed: nat

    constructor (next: Target, limits: Limits)
      ensures Valid() && View() == INITIAL
      ensures this.next == next && this.limits == limits
    {
      this.next := next;
      this.limits := limits;
      seen := map[];
      windowEnd, sent, suppressed := None, 0, 0;
    }

    ghost function View(): State
      reads this, seen.Values
    {
      State(map k | k in seen :: seen[k].View(), windowEnd, sent, suppressed)
    }

    ghost predicate Valid()
      reads this
    {
      forall j, k :: j in seen && k in seen && j != k ==> seen[j] != seen[k]
    }

    // Drops the entries that are as old as two cooldowns, in any order.
    method EvictOld(now: Time)
      requires Valid()
      modifies this`seen
      ensures Valid() && seen.Values <= old(seen.Values)
      ensures View() == old(View()).(seen := Evict(limits, old(View().seen), now))
    {
      ghost var all, before := seen, View().seen;
      var rest := seen.Keys;
      while rest != {}
        invariant rest <= all.Keys && seen.Keys <= all.Keys
        invariant forall k :: k in seen ==> seen[k] == all[k]
        invariant forall k :: k in all ==> (k in seen <==> k in rest || !Expired(limits, now, all[k].View()))
        decreases rest
      {
        var k :| k in rest;
        if now - seen[k].last >= 2 * limits.cooldown {
          seen := seen - {k};
        }
        rest := rest - {k};
      }
      Evicted(before, now);
    }

    lemma Evicted(before: map<string, Seen>, now: Time)
      requires forall k :: k in seen <==> k in before && !Expired(limits, now, before[k])
      requires forall k :: k in seen ==> seen[k].View() == before[k]
      ensures View().seen == Evict(limits, before, now)
    {
    }

    // Evicts, and turns the rate limit window when `now` has reached its end; the
    // result is the count for the summary, None when there is nothing to tell.
    method CloseWindow(now: Time) returns (summary: Option<nat>)
      requires Valid()
      modifies this
      ensures Valid() && seen.Values <= old(seen.Values)
      ensures (View(), summary) == ThrottleSpec.CloseWindow(limits, old(View()), now)
    {
      EvictOld(now);
      ghost var evicted := View();
      if limits.max == 0 {
        return None;
      }
      if windowEnd.None? {
        windowEnd := Some(now + limits.per);
        assert View().seen == evicted.seen;
        return None;
      }
      if now < windowEnd.value {
        return None;
      }
      var n := suppressed;
      sent, suppressed := 0, 0;
      windowEnd := Some(now + limits.per);
      assert View().seen == evicted.seen;
      if n == 0 {
        return None;
      }
      return Some(n);
    }

    method CountRepeat(key: string)
      requires Valid() && key in seen
      modifies seen[key]
      ensures View() == old(View()).(seen := old(View().seen)[key := Seen(old(seen[key].last), old(seen[key].repeats) + 1)])
    {
      ghost var before := View();
      seen[key].repeats := seen[key].repeats + 1;
      assert View().seen == before.seen[key := seen[key].View()];
    }

    // Starts the cooldown of a key.
    method Remember(key: string, now: Time)
      requires Valid()
      modifies this`seen
      ensures Valid() && fresh(seen.Values - old(seen.Values))
      ensures View() == old(View()).(seen := old(View().seen)[key := Seen(now, 0)])
    {
      ghost var before := View();
      var s := new Entry(now);
      seen := seen[key := s];
      assert View().seen == before.seen[key := s.View()];
    }

    // Counts an event against the rate limit, unless the window is full.
    method TakeSlot() returns (ok: bool)
      modifies this`sent, this`suppressed
      ensures ok <==> !(limits.max > 0 && old(sent) >= limits.max)
      ensures View() == if !ok then old(View()).(suppressed := old(suppressed) + 1)
                        else old(View()).(sent := if limits.max > 0 then old(sent) + 1 else old(sent))
    {
      ghost var before := View();
      ok := true;
      if limits.max > 0 {
        if sent >= limits.max {
          suppressed := suppressed + 1;
          ok := false;
        } else {
          sent := sent + 1;
        }
      }
      assert View().seen == before.seen;
    }

    // The cooldown, then the rate limit.
    method Admit(key: string, now: Time) returns (outcome: Outcome)
      requires Valid()
      modifies this, seen.Values
      ensures Valid() && fresh(seen.Values - old(seen.Values))
      ensures (View(), outcome) == ThrottleSpec.Admit(limits, old(View()), key, now)
    {
      var keyed := limits.cooldown > 0 && key != "";
      if keyed && key in seen && now - seen[key].last < limits.cooldown {
        CountRepeat(key);
        return CooldownDrop;
      }
      var ok := TakeSlot();
      if !ok {
        return RateDrop;
      }
      var repeats: Option<Repeats> := None;
      if keyed {
        if key in seen && seen[key].repeats > 0 {
          repeats := Some(Repeats(seen[key].repeats, seen[key].last));
        }
        Remember(key, now);
      }
      return Admitted(repeats);
    }

    // One offer: decide, then hand over what was decided, the summary first. Only
    // the answer to the event itself reaches the caller.
    method Pitch(key: string, now: Time) returns (decision: Decision, ok: bool)
      requires Valid()
      modifies this, seen.Values, next
      ensures Valid() && fresh(seen.Values - old(seen.Values))
      ensures Result(View(), decision) == Next(limits, old(View()), Event(now, Offer(key)))
      ensures next.log == old(next.log) + MessagesOf(Event(now, Offer(key)), decision)
      ensures ok <==> (decision.outcome.Some? && decision.outcome.value.Admitted? ==>
                         next.answers != [] && Last(next.answers))
    {
      ok := true;
      var summary := CloseWindow(now);
      var outcome := Admit(key, now);
      decision := Decision(summary, Some(outcome));
      if summary.Some? {
        var logged := next.Pitch(Suppressed(summary.value, now));
      }
      if outcome.Admitted? {
        ok := next.Pitch(Passed(key, now, outcome.repeats));
      }
    }

    // The same without an offer: at most a summary is handed over.
    method Flush(now: Time) returns (decision: Decision)
      requires Valid()
      modifies this, next
      ensures Valid() && seen.Values <= old(seen.Values)
      ensures Result(View(), decision) == Next(limits, old(View()), Event(now, ThrottleSpec.Flush))
      ensures next.log == old(next.log) + MessagesOf(Event(now, ThrottleSpec.Flush), decision)
    {
      var summary := CloseWindow(now);
      decision := Decision(summary, None);
      if summary.Some? {
        var logged := next.Pitch(Suppressed(summary.value, now));
      }
    }
  }
}
