// Conservation: nothing offered gets lost, and every drop of the rate limit is
// counted by exactly one summary.
module ThrottleCounts {
  import opened Common
  import opened ThrottleSpec

  datatype Counts = Counts(offered: nat, admitted: nat, cooldownDrops: nat, rateDrops: nat,
                           summaries: nat, summarised: nat)

  function Tally(l: Limits, es: seq<Event>): Counts {
    if es == [] then Counts(0, 0, 0, 0, 0, 0)
    else
      var c, d := Tally(l, Front(es)), LastDecision(l, es);
      Counts(
        c.offered + if Last(es).step.Offer? then 1 else 0,
        c.admitted + if d.outcome.Some? && d.outcome.value.Admitted? then 1 else 0,
        c.cooldownDrops + if d.outcome == Some(CooldownDrop) then 1 else 0,
        c.rateDrops + if d.outcome == Some(RateDrop) then 1 else 0,
        c.summaries + if d.summary.Some? then 1 else 0,
        c.summarised + if d.summary.Some? then d.summary.value else 0)
  }

  // Offered events are admitted or dropped for one of the two reasons, and the
  // rate limited ones are those the summaries count plus those still to be
  // counted, in every interleaving of Pitch and Flush.
  lemma {:induction false} Conservation(l: Limits, es: seq<Event>)
    ensures var c := Tally(l, es);
      && c.offered == c.admitted + c.cooldownDrops + c.rateDrops
      && c.rateDrops == c.summarised + Run(l, es).suppressed
  {
    if es != [] {
      Conservation(l, Front(es));
    }
  }

  // Without a rate limit nothing is dropped by it, without a cooldown nothing
  // by the cooldown: with both off everything passes.
  lemma {:induction false} OffMeansOff(l: Limits, es: seq<Event>)
    ensures l.max == 0 ==> Tally(l, es).rateDrops == 0 && Tally(l, es).summarised == 0
    ensures l.cooldown <= 0 ==> Tally(l, es).cooldownDrops == 0
  {
    if es != [] {
      OffMeansOff(l, Front(es));
    }
  }
}
