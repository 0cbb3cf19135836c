// When the old object of the first update of a lifetime can be seen in the
// pitched flips: with minDuration a condition that was True and one that was
// not are the baselines of the same flips, but for one family of blank statuses.
module Baselines {
  import opened Common
  import opened TrackerSpec
  import opened Invariant
  import opened Detector

  // Equal up to the states in the old objects.
  predicate SameStates(a: seq<Obs>, b: seq<Obs>) {
    |a| == |b| && forall i :: 0 <= i < |a| ==> SameState(a[i], b[i])
  }

  predicate SameState(a: Obs, b: Obs) {
    a.now == b.now && (a.Seen? <==> b.Seen?) && (a.Seen? ==> a.state == b.state)
  }

  predicate WasTrue(o: Obs) {
    o.Seen? && o.before.Some? && o.before.value.status == "True"
  }

  predicate IsBlank(o: Obs) {
    o.Seen? && o.state.status == ""
  }

  // obs[s] is the first state of a lifetime.
  predicate Starts(obs: seq<Obs>, s: nat) {
    s < |obs| && obs[s].Seen? && (s == 0 || obs[s - 1].Gone?)
  }

  // The lifetime goes on until `due` and has no True before.
  ghost predicate FailsUntil(obs: seq<Obs>, s: nat, due: Time) {
    forall i :: s <= i < |obs| && obs[i].now < due ==> obs[i].Seen? && obs[i].state.status != "True"
  }

  // A blank state before `due` after which no other state comes at the time
  // the lifetime started.
  ghost predicate TurnsBlank(obs: seq<Obs>, s: nat, due: Time)
    requires s < |obs|
  {
    exists i :: s <= i < |obs| && obs[i].now < due && IsBlank(obs[i]) && NothingElseAt(obs, i, obs[s].now)
  }

  ghost predicate NothingElseAt(obs: seq<Obs>, i: nat, start: Time) {
    forall j :: i < j < |obs| && obs[j].now == start ==> IsBlank(obs[j])
  }

  // The lifetime that starts at s starts from different baselines, and shows it.
  ghost predicate BaselineShows(minDuration: Time, a: seq<Obs>, b: seq<Obs>, s: nat, end: Time)
    requires |a| == |b|
  {
    && Starts(a, s) && WasTrue(a[s]) != WasTrue(b[s])
    && var due := a[s].now + minDuration;
       due <= end && FailsUntil(a, s, due) && TurnsBlank(a, s, due)
  }

  /******* One lifetime, state by state *******/

  // Since when the detectors may be apart after n states.
  function OpenSince(minDuration: Time, a: seq<Obs>, b: seq<Obs>, n: nat): (r: Option<nat>)
    requires |a| == |b| && n <= |a|
    ensures r.Some? ==> r.value < n && Starts(a, r.value) && WasTrue(a[r.value]) != WasTrue(b[r.value])
  {
    if n == 0 || a[n - 1].Gone? || a[n - 1].state.status == "True" then None
    else if Starts(a, n - 1) then if WasTrue(a[n - 1]) != WasTrue(b[n - 1]) then Some(n - 1) else None
    else
      var s := OpenSince(minDuration, a, b, n - 1);
      if s.Some? && a[n - 1].now < a[s.value].now + minDuration then s else None
  }

  // Whether a blank state has set them apart.
  predicate Wavers(a: seq<Obs>, s: nat, n: nat)
    requires n <= |a|
  {
    s < n && (IsBlank(a[n - 1]) || (Wavers(a, s, n - 1) && a[n - 1].now != a[s].now))
  }

  // Detectors of a failure that started from True and from "not known".
  predicate Twins(hi: Detector, lo: Detector, start: Time) {
    hi.Lasting? && hi.reported == "True" && hi.since == start && lo == hi.(reported := "")
  }

  // The one goes on from the start, the other started later or waits.
  predicate Parted(hi: Detector, lo: Detector, start: Time, now: Time) {
    && hi.Lasting? && hi.reported == "True" && hi.since == start
    && (lo == Settled("") || (lo.Lasting? && start < lo.since <= now && lo == hi.(reported := "", since := lo.since)))
  }

  lemma TwinsNext(minDuration: Time, hi: Detector, lo: Detector, start: Time, o1: Obs, o2: Obs)
    requires minDuration > 0 && Twins(hi, lo, start) && SameState(o1, o2) && start <= o1.now
    ensures
      var v, w := DetectNext(minDuration, hi, o1), DetectNext(minDuration, lo, o2);
      && v.flips == w.flips
      && if o1.Gone? || o1.state.status == "True" || start + minDuration <= o1.now then v.d == w.d
         else if IsBlank(o1) then Parted(v.d, w.d, start, o1.now) else Twins(v.d, w.d, start)
  {
  }

  lemma PartedNext(minDuration: Time, hi: Detector, lo: Detector, start: Time, before: Time, o1: Obs, o2: Obs)
    requires minDuration > 0 && Parted(hi, lo, start, before) && SameState(o1, o2)
    requires start <= before <= o1.now < start + minDuration
    ensures
      var v, w := DetectNext(minDuration, hi, o1), DetectNext(minDuration, lo, o2);
      && v.flips == w.flips
      && if o1.Gone? || o1.state.status == "True" then v.d == w.d
         else if IsBlank(o1) || o1.now != start then Parted(v.d, w.d, start, o1.now) else Twins(v.d, w.d, start)
  {
  }

  lemma SameNext(minDuration: Time, d: Detector, o1: Obs, o2: Obs)
    requires SameState(o1, o2) && (d.Unseen? ==> WasTrue(o1) == WasTrue(o2))
    ensures DetectNext(minDuration, d, o1) == DetectNext(minDuration, d, o2)
  {
  }

  lemma FirstNext(minDuration: Time, o1: Obs, o2: Obs)
    requires minDuration > 0 && SameState(o1, o2) && o1.Seen? && WasTrue(o1) && !WasTrue(o2)
    ensures
      var v, w := DetectNext(minDuration, Unseen, o1), DetectNext(minDuration, Unseen, o2);
      && v.flips == w.flips
      && if o1.state.status == "True" then v.d == w.d
         else if IsBlank(o1) then Parted(v.d, w.d, o1.now, o1.now) else Twins(v.d, w.d, o1.now)
  {
  }

  // How the detectors stand after n states.
  predicate Stand(minDuration: Time, a: seq<Obs>, b: seq<Obs>, n: nat, d1: Detector, d2: Detector)
    requires |a| == |b| && n <= |a|
  {
    match OpenSince(minDuration, a, b, n)
    case None => d1 == d2
    case Some(s) =>
      var (hi, lo) := if WasTrue(a[s]) then (d1, d2) else (d2, d1);
      if Wavers(a, s, n) then Parted(hi, lo, a[s].now, a[n - 1].now) else Twins(hi, lo, a[s].now)
  }

  // The lifetime that is open after n states shows its baseline by the next
  // state, or at the end.
  predicate ShowsAt(minDuration: Time, a: seq<Obs>, b: seq<Obs>, n: nat, end: Time)
    requires |a| == |b| && n <= |a|
  {
    match OpenSince(minDuration, a, b, n)
    case None => false
    case Some(s) => Wavers(a, s, n) && a[s].now + minDuration <= if n < |a| then a[n].now else end
  }

  predicate Chronological(obs: seq<Obs>, end: Time) {
    && (forall i, j :: 0 <= i < j < |obs| ==> obs[i].now <= obs[j].now)
    && (forall i :: 0 <= i < |obs| ==> obs[i].now <= end)
  }

  lemma {:induction false} UnseenAtStart(minDuration: Time, obs: seq<Obs>, n: nat)
    requires n <= |obs|
    ensures DetectUpTo(minDuration, obs, n).d.Unseen? <==> n == 0 || obs[n - 1].Gone?
  {
  }

  // The next state when the detectors stand alike and do not part for good.
  lemma StandNext(minDuration: Time, a: seq<Obs>, b: seq<Obs>, n: nat, d1: Detector, d2: Detector, end: Time)
    requires minDuration > 0 && SameStates(a, b) && n < |a| && Chronological(a, end)
    requires Stand(minDuration, a, b, n, d1, d2) && !ShowsAt(minDuration, a, b, n, end)
    requires d1.Unseen? <==> n == 0 || a[n - 1].Gone?
    ensures
      var v, w := DetectNext(minDuration, d1, a[n]), DetectNext(minDuration, d2, b[n]);
      v.flips == w.flips && Stand(minDuration, a, b, n + 1, v.d, w.d)
  {
    assert SameState(a[n], b[n]);
    match OpenSince(minDuration, a, b, n)
    case None =>
      if Starts(a, n) && WasTrue(a[n]) != WasTrue(b[n]) {
        if WasTrue(a[n]) {
          FirstNext(minDuration, a[n], b[n]);
        } else {
          FirstNext(minDuration, b[n], a[n]);
        }
      } else {
        SameNext(minDuration, d1, a[n], b[n]);
      }
    case Some(s) =>
      var (hi, lo) := if WasTrue(a[s]) then (d1, d2) else (d2, d1);
      var (o1, o2) := if WasTrue(a[s]) then (a[n], b[n]) else (b[n], a[n]);
      if Wavers(a, s, n) {
        PartedNext(minDuration, hi, lo, a[s].now, a[n - 1].now, o1, o2);
      } else {
        TwinsNext(minDuration, hi, lo, a[s].now, o1, o2);
      }
  }

  ghost predicate StandAt(minDuration: Time, a: seq<Obs>, b: seq<Obs>, n: nat)
    requires |a| == |b| && n <= |a|
  {
    var v, w := DetectUpTo(minDuration, a, n), DetectUpTo(minDuration, b, n);
    v.flips == w.flips && Stand(minDuration, a, b, n, v.d, w.d)
  }

  lemma {:induction false} StandAtNext(minDuration: Time, a: seq<Obs>, b: seq<Obs>, n: nat, end: Time)
    requires minDuration > 0 && SameStates(a, b) && n < |a| && Chronological(a, end)
    requires StandAt(minDuration, a, b, n) && !ShowsAt(minDuration, a, b, n, end)
    ensures StandAt(minDuration, a, b, n + 1)
  {
    UnseenAtStart(minDuration, a, n);
    StandNext(minDuration, a, b, n, DetectUpTo(minDuration, a, n).d, DetectUpTo(minDuration, b, n).d, end);
  }

  predicate NeverShown(minDuration: Time, a: seq<Obs>, b: seq<Obs>, n: nat, end: Time)
    requires |a| == |b| && n <= |a| + 1
  {
    n == 0 || (NeverShown(minDuration, a, b, n - 1, end) && !ShowsAt(minDuration, a, b, n - 1, end))
  }

  lemma {:induction false} StandUpTo(minDuration: Time, a: seq<Obs>, b: seq<Obs>, n: nat, end: Time)
    requires minDuration > 0 && SameStates(a, b) && n <= |a| && Chronological(a, end)
    requires NeverShown(minDuration, a, b, n, end)
    ensures StandAt(minDuration, a, b, n)
  {
    if n > 0 {
      StandUpTo(minDuration, a, b, n - 1, end);
      StandAtNext(minDuration, a, b, n - 1, end);
    }
  }

  lemma {:induction false} FirstShown(minDuration: Time, a: seq<Obs>, b: seq<Obs>, n: nat, end: Time) returns (m: nat)
    requires |a| == |b| && n <= |a| + 1
    ensures m <= n && NeverShown(minDuration, a, b, m, end)
    ensures m < n ==> ShowsAt(minDuration, a, b, m, end)
  {
    m := 0;
    if n > 0 {
      m := FirstShown(minDuration, a, b, n - 1, end);
      if m == n - 1 && !ShowsAt(minDuration, a, b, m, end) {
        m := n;
      }
    }
  }

  lemma {:induction false} NeverMeansNever(minDuration: Time, a: seq<Obs>, b: seq<Obs>, n: nat, k: nat, end: Time)
    requires |a| == |b| && k < n <= |a| + 1 && NeverShown(minDuration, a, b, n, end)
    ensures !ShowsAt(minDuration, a, b, k, end)
  {
    if k < n - 1 {
      NeverMeansNever(minDuration, a, b, n - 1, k, end);
    }
  }

  /******* Apart for good *******/

  // Flip p, when there is one, comes after `due`.
  predicate Later(minDuration: Time, v: Verdict, p: nat, due: Time) {
    && |v.flips| >= p
    && if |v.flips| > p then v.flips[p].at > due
       else match v.d
         case Unseen => true
         case Settled(r) => r == "" || r == "True"
         case Lasting(r, since, _) => (r == "" || r == "True") && since + minDuration > due
  }

  lemma LaterNext(minDuration: Time, v: Verdict, p: nat, due: Time, o: Obs)
    requires minDuration > 0 && Later(minDuration, v, p, due) && due <= o.now
    ensures var w := DetectNext(minDuration, v.d, o); Later(minDuration, Verdict(w.d, v.flips + w.flips), p, due)
  {
  }

  lemma LaterAtEnd(minDuration: Time, v: Verdict, p: nat, due: Time, end: Time)
    requires Later(minDuration, v, p, due)
    ensures var flips := v.flips + Elapse(minDuration, v.d, end).flips; |flips| > p ==> flips[p].at > due
  {
  }

  // Flip p of the one is at `due`, that of the other later.
  predicate ApartForGood(minDuration: Time, v: Verdict, w: Verdict, p: nat, due: Time) {
    |v.flips| > p && v.flips[p].at == due && Later(minDuration, w, p, due)
  }

  lemma {:induction false} StayApart(minDuration: Time, a: seq<Obs>, b: seq<Obs>, n: nat, m: nat, p: nat,
                                     due: Time, end: Time)
    requires minDuration > 0 && SameStates(a, b) && n <= m <= |a| && Chronological(a, end)
    requires n > 0 && due <= a[n - 1].now
    requires ApartForGood(minDuration, DetectUpTo(minDuration, a, n), DetectUpTo(minDuration, b, n), p, due)
    ensures ApartForGood(minDuration, DetectUpTo(minDuration, a, m), DetectUpTo(minDuration, b, m), p, due)
  {
    if n < m {
      StayApart(minDuration, a, b, n, m - 1, p, due, end);
      assert SameState(a[m - 1], b[m - 1]);
      LaterNext(minDuration, DetectUpTo(minDuration, b, m - 1), p, due, b[m - 1]);
    }
  }

  lemma PartNow(minDuration: Time, v: Verdict, w: Verdict, start: Time, before: Time, o1: Obs, o2: Obs)
    requires minDuration > 0 && v.flips == w.flips && Parted(v.d, w.d, start, before) && SameState(o1, o2)
    requires start + minDuration <= o1.now
    ensures
      var v', w' := DetectNext(minDuration, v.d, o1), DetectNext(minDuration, w.d, o2);
      ApartForGood(minDuration, Verdict(v'.d, v.flips + v'.flips), Verdict(w'.d, w.flips + w'.flips),
                   |v.flips|, start + minDuration)
  {
    LaterNext(minDuration, w, |v.flips|, start + minDuration, o2);
  }

  lemma PartAtEnd(minDuration: Time, v: Verdict, w: Verdict, start: Time, before: Time, end: Time)
    requires v.flips == w.flips && Parted(v.d, w.d, start, before) && start + minDuration <= end
    ensures v.flips + Elapse(minDuration, v.d, end).flips != w.flips + Elapse(minDuration, w.d, end).flips
  {
    var p, due := |v.flips|, start + minDuration;
    var f, g := v.flips + Elapse(minDuration, v.d, end).flips, w.flips + Elapse(minDuration, w.d, end).flips;
    assert |f| > p && f[p].at == due;
    assert |g| > p ==> g[p].at > due;
  }

  lemma ApartAtEnd(minDuration: Time, v: Verdict, w: Verdict, p: nat, due: Time, end: Time)
    requires ApartForGood(minDuration, v, w, p, due)
    ensures v.flips + Elapse(minDuration, v.d, end).flips != w.flips + Elapse(minDuration, w.d, end).flips
  {
    var f := v.flips + Elapse(minDuration, v.d, end).flips;
    assert f[p] == v.flips[p];
    LaterAtEnd(minDuration, w, p, due, end);
  }

  lemma SymmetricStates(a: seq<Obs>, b: seq<Obs>)
    requires SameStates(a, b)
    ensures SameStates(b, a)
  {
    forall i | 0 <= i < |a| ensures SameState(b[i], a[i]) {
      assert SameState(a[i], b[i]);
    }
  }

  lemma SameTimes(a: seq<Obs>, b: seq<Obs>, end: Time)
    requires SameStates(a, b) && Chronological(a, end)
    ensures Chronological(b, end)
  {
    forall i | 0 <= i < |a| ensures a[i].now == b[i].now {
      assert SameState(a[i], b[i]);
    }
  }

  lemma {:induction false} FlipsUpToAll(minDuration: Time, obs: seq<Obs>, end: Time)
    ensures var v := DetectUpTo(minDuration, obs, |obs|);
      DetectedFlips(minDuration, obs, end) == v.flips + Elapse(minDuration, v.d, end).flips
  {
    DetectUpToAll(minDuration, obs);
  }

  // After n states the detectors are alike but for when the failure started.
  ghost predicate PartedAt(minDuration: Time, hi: seq<Obs>, lo: seq<Obs>, n: nat, start: Time, before: Time)
    requires |hi| == |lo| && n <= |hi|
  {
    var v, w := DetectUpTo(minDuration, hi, n), DetectUpTo(minDuration, lo, n);
    v.flips == w.flips && Parted(v.d, w.d, start, before)
  }

  // After n states, which are due, the flips are no longer the same.
  ghost predicate ApartAt(minDuration: Time, hi: seq<Obs>, lo: seq<Obs>, n: nat, due: Time)
    requires |hi| == |lo| && n <= |hi|
  {
    exists p: nat :: p < |DetectUpTo(minDuration, hi, n).flips| && ApartIn(minDuration, hi, lo, n, p, due)
  }

  predicate ApartIn(minDuration: Time, hi: seq<Obs>, lo: seq<Obs>, n: nat, p: nat, due: Time)
    requires |hi| == |lo| && n <= |hi|
  {
    ApartForGood(minDuration, DetectUpTo(minDuration, hi, n), DetectUpTo(minDuration, lo, n), p, due)
  }

  // The next state sets them apart.
  lemma {:induction false} PartNext(minDuration: Time, hi: seq<Obs>, lo: seq<Obs>, n: nat, start: Time, before: Time)
    requires minDuration > 0 && SameStates(hi, lo) && n < |hi| && start + minDuration <= hi[n].now
    requires PartedAt(minDuration, hi, lo, n, start, before)
    ensures ApartAt(minDuration, hi, lo, n + 1, start + minDuration)
  {
    var v, w := DetectUpTo(minDuration, hi, n), DetectUpTo(minDuration, lo, n);
    assert SameState(hi[n], lo[n]);
    PartNow(minDuration, v, w, start, before, hi[n], lo[n]);
    assert ApartIn(minDuration, hi, lo, n + 1, |v.flips|, start + minDuration);
  }

  lemma {:induction false} ApartToTheEnd(minDuration: Time, hi: seq<Obs>, lo: seq<Obs>, n: nat, due: Time, end: Time)
    requires minDuration > 0 && SameStates(hi, lo) && 0 < n <= |hi| && Chronological(hi, end) && due <= hi[n - 1].now
    requires ApartAt(minDuration, hi, lo, n, due)
    ensures DetectedFlips(minDuration, hi, end) != DetectedFlips(minDuration, lo, end)
  {
    var p: nat :| p < |DetectUpTo(minDuration, hi, n).flips| && ApartIn(minDuration, hi, lo, n, p, due);
    StayApart(minDuration, hi, lo, n, |hi|, p, due, end);
    ApartAtEnd(minDuration, DetectUpTo(minDuration, hi, |hi|), DetectUpTo(minDuration, lo, |lo|), p, due, end);
    FlipsUpToAll(minDuration, hi, end);
    FlipsUpToAll(minDuration, lo, end);
  }

  lemma {:induction false} PartsAtEnd(minDuration: Time, hi: seq<Obs>, lo: seq<Obs>, start: Time, before: Time, end: Time)
    requires minDuration > 0 && |hi| == |lo| && start + minDuration <= end
    requires PartedAt(minDuration, hi, lo, |hi|, start, before)
    ensures DetectedFlips(minDuration, hi, end) != DetectedFlips(minDuration, lo, end)
  {
    PartAtEnd(minDuration, DetectUpTo(minDuration, hi, |hi|), DetectUpTo(minDuration, lo, |lo|), start, before, end);
    FlipsUpToAll(minDuration, hi, end);
    FlipsUpToAll(minDuration, lo, end);
  }

  // hi goes on from the start of an open lifetime when it is due.
  lemma {:induction false} PartFrom(minDuration: Time, hi: seq<Obs>, lo: seq<Obs>, n: nat, start: Time,
                                    before: Time, end: Time)
    requires minDuration > 0 && SameStates(hi, lo) && Chronological(hi, end) && n <= |hi|
    requires PartedAt(minDuration, hi, lo, n, start, before)
    requires start + minDuration <= if n < |hi| then hi[n].now else end
    ensures DetectedFlips(minDuration, hi, end) != DetectedFlips(minDuration, lo, end)
  {
    if n < |hi| {
      PartNext(minDuration, hi, lo, n, start, before);
      ApartToTheEnd(minDuration, hi, lo, n + 1, start + minDuration, end);
    } else {
      PartsAtEnd(minDuration, hi, lo, start, before, end);
    }
  }

  lemma {:induction false} ShownIsDifferent(minDuration: Time, a: seq<Obs>, b: seq<Obs>, n: nat, end: Time)
    requires minDuration > 0 && SameStates(a, b) && n <= |a| && Chronological(a, end)
    requires StandAt(minDuration, a, b, n) && ShowsAt(minDuration, a, b, n, end)
    ensures DetectedFlips(minDuration, a, end) != DetectedFlips(minDuration, b, end)
  {
    var s := OpenSince(minDuration, a, b, n).value;
    assert SameState(a[s], b[s]) && SameState(a[n - 1], b[n - 1]);
    if WasTrue(a[s]) {
      PartFrom(minDuration, a, b, n, a[s].now, a[n - 1].now, end);
    } else {
      SymmetricStates(a, b);
      SameTimes(a, b, end);
      assert n < |a| ==> SameState(a[n], b[n]);
      PartFrom(minDuration, b, a, n, a[s].now, a[n - 1].now, end);
    }
  }

  lemma StandAtEnd(minDuration: Time, a: seq<Obs>, b: seq<Obs>, d1: Detector, d2: Detector, end: Time)
    requires minDuration > 0 && |a| == |b| && Stand(minDuration, a, b, |a|, d1, d2)
    requires !ShowsAt(minDuration, a, b, |a|, end)
    ensures Elapse(minDuration, d1, end).flips == Elapse(minDuration, d2, end).flips
  {
  }

  lemma {:induction false} AlikeAtEnd(minDuration: Time, a: seq<Obs>, b: seq<Obs>, end: Time)
    requires minDuration > 0 && |a| == |b|
    requires StandAt(minDuration, a, b, |a|) && !ShowsAt(minDuration, a, b, |a|, end)
    ensures DetectedFlips(minDuration, a, end) == DetectedFlips(minDuration, b, end)
  {
    StandAtEnd(minDuration, a, b, DetectUpTo(minDuration, a, |a|).d, DetectUpTo(minDuration, b, |b|).d, end);
    FlipsUpToAll(minDuration, a, end);
    FlipsUpToAll(minDuration, b, end);
  }

  lemma {:induction false} DifferentIffShown(minDuration: Time, a: seq<Obs>, b: seq<Obs>, end: Time)
    requires minDuration > 0 && SameStates(a, b) && Chronological(a, end)
    ensures DetectedFlips(minDuration, a, end) != DetectedFlips(minDuration, b, end)
      <==> exists n :: 0 <= n <= |a| && ShowsAt(minDuration, a, b, n, end)
  {
    var m := FirstShown(minDuration, a, b, |a| + 1, end);
    if m <= |a| {
      StandUpTo(minDuration, a, b, m, end);
      ShownIsDifferent(minDuration, a, b, m, end);
    } else {
      StandUpTo(minDuration, a, b, |a|, end);
      AlikeAtEnd(minDuration, a, b, end);
      forall n | 0 <= n <= |a| ensures !ShowsAt(minDuration, a, b, n, end) {
        NeverMeansNever(minDuration, a, b, m, n, end);
      }
    }
  }

  /******* Told from the states *******/

  ghost predicate FailsUpTo(obs: seq<Obs>, s: nat, n: nat, due: Time)
    requires n <= |obs|
  {
    forall i :: s <= i < n ==> obs[i].Seen? && obs[i].state.status != "True" && obs[i].now < due
  }

  lemma {:induction false} OpenFails(minDuration: Time, a: seq<Obs>, b: seq<Obs>, n: nat)
    requires minDuration > 0 && |a| == |b| && n <= |a| && OpenSince(minDuration, a, b, n).Some?
    ensures var s := OpenSince(minDuration, a, b, n).value; FailsUpTo(a, s, n, a[s].now + minDuration)
  {
    if !Starts(a, n - 1) {
      OpenFails(minDuration, a, b, n - 1);
    }
  }

  lemma {:induction false} FailingIsOpen(minDuration: Time, a: seq<Obs>, b: seq<Obs>, s: nat, n: nat)
    requires |a| == |b| && s < n <= |a| && Starts(a, s) && WasTrue(a[s]) != WasTrue(b[s])
    requires FailsUpTo(a, s, n, a[s].now + minDuration)
    ensures OpenSince(minDuration, a, b, n) == Some(s)
  {
    if s < n - 1 {
      FailingIsOpen(minDuration, a, b, s, n - 1);
      assert a[n - 2].Seen?;
    }
  }

  ghost predicate BlankSince(obs: seq<Obs>, s: nat, n: nat, i: nat)
    requires s < n <= |obs|
  {
    s <= i < n && IsBlank(obs[i]) && forall j :: i < j < n && obs[j].now == obs[s].now ==> IsBlank(obs[j])
  }

  lemma {:induction false} WaversIff(obs: seq<Obs>, s: nat, n: nat)
    requires s < n <= |obs|
    ensures Wavers(obs, s, n) <==> exists i :: BlankSince(obs, s, n, i)
  {
    if IsBlank(obs[n - 1]) {
      assert BlankSince(obs, s, n, n - 1);
    } else if s < n - 1 {
      WaversIff(obs, s, n - 1);
      if Wavers(obs, s, n) {
        var i :| BlankSince(obs, s, n - 1, i);
        assert BlankSince(obs, s, n, i);
      }
      if i :| BlankSince(obs, s, n, i) {
        assert BlankSince(obs, s, n - 1, i) && obs[n - 1].now != obs[s].now;
      }
    }
  }

  // The first state after s that is due, or the end.
  lemma {:induction false} FirstDue(obs: seq<Obs>, s: nat, n: nat, due: Time, end: Time) returns (m: nat)
    requires s < n <= |obs| && Chronological(obs, end) && forall i :: s <= i < n ==> obs[i].now < due
    ensures s < m <= |obs| && (forall i :: s <= i < m ==> obs[i].now < due) && (m < |obs| ==> due <= obs[m].now)
    decreases |obs| - n
  {
    m := n;
    if n < |obs| && obs[n].now < due {
      m := FirstDue(obs, s, n + 1, due, end);
    }
  }

  lemma ShownByStates(minDuration: Time, a: seq<Obs>, b: seq<Obs>, n: nat, end: Time)
    requires minDuration > 0 && |a| == |b| && n <= |a| && Chronological(a, end) && ShowsAt(minDuration, a, b, n, end)
    ensures BaselineShows(minDuration, a, b, OpenSince(minDuration, a, b, n).value, end)
  {
    var s := OpenSince(minDuration, a, b, n).value;
    var due := a[s].now + minDuration;
    OpenFails(minDuration, a, b, n);
    assert forall i :: n <= i < |a| ==> due <= a[i].now;
    WaversIff(a, s, n);
    var i :| BlankSince(a, s, n, i);
    assert NothingElseAt(a, i, a[s].now);
  }

  lemma StatesShow(minDuration: Time, a: seq<Obs>, b: seq<Obs>, s: nat, end: Time) returns (n: nat)
    requires minDuration > 0 && |a| == |b| && Chronological(a, end) && BaselineShows(minDuration, a, b, s, end)
    ensures n <= |a| && ShowsAt(minDuration, a, b, n, end)
  {
    var due := a[s].now + minDuration;
    n := FirstDue(a, s, s + 1, due, end);
    FailingIsOpen(minDuration, a, b, s, n);
    var i :| s <= i < |a| && a[i].now < due && IsBlank(a[i]) && NothingElseAt(a, i, a[s].now);
    assert i < n;
    assert BlankSince(a, s, n, i);
    WaversIff(a, s, n);
  }

  lemma {:induction false} ShownIffStatesShow(minDuration: Time, a: seq<Obs>, b: seq<Obs>, end: Time)
    requires minDuration > 0 && SameStates(a, b) && Chronological(a, end)
    ensures DetectedFlips(minDuration, a, end) != DetectedFlips(minDuration, b, end)
      <==> exists s :: 0 <= s < |a| && BaselineShows(minDuration, a, b, s, end)
  {
    DifferentIffShown(minDuration, a, b, end);
    if n :| 0 <= n <= |a| && ShowsAt(minDuration, a, b, n, end) {
      ShownByStates(minDuration, a, b, n, end);
    }
    if s :| 0 <= s < |a| && BaselineShows(minDuration, a, b, s, end) {
      var n := StatesShow(minDuration, a, b, s, end);
    }
  }

  /******* Runs *******/

  lemma {:induction false} ObservedInOrder(spec: Spec, es: seq<Event>, key: string, typ: string, end: Time)
    requires Ordered(es) && (es != [] ==> Last(es).now <= end)
    ensures Chronological(Observations(spec, es, key, typ), end)
  {
    if es != [] {
      var front := Front(es);
      assert front != [] ==> Last(front).now <= Last(es).now;
      ObservedInOrder(spec, front, key, typ, Last(es).now);
    }
  }

  // With minDuration and prompt timers, two runs that show the same states of a
  // condition that are not ignored pitch the same flips at the same times,
  // unless and only unless one of its lifetimes shows its baseline. Nothing else
  // counts: not ignored or missing states, not the other condition, not other
  // objects, and otherwise not the old objects.
  lemma {:induction false} OnlyStatesNotIgnoredCount(spec: Spec, es1: seq<Event>, es2: seq<Event>,
                                                     key: string, typ: string, end: Time)
    requires spec.minDuration > 0 && IsWatched(typ) && PromptUntil(spec, es1, end) && PromptUntil(spec, es2, end)
    requires SameStates(Observations(spec, es1, key, typ), Observations(spec, es2, key, typ))
    ensures
      var a, b := Observations(spec, es1, key, typ), Observations(spec, es2, key, typ);
      FlipsOf(spec, es1, key, typ) != FlipsOf(spec, es2, key, typ)
      <==> exists s :: 0 <= s < |a| && BaselineShows(spec.minDuration, a, b, s, end)
  {
    TrackerRefinesDetector(spec, es1, key, typ, end);
    TrackerRefinesDetector(spec, es2, key, typ, end);
    ObservedInOrder(spec, es1, key, typ, end);
    ShownIffStatesShow(spec.minDuration, Observations(spec, es1, key, typ), Observations(spec, es2, key, typ), end);
  }

  // The old objects differ at state s only.
  predicate DifferAt(a: seq<Obs>, b: seq<Obs>, s: nat) {
    |a| == |b| && s < |a| && forall i :: 0 <= i < |a| && i != s ==> a[i] == b[i]
  }

  lemma OnlyOneCanShow(minDuration: Time, a: seq<Obs>, b: seq<Obs>, s: nat, end: Time)
    requires DifferAt(a, b, s)
    ensures (exists t :: 0 <= t < |a| && BaselineShows(minDuration, a, b, t, end))
      <==> BaselineShows(minDuration, a, b, s, end)
  {
  }

  // Then the flips do if and only if that state starts a lifetime that shows
  // its baseline.
  lemma {:induction false} BaselineShowsIff(spec: Spec, es1: seq<Event>, es2: seq<Event>,
                                            key: string, typ: string, s: nat, end: Time)
    requires spec.minDuration > 0 && IsWatched(typ) && PromptUntil(spec, es1, end) && PromptUntil(spec, es2, end)
    requires
      var a, b := Observations(spec, es1, key, typ), Observations(spec, es2, key, typ);
      SameStates(a, b) && DifferAt(a, b, s)
    ensures FlipsOf(spec, es1, key, typ) != FlipsOf(spec, es2, key, typ) <==>
      BaselineShows(spec.minDuration, Observations(spec, es1, key, typ), Observations(spec, es2, key, typ), s, end)
  {
    OnlyStatesNotIgnoredCount(spec, es1, es2, key, typ, end);
    OnlyOneCanShow(spec.minDuration, Observations(spec, es1, key, typ), Observations(spec, es2, key, typ), s, end);
  }

  // In particular the old objects do not count when no status is blank.
  lemma {:induction false} OldObjectsDoNotCount(spec: Spec, es1: seq<Event>, es2: seq<Event>,
                                                key: string, typ: string, end: Time)
    requires spec.minDuration > 0 && IsWatched(typ) && PromptUntil(spec, es1, end) && PromptUntil(spec, es2, end)
    requires SameStates(Observations(spec, es1, key, typ), Observations(spec, es2, key, typ))
    requires forall o :: o in Observations(spec, es1, key, typ) ==> !IsBlank(o)
    ensures FlipsOf(spec, es1, key, typ) == FlipsOf(spec, es2, key, typ)
  {
    OnlyStatesNotIgnoredCount(spec, es1, es2, key, typ, end);
  }
}
