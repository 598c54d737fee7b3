/** The capacity calculation done inside a save: the next creation total and
    the next value of the sticky "capacity reached" latch. */
module Quota {
  import opened Records

  /** The part of a user row that a save reads before writing. */
  datatype Snapshot = Snapshot(subscription: string, totalEmails: int, maxCapacity: bool)

  /** The two counters a save writes back. */
  datatype Usage = Usage(totalEmails: int, maxCapacity: bool)

  function SnapshotOf(u: User): Snapshot {
    Snapshot(u.subscription, u.totalEmails, u.maxCapacity)
  }

  /** The creation ceiling of a tier; `None` for a tier without one. */
  function Ceiling(tier: string): Option<nat> {
    if tier == "free" then Some(8)
    else if tier == "pro" then Some(20)
    else None
  }

  /** `total` creations reach the ceiling of `tier`. */
  predicate Reached(tier: string, total: int) {
    Ceiling(tier).Some? && total >= Ceiling(tier).value
  }

  /** The creation total (since the last tier change) read from the snapshot;
      a missing user reads as 0. */
  function TotalOf(snap: Option<Snapshot>): int {
    if snap.Some? then snap.value.totalEmails else 0
  }

  /** The new counters after one more creation. A missing user counts as
      0 creations with the latch off; the latch, once on, stays on; from off it
      turns on when the new total reaches the tier's ceiling. */
  function NextUsage(snap: Option<Snapshot>): (u: Usage)
    ensures u.totalEmails == TotalOf(snap) + 1
    ensures snap.Some? && snap.value.maxCapacity ==> u.maxCapacity
    ensures u.maxCapacity <==>
      snap.Some? && (snap.value.maxCapacity || Reached(snap.value.subscription, u.totalEmails))
    ensures snap.Some? && Ceiling(snap.value.subscription).None? ==>
      u.maxCapacity == snap.value.maxCapacity
  {
    var newTotalEmails := (if snap.Some? then snap.value.totalEmails else 0) + 1;
    var newMaxCapacity := snap.Some? && snap.value.maxCapacity;
    if snap.Some? && snap.value.subscription == "free" && newTotalEmails >= 8 && !snap.value.maxCapacity then
      Usage(newTotalEmails, true)
    else if snap.Some? && snap.value.subscription == "pro" && newTotalEmails >= 20 && !snap.value.maxCapacity then
      Usage(newTotalEmails, true)
    else
      Usage(newTotalEmails, newMaxCapacity)
  }

  /** One successful save as seen by the snapshot: the tier is kept and the
      counters become those of `NextUsage`. */
  function Step(s: Snapshot): Snapshot {
    var u := NextUsage(Some(s));
    Snapshot(s.subscription, u.totalEmails, u.maxCapacity)
  }

  /** `n` successive saves by one user with no tier change between them. */
  function Saves(s: Snapshot, n: nat): Snapshot {
    if n == 0 then s else Step(Saves(s, n - 1))
  }

  lemma ReachedMonotone(tier: string, a: int, b: int)
    requires a <= b && Reached(tier, a)
    ensures Reached(tier, b)
  {
  }

  /** After `n` saves the tier is unchanged, the total has grown by exactly `n`,
      and the latch is on exactly when it was on before or the new total
      reaches the tier's ceiling. */
  lemma {:induction false} SavesCounters(s: Snapshot, n: nat)
    ensures Saves(s, n).subscription == s.subscription
    ensures Saves(s, n).totalEmails == s.totalEmails + n
    ensures Saves(s, n).maxCapacity <==>
      s.maxCapacity || (n > 0 && Reached(s.subscription, s.totalEmails + n))
  {
    if n > 0 {
      SavesCounters(s, n - 1);
      if n - 1 > 0 && Reached(s.subscription, s.totalEmails + n - 1) {
        ReachedMonotone(s.subscription, s.totalEmails + n - 1, s.totalEmails + n);
      }
    }
  }

  /** Starting from the state a tier change leaves behind (total 0, latch
      off), the latch is on after `n` saves exactly when `n` reaches the tier's
      ceiling: at the 8th save for free, the 20th for pro, never otherwise. */
  lemma {:induction false} SavesAfterReset(tier: string, n: nat)
    ensures Saves(Snapshot(tier, 0, false), n).totalEmails == n
    ensures Saves(Snapshot(tier, 0, false), n).maxCapacity <==> Reached(tier, n)
    ensures tier == "free" ==> (Saves(Snapshot(tier, 0, false), n).maxCapacity <==> n >= 8)
    ensures tier == "pro" ==> (Saves(Snapshot(tier, 0, false), n).maxCapacity <==> n >= 20)
    ensures tier != "free" && tier != "pro" ==> !Saves(Snapshot(tier, 0, false), n).maxCapacity
  {
    SavesCounters(Snapshot(tier, 0, false), n);
  }

  /** Once on, the latch stays on through any number of further saves. */
  lemma {:induction false} LatchSticky(s: Snapshot, n: nat)
    requires s.maxCapacity
    ensures Saves(s, n).maxCapacity
  {
    SavesCounters(s, n);
  }
}
