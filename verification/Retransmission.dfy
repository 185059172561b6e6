/** What one retransmission pass does, given that every resend lengthens the timeout the pass compares with. */
module Retransmission {
  import opened Protocol

  lemma {:induction false} BackoffGrows(r0: real, j: nat, k: nat)
    requires 0.0 < r0 <= MAX_BACKOFF_MS && j <= k
    ensures Backoff(r0, j) <= Backoff(r0, k)
  {
    if j < k {
      BackoffGrows(r0, j, k - 1);
      BackoffStep(r0, k - 1);
    }
  }

  lemma {:induction false} ResendsGrow(pkts: seq<Unacked>, now: nat, r0: real, i: nat, j: nat)
    requires i <= j <= |pkts|
    ensures Resends(pkts, now, r0, i) <= Resends(pkts, now, r0, j)
  {
    if i < j {
      ResendsGrow(pkts, now, r0, i, j - 1);
    }
  }

  /** No backoff can hold back a packet that is two seconds old. */
  lemma OldPacketsAreAlwaysResent(pkts: seq<Unacked>, now: nat, r0: real, i: nat)
    requires i < |pkts| && pkts[i].timeSent + 2000 <= now
    ensures IsResent(pkts, now, r0, i)
  {}

  /** A packet younger than the timeout the pass began with is never resent. */
  lemma YoungPacketsWait(pkts: seq<Unacked>, now: nat, r0: real, i: nat)
    requires i < |pkts| && 0.0 < r0 <= MAX_BACKOFF_MS && Elapsed(now, pkts[i].timeSent) < r0
    ensures !IsResent(pkts, now, r0, i)
  {
    BackoffStep(r0, Resends(pkts, now, r0, i));
  }

  /** A packet passed over holds back every later one that is no older. */
  lemma PassedOverHoldsBackYounger(pkts: seq<Unacked>, now: nat, r0: real, i: nat, j: nat)
    requires i <= j < |pkts| && 0.0 < r0 <= MAX_BACKOFF_MS
    requires !IsResent(pkts, now, r0, i) && Elapsed(now, pkts[j].timeSent) <= Elapsed(now, pkts[i].timeSent)
    ensures !IsResent(pkts, now, r0, j)
  {
    ResendsGrow(pkts, now, r0, i, j);
    BackoffGrows(r0, Resends(pkts, now, r0, i), Resends(pkts, now, r0, j));
  }

  /** Is packet `i` at least as old as the timeout the pass begins with? */
  predicate IsOverdue(pkts: seq<Unacked>, now: nat, r0: real, i: nat)
    requires i < |pkts|
  {
    Elapsed(now, pkts[i].timeSent) >= r0
  }

  /** How many of the first `i` packets are. */
  function Overdue(pkts: seq<Unacked>, now: nat, r0: real, i: nat): nat
    requires i <= |pkts|
  {
    if i == 0 then 0 else Overdue(pkts, now, r0, i - 1) + if IsOverdue(pkts, now, r0, i - 1) then 1 else 0
  }

  /** Does packet `i` outlast a backoff for every overdue packet before it? */
  predicate Outlasts(pkts: seq<Unacked>, now: nat, r0: real, i: nat)
    requires i < |pkts|
  {
    Elapsed(now, pkts[i].timeSent) >= Backoff(r0, Overdue(pkts, now, r0, i))
  }

  /** Are all overdue ones among the first `n` packets resent? */
  predicate AllOverdueResent(pkts: seq<Unacked>, now: nat, r0: real, n: nat)
    requires n <= |pkts|
  {
    forall i :: 0 <= i < n ==> IsOverdue(pkts, now, r0, i) ==> IsResent(pkts, now, r0, i)
  }

  predicate AllOverdueOutlast(pkts: seq<Unacked>, now: nat, r0: real, n: nat)
    requires n <= |pkts|
  {
    forall i :: 0 <= i < n ==> IsOverdue(pkts, now, r0, i) ==> Outlasts(pkts, now, r0, i)
  }

  /**
    Packets of any ages: the pass resends all that were overdue when it began if and only if each of
    them outlasts a backoff for every overdue one before it; and then it resends those and no others.
   */
  lemma {:induction false} AllOverdueResentExactly(pkts: seq<Unacked>, now: nat, r0: real, n: nat)
    requires n <= |pkts| && 0.0 < r0 <= MAX_BACKOFF_MS
    ensures AllOverdueResent(pkts, now, r0, n) <==> AllOverdueOutlast(pkts, now, r0, n)
    ensures Resends(pkts, now, r0, n) <= Overdue(pkts, now, r0, n)
    ensures AllOverdueResent(pkts, now, r0, n) ==> Resends(pkts, now, r0, n) == Overdue(pkts, now, r0, n)
  {
    hide Elapsed, Backoff;
    if n > 0 {
      AllOverdueResentExactly(pkts, now, r0, n - 1);
      BackoffStep(r0, Resends(pkts, now, r0, n - 1));
      assert IsResent(pkts, now, r0, n - 1) ==> IsOverdue(pkts, now, r0, n - 1);
    }
  }

  /** Packets sent in one burst are resent as a prefix: packet `i` exactly when it outlasts `i` backoffs. */
  lemma BurstResendsPrefix(pkts: seq<Unacked>, now: nat, r0: real, age: real, i: nat)
    requires i < |pkts| && 0.0 < r0 <= MAX_BACKOFF_MS
    requires forall j :: 0 <= j < |pkts| ==> Elapsed(now, pkts[j].timeSent) == age
    ensures IsResent(pkts, now, r0, i) <==> age >= Backoff(r0, i)
    ensures IsResent(pkts, now, r0, i) ==> Resends(pkts, now, r0, i + 1) == i + 1
  {
    hide Elapsed, Backoff;
    AllOverdueResentExactly(pkts, now, r0, i + 1);
    BackoffStep(r0, i);
    BackoffStep(r0, Resends(pkts, now, r0, i));
    if age >= r0 {
      forall j: nat | j <= i
        ensures Overdue(pkts, now, r0, j) == j && Backoff(r0, j) <= Backoff(r0, i)
        ensures IsResent(pkts, now, r0, i) ==> IsResent(pkts, now, r0, j)
      {
        OverdueInBurst(pkts, now, r0, j);
        BackoffGrows(r0, j, i);
        if !IsResent(pkts, now, r0, j) {
          PassedOverHoldsBackYounger(pkts, now, r0, j, i);
        }
      }
      OverdueInBurst(pkts, now, r0, i + 1);
    }
  }

  lemma {:induction false} OverdueInBurst(pkts: seq<Unacked>, now: nat, r0: real, i: nat)
    requires i <= |pkts| && forall j :: 0 <= j < |pkts| ==> IsOverdue(pkts, now, r0, j)
    ensures Overdue(pkts, now, r0, i) == i
  {
    if i > 0 {
      OverdueInBurst(pkts, now, r0, i - 1);
    }
  }

  // ---------- counting ----------

  function TotalRetries(pkts: seq<Unacked>): nat {
    if pkts == [] then 0 else TotalRetries(pkts[..|pkts| - 1]) + pkts[|pkts| - 1].retries
  }

  lemma {:induction false} RetriesGrowByResends(pkts: seq<Unacked>, now: nat, r0: real, i: nat)
    requires i <= |pkts|
    ensures TotalRetries(AfterPass(pkts, now, r0)[..i]) == TotalRetries(pkts[..i]) + Resends(pkts, now, r0, i)
    ensures |ResentData(pkts, now, r0, i)| == Resends(pkts, now, r0, i)
  {
    if i > 0 {
      RetriesGrowByResends(pkts, now, r0, i - 1);
      assert AfterPass(pkts, now, r0)[..i][..i - 1] == AfterPass(pkts, now, r0)[..i - 1];
      assert pkts[..i][..i - 1] == pkts[..i - 1];
    }
  }

  /** The retry counters, the statistics counter and the list of resent packets all grow by the same number. */
  lemma CountersAgree(r: Reliability, now: nat)
    ensures var after := Retransmitted(r, now);
            var resent := ResentData(r.unacked, now, r.rtt.rto, |r.unacked|);
            && TotalRetries(after.unacked) == TotalRetries(r.unacked) + |resent|
            && after.retransmits == r.retransmits + |resent|
            && after.rtt.rto == Backoff(r.rtt.rto, |resent|)
  {
    RetriesGrowByResends(r.unacked, now, r.rtt.rto, |r.unacked|);
    assert AfterPass(r.unacked, now, r.rtt.rto)[..|r.unacked|] == AfterPass(r.unacked, now, r.rtt.rto);
    assert r.unacked[..|r.unacked|] == r.unacked;
  }
}
