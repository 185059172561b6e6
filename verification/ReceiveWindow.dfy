/**
  The receive window against unbounded sequence numbers.

  The sender of a connection numbers its packets 1, 2, 3, ...; only the low sixteen bits travel.
  A `View` is what the receiver would know if it saw the numbers themselves. As long as no number
  arrives 2^15 or more away from the greatest accepted one, the sixteen-bit window and its bitfield
  answer exactly as the view does, through any number of wraps.
 */
module ReceiveWindow {
  import opened Numbers
  import opened Bits
  import opened Protocol

  /** The greatest accepted number (0 if none) and the set of accepted numbers. */
  datatype View = View(max: nat, accepted: set<nat>)

  const NOTHING := View(0, {})

  ghost predicate Consistent(v: View) {
    && (forall n | n in v.accepted :: 1 <= n <= v.max)
    && (v.max > 0 ==> v.max in v.accepted)
  }

  /** New numbers are those above the maximum, and unseen ones at most 31 behind it. */
  predicate IsNewNumber(v: View, n: nat) {
    n > v.max || (v.max - n <= 31 && n !in v.accepted)
  }

  function Accept(v: View, n: nat): View {
    if IsNewNumber(v, n) then View(if n > v.max then n else v.max, v.accepted + {n}) else v
  }

  predicate InRange(v: View, n: nat) {
    1 <= n && v.max - 0x8000 < n < v.max + 0x8000
  }

  ghost predicate Refines(w: Window, v: View) {
    && w.highest == Wrap16(v.max)
    && (forall d: nat | d < 32 :: Bit32(w.bits, d) <==> d <= v.max && v.max - d in v.accepted)
  }

  // ---------- serial number arithmetic ----------

  lemma WrappingSubIsDifference(m: int, n: int)
    ensures WrappingSub(Wrap16(m), Wrap16(n)) == Wrap16(m - n)
  {}

  /** Section 3.2 of RFC 1982: within half the range the wrapped order is the order of the numbers. */
  lemma MoreRecentIsGreater(m: int, n: int)
    requires -0x8000 < m - n < 0x8000
    ensures MoreRecent(Wrap16(m), Wrap16(n)) <==> m > n
    ensures m >= n ==> WrappingSub(Wrap16(m), Wrap16(n)) == m - n
  {
    WrappingSubIsDifference(m, n);
    WrappingSubIsDifference(n, m);
  }

  /**
    The comparison on all of u16 x u16: a sequence is more recent when it is 1 to 2^15 - 1 ahead,
    so two sequences half the range apart are unordered and any other two are ordered one way.
   */
  lemma MoreRecentExactly(s1: u16, s2: u16)
    ensures MoreRecent(s1, s2) <==> 0 < WrappingSub(s1, s2) < 0x8000
    ensures !(MoreRecent(s1, s2) && MoreRecent(s2, s1))
    ensures !MoreRecent(s1, s2) && !MoreRecent(s2, s1) <==> s1 == s2 || WrappingSub(s1, s2) == 0x8000
  {}

  // ---------- one arrival ----------

  lemma ArrivalRefines(w: Window, v: View, n: nat)
    requires Consistent(v) && Refines(w, v) && InRange(v, n)
    ensures IsNew(w, Wrap16(n)) <==> IsNewNumber(v, n)
    ensures Consistent(Accept(v, n)) && Refines(Received(w, Wrap16(n)), Accept(v, n))
  {
    MoreRecentIsGreater(n, v.max);
    MoreRecentIsGreater(v.max, n);
    if n > v.max {
      AdvanceRefines(w, v, n);
    } else if v.max - n < 32 {
      MarkRefines(w, v, n);
    } else if v.max - n == 32 {
      // The masked shift looks at bit 0, which stands for the maximum itself.
      Amount5Wraps();
      assert Bit32(w.bits, 32) == Bit32(w.bits, 0);
      assert Bit32(w.bits, 0);
    }
  }

  lemma AdvanceRefines(w: Window, v: View, n: nat)
    requires Consistent(v) && Refines(w, v) && InRange(v, n) && n > v.max
    ensures Refines(Received(w, Wrap16(n)), Accept(v, n))
  {
    MoreRecentIsGreater(n, v.max);
    var diff := n - v.max;
    AllBits32(w.bits, if diff < 32 then diff else 0);
    var after := Accept(v, n);
    forall d: nat | d < 32
      ensures Bit32(Received(w, Wrap16(n)).bits, d) <==> d <= after.max && after.max - d in after.accepted
    {
      if d > 0 && d <= n {
        assert n - d in after.accepted <==> n - d in v.accepted;
        if diff <= d && diff < 32 {
          assert Bit32(w.bits, d - diff) <==> v.max - (d - diff) in v.accepted;
        }
      }
    }
  }

  lemma MarkRefines(w: Window, v: View, n: nat)
    requires Consistent(v) && Refines(w, v) && InRange(v, n) && n <= v.max && v.max - n < 32
    ensures IsNew(w, Wrap16(n)) <==> IsNewNumber(v, n)
    ensures Refines(Received(w, Wrap16(n)), Accept(v, n))
  {
    MoreRecentIsGreater(v.max, n);
    MoreRecentIsGreater(n, v.max);
    var diff := v.max - n;
    AllBits32(w.bits, diff);
    assert Bit32(w.bits, diff) <==> n in v.accepted;
  }

  /** The shift by 32, which stops a debug build, is reached by exactly one number. */
  lemma ShiftOverflowsExactly(w: Window, v: View, n: nat)
    requires Consistent(v) && Refines(w, v) && InRange(v, n)
    ensures !MoreRecent(Wrap16(n), w.highest) && WrappingSub(w.highest, Wrap16(n)) == 32 <==> n + 32 == v.max
    ensures n + 32 == v.max ==> !IsNew(w, Wrap16(n)) && Received(w, Wrap16(n)) == w
  {
    MoreRecentIsGreater(n, v.max);
    MoreRecentIsGreater(v.max, n);
    ArrivalRefines(w, v, n);
  }

  /** In any state at all, a sequence that has just arrived is a duplicate and changes nothing. */
  lemma RepeatIsDuplicate(w: Window, s: u16)
    ensures !IsNew(Received(w, s), s)
    ensures Received(Received(w, s), s) == Received(w, s)
  {
    if !MoreRecent(s, w.highest) && IsNew(w, s) {
      var diff := WrappingSub(w.highest, s);
      Amount5Wraps();
      AllBits32(w.bits, if diff < 32 then diff else 0);
    }
  }

  // ---------- runs ----------

  function WindowAfter(arrivals: seq<nat>): Window {
    if arrivals == [] then Window(0, 0)
    else Received(WindowAfter(arrivals[..|arrivals| - 1]), Wrap16(arrivals[|arrivals| - 1]))
  }

  function ViewAfter(arrivals: seq<nat>): View {
    if arrivals == [] then NOTHING
    else Accept(ViewAfter(arrivals[..|arrivals| - 1]), arrivals[|arrivals| - 1])
  }

  predicate AllInRange(arrivals: seq<nat>) {
    arrivals == []
    || (AllInRange(arrivals[..|arrivals| - 1])
        && InRange(ViewAfter(arrivals[..|arrivals| - 1]), arrivals[|arrivals| - 1]))
  }

  /** How often the window answers "new" for number `n`. */
  function TimesNew(arrivals: seq<nat>, n: nat): nat {
    if arrivals == [] then 0
    else
      var before := arrivals[..|arrivals| - 1];
      var last := arrivals[|arrivals| - 1];
      TimesNew(before, n) + if last == n && IsNew(WindowAfter(before), Wrap16(last)) then 1 else 0
  }

  lemma {:induction false} RunRefines(arrivals: seq<nat>)
    requires AllInRange(arrivals)
    ensures Consistent(ViewAfter(arrivals)) && Refines(WindowAfter(arrivals), ViewAfter(arrivals))
  {
    if arrivals == [] {
      AllBits32(0, 0);
    } else {
      var before := arrivals[..|arrivals| - 1];
      RunRefines(before);
      ArrivalRefines(WindowAfter(before), ViewAfter(before), arrivals[|arrivals| - 1]);
    }
  }

  /** After any run the window says "new" exactly once for every accepted number and never for another. */
  lemma {:induction false} NewAtMostOnce(arrivals: seq<nat>, n: nat)
    requires AllInRange(arrivals)
    ensures TimesNew(arrivals, n) == if n in ViewAfter(arrivals).accepted then 1 else 0
  {
    if arrivals != [] {
      var before := arrivals[..|arrivals| - 1];
      NewAtMostOnce(before, n);
      RunRefines(before);
      ArrivalRefines(WindowAfter(before), ViewAfter(before), arrivals[|arrivals| - 1]);
    }
  }

  /** The maximum of the view is the greatest number that ever arrived, so nothing recent is forgotten. */
  lemma {:induction false} MaximumArrived(arrivals: seq<nat>)
    requires AllInRange(arrivals)
    ensures forall n | n in arrivals :: n <= ViewAfter(arrivals).max
    ensures forall n | n in ViewAfter(arrivals).accepted :: n in arrivals
    ensures forall n | n in arrivals && ViewAfter(arrivals).max - n <= 31 :: n in ViewAfter(arrivals).accepted
  {
    if arrivals != [] {
      var before := arrivals[..|arrivals| - 1];
      MaximumArrived(before);
      RunRefines(before);
      assert arrivals == before + [arrivals[|arrivals| - 1]];
    }
  }
}
