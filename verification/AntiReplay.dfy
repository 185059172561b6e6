/** The anti-replay window over 64-bit nonces: the sliding window of section 3.4.3 of RFC 4303. */
module AntiReplay {
  import opened Bits

  type u64 = x: int | 0 <= x < 0x1_0000_0000_0000_0000

  /** Bit `d` of `window` stands for the nonce `highest - d`. */
  datatype Replay = Replay(highest: u64, window: bv64)

  const FRESH := Replay(0, 0)

  /** The state after recording the nonces of `log` in order, as a step function. */
  function Recorded(r: Replay, nonce: u64): Replay {
    if nonce > r.highest then
      var diff := nonce - r.highest;
      Replay(nonce, if diff >= 64 then 1 else Advance64(r.window, diff))
    else if r.highest - nonce < 64 then
      r.(window := Mark64(r.window, r.highest - nonce))
    else
      r
  }

  function After(log: seq<u64>): Replay {
    if log == [] then FRESH else Recorded(After(log[..|log| - 1]), log[|log| - 1])
  }

  predicate Admits(r: Replay, nonce: u64) {
    nonce > r.highest || (r.highest - nonce < 64 && !Bit64(r.window, r.highest - nonce))
  }

  class AntiReplayWindow {
    var highestNonce: u64
    var window: bv64

    ghost function Value(): Replay
      reads this
    {
      Replay(highestNonce, window)
    }

    constructor ()
      ensures Value() == FRESH
    {
      highestNonce := 0;
      window := 0;
    }

    method Check(nonce: u64) returns (admitted: bool)
      ensures admitted == Admits(Value(), nonce)
    {
      if nonce > highestNonce {
        return true;
      }
      var diff := highestNonce - nonce;
      if diff >= 64 {
        return false;
      }
      return !Bit64(window, diff);
    }

    method Record(nonce: u64)
      modifies this
      ensures Value() == Recorded(old(Value()), nonce)
    {
      if nonce > highestNonce {
        var diff := nonce - highestNonce;
        if diff >= 64 {
          window := 1;
        } else {
          window := Advance64(window, diff);
        }
        highestNonce := nonce;
      } else {
        var diff := highestNonce - nonce;
        if diff < 64 {
          window := Mark64(window, diff);
        }
      }
    }
  }

  /** `highest` is the greatest recorded nonce and bit `d` says whether `highest - d` was recorded. */
  ghost predicate Exact(r: Replay, log: seq<u64>) {
    && (forall n | n in log :: n <= r.highest)
    && (log == [] ==> r.highest == 0)
    && (log != [] ==> r.highest in log)
    && (forall d: nat | d < 64 :: Bit64(r.window, d) <==> d <= r.highest && r.highest - d in log)
  }

  lemma {:induction false} WindowIsExact(log: seq<u64>)
    ensures Exact(After(log), log)
  {
    if log == [] {
      AllBits64(0, 0);
    } else {
      var before := log[..|log| - 1];
      WindowIsExact(before);
      RecordKeepsExact(After(before), before, log[|log| - 1]);
      assert log == before + [log[|log| - 1]];
    }
  }

  lemma RecordKeepsExact(r: Replay, log: seq<u64>, nonce: u64)
    requires Exact(r, log)
    ensures Exact(Recorded(r, nonce), log + [nonce])
  {
    var after, full := Recorded(r, nonce), log + [nonce];
    var shift := if nonce > r.highest then nonce - r.highest else r.highest - nonce;
    AllBits64(r.window, if shift < 64 then shift else 0);
    forall d: nat | d < 64
      ensures Bit64(after.window, d) <==> d <= after.highest && after.highest - d in full
    {
      if nonce > r.highest && shift <= d && shift < 64 {
        assert Bit64(r.window, d - shift) <==> d - shift <= r.highest && r.highest - (d - shift) in log;
      }
    }
  }

  /** `check` accepts exactly the unrecorded nonces above `highest - 64`. */
  lemma AdmitsExactly(log: seq<u64>, nonce: u64)
    ensures Admits(After(log), nonce) <==> nonce !in log && nonce + 64 > After(log).highest
  {
    WindowIsExact(log);
    var r := After(log);
    if nonce <= r.highest && r.highest - nonce < 64 {
      assert Bit64(r.window, r.highest - nonce) <==> nonce in log;
    }
  }

  /** A nonce once refused is refused for ever. */
  lemma {:induction false} RefusalIsPermanent(log: seq<u64>, more: seq<u64>, nonce: u64)
    requires !Admits(After(log), nonce)
    ensures !Admits(After(log + more), nonce)
  {
    if more == [] {
      assert log + more == log;
    } else {
      var last := |more| - 1;
      RefusalIsPermanent(log, more[..last], nonce);
      assert (log + more)[..|log + more| - 1] == log + more[..last];
      AdmitsExactly(log + more[..last], nonce);
      AdmitsExactly(log + more, nonce);
    }
  }

  // ---------- check, then record what was accepted ----------

  /** The nonces accepted from a stream when each is checked and recorded only if admitted. */
  function Accepted(stream: seq<u64>): seq<u64> {
    if stream == [] then []
    else
      var before := Accepted(stream[..|stream| - 1]);
      var nonce := stream[|stream| - 1];
      if Admits(After(before), nonce) then before + [nonce] else before
  }

  /** Each nonce is accepted at most once, however often it is replayed. */
  lemma {:induction false} AcceptedAtMostOnce(stream: seq<u64>)
    ensures forall i, j :: 0 <= i < j < |Accepted(stream)| ==> Accepted(stream)[i] != Accepted(stream)[j]
  {
    if stream != [] {
      AcceptedAtMostOnce(stream[..|stream| - 1]);
      AdmitsExactly(Accepted(stream[..|stream| - 1]), stream[|stream| - 1]);
    }
  }

  lemma HighestOneMore(log: seq<u64>, nonce: u64)
    ensures After(log + [nonce]).highest == if nonce > After(log).highest then nonce else After(log).highest
    ensures nonce > After(log).highest ==> Admits(After(log), nonce)
  {
    assert (log + [nonce])[..|log|] == log;
  }

  /** Conversely nothing within reach is lost: after the stream, a nonce less than 64 below the top was accepted. */
  lemma {:induction false} RecentNoncesAreAccepted(stream: seq<u64>)
    ensures forall n | n in stream :: n <= After(Accepted(stream)).highest
    ensures forall n | n in stream && n + 64 > After(Accepted(stream)).highest :: n in Accepted(stream)
  {
    if stream != [] {
      hide After, Admits, Recorded;
      var before, nonce := stream[..|stream| - 1], stream[|stream| - 1];
      RecentNoncesAreAccepted(before);
      AdmitsExactly(Accepted(before), nonce);
      HighestOneMore(Accepted(before), nonce);
      forall n | n in stream
        ensures n <= After(Accepted(stream)).highest
        ensures n + 64 > After(Accepted(stream)).highest ==> n in Accepted(stream)
      {
        assert n in before || n == nonce;
      }
    }
  }
}
