/** The bounded, sorted snapshot buffer and its bracketing lookup. */
module Interpolation {
  import opened Numbers

  datatype Snapshot<+T> = Snapshot(tick: nat, state: T)

  /** The snapshots of `pushed` that were later than every one before them, in order. */
  function Records<T>(pushed: seq<Snapshot<T>>): seq<Snapshot<T>> {
    if pushed == [] then []
    else
      var rest := Records(pushed[..|pushed| - 1]);
      var last := pushed[|pushed| - 1];
      if rest != [] && last.tick <= rest[|rest| - 1].tick then rest else rest + [last]
  }

  /** The last `n` elements, or all of them if there are fewer. */
  function Suffix<T>(s: seq<T>, n: nat): seq<T> {
    if |s| <= n then s else s[|s| - n..]
  }

  function Kept(size: nat): nat {
    if size == 0 then 1 else size
  }

  ghost predicate TicksIncrease<T>(s: seq<Snapshot<T>>) {
    forall i, j :: 0 <= i < j < |s| ==> s[i].tick < s[j].tick
  }

  predicate Brackets<T>(s: seq<Snapshot<T>>, i: nat, t: nat) {
    i + 1 < |s| && s[i].tick <= t < s[i + 1].tick
  }

  class Interpolator<T> {
    var buffer: seq<Snapshot<T>>
    const bufferSize: nat
    ghost var pushed: seq<Snapshot<T>>

    ghost predicate Valid()
      reads this
    {
      buffer == Suffix(Records(pushed), Kept(bufferSize))
    }

    constructor (bufferSize: nat)
      ensures Valid() && pushed == [] && this.bufferSize == bufferSize
    {
      buffer := [];
      this.bufferSize := bufferSize;
      pushed := [];
    }

    method PushSnapshot(snapshot: Snapshot<T>)
      requires Valid()
      modifies this
      ensures Valid()
      ensures pushed == old(pushed) + [snapshot]
    {
      pushed := pushed + [snapshot];
      assert pushed[..|pushed| - 1] == old(pushed);
      if buffer != [] && snapshot.tick <= buffer[|buffer| - 1].tick {
        return;
      }
      if |buffer| >= bufferSize && buffer != [] {
        buffer := buffer[1..];
      }
      buffer := buffer + [snapshot];
    }

    /** The state blended from the pair of snapshots that brackets `renderTick`. */
    method Interpolate(renderTick: nat, lerp: (T, T) -> T) returns (blended: Option<T>)
      requires Valid()
      ensures blended.Some? <==> |buffer| >= 2 && buffer[0].tick <= renderTick < buffer[|buffer| - 1].tick
      ensures forall i: nat | Brackets(buffer, i, renderTick) ::
                blended == Some(lerp(buffer[i].state, buffer[i + 1].state))
    {
      BufferIncreases(pushed, Kept(bufferSize));
      if |buffer| < 2 {
        return None;
      }
      for i := 0 to |buffer| - 1
        invariant forall j: nat | j < i :: !Brackets(buffer, j, renderTick)
        invariant buffer[0].tick <= renderTick ==> buffer[i].tick <= renderTick
      {
        var a, b := buffer[i], buffer[i + 1];
        if renderTick >= a.tick && renderTick < b.tick {
          BracketIsUnique(buffer, i, renderTick);
          return Some(lerp(a.state, b.state));
        }
      }
      return None;
    }
  }

  lemma {:induction false} RecordsIncrease<T>(pushed: seq<Snapshot<T>>)
    ensures TicksIncrease(Records(pushed))
  {
    if pushed != [] {
      RecordsIncrease(pushed[..|pushed| - 1]);
    }
  }

  lemma BufferIncreases<T>(pushed: seq<Snapshot<T>>, n: nat)
    ensures TicksIncrease(Suffix(Records(pushed), n))
  {
    RecordsIncrease(pushed);
  }

  lemma BracketIsUnique<T>(s: seq<Snapshot<T>>, i: nat, t: nat)
    requires TicksIncrease(s) && Brackets(s, i, t)
    ensures forall j: nat | Brackets(s, j, t) :: j == i
    ensures s[0].tick <= t < s[|s| - 1].tick
  {
    assert forall j: nat | Brackets(s, j, t) && j < i :: s[j + 1].tick <= s[i].tick;
    assert forall j: nat | Brackets(s, j, t) && j > i :: s[i + 1].tick <= s[j].tick;
  }

  /** A pushed snapshot is a record exactly when every earlier one had a smaller tick. */
  lemma {:induction false} RecordsAreRunningMaxima<T>(pushed: seq<Snapshot<T>>)
    ensures pushed != [] <==> Records(pushed) != []
    ensures forall s | s in pushed :: s.tick <= Records(pushed)[|Records(pushed)| - 1].tick
    ensures forall s | s in Records(pushed) :: s in pushed
    ensures pushed != [] ==>
              var before, last := pushed[..|pushed| - 1], pushed[|pushed| - 1];
              (Records(pushed) == Records(before) + [last] <==> forall s | s in before :: s.tick < last.tick)
  {
    if pushed != [] {
      var before, last := pushed[..|pushed| - 1], pushed[|pushed| - 1];
      RecordsAreRunningMaxima(before);
      assert pushed == before + [last];
      if Records(before) != [] {
        var top := Records(before)[|Records(before)| - 1];
        assert top in Records(before);
      }
      assert |Records(before) + [last]| != |Records(before)|;
    }
  }

  /** Which records the buffer still holds: those with fewer than its size of later ones. */
  lemma BufferedExactly<T>(pushed: seq<Snapshot<T>>, size: nat, i: nat)
    requires i < |Records(pushed)|
    ensures var all, buffer := Records(pushed), Suffix(Records(pushed), Kept(size));
            all[i] in buffer <==> |all| - i <= (if size == 0 then 1 else size)
  {
    var all, buffer := Records(pushed), Suffix(Records(pushed), Kept(size));
    RecordsIncrease(pushed);
    hide Records;
    if |all| - i <= Kept(size) {
      assert buffer[i - (|all| - |buffer|)] == all[i];
    }
  }

  /** After any pushes the last snapshot in the buffer is one of them, and none of them is later. */
  lemma NewestIsBuffered<T>(pushed: seq<Snapshot<T>>, size: nat)
    requires pushed != []
    ensures var buffer := Suffix(Records(pushed), Kept(size));
            && buffer != [] && buffer[|buffer| - 1] in pushed
            && forall s | s in pushed :: s.tick <= buffer[|buffer| - 1].tick
  {
    RecordsAreRunningMaxima(pushed);
    var all := Records(pushed);
    assert all[|all| - 1] in all;
  }
}
