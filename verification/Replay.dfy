/**
 The sliding replay window of turbobond/bond/protocol.py.  `Window` is the specification: a plain set of
 accepted counters.  `ReplayWindow` is the class the source has, a highest counter and one big-integer bitmap.
 */
module Replay {
  import opened Bits

  datatype Window = Window(size: nat, highest: nat, accepted: set<nat>)
  {
    ghost predicate Valid() {
      && (forall c | c in accepted :: 1 <= c <= highest)
      && (highest == 0 || highest in accepted)
    }

    /** A counter is fresh when it is new: beyond the highest, or inside the window and not accepted before. */
    predicate Fresh(c: nat) {
      c != 0 && (c > highest || (highest - c < size && c !in accepted))
    }

    function Record(c: nat): Window {
      if Fresh(c) then Window(size, if c > highest then c else highest, accepted + {c}) else this
    }
  }

  const NEW_WINDOW := Window(4096, 0, {})

  ghost predicate Marked(w: Window, k: nat) {
    (k < w.size || k == 0) && k <= w.highest && w.highest - k in w.accepted
  }

  /** A jump of a whole window or more leaves only the new counter in view. */
  lemma JumpBits(w: Window, c: nat)
    requires w.Valid() && c > w.highest && c - w.highest >= w.size
    ensures forall k: nat :: Bit(1, k) <==> Marked(w.Record(c), k)
  {
    forall k: nat ensures Bit(1, k) <==> Marked(w.Record(c), k) { BitOfOne(k); }
  }

  /** Shifting, setting bit 0 and masking moves every remembered counter to its new distance. */
  lemma SlideBits(w: Window, c: nat, bitmap: nat, bitmap': nat)
    requires w.Valid() && c > w.highest && c - w.highest < w.size && ShiftLeft(1, w.size) >= 1
    requires forall k: nat :: Bit(bitmap, k) <==> Marked(w, k)
    requires bitmap' == And(Or(ShiftLeft(bitmap, c - w.highest), 1), ShiftLeft(1, w.size) - 1)
    ensures forall k: nat :: Bit(bitmap', k) <==> Marked(w.Record(c), k)
  {
    var shift := c - w.highest;
    forall k: nat ensures Bit(bitmap', k) <==> Marked(w.Record(c), k) {
      BitOfAnd(Or(ShiftLeft(bitmap, shift), 1), ShiftLeft(1, w.size) - 1, k);
      BitOfOr(ShiftLeft(bitmap, shift), 1, k);
      BitOfShift(bitmap, shift, k);
      BitOfMask(w.size, k);
      BitOfOne(k);
      if k >= shift { assert Bit(bitmap, k - shift) <==> Marked(w, k - shift); }
    }
  }

  lemma MarkBits(w: Window, c: nat, bitmap: nat, bitmap': nat)
    requires w.Valid() && w.Fresh(c) && c <= w.highest
    requires forall k: nat :: Bit(bitmap, k) <==> Marked(w, k)
    requires bitmap' == Or(bitmap, ShiftLeft(1, w.highest - c))
    ensures forall k: nat :: Bit(bitmap', k) <==> Marked(w.Record(c), k)
  {
    var offset := w.highest - c;
    forall k: nat ensures Bit(bitmap', k) <==> Marked(w.Record(c), k) {
      BitOfOr(bitmap, ShiftLeft(1, offset), k);
      BitOfShift(1, offset, k);
      if k >= offset { BitOfOne(k - offset); }
      assert Bit(bitmap, k) <==> Marked(w, k);
    }
  }

  class ReplayWindow {
    const size: nat
    var highest: nat
    var bitmap: nat
    ghost var accepted: set<nat>

    ghost function View(): Window
      reads this
    {
      Window(size, highest, accepted)
    }

    /** Bit k of the bitmap is set exactly when `highest - k` was accepted and is still inside the window. */
    ghost predicate Valid()
      reads this
    {
      && View().Valid()
      && forall k: nat :: Bit(bitmap, k) <==> Marked(View(), k)
    }

    constructor (size: nat := 4096)
      ensures Valid() && View() == Window(size, 0, {})
    {
      this.size, highest, bitmap, accepted := size, 0, 0, {};
      new;
      forall k: nat ensures !Bit(bitmap, k) { BitOfZero(k); }
    }

    method CheckAndUpdate(counter: nat) returns (fresh_: bool)
      requires Valid()
      modifies this
      ensures Valid()
      ensures fresh_ <==> old(View()).Fresh(counter)
      ensures View() == old(View()).Record(counter)
      ensures fresh_ ==> counter !in old(accepted)
    {
      if counter == 0 {
        return false;
      }
      ghost var before := View();
      if counter > highest {
        var shift := counter - highest;
        if shift >= size {
          bitmap := 1;
          JumpBits(before, counter);
        } else {
          ShiftedOne(size);
          bitmap := And(Or(ShiftLeft(bitmap, shift), 1), ShiftLeft(1, size) - 1);
          SlideBits(before, counter, old(bitmap), bitmap);
        }
        highest := counter;
        accepted := accepted + {counter};
        return true;
      }
      var offset := highest - counter;
      if offset >= size {
        return false;
      }
      var mask := ShiftLeft(1, offset);
      TestBit(bitmap, offset);
      if And(bitmap, mask) != 0 {
        return false;
      }
      bitmap := Or(bitmap, mask);
      accepted := accepted + {counter};
      MarkBits(before, counter, old(bitmap), bitmap);
      return true;
    }
  }

  /** The bitmap never needs more than `size` bits (one bit for the degenerate empty window). */
  lemma BitmapBounded(w: Window, bitmap: nat)
    requires forall k: nat :: Bit(bitmap, k) <==> Marked(w, k)
    ensures bitmap < Pow2(if w.size == 0 then 1 else w.size)
  {
    var n := if w.size == 0 then 1 else w.size;
    forall k: nat | k >= n ensures !Bit(bitmap, k) { assert !Marked(w, k); }
    NoHighBits(bitmap, n);
  }

  // ----- whole runs

  function Run(w: Window, cs: seq<nat>): Window
    decreases |cs|
  {
    if cs == [] then w else Run(w.Record(cs[0]), cs[1..])
  }

  /** The counters a run lets through, in arrival order. */
  function Passed(w: Window, cs: seq<nat>): seq<nat>
    decreases |cs|
  {
    if cs == [] then []
    else (if w.Fresh(cs[0]) then [cs[0]] else []) + Passed(w.Record(cs[0]), cs[1..])
  }

  /** No run lets a counter through twice, nor one accepted before the run began. */
  lemma {:induction false} NeverTwice(w: Window, cs: seq<nat>)
    requires w.Valid()
    ensures Run(w, cs).Valid()
    ensures var out := Passed(w, cs);
            && (forall i, j :: 0 <= i < j < |out| ==> out[i] != out[j])
            && (forall i :: 0 <= i < |out| ==> out[i] != 0 && out[i] !in w.accepted)
            && Run(w, cs).accepted == w.accepted + set c | c in out
    decreases |cs|
  {
    if cs != [] {
      var w' := w.Record(cs[0]);
      NeverTwice(w', cs[1..]);
      var rest := Passed(w', cs[1..]);
      var out := Passed(w, cs);
      if w.Fresh(cs[0]) {
        assert out == [cs[0]] + rest;
        assert (set c | c in out) == {cs[0]} + set c | c in rest;
      } else {
        assert out == rest;
      }
    }
  }

  /** Every earlier arrival is less than a window ahead of this one. */
  ghost predicate NearlyInOrder(w: Window, cs: seq<nat>) {
    && (forall i :: 0 <= i < |cs| ==> cs[i] != 0 && (w.highest <= cs[i] || w.highest - cs[i] < w.size))
    && (forall i, j :: 0 <= i < j < |cs| ==> cs[i] <= cs[j] || cs[i] - cs[j] < w.size)
  }

  lemma NearlyInOrderStep(w: Window, cs: seq<nat>)
    requires w.Valid() && NearlyInOrder(w, cs) && cs != []
    ensures w.Fresh(cs[0]) <==> cs[0] !in w.accepted
    ensures NearlyInOrder(w.Record(cs[0]), cs[1..])
  {
    var rest := cs[1..];
    assert forall i :: 0 <= i < |rest| ==> rest[i] == cs[i + 1];
    assert forall i :: 0 <= i < |rest| ==> cs[0] <= rest[i] || cs[0] - rest[i] < w.size;
  }

  /** Reordering by less than one window never costs a genuine datagram: each counter passes once. */
  lemma {:induction false} NearlyInOrderAllPass(w: Window, cs: seq<nat>)
    requires w.Valid() && NearlyInOrder(w, cs)
    ensures forall c :: c in Passed(w, cs) <==> c in cs && c !in w.accepted
    decreases |cs|
  {
    if cs != [] {
      var head, tail := cs[0], cs[1..];
      var w' := w.Record(head);
      NearlyInOrderStep(w, cs);
      NearlyInOrderAllPass(w', tail);
      assert cs == [head] + tail;
      forall c ensures c in Passed(w, cs) <==> c in cs && c !in w.accepted {
        assert c in Passed(w', tail) <==> c in tail && c !in w'.accepted;
        assert c in cs <==> c == head || c in tail;
      }
    }
  }

  lemma {:induction false} RunSize(w: Window, cs: seq<nat>)
    ensures Run(w, cs).size == w.size
    decreases |cs|
  {
    if cs != [] { RunSize(w.Record(cs[0]), cs[1..]); }
  }

  /**
   Exactly which counter is fresh after any run of a new window: one that is not 0, has not passed before, and is less
   than 4096 behind every counter that has.
   */
  lemma {:induction false} FreshExactly(cs: seq<nat>, c: nat)
    ensures var passed := Passed(NEW_WINDOW, cs);
            Run(NEW_WINDOW, cs).Fresh(c) <==>
              c != 0 && c !in passed && forall p :: p in passed ==> p - c < 4096
  {
    NeverTwice(NEW_WINDOW, cs);
    RunSize(NEW_WINDOW, cs);
    hide Run, Passed;
    var w, passed := Run(NEW_WINDOW, cs), Passed(NEW_WINDOW, cs);
    assert forall p :: p in passed <==> p in w.accepted;
    if w.highest != 0 { assert w.highest in passed; }
  }
}
