/** The Android resequencer as the object it is; refused branches of `push` return early, as there. */
module KotlinBuffer {
  import opened Bytes
  import opened Resequencer
  import opened KotlinReorder

  class ReorderBuffer {
    const timeoutMs: int
    const capacity: int
    var pending: seq<Entry>
    var nextSeq: int
    var deadline: int

    function View(): State
      reads this
    {
      State(timeoutMs, capacity, pending, nextSeq, deadline)
    }

    constructor (timeoutMs: int := 90, capacity: int := 2048)
      ensures View() == New(timeoutMs, capacity)
    {
      this.timeoutMs, this.capacity := timeoutMs, capacity;
      pending, nextSeq, deadline := [], -1, 0;
    }

    method Push(no: int, packet: Bytes, now: int) returns (out: seq<Entry>)
      modifies this
      ensures var (s, released) := KotlinReorder.Push(old(View()), no, packet, now); View() == s && out == released
    {
      if nextSeq < 0 {
        nextSeq := no;
        deadline := now + timeoutMs;
      }
      if no < nextSeq {
        return [];
      }
      PutNotEmpty(pending, Entry(no, packet, 0.0));
      pending := Put(pending, Entry(no, packet, 0.0));
      if |pending| == 1 {
        deadline := now + timeoutMs;
      }
      hide KotlinReorder.DrainContiguous, Put;
      ghost var queued, next := pending, nextSeq;
      var ready := this.DrainContiguous();
      if ready != [] {
        deadline := now + timeoutMs;
        return ready;
      }
      NothingDrained(queued, next);
      if |pending| >= capacity {
        out := this.FlushOldest(now);
      } else if now >= deadline {
        out := this.FlushOldest(now);
      } else {
        out := [];
      }
    }

    method DrainContiguous() returns (out: seq<Entry>)
      modifies `pending, `nextSeq
      ensures (out, pending, nextSeq) == KotlinReorder.DrainContiguous(old(pending), old(nextSeq))
    {
      out := [];
      ghost var goal := KotlinReorder.DrainContiguous(pending, nextSeq);
      assert [] + goal.0 == goal.0;
      while true
        invariant var rest := KotlinReorder.DrainContiguous(pending, nextSeq);
                  goal == (out + rest.0, rest.1, rest.2)
        decreases |pending|
      {
        var (packet, left) := Remove(pending, nextSeq);
        if packet.None? {
          assert out + [] == out;
          break;
        }
        ghost var rest := KotlinReorder.DrainContiguous(left, Increment(nextSeq));
        assert out + ([packet.value] + rest.0) == out + [packet.value] + rest.0;
        pending := left;
        out := out + [packet.value];
        nextSeq := Increment(nextSeq);
      }
    }

    /** `firstKey` throws on an empty map; every caller has just checked that something is pending. */
    method FlushOldest(now: int) returns (out: seq<Entry>)
      requires pending != []
      modifies this
      ensures var (s, released) := KotlinReorder.FlushOldest(old(View()), now); View() == s && out == released
    {
      nextSeq := pending[0].no;
      out := this.DrainContiguous();
      deadline := now + timeoutMs;
    }

    method Tick(now: int) returns (out: seq<Entry>)
      modifies this
      ensures var (s, released) := KotlinReorder.Tick(old(View()), now); View() == s && out == released
    {
      if pending == [] || now < deadline {
        return [];
      }
      out := this.FlushOldest(now);
    }

    method Reset()
      modifies this
      ensures View() == New(timeoutMs, capacity)
    {
      pending, nextSeq, deadline := [], -1, 0;
    }
  }
}
