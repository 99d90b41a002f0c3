/** The drop-oldest event ring of dawnhex_kmod.c. */
module EventRing {
  const SLOTS: nat := 128

  // ----- the queue it stands for

  /** Emitting to a queue of capacity 127 drops the oldest entry when it is full. */
  function Pushed<T>(q: seq<T>, e: T): seq<T> {
    if |q| == SLOTS - 1 then q[1..] + [e] else q + [e]
  }

  function PushedAll<T>(q: seq<T>, es: seq<T>): seq<T>
    decreases es
  {
    if es == [] then q else PushedAll(Pushed(q, es[0]), es[1..])
  }

  lemma {:induction false} PushedAllSnoc<T>(q: seq<T>, es: seq<T>, e: T)
    ensures PushedAll(q, es + [e]) == Pushed(PushedAll(q, es), e)
    decreases es
  {
    if es == [] {
      assert ([] + [e])[1..] == [];
    } else {
      assert (es + [e])[1..] == es[1..] + [e];
      PushedAllSnoc(Pushed(q, es[0]), es[1..], e);
    }
  }

  /** The entries from `tail` up to `head`, going round the slots. */
  function Window<T>(slots: seq<T>, head: nat, tail: nat): seq<T>
    requires |slots| == SLOTS && head < SLOTS && tail < SLOTS
  {
    if tail <= head then slots[tail..head] else slots[tail..] + slots[..head]
  }

  class Ring<T(0)> {
    const slots: array<T>
    var head: nat
    var tail: nat

    ghost predicate Valid()
      reads this
    {
      slots.Length == SLOTS && head < SLOTS && tail < SLOTS
    }

    /** The unread events, oldest first. */
    ghost function Contents(): seq<T>
      requires Valid()
      reads this, slots
    {
      Window(slots[..], head, tail)
    }

    constructor ()
      ensures Valid() && fresh(slots) && Contents() == []
    {
      slots := new T[SLOTS];
      head := 0;
      tail := 0;
    }

    /** dh_emit_event_locked */
    method Emit(e: T)
      requires Valid()
      modifies this, slots
      ensures Valid() && Contents() == Pushed(old(Contents()), e)
    {
      ghost var before, t0 := slots[..], tail;
      var next := (head + 1) % SLOTS;
      if next == tail {
        tail := (tail + 1) % SLOTS;
      }
      slots[head] := e;
      assert slots[..] == before[head := e];
      PushWindow(before, head, t0, e);
      head := next;
    }

    /** The dequeue of dh_read; `found` is false when there is nothing to read. */
    method Read() returns (found: bool, e: T)
      requires Valid()
      modifies this
      ensures Valid() && found == (old(Contents()) != [])
      ensures found ==> [e] + Contents() == old(Contents())
      ensures !found ==> Contents() == []
    {
      if head == tail {
        return false, slots[0];
      }
      found, e := true, slots[tail];
      PopWindow(slots[..], head, tail);
      tail := (tail + 1) % SLOTS;
    }
  }

  /** The slot after slot `i`, going round. */
  function After(i: nat): (j: nat)
    requires i < SLOTS
    ensures j < SLOTS && j == (i + 1) % SLOTS
  {
    if i + 1 == SLOTS then 0 else i + 1
  }

  /** The arithmetic of one emit on the window. */
  lemma PushWindow<T>(slots: seq<T>, head: nat, tail: nat, e: T)
    requires |slots| == SLOTS && head < SLOTS && tail < SLOTS
    ensures var t := if After(head) == tail then After(tail) else tail;
            Window(slots[head := e], After(head), t) == Pushed(Window(slots, head, tail), e)
  {
    if tail <= head {
      PushStraight(slots, head, tail, e);
    } else {
      PushRound(slots, head, tail, e);
    }
  }

  lemma PushStraight<T>(slots: seq<T>, head: nat, tail: nat, e: T)
    requires |slots| == SLOTS && tail <= head < SLOTS
    ensures var t := if After(head) == tail then After(tail) else tail;
            Window(slots[head := e], After(head), t) == Pushed(Window(slots, head, tail), e)
  {
    var after, w := slots[head := e], slots[tail..head];
    if head + 1 < SLOTS {
      assert after[tail..head + 1] == w + [e];
    } else if tail == 0 {
      assert after[1..] + after[..0] == w[1..] + [e];
    } else {
      assert after[tail..] + after[..0] == w + [e];
    }
  }

  lemma PushRound<T>(slots: seq<T>, head: nat, tail: nat, e: T)
    requires |slots| == SLOTS && head < tail < SLOTS
    ensures var t := if After(head) == tail then After(tail) else tail;
            Window(slots[head := e], After(head), t) == Pushed(Window(slots, head, tail), e)
  {
    var after := slots[head := e];
    var before, behind := slots[..head], after[..head + 1];
    assert behind == before + [e];
    if head + 1 < tail {
      assert after[tail..] == slots[tail..];
      ConcatTail(slots[tail..], before, [e]);
    } else if tail == SLOTS - 1 {
      assert slots[tail..] == [slots[tail]];
      assert ([slots[tail]] + before)[1..] == before;
    } else {
      assert after[tail + 1..] == slots[tail..][1..];
      assert (slots[tail..] + before)[1..] == slots[tail..][1..] + before;
      ConcatTail(slots[tail..][1..], before, [e]);
    }
  }

  lemma ConcatTail<T>(a: seq<T>, b: seq<T>, c: seq<T>)
    ensures a + (b + c) == (a + b) + c
  {
  }

  lemma HeadOfRest<T>(s: seq<T>, i: nat, j: nat)
    requires i < j <= |s|
    ensures [s[i]] + s[i + 1..j] == s[i..j]
  {
  }

  lemma PopWindow<T>(slots: seq<T>, head: nat, tail: nat)
    requires |slots| == SLOTS && head < SLOTS && tail < SLOTS && head != tail
    ensures [slots[tail]] + Window(slots, head, After(tail)) == Window(slots, head, tail)
  {
    if tail < head {
      HeadOfRest(slots, tail, head);
    } else {
      PopRound(slots, head, tail);
    }
  }

  lemma PopRound<T>(slots: seq<T>, head: nat, tail: nat)
    requires |slots| == SLOTS && head < tail < SLOTS
    ensures [slots[tail]] + Window(slots, head, After(tail)) == Window(slots, head, tail)
  {
    if tail + 1 < SLOTS {
      assert slots[tail..] == [slots[tail]] + slots[tail + 1..];
      ConcatTail([slots[tail]], slots[tail + 1..], slots[..head]);
    } else {
      assert slots[tail..] == [slots[tail]];
      assert slots[0..head] == slots[..head];
    }
  }

  // ----- whole runs of emits and reads

  datatype Act<T> = DoEmit(e: T) | DoRead

  /** A run as an observer keeps it: everything emitted, what is unread, the events readers got, and
      which emissions (by number) those were and which were dropped. */
  datatype Trace<T> = Trace(emitted: seq<T>, queue: seq<T>, got: seq<T>, read: seq<int>, lost: seq<int>)

  /** The number of the oldest unread emission. */
  function Cursor<T>(t: Trace<T>): int {
    |t.emitted| - |t.queue|
  }

  function Next<T>(t: Trace<T>, a: Act<T>): Trace<T> {
    match a
    case DoEmit(e) =>
      Trace(t.emitted + [e], Pushed(t.queue, e), t.got, t.read,
            if |t.queue| == SLOTS - 1 then t.lost + [|t.emitted| - |t.queue|] else t.lost)
    case DoRead =>
      if t.queue == [] then t
      else t.(queue := t.queue[1..], got := t.got + [t.queue[0]], read := t.read + [|t.emitted| - |t.queue|])
  }

  function RunActs<T>(t: Trace<T>, acts: seq<Act<T>>): Trace<T>
    decreases acts
  {
    if acts == [] then t else RunActs(Next(t, acts[0]), acts[1..])
  }

  ghost predicate Rising(s: seq<int>, bound: int) {
    && (forall i, j :: 0 <= i < j < |s| ==> s[i] < s[j])
    && (forall i :: 0 <= i < |s| ==> 0 <= s[i] < bound)
  }

  /** The events got are the emissions with the given numbers, one by one. */
  ghost predicate Delivered<T>(emitted: seq<T>, got: seq<T>, read: seq<int>) {
    && |got| == |read|
    && forall i :: 0 <= i < |read| ==> 0 <= read[i] < |emitted| && got[i] == emitted[read[i]]
  }

  /** What every run keeps. */
  ghost predicate Faithful<T>(t: Trace<T>) {
    // the queue is the latest unread emissions, in order, at most 127 of them
    && |t.queue| <= SLOTS - 1 && |t.queue| <= |t.emitted|
    && t.queue == t.emitted[Cursor(t)..]
    // what readers got is the emissions numbered in `read`
    && Delivered(t.emitted, t.got, t.read)
    // reads and losses are in order, and between them account for every emission before the queue
    && Rising(t.read, Cursor(t)) && Rising(t.lost, Cursor(t))
    && |t.read| + |t.lost| == Cursor(t)
    && (forall k :: 0 <= k < Cursor(t) ==> (k in t.read) != (k in t.lost))
    // only an emission with 127 newer ones behind it is ever dropped
    && (forall i :: 0 <= i < |t.lost| ==> t.lost[i] + SLOTS <= |t.emitted|)
  }

  lemma RisingSnoc(s: seq<int>, c: int)
    requires Rising(s, c) && 0 <= c
    ensures Rising(s + [c], c + 1)
    ensures forall k :: k in s + [c] <==> k in s || k == c
    ensures c !in s
  {
    forall k | k in s + [c] ensures k in s || k == c {
      var i :| 0 <= i < |s + [c]| && (s + [c])[i] == k;
    }
    assert (s + [c])[|s|] == c;
    forall k | k in s ensures k in s + [c] {
      var i :| 0 <= i < |s| && s[i] == k;
      assert (s + [c])[i] == k;
    }
  }

  lemma RisingMore(s: seq<int>, c: int)
    requires Rising(s, c)
    ensures Rising(s, c + 1) && c !in s
  {
  }

  lemma EmitKeepsDelivered<T>(emitted: seq<T>, e: T, got: seq<T>, read: seq<int>)
    requires Delivered(emitted, got, read)
    ensures Delivered(emitted + [e], got, read)
  {
  }

  lemma ReadDelivers<T>(emitted: seq<T>, got: seq<T>, read: seq<int>, c: nat)
    requires Delivered(emitted, got, read) && c < |emitted|
    ensures Delivered(emitted, got + [emitted[c]], read + [c])
  {
  }

  lemma EmitFaithful<T>(t: Trace<T>, e: T)
    requires Faithful(t)
    ensures Faithful(Next(t, DoEmit(e)))
  {
    hide Delivered, Rising;
    var u := Next(t, DoEmit(e));
    var c := Cursor(t);
    EmitKeepsDelivered(t.emitted, e, t.got, t.read);
    if |t.queue| == SLOTS - 1 {
      RisingSnoc(t.lost, c);
      RisingMore(t.read, c);
      assert u.queue == u.emitted[c + 1..];
    } else {
      assert u.queue == u.emitted[c..];
    }
  }

  lemma ReadFaithful<T>(t: Trace<T>)
    requires Faithful(t)
    ensures Faithful(Next(t, DoRead))
  {
    hide Delivered, Rising;
    var u := Next(t, DoRead);
    var c := Cursor(t);
    if t.queue != [] {
      RisingSnoc(t.read, c);
      RisingMore(t.lost, c);
      ReadDelivers(t.emitted, t.got, t.read, c);
      assert u.queue == u.emitted[c + 1..];
    }
  }

  /** Over any interleaving of emits and reads the ring holds the latest unread events in order, and
      what was read is the emitted sequence less entries that were oldest when they were dropped. */
  lemma {:induction false} RunFaithful<T>(t: Trace<T>, acts: seq<Act<T>>)
    requires Faithful(t)
    ensures Faithful(RunActs(t, acts))
    decreases acts
  {
    if acts != [] {
      match acts[0] {
        case DoEmit(e) => EmitFaithful(t, e);
        case DoRead => ReadFaithful(t);
      }
      RunFaithful(Next(t, acts[0]), acts[1..]);
    }
  }

  lemma NothingRises()
    ensures Rising([], 0)
  {
  }

  lemma FreshRingFaithful<T>()
    ensures Faithful<T>(Trace([], [], [], [], []))
  {
    hide Rising;
    var t: Trace<T> := Trace([], [], [], [], []);
    NothingRises();
    assert Cursor(t) == 0;
  }
}
