/** The bounded undo/redo engine of `ModelManager`: a sequence of snapshots
    and an index into it. Snapshots are opaque here (type parameter `T`);
    the model manager instantiates them with geometry copies. */
module EditHistory {

  /** `max_history`: the most snapshots ever kept. */
  const MaxHistory: nat := 20

  datatype History<T> = History(entries: seq<T>, index: int)

  /** The invariant the class keeps: the index is -1 (nothing recorded)
      or names an entry, and the capacity is respected. */
  predicate Valid<T>(h: History<T>)
  {
    && -1 <= h.index < |h.entries| <= MaxHistory
    && (|h.entries| > 0 ==> h.index >= 0)
  }

  /** `clear_history`. */
  function Cleared<T>(): History<T>
  {
    History([], -1)
  }

  /** `can_undo`. */
  predicate CanUndo<T>(h: History<T>)
  {
    h.index > 0
  }

  /** `can_redo`. */
  predicate CanRedo<T>(h: History<T>)
  {
    h.index < |h.entries| - 1
  }

  /** The first step of `add_to_history`: the redo branch (every entry after
      the current one) is discarded and the index set to the last entry. */
  function Truncate<T>(h: History<T>): (r: History<T>)
    requires Valid(h)
    ensures Valid(r)
    ensures r.entries == h.entries[..h.index + 1]
    ensures r.index == h.index && !CanRedo(r)
  {
    var kept := if h.index < |h.entries| - 1 then h.entries[..h.index + 1] else h.entries;
    History(kept, |kept| - 1)
  }

  /** `add_to_history` with a snapshot: prune the redo branch, append, point
      the index at the new entry, and evict the oldest entry on overflow. */
  function Push<T>(h: History<T>, e: T): (r: History<T>)
    requires Valid(h)
    ensures Valid(r)
    ensures |r.entries| > 0 && r.index == |r.entries| - 1 && r.entries[r.index] == e
    ensures !CanRedo(r)
    ensures |r.entries| == if h.index + 2 <= MaxHistory then h.index + 2 else MaxHistory
    // every older entry is the undo branch, shifted by one when the oldest was evicted
    ensures forall i :: 0 <= i < r.index ==> r.entries[i] == h.entries[i + (h.index + 2 - |r.entries|)]
    ensures h.index + 2 > MaxHistory ==> r.entries == h.entries[1..h.index + 1] + [e]
  {
    var appended := Truncate(h).entries + [e];
    var grown := History(appended, |appended| - 1);
    if |grown.entries| > MaxHistory then History(grown.entries[1..], grown.index - 1) else grown
  }

  /** `undo`'s effect on the history: the index moves back by one when
      undo is permitted; the entries are never touched. */
  function Undo<T>(h: History<T>): (r: History<T>)
    requires Valid(h)
    ensures Valid(r) && r.entries == h.entries
    ensures CanUndo(h) ==> r.index == h.index - 1 && CanRedo(r)
    ensures !CanUndo(h) ==> r == h
  {
    if CanUndo(h) then h.(index := h.index - 1) else h
  }

  /** `redo`'s effect on the history: the index moves forward by one when
      redo is permitted; the entries are never touched. */
  function Redo<T>(h: History<T>): (r: History<T>)
    requires Valid(h)
    ensures Valid(r) && r.entries == h.entries
    ensures CanRedo(h) ==> r.index == h.index + 1 && CanUndo(r)
    ensures !CanRedo(h) ==> r == h
  {
    if CanRedo(h) then h.(index := h.index + 1) else h
  }

  /** Undo followed by redo, and redo followed by undo, restore the history. */
  lemma UndoRedoInverse<T>(h: History<T>)
    requires Valid(h)
    ensures CanUndo(h) ==> Redo(Undo(h)) == h
    ensures CanRedo(h) ==> Undo(Redo(h)) == h
  {
  }

  /** `n` undos in a row. */
  function UndoTimes<T>(h: History<T>, n: nat): (r: History<T>)
    requires Valid(h)
    ensures Valid(r) && r.entries == h.entries
    decreases n
  {
    if n == 0 then h else UndoTimes(Undo(h), n - 1)
  }

  /** `n` redos in a row. */
  function RedoTimes<T>(h: History<T>, n: nat): (r: History<T>)
    requires Valid(h)
    ensures Valid(r) && r.entries == h.entries
    decreases n
  {
    if n == 0 then h else RedoTimes(Redo(h), n - 1)
  }

  /** Up to `index` undos each step back by exactly one. */
  lemma {:induction false} UndoTimesSteps<T>(h: History<T>, n: nat)
    requires Valid(h) && n <= h.index
    ensures UndoTimes(h, n) == History(h.entries, h.index - n)
    decreases n
  {
    if n > 0 {
      UndoTimesSteps(Undo(h), n - 1);
    }
  }

  /** Up to the length of the redo branch, redos each step forward by one. */
  lemma {:induction false} RedoTimesSteps<T>(h: History<T>, n: nat)
    requires Valid(h) && h.index + n < |h.entries|
    ensures RedoTimes(h, n) == History(h.entries, h.index + n)
    decreases n
  {
    if n > 0 {
      RedoTimesSteps(Redo(h), n - 1);
    }
  }

  /** Undoing `n` steps and redoing `n` steps is the identity, so long as no
      push intervenes; with `n == index` the undos reach the first entry. */
  lemma {:induction false} UndoRedoRoundTrip<T>(h: History<T>, n: nat)
    requires Valid(h) && n <= h.index
    ensures UndoTimes(h, n).index == h.index - n
    ensures RedoTimes(UndoTimes(h, n), n) == h
  {
    UndoTimesSteps(h, n);
    RedoTimesSteps(UndoTimes(h, n), n);
  }

  /** A run of pushes, oldest first. */
  function PushAll<T>(h: History<T>, es: seq<T>): (r: History<T>)
    requires Valid(h)
    ensures Valid(r)
    decreases |es|
  {
    if |es| == 0 then h else PushAll(Push(h, es[0]), es[1..])
  }

  /** The last `n` elements of `s` (all of them when there are fewer). */
  function Newest<T>(s: seq<T>, n: nat): (r: seq<T>)
    ensures |r| == (if |s| <= n then |s| else n)
  {
    if |s| <= n then s else s[|s| - n..]
  }

  /** Keeping the newest `n`, appending, then keeping the newest `n` again is
      the same as appending first. */
  lemma NewestAppend<T>(s: seq<T>, t: seq<T>, n: nat)
    ensures Newest(Newest(s, n) + t, n) == Newest(s + t, n)
  {
    var u := Newest(s, n);
    var w := u + t;
    if |s| <= n {
      assert u == s;
    } else if |w| <= n {
      assert |t| == 0 && w == u;
      assert s + t == s;
    } else {
      // both sides are the last n elements of s + t
      var k := |s| - |u|;
      assert |s + t| - n == k + (|w| - n);
      forall j | |w| - n <= j < |w|
        ensures w[j] == (s + t)[k + j]
      {
        if j < |u| {
          assert w[j] == u[j] == s[k + j];
        } else {
          assert w[j] == t[j - |u|];
        }
      }
      assert w[|w| - n..] == (s + t)[|s + t| - n..];
    }
  }

  /** A single push keeps the newest `MaxHistory` of the undo branch plus
      the new entry. */
  lemma PushKeepsNewest<T>(h: History<T>, e: T)
    requires Valid(h)
    ensures Push(h, e).entries == Newest(h.entries[..h.index + 1] + [e], MaxHistory)
  {
  }

  /** Keeping the newest entries of `kept` plus the first pushed entry,
      then of that plus the rest, keeps the newest of everything. */
  lemma NewestChain<T>(kept: seq<T>, es: seq<T>, a: seq<T>, b: seq<T>)
    requires |es| > 0
    requires a == Newest(kept + [es[0]], MaxHistory)
    requires b == Newest(a + es[1..], MaxHistory)
    ensures b == Newest(kept + es, MaxHistory)
  {
    NewestAppend(kept + [es[0]], es[1..], MaxHistory);
    assert [es[0]] + es[1..] == es;
    assert kept + [es[0]] + es[1..] == kept + es;
  }

  /** One step of a run of pushes. */
  lemma PushAllStep<T>(h: History<T>, es: seq<T>)
    requires Valid(h) && |es| > 0
    ensures PushAll(h, es) == PushAll(Push(h, es[0]), es[1..])
  {
  }

  /** FIFO eviction: after any non-empty run of pushes the history holds
      exactly the newest `MaxHistory` entries of the undo branch followed by
      the pushed entries, in order, and the index names the last of them. */
  lemma {:induction false} PushAllKeepsNewest<T>(h: History<T>, es: seq<T>)
    requires Valid(h) && |es| > 0
    ensures PushAll(h, es).entries == Newest(h.entries[..h.index + 1] + es, MaxHistory)
    ensures PushAll(h, es).index == |PushAll(h, es).entries| - 1
    decreases |es|
  {
    var h1 := Push(h, es[0]);
    PushAllStep(h, es);
    PushKeepsNewest(h, es[0]);
    if |es| == 1 {
      assert es[1..] == [] && es == [es[0]];
    } else {
      PushAllKeepsNewest(h1, es[1..]);
      assert h1.entries[..h1.index + 1] == h1.entries;
      NewestChain(h.entries[..h.index + 1], es, h1.entries, PushAll(h1, es[1..]).entries);
    }
  }
}
