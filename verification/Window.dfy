/** The acknowledgement window of Selective Repeat (lab2/src/util.c). A cell
    holds 0 or 1 and is only ever tested for truth, so it is a bool here. */
module Window {

  /** Length of the run of marks at the front of w. */
  function LeadingRun(w: seq<bool>): (k: nat)
    ensures k <= |w|
    ensures forall i :: 0 <= i < k ==> w[i]
    ensures k < |w| ==> !w[k]
  {
    if w == [] || !w[0] then 0 else 1 + LeadingRun(w[1..])
  }

  function Marks(w: seq<bool>): nat {
    if w == [] then 0 else (if w[0] then 1 else 0) + Marks(w[1..])
  }

  /** w moved k cells towards the front, with unmarked cells entering behind. */
  function Slide(w: seq<bool>, k: nat): (r: seq<bool>)
    requires k <= |w|
    ensures |r| == |w|
    ensures forall i :: 0 <= i < |w| ==> r[i] == (i + k < |w| && w[i + k])
  {
    w[k..] + seq(k, _ => false)
  }

  /** What update_window returns, and what it leaves behind. */
  function Advance(w: seq<bool>, ind: nat): (k: nat)
    requires ind < |w|
  {
    LeadingRun(w[ind := true])
  }

  function Updated(w: seq<bool>, ind: nat): (r: seq<bool>)
    requires ind < |w|
    ensures |r| == |w|
  {
    Slide(w[ind := true], Advance(w, ind))
  }

  lemma LeadingRunIs(w: seq<bool>, k: nat)
    requires k <= |w|
    requires forall i :: 0 <= i < k ==> w[i]
    requires k < |w| ==> !w[k]
    ensures LeadingRun(w) == k
  {
  }

  lemma AdvanceIs(w: seq<bool>, ind: nat, w': seq<bool>)
    requires ind < |w| && w[ind := true] == w'
    ensures Advance(w, ind) == LeadingRun(w')
    ensures Updated(w, ind) == Slide(w', LeadingRun(w'))
  {
  }

  lemma {:induction false} MarksConcat(a: seq<bool>, b: seq<bool>)
    ensures Marks(a + b) == Marks(a) + Marks(b)
  {
    if a == [] {
      assert a + b == b;
    } else {
      MarksConcat(a[1..], b);
      assert (a + b)[1..] == a[1..] + b;
    }
  }

  lemma {:induction false} MarksAll(w: seq<bool>, b: bool)
    requires forall i :: 0 <= i < |w| ==> w[i] == b
    ensures Marks(w) == if b then |w| else 0
  {
    if w != [] {
      MarksAll(w[1..], b);
    }
  }

  lemma MarksSet(w: seq<bool>, ind: nat)
    requires ind < |w|
    ensures Marks(w[ind := true]) == Marks(w) + (if w[ind] then 0 else 1)
  {
    var w' := w[ind := true];
    MarksConcat(w[..ind], w[ind..]);
    MarksConcat(w'[..ind], w'[ind..]);
    assert w == w[..ind] + w[ind..] && w' == w[..ind] + w'[ind..];
    assert w'[ind..][1..] == w[ind..][1..];
  }

  /** Marks are conserved, and the window is left in normal form: its first
      cell is unmarked, so the base cannot be advanced any further. */
  lemma UpdateConservesMarks(w: seq<bool>, ind: nat)
    requires ind < |w|
    ensures Advance(w, ind) + Marks(Updated(w, ind)) == Marks(w) + (if w[ind] then 0 else 1)
    ensures !Updated(w, ind)[0]
  {
    var w' := w[ind := true];
    var k := Advance(w, ind);
    MarksSet(w, ind);
    assert w' == w'[..k] + w'[k..];
    MarksConcat(w'[..k], w'[k..]);
    MarksAll(w'[..k], true);
    MarksConcat(w'[k..], seq(k, _ => false));
    MarksAll(seq(k, _ => false), false);
  }

  lemma SlideIs(w: seq<bool>, k: nat, r: seq<bool>)
    requires k <= |w| == |r|
    requires forall i :: 0 <= i < |w| - k ==> r[i] == w[i + k]
    requires forall i :: |w| - k <= i < |w| ==> !r[i]
    ensures r == Slide(w, k)
  {
  }

  /** The second half of update_window: the cells move down, unmarked ones enter. */
  method MoveDown(window: array<bool>, shift: nat)
    requires shift <= window.Length
    modifies window
    ensures window[..] == Slide(old(window[..]), shift)
  {
    ghost var was := window[..];
    var lind, rind := 0, shift;
    while rind < window.Length
      invariant shift <= rind <= window.Length && lind == rind - shift
      invariant forall i :: 0 <= i < lind ==> window[i] == was[i + shift]
      invariant forall i :: rind <= i < window.Length ==> window[i] == was[i]
    {
      window[lind] := window[rind];
      lind, rind := lind + 1, rind + 1;
    }
    forall i | lind <= i < window.Length {
      window[i] := false;
    }
    SlideIs(was, shift, window[..]);
  }

  /** update_window, in place. */
  method UpdateWindow(window: array<bool>, ind: nat) returns (shift: nat)
    requires ind < window.Length
    modifies window
    ensures shift == Advance(old(window[..]), ind)
    ensures window[..] == Updated(old(window[..]), ind)
    ensures shift + Marks(window[..]) == Marks(old(window[..])) + (if old(window[ind]) then 0 else 1)
    ensures !window[0]
  {
    ghost var was := window[..];
    window[ind] := true;
    ghost var marked := window[..];
    assert marked == was[ind := true];
    shift := 0;
    while shift < window.Length && window[shift]
      invariant 0 <= shift <= window.Length
      invariant window[..] == marked
      invariant forall i :: 0 <= i < shift ==> marked[i]
    {
      shift := shift + 1;
    }
    LeadingRunIs(marked, shift);
    MoveDown(window, shift);
    UpdateConservesMarks(was, ind);
  }
}
