/** The tour details page's state rules: the image carousel's wrap-around
    index and the itinerary accordion. */
module TourDetails {
  import opened Common

  /** The page opens on the first image with day 1 expanded. */
  const InitialImage: int := 0
  const InitialActiveDay: Option<int> := Some(1)

  /** nextImage: the last image wraps to the first. */
  function NextImage(i: int, len: int): (r: int)
    ensures 0 <= i < len ==> 0 <= r < len && r == (i + 1) % len
  {
    if i == len - 1 then 0 else i + 1
  }

  /** prevImage: the first image wraps to the last. */
  function PrevImage(i: int, len: int): (r: int)
    ensures 0 <= i < len ==> 0 <= r < len && r == (i - 1) % len
  {
    if i == 0 then len - 1 else i - 1
  }

  /** The two buttons undo each other. */
  lemma PrevUndoesNext(i: int, len: int)
    requires 0 <= i < len
    ensures PrevImage(NextImage(i, len), len) == i
    ensures NextImage(PrevImage(i, len), len) == i
  {
  }

  /** The index after pressing next n times. */
  function Advance(i: int, len: int, n: nat): int
    decreases n
  {
    if n == 0 then i else NextImage(Advance(i, len, n - 1), len)
  }

  /** Pressing next a times and then b times is pressing it a + b times. */
  lemma {:induction false} AdvanceCompose(i: int, len: int, a: nat, b: nat)
    ensures Advance(i, len, a + b) == Advance(Advance(i, len, a), len, b)
    decreases b
  {
    if b > 0 {
      AdvanceCompose(i, len, a, b - 1);
    }
  }

  /** Before reaching the last image, next just counts up. */
  lemma {:induction false} AdvanceCountsUp(i: int, len: int, n: nat)
    requires 0 <= i && i + n < len
    ensures Advance(i, len, n) == i + n
    decreases n
  {
    if n > 0 {
      AdvanceCountsUp(i, len, n - 1);
    }
  }

  /** Pressing next once per image returns to the starting image. */
  lemma FullCycle(i: int, len: int)
    requires 0 <= i < len
    ensures Advance(i, len, len) == i
  {
    var a: nat := len - 1 - i;
    AdvanceCompose(i, len, a, i + 1);
    AdvanceCountsUp(i, len, a);
    assert Advance(i, len, a) == len - 1;
    AdvanceCompose(len - 1, len, 1, i);
    assert Advance(len - 1, len, 1) == 0;
    AdvanceCountsUp(0, len, i);
  }

  /** Whether the accordion shows day d. */
  predicate IsOpen(active: Option<int>, d: int)
  {
    active == Some(d)
  }

  /** Clicking day d: closes it when it is the open day, opens it (and so
      closes any other) otherwise. */
  function ToggleDay(active: Option<int>, d: int): (r: Option<int>)
    ensures IsOpen(r, d) <==> !IsOpen(active, d)
    ensures forall e :: e != d ==> !IsOpen(r, e)
  {
    if active == Some(d) then None else Some(d)
  }

  /** The page opens on the first image with only day 1 expanded. */
  lemma InitialPageState(len: int)
    requires len >= 1
    ensures 0 <= InitialImage < len
    ensures IsOpen(InitialActiveDay, 1) && forall e :: e != 1 ==> !IsOpen(InitialActiveDay, e)
  {
  }

  /** Clicking the same day twice restores the accordion when that day
      was open, and leaves everything closed otherwise. */
  lemma ToggleDayTwice(active: Option<int>, d: int)
    ensures IsOpen(active, d) ==> ToggleDay(ToggleDay(active, d), d) == active
    ensures !IsOpen(active, d) ==> forall e :: !IsOpen(ToggleDay(ToggleDay(active, d), d), e)
  {
  }
}
