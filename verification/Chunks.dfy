/** How a backfill range is cut into chunks: by a cursor that jumps to the next UTC midnight. */
module Chunks {
  import opened Common

  const DAY: Time := 86_400_000_000

  /** The UTC date of an instant, as a day number. */
  function Day(t: Time): int {
    t / DAY
  }

  function Min(a: Time, b: Time): Time {
    if a < b then a else b
  }

  /** The end of the chunk that starts at the cursor, with the fallback for an end that does not advance. */
  function ChunkEnd(cursor: Time, end: Time): Time {
    var next := Min(end, Day(cursor + DAY) * DAY);
    if next <= cursor then Min(end, cursor + DAY) else next
  }

  datatype Chunk = Chunk(start: Time, end: Time)

  predicate Holds(c: Chunk, t: Time) {
    c.start <= t < c.end
  }

  datatype Range = Range(start: Time, end: Time)

  /** The number of dates the range touches. */
  function Dates(r: Range): nat {
    if r.start < r.end then Day(r.end - 1) - Day(r.start) + 1 else 0
  }

  /** The part of the range on its i-th date. */
  function OnDate(r: Range, i: nat): Chunk {
    var midnight := (Day(r.start) + i) * DAY;
    Chunk(if i == 0 then r.start else midnight, Min(r.end, midnight + DAY))
  }

  /** Where the cursor stands after i chunks. */
  function CursorAt(r: Range, i: nat): Time {
    if i < Dates(r) then OnDate(r, i).start else if r.start < r.end then r.end else r.start
  }

  /** The cursor visits the dates of the range one by one, and the fallback is never taken. */
  lemma CursorStep(r: Range, i: nat)
    requires i < Dates(r)
    ensures CursorAt(r, i) < r.end && ChunkEnd(CursorAt(r, i), r.end) == OnDate(r, i).end == CursorAt(r, i + 1)
    ensures CursorAt(r, i) < Min(r.end, Day(CursorAt(r, i) + DAY) * DAY)
  {
    var cursor := CursorAt(r, i);
    assert Day(cursor) == Day(r.start) + i by { DayOf(Day(r.start) + i, cursor, r, i); }
    assert Day(cursor + DAY) == Day(cursor) + 1;
  }

  lemma DayOf(day: int, t: Time, r: Range, i: nat)
    requires i < Dates(r) && day == Day(r.start) + i && t == OnDate(r, i).start
    ensures Day(t) == day && t < r.end
  {
    if i > 0 {
      assert day <= Day(r.end - 1);
      assert Day(r.end - 1) * DAY <= r.end - 1;
    }
  }

  lemma CursorEnds(r: Range, i: nat)
    requires i <= Dates(r)
    ensures CursorAt(r, i) < r.end <==> i < Dates(r)
  {
    if i < Dates(r) { CursorStep(r, i); }
  }

  /**
   * The chunks partition the range: an instant lies in the range exactly when it lies in one of them, and
   * then only in that of its own date. Each chunk is nonempty and within one date, no date has two.
   */
  lemma ChunksPartition(r: Range, t: Time)
    ensures (r.start <= t < r.end) <==> exists i: nat :: i < Dates(r) && Holds(OnDate(r, i), t)
    ensures forall i: nat | i < Dates(r) && Holds(OnDate(r, i), t) ::
              Day(t) == Day(OnDate(r, i).start) == Day(r.start) + i
    ensures forall i: nat | i < Dates(r) ::
              OnDate(r, i).start < OnDate(r, i).end && Day(OnDate(r, i).start) == Day(OnDate(r, i).end - 1)
    ensures forall i: nat, j: nat | i < j < Dates(r) :: Day(OnDate(r, i).start) < Day(OnDate(r, j).start)
  {
    forall i: nat | i < Dates(r)
      ensures OnDate(r, i).start < OnDate(r, i).end
      ensures Day(OnDate(r, i).start) == Day(OnDate(r, i).end - 1) == Day(r.start) + i
      ensures Holds(OnDate(r, i), t) ==> r.start <= t < r.end && Day(t) == Day(r.start) + i
    {
      DateShape(r, i, t);
    }
    if r.start <= t < r.end {
      var i: nat := Day(t) - Day(r.start);
      assert Day(t) * DAY <= t < Day(t) * DAY + DAY;
      assert Holds(OnDate(r, i), t);
    }
  }

  lemma DateShape(r: Range, i: nat, t: Time)
    requires i < Dates(r)
    ensures OnDate(r, i).start < OnDate(r, i).end
    ensures Day(OnDate(r, i).start) == Day(OnDate(r, i).end - 1) == Day(r.start) + i
    ensures Holds(OnDate(r, i), t) ==> r.start <= t < r.end && Day(t) == Day(r.start) + i
  {
    var day := Day(r.start) + i;
    CursorStep(r, i);
    DayOf(day, OnDate(r, i).start, r, i);
    SameDay(day, OnDate(r, i).start, OnDate(r, i).end - 1);
    if Holds(OnDate(r, i), t) { SameDay(day, OnDate(r, i).start, t); }
  }

  lemma SameDay(day: int, a: Time, b: Time)
    requires Day(a) == day && a <= b < (day + 1) * DAY
    ensures Day(b) == day
  {}
}
