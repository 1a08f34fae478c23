/** Cutting a write into block parts: the client's loop and the control's check of it. */
module Splitting {
  import opened Bytes
  import opened Layout

  const MAX_PARTS := 5

  /** How far the first j parts reach. */
  ghost function Cursor(offset: nat, length: nat, size: nat, j: nat): int
    requires size > 0
  {
    if j == 0 then 0 else Min(length, Mul(Div(offset, size) + j, size) - offset)
  }

  lemma CursorStep(offset: nat, length: nat, size: nat, j: nat)
    requires size > 0 && length > 0
    ensures 0 <= Cursor(offset, length, size, j) <= length
    ensures Cursor(offset, length, size, j) < length <==> j < PartCount(offset, length, size)
    ensures j < PartCount(offset, length, size) ==>
      var cursor, p := Cursor(offset, length, size, j), PartAt(offset, length, size, j);
      && p == Part(Div(offset + cursor, size), Mod(offset + cursor, size), cursor, Min(length - cursor, size - Mod(offset + cursor, size)))
      && cursor + p.length == Cursor(offset, length, size, j + 1)
  {
    var index := Div(offset, size) + j;
    var cursor, at := Cursor(offset, length, size, j), Mul(index, size);
    DivSplit(offset, size);
    PartRange(offset, length, size);
    assert j > 0 ==> Mul(index, size) >= Mul(Div(offset, size), size) + size by {
      if j > 0 {
        MulMonotone(Div(offset, size), index, size);
      }
    }
    CeilDivBounds(offset + length, size);
    assert j < PartCount(offset, length, size) <==> at < offset + length;
    if j < PartCount(offset, length, size) {
      PartStep(offset, length, size, j);
    }
  }

  lemma PartStep(offset: nat, length: nat, size: nat, j: nat)
    requires size > 0 && j < PartCount(offset, length, size)
    requires 0 <= Cursor(offset, length, size, j) < length
    requires Mul(Div(offset, size), size) <= offset < Mul(Div(offset, size), size) + size
    ensures var cursor, p := Cursor(offset, length, size, j), PartAt(offset, length, size, j);
      && p == Part(Div(offset + cursor, size), Mod(offset + cursor, size), cursor, Min(length - cursor, size - Mod(offset + cursor, size)))
      && cursor + p.length == Cursor(offset, length, size, j + 1)
  {
    var index := Div(offset, size) + j;
    var cursor, at := Cursor(offset, length, size, j), Mul(index, size);
    var low, high := Max(offset, at), Min(offset + length, at + size);
    PartBounds(offset, length, size, j);
    assert PartAt(offset, length, size, j) == Part(index, low - at, low - offset, high - low);
    assert Mul(index + 1, size) == at + size;
    assert at <= offset + cursor < at + size && low == offset + cursor;
    DivUnique(offset + cursor, index, size);
  }

  /** j parts have been cut and end at cursor. */
  ghost predicate CutUpTo(offset: nat, length: nat, size: nat, cursor: nat, j: nat)
    requires size > 0
  {
    && cursor <= length
    && j <= PartCount(offset, length, size)
    && (cursor < length <==> j < PartCount(offset, length, size))
    && (length > 0 ==> cursor == Cursor(offset, length, size, j))
  }

  /** The next part of either loop. */
  function NextPart(offset: nat, length: nat, size: nat, cursor: nat): Part
    requires size > 0 && cursor <= length
  {
    var absolute := offset + cursor;
    Part(Div(absolute, size), Mod(absolute, size), cursor, Min(length - cursor, size - Mod(absolute, size)))
  }

  lemma Start(offset: nat, length: nat, size: nat)
    requires size > 0
    ensures CutUpTo(offset, length, size, 0, 0)
  {
    if length > 0 {
      CursorStep(offset, length, size, 0);
    }
  }

  lemma Advance(offset: nat, length: nat, size: nat, cursor: nat, j: nat)
    requires size > 0 && CutUpTo(offset, length, size, cursor, j) && cursor < length
    ensures j < |Split(offset, length, size)|
    ensures NextPart(offset, length, size, cursor) == Split(offset, length, size)[j]
    ensures NextPart(offset, length, size, cursor).length > 0
    ensures CutUpTo(offset, length, size, cursor + NextPart(offset, length, size, cursor).length, j + 1)
  {
    CursorStep(offset, length, size, j);
    CursorStep(offset, length, size, j + 1);
    PartBounds(offset, length, size, j);
  }

  /** The client's loop cuts the payload into exactly the parts of the range. */
  method SplitDelta(offset: nat, length: nat, size: nat) returns (parts: seq<Part>)
    requires size > 0
    ensures parts == Split(offset, length, size)
  {
    parts := [];
    var cursor := 0;
    Start(offset, length, size);
    while cursor < length
      invariant 0 <= cursor <= length && CutUpTo(offset, length, size, cursor, |parts|)
      invariant parts == Split(offset, length, size)[..|parts|]
      decreases length - cursor
    {
      Advance(offset, length, size, cursor, |parts|);
      var absolute := offset + cursor;
      var piece := Min(length - cursor, size - Mod(absolute, size));
      parts := parts + [Part(Div(absolute, size), Mod(absolute, size), cursor, piece)];
      cursor := cursor + piece;
    }
  }

  /** The control accepts one partition only, the client's, and at most five parts of it. */
  method CheckParts(parts: seq<Part>, offset: nat, length: nat, size: nat) returns (accepted: bool)
    requires size > 0
    ensures accepted <==> parts == Split(offset, length, size) && |parts| <= MAX_PARTS
  {
    if |parts| > MAX_PARTS {
      return false;
    }
    var cursor, i := 0, 0;
    Start(offset, length, size);
    while i < |parts|
      invariant 0 <= i <= |parts| && 0 <= cursor <= length && CutUpTo(offset, length, size, cursor, i)
      invariant parts[..i] == Split(offset, length, size)[..i]
    {
      var part, absolute := parts[i], offset + cursor;
      var expected := Min(length - cursor, size - Mod(absolute, size));
      if expected <= 0 {
        return false;
      }
      Advance(offset, length, size, cursor, i);
      if part != Part(Div(absolute, size), Mod(absolute, size), cursor, expected) {
        return false;
      }
      cursor, i := cursor + part.length, i + 1;
    }
    accepted := cursor == length;
  }
}
