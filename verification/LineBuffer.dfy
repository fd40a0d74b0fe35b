/**
 Log lines: a line is first written directly and, if it is too long, once more in three pieces
 that are cut at character boundaries, the payload first, then the fields, then the meta part.
 */
module LineBuffer {
  import opened Prelude

  type Byte = x: int | 0 <= x < 256
  type Text = seq<Byte>

  /** " TRUNCATED" */
  const MARKER: Text := [0x20, 0x54, 0x52, 0x55, 0x4E, 0x43, 0x41, 0x54, 0x45, 0x44]
  const NEWLINE: Text := [0x0A]

  // === UTF-8 ===

  predicate IsContinuation(b: Byte) {
    0x80 <= b < 0xC0
  }

  /** The encodings of the Unicode scalar values, as in Table 3-7 of the Unicode standard. */
  predicate IsChar(s: Text) {
    && 1 <= |s| <= 4
    && (forall i :: 1 <= i < |s| ==> IsContinuation(s[i]))
    && match |s|
       case 1 => s[0] < 0x80
       case 2 => 0xC2 <= s[0] < 0xE0
       case 3 => 0xE0 <= s[0] < 0xF0 && (s[0] == 0xE0 ==> s[1] >= 0xA0) && (s[0] == 0xED ==> s[1] < 0xA0)
       case _ => 0xF0 <= s[0] < 0xF5 && (s[0] == 0xF0 ==> s[1] >= 0x90) && (s[0] == 0xF4 ==> s[1] < 0x90)
  }

  function Width(lead: Byte): nat {
    if lead < 0x80 then 1 else if lead < 0xE0 then 2 else if lead < 0xF0 then 3 else 4
  }

  predicate Utf8(text: Text)
    decreases |text|
  {
    text == []
    || (Width(text[0]) <= |text| && IsChar(text[..Width(text[0])]) && Utf8(text[Width(text[0])..]))
  }

  predicate IsCharBoundary(text: Text, i: nat) {
    i == 0 || i == |text| || (i < |text| && !IsContinuation(text[i]))
  }

  lemma {:induction false} Utf8Append(a: Text, b: Text)
    requires Utf8(a) && Utf8(b)
    ensures Utf8(a + b)
    decreases |a|
  {
    if a == [] {
      assert a + b == b;
    } else {
      var n := Width(a[0]);
      Utf8Append(a[n..], b);
      SplitOfSum(a, b, n);
    }
  }

  lemma SplitOfSum(a: Text, b: Text, n: nat)
    requires n <= |a|
    ensures (a + b)[..n] == a[..n] && (a + b)[n..] == a[n..] + b
  {
  }

  /** Cutting at a boundary cuts between characters. */
  lemma {:induction false} BoundarySplits(text: Text, i: nat)
    requires Utf8(text) && i <= |text| && IsCharBoundary(text, i)
    ensures Utf8(text[..i]) && Utf8(text[i..])
    decreases |text|
  {
    if i == 0 {
      assert text[..i] == [] && text[i..] == text;
    } else {
      var n := Width(text[0]);
      FirstCharEndsAt(text, i);
      SplitsAgree(text, n, i);
      BoundarySplits(text[n..], i - n);
    }
  }

  /** There is no boundary inside the first character. */
  lemma FirstCharEndsAt(text: Text, i: nat)
    requires text != [] && Utf8(text) && 0 < i <= |text| && IsCharBoundary(text, i)
    ensures Width(text[0]) <= i
    ensures IsCharBoundary(text[Width(text[0])..], i - Width(text[0]))
  {
    var n := Width(text[0]);
    forall j | 1 <= j < n
      ensures IsContinuation(text[j])
    {
      assert text[j] == text[..n][j];
    }
    if n < i < |text| { assert text[n..][i - n] == text[i]; }
  }

  lemma SplitsAgree(text: Text, n: nat, i: nat)
    requires n <= i <= |text|
    ensures text[..i][..n] == text[..n]
    ensures text[..i][n..] == text[n..][..i - n]
    ensures text[n..][i - n..] == text[i..]
  {
  }

  /** There is a boundary within any four places in a row. */
  lemma {:induction false} BoundaryNear(text: Text, to: nat) returns (i: nat)
    requires Utf8(text) && to <= |text|
    ensures i <= to <= i + 3 && IsCharBoundary(text, i)
    decreases |text|
  {
    if to == 0 || to < Width(text[0]) {
      i := 0;
    } else {
      var n := Width(text[0]);
      i := BoundaryNear(text[n..], to - n);
      if i == 0 && n < |text| { assert text[n..][..Width(text[n])][0] == text[n]; }
      if 0 < i < |text| - n { assert text[n..][i] == text[n + i]; }
      i := i + n;
    }
  }

  // === Cutting ===

  /** The last boundary not after `to`. */
  function Floor(text: Text, to: nat): (i: nat)
    ensures i <= to && IsCharBoundary(text, i)
    ensures forall j :: i < j <= to ==> !IsCharBoundary(text, j)
  {
    if IsCharBoundary(text, to) then to else Floor(text, to - 1)
  }

  lemma FloorCutsCleanly(text: Text, to: nat)
    requires Utf8(text) && to <= |text|
    ensures Utf8(text[..Floor(text, to)]) && to <= Floor(text, to) + 3
  {
    BoundarySplits(text, Floor(text, to));
    var i := BoundaryNear(text, to);
  }

  datatype Line = Line(meta: Text, payload: Text, fields: Text)

  function Length(l: Line): nat {
    |l.meta| + |l.payload| + |l.fields|
  }

  function Whole(l: Line): Text {
    l.meta + l.payload + l.fields
  }

  ghost predicate ValidLine(l: Line) {
    Utf8(l.meta) && Utf8(l.payload) && Utf8(l.fields)
  }

  /** One piece with `need` bytes to erase: what is kept, and what is still to erase from the next. */
  function Cut(piece: Text, need: nat): (Text, nat) {
    var to := |piece| - Min(|piece|, need);
    var kept := Floor(piece, to);
    (piece[..kept], Max(0, need - Min(|piece|, need) - (to - kept)))
  }

  function Truncated(l: Line, max: nat): Line {
    if Length(l) <= max then l
    else
      var (payload, need1) := Cut(l.payload, Length(l) - max + |MARKER|);
      var (fields, need2) := Cut(l.fields, need1);
      Line(Cut(l.meta, need2).0, payload, fields)
  }

  /** The marker is added whenever there is room for it, even if nothing was cut. */
  predicate Marked(l: Line, max: nat) {
    Length(Truncated(l, max)) + |MARKER| <= max
  }

  function Printed(l: Line, max: nat): Text {
    Whole(Truncated(l, max)) + (if Marked(l, max) then MARKER else [])
  }

  /** Cutting a piece erases what is needed, at most three bytes more, and leaves a rest only from an empty piece. */
  lemma CutErases(piece: Text, need: nat)
    requires Utf8(piece)
    ensures var (kept, left) := Cut(piece, need);
            && Utf8(kept) && kept <= piece
            && (left > 0 ==> kept == [] && |piece| + left == need)
            && (left == 0 ==> need <= |piece| - |kept| <= need + 3 || (kept == [] && |piece| == need))
            && (need == 0 ==> kept == piece)
  {
    if need == 0 {
      CutNothing(piece);
    } else if need >= |piece| {
      CutAll(piece, need);
    } else {
      CutSome(piece, need);
    }
  }

  lemma CutNothing(piece: Text)
    ensures Cut(piece, 0) == (piece, 0)
  {
    assert Floor(piece, |piece|) == |piece| && piece[..|piece|] == piece;
  }

  lemma CutAll(piece: Text, need: nat)
    requires need >= |piece|
    ensures Cut(piece, need) == ([], need - |piece|)
  {
    assert Floor(piece, 0) == 0;
  }

  lemma CutSome(piece: Text, need: nat)
    requires Utf8(piece) && need < |piece|
    ensures var (kept, left) := Cut(piece, need);
            left == 0 && Utf8(kept) && kept <= piece && need <= |piece| - |kept| <= need + 3
  {
    FloorCutsCleanly(piece, |piece| - need);
  }

  /**
   Every UTF-8 line longer than the limit is cut to valid prefixes of its pieces. Fields are only
   touched when the payload is gone, the meta part only when both are gone. If the marker fits the
   limit, it is added, and at most three bytes of the limit are wasted; otherwise nothing is kept.
   */
  lemma TruncationIsOrderly(l: Line, max: nat)
    requires ValidLine(l) && Length(l) > max
    ensures var t := Truncated(l, max);
            && ValidLine(t) && t.meta <= l.meta && t.payload <= l.payload && t.fields <= l.fields
            && (t.fields != l.fields ==> t.payload == [])
            && (t.meta != l.meta ==> t.payload == [] && t.fields == [])
            && (max >= |MARKER| ==> max - 3 <= Length(t) + |MARKER| <= max)
            && (max < |MARKER| ==> Length(t) == 0)
  {
    var need := Length(l) - max + |MARKER|;
    var (payload, need1) := Cut(l.payload, need);
    var (fields, need2) := Cut(l.fields, need1);
    CutErases(l.payload, need);
    CutErases(l.fields, need1);
    CutErases(l.meta, need2);
  }

  /** A printed line fits the limit and is valid. */
  lemma PrintedFits(l: Line, max: nat)
    requires ValidLine(l)
    ensures |Printed(l, max)| <= max && Utf8(Printed(l, max))
  {
    var t := Truncated(l, max);
    if Length(l) > max { TruncationIsOrderly(l, max); }
    Utf8Append(t.meta, t.payload);
    Utf8Append(t.meta + t.payload, t.fields);
    MarkerIsUtf8();
    Utf8Append(Whole(t), MARKER);
    assert Whole(t) + [] == Whole(t);
  }

  lemma MarkerIsUtf8()
    ensures Utf8(MARKER) && Utf8(NEWLINE)
  {
    AsciiIsUtf8(MARKER);
    AsciiIsUtf8(NEWLINE);
  }

  lemma {:induction false} AsciiIsUtf8(text: Text)
    requires forall i :: 0 <= i < |text| ==> text[i] < 0x80
    ensures Utf8(text)
  {
    if text != [] { AsciiIsUtf8(text[1..]); }
  }

  /** The marker is there exactly when something was cut, except near the limit and for tiny limits. */
  lemma MarkerIsHonestIff(l: Line, max: nat)
    requires ValidLine(l)
    ensures (Marked(l, max) <==> Truncated(l, max) != l) <==>
            if Length(l) <= max then max < Length(l) + |MARKER| else max >= |MARKER|
  {
    if Length(l) > max { TruncationIsOrderly(l, max); }
  }

  // === Formatting an event ===

  /** What is added for an event: the line itself if it fits, otherwise its truncated form. */
  function Formatted(l: Line, max: nat): Text {
    (if Length(l) <= max then Whole(l) else Printed(l, max)) + NEWLINE
  }

  /** A formatted event takes at most the limit and a newline; it is verbatim exactly when it fits. */
  lemma EventFits(l: Line, max: nat)
    requires ValidLine(l)
    ensures |Formatted(l, max)| <= max + 1 && Utf8(Formatted(l, max))
    ensures Formatted(l, max) == l.meta + l.payload + l.fields + NEWLINE <==> |l.meta| + |l.payload| + |l.fields| <= max
    ensures Length(l) > max ==>
              var t := Truncated(l, max);
              Formatted(l, max) == t.meta + t.payload + t.fields + (if max >= |MARKER| then MARKER else []) + NEWLINE
  {
    PrintedFits(l, max);
    MarkerIsUtf8();
    if Length(l) <= max {
      Utf8Append(l.meta, l.payload);
      Utf8Append(l.meta + l.payload, l.fields);
      Utf8Append(Whole(l), NEWLINE);
    } else {
      TruncationIsOrderly(l, max);
      Utf8Append(Printed(l, max), NEWLINE);
      assert |Whole(l) + NEWLINE| > |Formatted(l, max)|;
    }
  }

  // === The code ===

  /** Cuts a text at the last boundary not after `to`; returns how many bytes too many were cut. */
  method SafeTruncate(text: Text, to: nat) returns (kept: Text, extra: nat)
    requires to <= |text|
    ensures kept == text[..Floor(text, to)] && |kept| + extra == to
  {
    var boundary := to;
    while !IsCharBoundary(text, boundary)
      invariant 0 <= boundary <= to && Floor(text, boundary) == Floor(text, to)
      decreases boundary
    {
      boundary := boundary - 1;
    }
    kept, extra := text[..boundary], to - boundary;
  }

  /** One of the three steps of cutting a line. */
  method CutPiece(piece: Text, need: nat) returns (kept: Text, left: nat)
    ensures (kept, left) == Cut(piece, need)
  {
    var part := Min(|piece|, need);
    var extra;
    kept, extra := SafeTruncate(piece, |piece| - part);
    left := Max(0, need - part - extra);
  }

  lemma Assemble(a: Text, b: Text, c: Text, d: Text, e: Text)
    ensures a + b + c + d == a + (b + c + d) && (a + b + c + d)[..|a|] == a
    ensures a + b + c + d + e == a + (b + c + d + e)
  {
  }

  lemma Appended(a: Text, b: Text)
    ensures (a + b)[..|a|] == a && (a + b)[|a|..] == b
  {
  }

  lemma Associate(a: Text, b: Text, c: Text)
    ensures a + b + c == a + (b + c)
  {
  }

  lemma Reassociate(a: Text, b: Text, c: Text, d: Text, e: Text)
    ensures a + b + c + d + e == a + (b + c + d + e)
  {
  }

  class LineBuffer {
    var buffer: Text
    var payload: Text
    var fields: Text
    var maxLineSize: nat

    constructor (maxLineSize: nat)
      ensures this.maxLineSize == maxLineSize && buffer == [] && payload == [] && fields == []
    {
      buffer, payload, fields, this.maxLineSize := [], [], [], maxLineSize;
    }

    method Clear()
      modifies this`buffer, this`payload, this`fields
      ensures buffer == [] && payload == [] && fields == []
    {
      buffer, payload, fields := [], [], [];
    }

    /** The line being written: what was appended since `start`, and the two scratch buffers. */
    function Current(start: nat): Line
      requires start <= |buffer|
      reads this
    {
      Line(buffer[start..], payload, fields)
    }

    /** Cuts the current line; says whether the marker is to be added. */
    method ProbeSizeLimit(start: nat) returns (marked: bool)
      requires start <= |buffer| && Utf8(buffer[start..])
      modifies this`buffer, this`payload, this`fields
      ensures start <= |buffer| && buffer[..start] == old(buffer[..start])
      ensures Current(start) == Truncated(old(Current(start)), maxLineSize)
      ensures marked <==> Marked(old(Current(start)), maxLineSize)
    {
      var len := |buffer| - start + |payload| + |fields|;
      if len <= maxLineSize {
        return len + |MARKER| <= maxLineSize;
      }
      var need := len - maxLineSize + |MARKER|;
      payload, need := CutPiece(payload, need);
      fields, need := CutPiece(fields, need);
      CutMeta(start, need);
      marked := |buffer| - start + |payload| + |fields| + |MARKER| <= maxLineSize;
    }

    method CutMeta(start: nat, need: nat)
      requires start <= |buffer| && Utf8(buffer[start..])
      modifies this`buffer
      ensures buffer == old(buffer[..start]) + Cut(old(buffer[start..]), need).0
    {
      var meta := buffer[start..];
      var metaPart := Min(|buffer| - start, need);
      var to := |buffer| - metaPart;
      BoundaryShift(buffer, start, to);
      var kept, extra := SafeTruncate(buffer, to);
      assert kept == buffer[..start] + meta[..Floor(meta, to - start)];
      buffer := kept;
    }

    method CommitTruncating(start: nat)
      requires start <= |buffer| && Utf8(buffer[start..])
      modifies this`buffer, this`payload, this`fields
      ensures buffer == old(buffer[..start]) + Printed(old(Current(start)), maxLineSize) + NEWLINE
      ensures var cut := Truncated(old(Current(start)), maxLineSize); payload == cut.payload && fields == cut.fields
    {
      var marked := ProbeSizeLimit(start);
      ghost var meta := buffer[start..];
      assert buffer == old(buffer[..start]) + meta;
      buffer := buffer + payload;
      buffer := buffer + fields;
      var marker := if marked then MARKER else [];
      buffer := buffer + marker;
      buffer := buffer + NEWLINE;
      Reassociate(old(buffer[..start]), meta, payload, fields, marker);
    }

    /** Dropping an unfinished line takes back what was written to the buffer, not to the scratch buffers. */
    method Rollback(start: nat)
      requires start <= |buffer|
      modifies this`buffer
      ensures buffer == old(buffer[..start])
    {
      buffer := buffer[..start];
    }

    method CommitDirect(start: nat) returns (ok: bool)
      requires start <= |buffer|
      modifies this`buffer
      ensures ok <==> |old(buffer)| - start <= maxLineSize
      ensures buffer == if ok then old(buffer) + NEWLINE else old(buffer[..start])
    {
      if |buffer| - start > maxLineSize {
        Rollback(start);
        return false;
      }
      buffer := buffer + NEWLINE;
      return true;
    }

    /** Writes the line to the buffer in one go. */
    method FormatDirect(l: Line) returns (ok: bool)
      modifies this`buffer
      ensures ok <==> Length(l) <= maxLineSize
      ensures buffer == if ok then old(buffer) + (Whole(l) + NEWLINE) else old(buffer)
    {
      var start := |buffer|;
      buffer := buffer + l.meta;
      buffer := buffer + l.payload;
      buffer := buffer + l.fields;
      Assemble(old(buffer), l.meta, l.payload, l.fields, NEWLINE);
      ok := CommitDirect(start);
    }

    /** Writes the line in pieces and cuts them; what is left of the last two stays in the scratch buffers. */
    method FormatTruncating(l: Line)
      requires ValidLine(l) && payload == [] && fields == []
      modifies this`buffer, this`payload, this`fields
      ensures buffer == old(buffer) + (Printed(l, maxLineSize) + NEWLINE)
      ensures payload == Truncated(l, maxLineSize).payload && fields == Truncated(l, maxLineSize).fields
    {
      var start := |buffer|;
      buffer := buffer + l.meta;
      payload := payload + l.payload;
      fields := fields + l.fields;
      Appended(old(buffer), l.meta);
      assert Current(start) == l;
      CommitTruncating(start);
      Associate(old(buffer), Printed(l, maxLineSize), NEWLINE);
    }

    /** Appends one event to the lines already there; the pieces of a cut line stay in the scratch buffers. */
    method FormatEvent(l: Line)
      requires ValidLine(l) && payload == [] && fields == []
      modifies this`buffer, this`payload, this`fields
      ensures buffer == old(buffer) + Formatted(l, maxLineSize)
      ensures Length(l) > maxLineSize ==>
                payload == Truncated(l, maxLineSize).payload && fields == Truncated(l, maxLineSize).fields
    {
      var ok := FormatDirect(l);
      if !ok {
        FormatTruncating(l);
      }
    }

    /** What the logger does with an event: its output is just this event, whatever was left before. */
    method HandleEvent(l: Line) returns (output: Text)
      requires ValidLine(l)
      modifies this`buffer, this`payload, this`fields
      ensures output == Formatted(l, maxLineSize)
    {
      Clear();
      FormatEvent(l);
      output := buffer;
      assert [] + output == output;
    }
  }

  /** Boundaries after a valid start are those of the rest. */
  lemma {:induction false} BoundaryShift(text: Text, start: nat, at: nat)
    requires start <= at <= |text| && Utf8(text[start..])
    ensures Floor(text, at) == start + Floor(text[start..], at - start)
    decreases at
  {
    var rest := text[start..];
    if at < |text| { assert text[at] == rest[at - start]; }
    if at == start {
      if rest != [] { assert rest[..Width(rest[0])][0] == rest[0]; }
    } else if !IsCharBoundary(text, at) {
      BoundaryShift(text, start, at - 1);
    }
  }
}
