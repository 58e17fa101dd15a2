/** Splitting a long message into pieces that fit, without cutting a line that fits. */
module Messages {
  import opened Words

  const MAX_MESSAGE_CHARS: nat := 3_500

  function Concat(parts: seq<string>): string {
    if parts == [] then "" else Concat(parts[..|parts| - 1]) + parts[|parts| - 1]
  }

  lemma ConcatOneMore(parts: seq<string>, part: string)
    ensures Concat(parts + [part]) == Concat(parts) + part
  {
    assert (parts + [part])[..|parts|] == parts;
  }

  lemma {:induction false} ConcatOfConcatenation(a: seq<string>, b: seq<string>)
    ensures Concat(a + b) == Concat(a) + Concat(b)
  {
    if b == [] {
      assert a + b == a;
    } else {
      var front, last := b[..|b| - 1], b[|b| - 1];
      ConcatOfConcatenation(a, front);
      assert a + b == (a + front) + [last];
      ConcatOneMore(a + front, last);
      Associate(Concat(a), Concat(front), last);
    }
  }

  lemma Associate(a: string, b: string, c: string)
    ensures (a + b) + c == a + (b + c)
  {
  }

  lemma ConcatOfOne(part: string)
    ensures Concat([part]) == part
  {
    ConcatOneMore([], part);
    assert [] + [part] == [part] && "" + part == part;
  }

  // -------------------------------------------------------------------------- lines

  /** The length of the first line, with its line feed. */
  function LineLength(text: string): (n: nat)
    requires text != ""
    ensures 1 <= n <= |text|
    ensures forall i: nat :: i + 1 < n ==> text[i] != '\n'
    ensures n < |text| ==> text[n - 1] == '\n'
  {
    if text[0] == '\n' || |text| == 1 then 1 else 1 + LineLength(text[1..])
  }

  function Lines(text: string): seq<string> {
    if text == "" then [] else [text[..LineLength(text)]] + Lines(text[LineLength(text)..])
  }

  lemma ConcatOfLonger(first: string, rest: seq<string>)
    ensures Concat([first] + rest) == first + Concat(rest)
  {
    ConcatOfConcatenation([first], rest);
    ConcatOfOne(first);
  }

  lemma {:induction false} LinesAreText(text: string)
    ensures Concat(Lines(text)) == text
  {
    if text != "" {
      var first, rest := text[..LineLength(text)], text[LineLength(text)..];
      LinesAreText(rest);
      ConcatOfLonger(first, Lines(rest));
      assert text == first + rest;
    }
  }

  lemma {:induction false} NoEmptyLine(text: string, i: nat)
    requires i < |Lines(text)|
    ensures Lines(text)[i] != ""
  {
    if i > 0 {
      NoEmptyLine(text[LineLength(text)..], i - 1);
    }
  }

  lemma NextLine(lines: seq<string>, i: nat)
    requires i < |lines|
    ensures Concat(lines[..i + 1]) == Concat(lines[..i]) + lines[i]
  {
    ConcatOneMore(lines[..i], lines[i]);
    assert lines[..i + 1] == lines[..i] + [lines[i]];
  }

  /** Where line `i` starts. */
  function Start(lines: seq<string>, i: nat): nat
    requires i <= |lines|
  {
    if i == 0 then 0 else Start(lines, i - 1) + |lines[i - 1]|
  }

  lemma {:induction false} StartIsLength(lines: seq<string>, i: nat)
    requires i <= |lines|
    ensures Start(lines, i) == |Concat(lines[..i])|
  {
    if i > 0 {
      StartIsLength(lines, i - 1);
      assert lines[..i][..i - 1] == lines[..i - 1];
    }
  }

  lemma {:induction false} StartsGrow(lines: seq<string>, i: nat, k: nat)
    requires i <= k <= |lines|
    ensures Start(lines, i) <= Start(lines, k)
  {
    if i < k {
      StartsGrow(lines, i, k - 1);
    }
  }

  /** A cut at this position is not inside a line that fits a message. */
  ghost predicate SparesLines(lines: seq<string>, position: nat) {
    forall i: nat :: i < |lines| && Start(lines, i) < position < Start(lines, i + 1) ==> |lines[i]| > MAX_MESSAGE_CHARS
  }

  /** A cut between two lines, or inside an oversized one, spares all lines that fit. */
  lemma CutAtOrInside(lines: seq<string>, i: nat, position: nat)
    requires i < |lines| && Start(lines, i) <= position <= Start(lines, i + 1)
    requires position == Start(lines, i) || |lines[i]| > MAX_MESSAGE_CHARS
    ensures SparesLines(lines, position)
  {
    forall k: nat | k < |lines| && Start(lines, k) < position < Start(lines, k + 1)
      ensures |lines[k]| > MAX_MESSAGE_CHARS
    {
      if k < i {
        StartsGrow(lines, k + 1, i);
      } else if i < k {
        StartsGrow(lines, i + 1, k);
      }
    }
  }

  // -------------------------------------------------------------------------- splitting

  predicate Fit(parts: seq<string>) {
    forall part <- parts :: 1 <= |part| <= MAX_MESSAGE_CHARS
  }

  /** Every chunk ends at a position that spares the lines. */
  ghost predicate CutsSpareLines(lines: seq<string>, chunks: seq<string>) {
    chunks != [] ==> CutsSpareLines(lines, chunks[..|chunks| - 1]) && SparesLines(lines, |Concat(chunks)|)
  }

  lemma {:induction false} EveryCutSparesLines(lines: seq<string>, chunks: seq<string>, j: nat)
    requires CutsSpareLines(lines, chunks) && 0 < j <= |chunks|
    ensures SparesLines(lines, |Concat(chunks[..j])|)
    decreases |chunks|
  {
    if j < |chunks| {
      EveryCutSparesLines(lines, chunks[..|chunks| - 1], j);
      assert chunks[..|chunks| - 1][..j] == chunks[..j];
    } else {
      assert chunks[..j] == chunks;
    }
  }

  /** Cuts an oversized line every so many characters; what is left over stays open. */
  method CutLine(line: string) returns (pieces: seq<string>, rest: string)
    requires line != ""
    ensures Concat(pieces) + rest == line
    ensures Fit(pieces) && 1 <= |rest| <= MAX_MESSAGE_CHARS
  {
    pieces, rest := [], "";
    for i := 0 to |line|
      invariant Concat(pieces) + rest == line[..i]
      invariant Fit(pieces) && |rest| <= MAX_MESSAGE_CHARS && (i > 0 ==> rest != "")
    {
      ghost var done := Concat(pieces) + rest;
      if |rest| == MAX_MESSAGE_CHARS {
        ConcatOneMore(pieces, rest);
        pieces, rest := pieces + [rest], "";
        assert Concat(pieces) + rest == done;
      }
      AppendAssociates(Concat(pieces), rest, [line[i]]);
      rest := rest + [line[i]];
      assert line[..i + 1] == line[..i] + [line[i]];
    }
    assert line[..|line|] == line;
  }

  lemma AppendAssociates(a: string, b: string, c: string)
    ensures a + (b + c) == (a + b) + c
  {
  }

  lemma CutsExtend(lines: seq<string>, chunks: seq<string>, chunk: string)
    requires CutsSpareLines(lines, chunks) && SparesLines(lines, |Concat(chunks)| + |chunk|)
    ensures CutsSpareLines(lines, chunks + [chunk])
  {
    ConcatOneMore(chunks, chunk);
    assert (chunks + [chunk])[..|chunks|] == chunks;
  }

  /** Cuts inside an oversized line spare the others. */
  lemma {:induction false} PiecesExtend(lines: seq<string>, i: nat, chunks: seq<string>, pieces: seq<string>)
    requires i < |lines| && |lines[i]| > MAX_MESSAGE_CHARS
    requires CutsSpareLines(lines, chunks) && |Concat(chunks)| == Start(lines, i) && |Concat(pieces)| <= |lines[i]|
    ensures CutsSpareLines(lines, chunks + pieces)
    ensures Concat(chunks + pieces) == Concat(chunks) + Concat(pieces)
    decreases |pieces|
  {
    if pieces == [] {
      assert chunks + pieces == chunks;
    } else {
      var front, last := pieces[..|pieces| - 1], pieces[|pieces| - 1];
      assert pieces == front + [last];
      assert |Concat(pieces)| == |Concat(front)| + |last|;
      PiecesExtend(lines, i, chunks, front);
      CutAtOrInside(lines, i, |Concat(chunks)| + |Concat(pieces)|);
      CutsExtend(lines, chunks + front, last);
      ConcatOfConcatenation(chunks, pieces);
      assert chunks + pieces == chunks + front + [last];
    }
  }

  /** The state before line `i`: all earlier lines are in the closed chunks and the open one. */
  ghost predicate Packed(lines: seq<string>, i: nat, chunks: seq<string>, current: string)
    requires i <= |lines|
  {
    && Concat(chunks) + current == Concat(lines[..i])
    && Fit(chunks) && |current| <= MAX_MESSAGE_CHARS
    && CutsSpareLines(lines, chunks)
  }

  /** Closes the open chunk in front of line `i`. */
  lemma CloseBefore(lines: seq<string>, i: nat, chunks: seq<string>, current: string)
    requires i < |lines| && Packed(lines, i, chunks, current) && current != ""
    ensures Packed(lines, i, chunks + [current], "")
  {
    StartIsLength(lines, i);
    CutAtOrInside(lines, i, Start(lines, i));
    CutsExtend(lines, chunks, current);
    ConcatOneMore(chunks, current);
    assert Concat(chunks + [current]) + "" == Concat(chunks + [current]);
  }

  lemma AppendFitting(lines: seq<string>, i: nat, chunks: seq<string>, current: string)
    requires i < |lines| && Packed(lines, i, chunks, current) && |current| + |lines[i]| <= MAX_MESSAGE_CHARS
    ensures Packed(lines, i + 1, chunks, current + lines[i])
  {
    NextLine(lines, i);
    AppendAssociates(Concat(chunks), current, lines[i]);
  }

  lemma AppendOversized(lines: seq<string>, i: nat, chunks: seq<string>, pieces: seq<string>, rest: string)
    requires i < |lines| && Packed(lines, i, chunks, "") && |lines[i]| > MAX_MESSAGE_CHARS
    requires Concat(pieces) + rest == lines[i] && Fit(pieces) && |rest| <= MAX_MESSAGE_CHARS
    ensures Packed(lines, i + 1, chunks + pieces, rest)
  {
    NextLine(lines, i);
    StartIsLength(lines, i);
    assert Concat(chunks) + "" == Concat(chunks);
    PiecesExtend(lines, i, chunks, pieces);
    AppendAssociates(Concat(chunks), Concat(pieces), rest);
  }

  /** Places one line. */
  method PackLine(lines: seq<string>, i: nat, chunks: seq<string>, current: string) returns (packed: seq<string>, open: string)
    requires i < |lines| && lines[i] != "" && Packed(lines, i, chunks, current)
    ensures Packed(lines, i + 1, packed, open)
  {
    var line := lines[i];
    packed, open := chunks, current;
    if |line| > MAX_MESSAGE_CHARS {
      if open != "" {
        CloseBefore(lines, i, packed, open);
        packed, open := packed + [open], "";
      }
      var pieces, rest := CutLine(line);
      AppendOversized(lines, i, packed, pieces, rest);
      packed, open := packed + pieces, rest;
    } else {
      if |open| + |line| > MAX_MESSAGE_CHARS {
        CloseBefore(lines, i, packed, open);
        packed, open := packed + [open], "";
      }
      AppendFitting(lines, i, packed, open);
      open := open + line;
    }
  }

  /**
   * Splits a message into chunks that fit: together they are the message, none is empty unless the message is,
   * and no cut is inside a line that fits.
   */
  method SplitMessage(text: string) returns (chunks: seq<string>)
    ensures Concat(chunks) == text
    ensures forall chunk <- chunks :: |chunk| <= MAX_MESSAGE_CHARS && (text != "" ==> chunk != "")
    ensures forall j: nat :: 0 < j < |chunks| ==> SparesLines(Lines(text), |Concat(chunks[..j])|)
    ensures |text| <= MAX_MESSAGE_CHARS ==> chunks == [text]
  {
    if |text| <= MAX_MESSAGE_CHARS {
      ConcatOfOne(text);
      return [text];
    }
    var lines := Lines(text);
    LinesAreText(text);
    var current := "";
    chunks := [];
    assert lines[..0] == [];
    for i := 0 to |lines|
      invariant Packed(lines, i, chunks, current)
    {
      NoEmptyLine(text, i);
      chunks, current := PackLine(lines, i, chunks, current);
    }
    assert lines[..|lines|] == lines;
    ghost var closed := chunks;
    if current != "" {
      ConcatOneMore(chunks, current);
      chunks := chunks + [current];
    }
    forall j: nat | 0 < j < |chunks| ensures SparesLines(lines, |Concat(chunks[..j])|) {
      assert chunks[..j] == closed[..j];
      EveryCutSparesLines(lines, closed, j);
    }
  }
}
