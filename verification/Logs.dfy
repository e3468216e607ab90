/** The supervisor's line splitter: how a child's output becomes log lines, however the
    reads happen to cut it. */
module Logs {
  import opened Prelude

  const NEWLINE: byte := 10
  const MAX_LINE: nat := 64 * 1024

  // ---------------------------------------------------------------- what the output means

  /** The pieces between newlines; the last one is unterminated. */
  function Split(s: seq<byte>): (pieces: seq<seq<byte>>)
    ensures pieces != []
  {
    if s == [] then [[]]
    else
      var before := Split(s[..|s| - 1]);
      var b := s[|s| - 1];
      if b == NEWLINE then before + [[]]
      else before[..|before| - 1] + [before[|before| - 1] + [b]]
  }

  function Join(pieces: seq<seq<byte>>): seq<byte>
    requires pieces != []
  {
    if |pieces| == 1 then pieces[0]
    else Join(pieces[..|pieces| - 1]) + [NEWLINE] + pieces[|pieces| - 1]
  }

  ghost predicate NoNewlines(pieces: seq<seq<byte>>) {
    forall i :: 0 <= i < |pieces| ==> NEWLINE !in pieces[i]
  }

  lemma {:induction false} JoinEnd(init: seq<seq<byte>>, last: seq<byte>)
    ensures Join(init + [last]) == (if init == [] then last else Join(init) + [NEWLINE] + last)
  {
    assert (init + [last])[..|init|] == init;
  }

  lemma {:induction false} JoinLast(init: seq<seq<byte>>, last: seq<byte>, b: byte)
    ensures Join(init + [last + [b]]) == Join(init + [last]) + [b]
  {
    JoinEnd(init, last);
    JoinEnd(init, last + [b]);
    hide Join;
    if init != [] {
      assert Join(init) + [NEWLINE] + (last + [b]) == Join(init) + [NEWLINE] + last + [b];
    }
  }

  lemma {:induction false} SplitLeavesNoNewline(s: seq<byte>)
    ensures NoNewlines(Split(s))
  {
    if s != [] {
      var init, b := s[..|s| - 1], s[|s| - 1];
      SplitLeavesNoNewline(init);
      var before, after := Split(init), Split(s);
      forall i | 0 <= i < |after| ensures NEWLINE !in after[i] {
        assert i < |before| ==> NEWLINE !in before[i];
      }
    }
  }

  lemma JoinTerminated(pieces: seq<seq<byte>>)
    requires pieces != []
    ensures Join(pieces + [[]]) == Join(pieces) + [NEWLINE]
  {
    JoinEnd(pieces, []);
    hide Join;
    assert Join(pieces) + [NEWLINE] + [] == Join(pieces) + [NEWLINE];
  }

  lemma JoinLonger(pieces: seq<seq<byte>>, b: byte)
    requires pieces != []
    ensures Join(pieces[..|pieces| - 1] + [pieces[|pieces| - 1] + [b]]) == Join(pieces) + [b]
  {
    hide Join;
    assert pieces == pieces[..|pieces| - 1] + [pieces[|pieces| - 1]];
    JoinLast(pieces[..|pieces| - 1], pieces[|pieces| - 1], b);
  }

  /** Splitting loses nothing. */
  lemma {:induction false} SplitInverts(s: seq<byte>)
    ensures Join(Split(s)) == s
  {
    if s != [] {
      var init, b := s[..|s| - 1], s[|s| - 1];
      SplitInverts(init);
      Grow(init, b);
      assert s == init + [b];
      hide Join, Split;
      if b == NEWLINE {
        JoinTerminated(Split(init));
      } else {
        JoinLonger(Split(init), b);
      }
    }
  }

  lemma Grow(s: seq<byte>, b: byte)
    ensures var before, after := Split(s), Split(s + [b]);
            if b == NEWLINE then after == before + [[]]
            else after == before[..|before| - 1] + [before[|before| - 1] + [b]]
  {
    assert (s + [b])[..|s|] == s;
  }

  lemma UniqueTerminated(init: seq<seq<byte>>)
    requires init != [] && Split(Join(init)) == init
    ensures Split(Join(init + [[]])) == init + [[]]
  {
    JoinTerminated(init);
    Grow(Join(init), NEWLINE);
    hide Split, Join;
  }

  lemma UniqueLonger(init: seq<seq<byte>>, rest: seq<byte>, b: byte)
    requires Split(Join(init + [rest])) == init + [rest] && b != NEWLINE
    ensures Split(Join(init + [rest + [b]])) == init + [rest + [b]]
  {
    JoinLast(init, rest, b);
    Grow(Join(init + [rest]), b);
    hide Split, Join;
    assert (init + [rest])[..|init|] == init;
  }

  /** Any other list of newline-free pieces that spells the stream is the same list. */
  lemma {:induction false} SplitUnique(pieces: seq<seq<byte>>)
    requires pieces != [] && NoNewlines(pieces)
    ensures Split(Join(pieces)) == pieces
    decreases |pieces|, |pieces[|pieces| - 1]|
  {
    var init, last := pieces[..|pieces| - 1], pieces[|pieces| - 1];
    assert pieces == init + [last];
    if last != [] {
      var rest, b := last[..|last| - 1], last[|last| - 1];
      assert last == rest + [b] && b in last;
      assert forall x :: x in rest ==> x in last;
      hide Split, Join;
      SplitUnique(init + [rest]);
      UniqueLonger(init, rest, b);
    } else if init != [] {
      hide Split, Join;
      SplitUnique(init);
      UniqueTerminated(init);
    }
  }

  function Short(pieces: seq<seq<byte>>): seq<seq<byte>> {
    if pieces == [] then []
    else
      var last := pieces[|pieces| - 1];
      Short(pieces[..|pieces| - 1]) + (if |last| <= MAX_LINE then [last] else [])
  }

  function LongCount(pieces: seq<seq<byte>>): nat {
    if pieces == [] then 0
    else LongCount(pieces[..|pieces| - 1]) + (if |pieces[|pieces| - 1]| > MAX_LINE then 1 else 0)
  }

  /** The log lines of an output: its terminated pieces, blank ones too, and a non-empty
      unterminated rest, without those over the limit. */
  function LogLines(s: seq<byte>): seq<seq<byte>> {
    var pieces := Split(s);
    var last := pieces[|pieces| - 1];
    Short(pieces[..|pieces| - 1]) + (if last != [] && |last| <= MAX_LINE then [last] else [])
  }

  // ---------------------------------------------------------------- the reader

  function Concat(chunks: seq<seq<byte>>): seq<byte> {
    if chunks == [] then [] else Concat(chunks[..|chunks| - 1]) + chunks[|chunks| - 1]
  }

  /** Where the reader stands after a prefix of the stream. */
  ghost predicate At(s: seq<byte>, lines: seq<seq<byte>>, line: seq<byte>, oversized: bool, count: nat) {
    var pieces := Split(s);
    var last := pieces[|pieces| - 1];
    && lines == Short(pieces[..|pieces| - 1])
    && (oversized <==> |last| > MAX_LINE)
    && line == (if oversized then [] else last)
    && count == LongCount(pieces)
  }

  lemma GrowTerminated(s: seq<byte>)
    ensures var before, after := Split(s), Split(s + [NEWLINE]);
            && after[|after| - 1] == [] && after[..|after| - 1] == before
            && LongCount(after) == LongCount(before)
            && Short(after[..|after| - 1]) ==
               Short(before[..|before| - 1]) + (if |before[|before| - 1]| <= MAX_LINE then [before[|before| - 1]] else [])
  {
    Grow(s, NEWLINE);
    var before := Split(s);
    assert (before + [[]])[..|before|] == before;
  }

  lemma GrowPiece(s: seq<byte>, b: byte)
    requires b != NEWLINE
    ensures var before, after := Split(s), Split(s + [b]);
            && after[|after| - 1] == before[|before| - 1] + [b] && after[..|after| - 1] == before[..|before| - 1]
            && LongCount(after) == LongCount(before) + (if |before[|before| - 1]| == MAX_LINE then 1 else 0)
  {
    Grow(s, b);
    var before, after := Split(s), Split(s + [b]);
    assert after[..|after| - 1] == before[..|before| - 1];
  }

  /** One byte. */
  method Feed(ghost s: seq<byte>, b: byte, lines0: seq<seq<byte>>, line0: seq<byte>, oversized0: bool, count0: nat)
    returns (lines: seq<seq<byte>>, line: seq<byte>, oversized: bool, count: nat)
    requires At(s, lines0, line0, oversized0, count0)
    ensures At(s + [b], lines, line, oversized, count)
  {
    lines, line, oversized, count := lines0, line0, oversized0, count0;
    if b == NEWLINE {
      GrowTerminated(s);
      hide Split, Short, LongCount;
      if !oversized {
        lines := lines + [line];
      }
      line := [];
      oversized := false;
    } else {
      GrowPiece(s, b);
      hide Split, Short, LongCount;
      if !oversized {
        if |line| == MAX_LINE {
          count := count + 1;
          line := [];
          oversized := true;
        } else {
          line := line + [b];
        }
      }
    }
  }

  /** The bytes of one read. */
  method FeedAll(ghost s: seq<byte>, bytes: seq<byte>, lines0: seq<seq<byte>>, line0: seq<byte>, oversized0: bool, count0: nat)
    returns (lines: seq<seq<byte>>, line: seq<byte>, oversized: bool, count: nat)
    requires At(s, lines0, line0, oversized0, count0)
    ensures At(s + bytes, lines, line, oversized, count)
  {
    hide At;
    lines, line, oversized, count := lines0, line0, oversized0, count0;
    assert s + bytes[..0] == s;
    for i := 0 to |bytes|
      invariant At(s + bytes[..i], lines, line, oversized, count)
    {
      assert s + bytes[..i + 1] == s + bytes[..i] + [bytes[i]];
      lines, line, oversized, count := Feed(s + bytes[..i], bytes[i], lines, line, oversized, count);
    }
    assert bytes[..|bytes|] == bytes;
  }

  /** Read a pipe to its end or to a read error: for every stream and every way of cutting
      it into reads, exactly its log lines come out, in order, and the counter rises by the
      number of pieces left out. */
  method Read(chunks: seq<seq<byte>>, failed: bool)
    returns (lines: seq<seq<byte>>, oversizedLines: nat, readErrors: nat)
    ensures lines == LogLines(Concat(chunks))
    ensures oversizedLines == LongCount(Split(Concat(chunks)))
    ensures readErrors == if failed then 1 else 0
  {
    var line: seq<byte>, oversized := [], false;
    lines, oversizedLines := [], 0;
    hide At, LogLines, Split, LongCount;
    Start();
    for k := 0 to |chunks|
      invariant At(Concat(chunks[..k]), lines, line, oversized, oversizedLines)
    {
      assert chunks[..k + 1][..k] == chunks[..k];
      lines, line, oversized, oversizedLines :=
        FeedAll(Concat(chunks[..k]), chunks[k], lines, line, oversized, oversizedLines);
    }
    assert chunks[..|chunks|] == chunks;
    readErrors := if failed then 1 else 0;
    Stop(Concat(chunks), lines, line, oversized, oversizedLines);
    if !oversized && line != [] {
      lines := lines + [line];
    }
  }

  lemma Start()
    ensures At([], [], [], false, 0)
  {
    var pieces := Split([]);
    assert pieces == [[]] && pieces[..0] == [];
    assert LongCount(pieces) == LongCount(pieces[..0]);
  }

  lemma Stop(s: seq<byte>, lines: seq<seq<byte>>, line: seq<byte>, oversized: bool, count: nat)
    requires At(s, lines, line, oversized, count)
    ensures LogLines(s) == lines + (if !oversized && line != [] then [line] else []) && count == LongCount(Split(s))
  {
  }
}
