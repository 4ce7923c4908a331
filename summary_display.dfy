/** The summary renderer (components/SummaryDisplay.tsx): the summary is cut
    into lines at `\n`; a blank line becomes a break, any other line a
    paragraph whose `**bold**` runs are found by `split` with the capturing
    pattern `(\*\*.*?\*\*)`. */
module SummaryDisplay {
  import opened Wrappers
  import opened Text

  /** A piece of a paragraph. */
  datatype Segment = Plain(text: string) | Bold(text: string)

  /** What one line of the summary renders as. */
  datatype Block = Break | Paragraph(segments: seq<Segment>)

  /** Where the lazy `.*?\*\*` that starts at `j` closes: the first `**` at or
      after `j`, provided no line terminator comes before it (`.` does not
      match one). */
  function CloseFrom(s: string, j: nat): (r: Option<nat>)
    requires j <= |s|
    ensures r.Some? ==> j <= r.value && MatchesAt(s, r.value, "**")
    decreases |s| - j
  {
    if j + 2 > |s| then None
    else if s[j] == '*' && s[j + 1] == '*' then
      assert s[j..j + 2] == "**";
      Some(j)
    else if IsLineTerminator(s[j]) then None
    else CloseFrom(s, j + 1)
  }

  /** The close found is the first `**`, and no line terminator comes before it. */
  lemma {:induction false} CloseFromFirst(s: string, j: nat)
    requires j <= |s| && CloseFrom(s, j).Some?
    ensures forall m | j <= m < CloseFrom(s, j).value :: !MatchesAt(s, m, "**")
    ensures forall m | j <= m < CloseFrom(s, j).value :: !IsLineTerminator(s[m])
    decreases |s| - j
  {
    if !(s[j] == '*' && s[j + 1] == '*') {
      CloseFromFirst(s, j + 1);
    }
  }

  /** No close is found only when every `**` at or after `j` has a line
      terminator before it. */
  lemma {:induction false} CloseFromNone(s: string, j: nat)
    requires j <= |s| && CloseFrom(s, j).None?
    ensures forall m | j <= m && MatchesAt(s, m, "**") :: exists k | j <= k < m :: IsLineTerminator(s[k])
    decreases |s| - j
  {
    if j + 2 <= |s| && !IsLineTerminator(s[j]) {
      CloseFromNone(s, j + 1);
      forall m | j <= m && MatchesAt(s, m, "**") ensures exists k | j <= k < m :: IsLineTerminator(s[k]) {
        if m > j {
          var k :| j + 1 <= k < m && IsLineTerminator(s[k]);
        }
      }
    } else if j + 2 <= |s| {
      forall m | j <= m && MatchesAt(s, m, "**") ensures exists k | j <= k < m :: IsLineTerminator(s[k]) {
        assert IsLineTerminator(s[j]);
      }
    }
  }

  /** Where a match of `\*\*.*?\*\*` that starts exactly at `q` ends, if there is one. */
  function MatchEnd(s: string, q: nat): (r: Option<nat>)
    requires q <= |s|
    ensures r.Some? ==> q + 4 <= r.value <= |s|
  {
    if MatchesAt(s, q, "**") then
      match CloseFrom(s, q + 2)
      case None => None
      case Some(k) => Some(k + 2)
    else None
  }

  /** A captured bold run: `**`, then text on one line holding no `**` that
      would have closed it earlier, then `**`. */
  predicate IsBoldToken(t: string)
  {
    && |t| >= 4
    && MatchesAt(t, 0, "**")
    && MatchesAt(t, |t| - 2, "**")
    && forall m | 2 <= m < |t| - 2 :: !MatchesAt(t, m, "**") && !IsLineTerminator(t[m])
  }

  lemma MatchEndIsBoldToken(s: string, q: nat)
    requires q <= |s| && MatchEnd(s, q).Some?
    ensures IsBoldToken(s[q..MatchEnd(s, q).value])
  {
    var e := MatchEnd(s, q).value;
    var t := s[q..e];
    var k := CloseFrom(s, q + 2).value;
    CloseFromFirst(s, q + 2);
    assert t[0..2] == s[q..q + 2];
    assert t[|t| - 2..] == s[k..k + 2];
    forall m | 2 <= m < |t| - 2 ensures !MatchesAt(t, m, "**") && !IsLineTerminator(t[m]) {
      assert t[m..m + 2] == s[q + m..q + m + 2];
      assert !MatchesAt(s, q + m, "**");
    }
  }

  /** `s.split(/(\*\*.*?\*\*)/)` continued from the end `p` of the last match,
      trying a match at each position from `q` on. */
  function TokenizeFrom(s: string, p: nat, q: nat): (r: seq<string>)
    requires p <= q <= |s|
    ensures |r| % 2 == 1
    decreases |s| - q
  {
    if q == |s| then [s[p..]]
    else
      match MatchEnd(s, q)
      case None => TokenizeFrom(s, p, q + 1)
      case Some(e) => [s[p..q], s[q..e]] + TokenizeFrom(s, e, e)
  }

  /** The parts at odd positions are the captured bold runs. */
  lemma {:induction false} TokenizeFromBold(s: string, p: nat, q: nat)
    requires p <= q <= |s|
    ensures forall i | 0 <= i < |TokenizeFrom(s, p, q)| && i % 2 == 1 :: IsBoldToken(TokenizeFrom(s, p, q)[i])
    decreases |s| - q
  {
    if q < |s| {
      match MatchEnd(s, q)
      case None =>
        TokenizeFromBold(s, p, q + 1);
      case Some(e) =>
        MatchEndIsBoldToken(s, q);
        TokenizeFromBold(s, e, e);
        var rest := TokenizeFrom(s, e, e);
        var r := [s[p..q], s[q..e]] + rest;
        assert forall i | 2 <= i < |r| :: r[i] == rest[i - 2];
    }
  }

  /** No match of the bold pattern starts at a position in `[a, b)`. */
  predicate NoMatchIn(s: string, a: nat, b: nat)
    requires a <= b <= |s|
  {
    forall m | a <= m < b :: MatchEnd(s, m).None?
  }

  /** The first two parts from `p` are plain text in which no match starts,
      then the match that starts right after it. */
  predicate SplitStep(s: string, p: nat, plain: string, bold: string)
  {
    && p + |plain| <= |s|
    && s[p..p + |plain|] == plain
    && NoMatchIn(s, p, p + |plain|)
    && MatchEnd(s, p + |plain|) == Some(p + |plain| + |bold|)
    && s[p + |plain|..p + |plain| + |bold|] == bold
  }

  /** `parts` is how `split` cuts `s[p..]`: plain text in which no match
      starts, then the leftmost match with its markers, and so on, ending with
      plain text that runs to the end of the line. */
  predicate SplitsAt(s: string, p: nat, parts: seq<string>)
    requires p <= |s|
    decreases |parts|
  {
    if |parts| <= 2 then |parts| == 1 && parts[0] == s[p..] && NoMatchIn(s, p, |s|)
    else SplitStep(s, p, parts[0], parts[1]) && SplitsAt(s, p + |parts[0]| + |parts[1]|, parts[2..])
  }

  /** Tokenizing from `q`, with no match starting between `p` and `q`, is a
      split of the rest of the line. */
  lemma {:induction false} TokenizeFromSplits(s: string, p: nat, q: nat)
    requires p <= q <= |s|
    requires NoMatchIn(s, p, q)
    ensures SplitsAt(s, p, TokenizeFrom(s, p, q))
    decreases |s| - q
  {
    if q < |s| {
      match MatchEnd(s, q)
      case None =>
        TokenizeFromSplits(s, p, q + 1);
      case Some(e) =>
        var rest := TokenizeFrom(s, e, e);
        TokenizeFromSplits(s, e, e);
        var r := [s[p..q], s[q..e]] + rest;
        assert TokenizeFrom(s, p, q) == r;
        assert r[2..] == rest;
    }
  }

  /** Positions where no match starts are passed over without a cut. */
  lemma {:induction false} TokenizeSkips(s: string, p: nat, q: nat, m: nat)
    requires p <= q <= m <= |s|
    requires NoMatchIn(s, q, m)
    ensures TokenizeFrom(s, p, q) == TokenizeFrom(s, p, m)
    decreases m - q
  {
    if q < m {
      assert MatchEnd(s, q).None?;
      TokenizeSkips(s, p, q + 1, m);
    }
  }

  /** Every split of the rest of a line is the one tokenizing finds, so a line
      has exactly one split. */
  lemma {:induction false} SplitIsTokenize(s: string, p: nat, parts: seq<string>)
    requires p <= |s| && SplitsAt(s, p, parts)
    ensures TokenizeFrom(s, p, p) == parts
    decreases |parts|, 1
  {
    if |parts| == 1 {
      TokenizeWithoutMatch(s, p);
    } else {
      SplitStepIsTokenize(s, p, parts[0], parts[1], parts[2..]);
      assert parts == [parts[0], parts[1]] + parts[2..];
    }
  }

  /** A step followed by a split of what comes after it is what tokenizing finds. */
  lemma {:induction false} SplitStepIsTokenize(s: string, p: nat, plain: string, bold: string, rest: seq<string>)
    requires SplitStep(s, p, plain, bold)
    requires p + |plain| + |bold| <= |s| && SplitsAt(s, p + |plain| + |bold|, rest)
    ensures TokenizeFrom(s, p, p) == [plain, bold] + rest
    decreases |rest| + 2, 0
  {
    SplitIsTokenize(s, p + |plain| + |bold|, rest);
    TokenizeAfterStep(s, p, plain, bold, rest);
  }

  /** Without a match the rest of the line is one plain part. */
  lemma TokenizeWithoutMatch(s: string, p: nat)
    requires p <= |s| && NoMatchIn(s, p, |s|)
    ensures TokenizeFrom(s, p, p) == [s[p..]]
  {
    TokenizeSkips(s, p, p, |s|);
  }

  /** Tokenizing from the start of a step cuts out its plain part and its
      match, then goes on after the match. */
  lemma TokenizeAfterStep(s: string, p: nat, plain: string, bold: string, rest: seq<string>)
    requires SplitStep(s, p, plain, bold)
    requires p + |plain| + |bold| <= |s|
    requires rest == TokenizeFrom(s, p + |plain| + |bold|, p + |plain| + |bold|)
    ensures TokenizeFrom(s, p, p) == [plain, bold] + rest
  {
    var q := p + |plain|;
    var e := q + |bold|;
    TokenizeSkips(s, p, p, q);
    TokenizeAtMatch(s, p, q, e);
  }

  /** A match at `q` cuts the line there. */
  lemma TokenizeAtMatch(s: string, p: nat, q: nat, e: nat)
    requires p <= q <= |s| && MatchEnd(s, q) == Some(e)
    ensures TokenizeFrom(s, p, q) == [s[p..q], s[q..e]] + TokenizeFrom(s, e, e)
  {
  }

  /** The parts of one line: plain text at even positions, bold runs with
      their markers at odd positions; they are the one split of the line, so
      no plain part holds the start of a match. */
  function BoldSplit(line: string): (parts: seq<string>)
    ensures |parts| % 2 == 1
    ensures forall i | 0 <= i < |parts| && i % 2 == 1 :: IsBoldToken(parts[i])
    ensures SplitsAt(line, 0, parts)
  {
    TokenizeFromBold(line, 0, 0);
    TokenizeFromSplits(line, 0, 0);
    TokenizeFrom(line, 0, 0)
  }

  /** `split` has one answer: any cut of the line into plain text without a
      match and leftmost matches is the one `BoldSplit` gives. */
  lemma BoldSplitUnique(line: string, parts: seq<string>)
    requires SplitsAt(line, 0, parts)
    ensures parts == BoldSplit(line)
  {
    SplitIsTokenize(line, 0, parts);
  }

  function Concat(parts: seq<string>): string
  {
    if parts == [] then "" else parts[0] + Concat(parts[1..])
  }

  lemma {:induction false} TokenizeFromConcat(s: string, p: nat, q: nat)
    requires p <= q <= |s|
    ensures Concat(TokenizeFrom(s, p, q)) == s[p..]
    decreases |s| - q
  {
    if q == |s| {
      assert Concat([s[p..]]) == s[p..] + Concat([]);
    } else {
      match MatchEnd(s, q)
      case None =>
        TokenizeFromConcat(s, p, q + 1);
      case Some(e) =>
        var rest := TokenizeFrom(s, e, e);
        var r := [s[p..q], s[q..e]] + rest;
        TokenizeFromConcat(s, e, e);
        assert TokenizeFrom(s, p, q) == r;
        var r1 := r[1..];
        assert r1[1..] == rest;
        assert Concat(r1) == s[q..e] + s[e..];
        assert Concat(r) == s[p..q] + Concat(r1);
        assert s[q..e] + s[e..] == s[q..];
        assert s[p..q] + s[q..] == s[p..];
    }
  }

  /** Nothing is lost or added: the parts of a line put together give the line. */
  lemma BoldSplitConcat(line: string)
    ensures Concat(BoldSplit(line)) == line
  {
    TokenizeFromConcat(line, 0, 0);
  }

  /** A part renders bold iff it starts and ends with `**`, showing what
      `slice(2, -2)` leaves of it. */
  function RenderPart(part: string): (r: Segment)
    ensures r.Bold? <==> StartsWith(part, "**") && EndsWith(part, "**")
    ensures r.Plain? ==> r.text == part
    ensures r.Bold? && |part| < 4 ==> r.text == ""
  {
    if StartsWith(part, "**") && EndsWith(part, "**") then
      Bold(if |part| >= 4 then part[2..|part| - 2] else "")
    else Plain(part)
  }

  /** A captured run renders as bold text with its markers removed. */
  lemma BoldTokenRendersBold(x: string)
    requires IsBoldToken("**" + x + "**")
    ensures RenderPart("**" + x + "**") == Bold(x)
  {
    var t := "**" + x + "**";
    assert t[..2] == "**" && t[|t| - 2..] == "**";
    assert t[2..|t| - 2] == x;
  }

  /** What one line renders as. */
  function RenderLine(line: string): (b: Block)
    ensures b.Break? <==> Trim(line) == ""
    ensures b.Paragraph? ==> |b.segments| == |BoldSplit(line)|
    ensures b.Paragraph? ==> forall i | 0 <= i < |b.segments| :: b.segments[i] == RenderPart(BoldSplit(line)[i])
  {
    if Trim(line) == "" then Break
    else Paragraph(seq(|BoldSplit(line)|, i requires 0 <= i < |BoldSplit(line)| => RenderPart(BoldSplit(line)[i])))
  }

  /** `renderSummary`: one block per line of the summary, in order. */
  function RenderSummary(summary: string): (blocks: seq<Block>)
    ensures |blocks| == |Split(summary, '\n')|
    ensures forall i | 0 <= i < |blocks| :: blocks[i] == RenderLine(Split(summary, '\n')[i])
  {
    var lines := Split(summary, '\n');
    seq(|lines|, i requires 0 <= i < |lines| => RenderLine(lines[i]))
  }

  /** The blocks follow the summary line by line: the lines put back
      together give the summary, and exactly the whitespace-only lines
      become breaks. */
  lemma RenderSummaryFollowsLines(summary: string)
    ensures Join(Split(summary, '\n'), "\n") == summary
    ensures forall i | 0 <= i < |RenderSummary(summary)| ::
      (RenderSummary(summary)[i].Break? <==> forall k | 0 <= k < |Split(summary, '\n')[i]| :: IsWhitespace(Split(summary, '\n')[i][k]))
  {
    JoinSplit(summary, '\n');
  }
}
