/** Splitting a long message into chunks (sentinel/utils.py). The source loops forever when the limit is
    below one and a line is longer, so callers must give a limit of at least one. */
module ChunkText {

  // ---------------------------------------------------------------- lines

  /** `s.split("\n")` */
  function Split(s: string): (r: seq<string>)
    ensures r != []
  {
    if s == [] then [[]]
    else if s[0] == '\n' then [[]] + Split(s[1..])
    else var r := Split(s[1..]); [[s[0]] + r[0]] + r[1..]
  }

  /** `"\n".join(lines)` */
  function Join(lines: seq<string>): string {
    if lines == [] then []
    else if |lines| == 1 then lines[0]
    else Join(lines[..|lines| - 1]) + "\n" + lines[|lines| - 1]
  }

  lemma {:induction false} JoinSnoc(lines: seq<string>, x: string)
    ensures Join(lines + [x]) == if lines == [] then x else Join(lines) + "\n" + x
  {
    assert (lines + [x])[..|lines|] == lines;
  }

  lemma {:induction false} JoinCons(x: string, lines: seq<string>)
    requires lines != []
    ensures Join([x] + lines) == x + "\n" + Join(lines)
  {
    var all := [x] + lines;
    if |lines| == 1 {
      assert all == [x] + [lines[0]];
      JoinSnoc([x], lines[0]);
    } else {
      var front, last := lines[..|lines| - 1], lines[|lines| - 1];
      JoinCons(x, front);
      assert all == ([x] + front) + [last];
      JoinSnoc([x] + front, last);
      assert (x + "\n" + Join(front)) + "\n" + last == x + "\n" + (Join(front) + "\n" + last);
    }
  }

  ghost predicate OneLine(s: string) {
    forall i :: 0 <= i < |s| ==> s[i] != '\n'
  }

  lemma {:induction false} JoinPrepend(c: char, rest: seq<string>)
    requires rest != []
    ensures Join([[c] + rest[0]] + rest[1..]) == [c] + Join(rest)
  {
    assert rest == [rest[0]] + rest[1..];
    if |rest| > 1 {
      JoinCons(rest[0], rest[1..]);
      JoinCons([c] + rest[0], rest[1..]);
      Regroup([c], rest[0], "\n", Join(rest[1..]));
    }
  }

  lemma {:induction false} Regroup(a: string, b: string, c: string, d: string)
    ensures (a + b) + c + d == a + (b + c + d)
    ensures (a + b + c) + d == a + b + (c + d)
  {
  }

  lemma {:induction false} SplitJoin(s: string)
    ensures Join(Split(s)) == s
    ensures forall i :: 0 <= i < |Split(s)| ==> OneLine(Split(s)[i])
  {
    if s == [] {
    } else {
      var rest := Split(s[1..]);
      SplitJoin(s[1..]);
      assert [s[0]] + s[1..] == s;
      if s[0] == '\n' {
        JoinCons([], rest);
        assert [] + "\n" + s[1..] == s;
      } else {
        JoinPrepend(s[0], rest);
      }
    }
  }

  /** Everything but the newlines, in order. */
  function Letters(s: string): string {
    if s == [] then [] else
    Letters(s[..|s| - 1]) + (if s[|s| - 1] == '\n' then [] else [s[|s| - 1]])
  }

  lemma {:induction false} LettersConcat(a: string, b: string)
    ensures Letters(a + b) == Letters(a) + Letters(b)
  {
    if b == [] {
      assert a + b == a;
    } else {
      assert (a + b)[..|a + b| - 1] == a + b[..|b| - 1];
      LettersConcat(a, b[..|b| - 1]);
    }
  }

  lemma {:induction false} LettersSeparated(a: string, b: string)
    ensures Letters(a + "\n" + b) == Letters(a) + Letters(b)
  {
    LettersConcat(a + "\n", b);
    LettersConcat(a, "\n");
    assert Letters("\n") == "" by { assert "\n"[..0] == ""; }
  }

  lemma {:induction false} LettersJoin(parts: seq<string>, x: string)
    ensures Letters(Join(parts + [x])) == Letters(Join(parts)) + Letters(x)
  {
    JoinSnoc(parts, x);
    if parts != [] { LettersSeparated(Join(parts), x); }
  }

  // ---------------------------------------------------------------- building chunks

  /** Finished chunks and the one being filled. */
  datatype Build = Build(parts: seq<string>, current: string)
  {
    /** The chunks if the text ended here. */
    function Out(): seq<string> {
      if current == [] then parts else parts + [current]
    }
  }

  /** Cuts full slices off a line that is over the limit; what is left fits. */
  function Sliced(b: Build, line: string, limit: nat): (r: (Build, string))
    requires limit >= 1
    ensures |r.1| <= limit
    decreases |line|
  {
    if |line| <= limit then (b, line)
    else Sliced(Build(b.Out() + [line[..limit]], []), line[limit..], limit)
  }

  /** A line that fits is appended to the current chunk, or starts the next one. */
  function Placed(b: Build, line: string, limit: nat): Build {
    if b.current == [] then Build(b.parts, line)
    else if |b.current| + 1 + |line| <= limit then Build(b.parts, b.current + "\n" + line)
    else Build(b.parts + [b.current], line)
  }

  function AddLine(b: Build, line: string, limit: nat): Build
    requires limit >= 1
  {
    var (c, rest) := Sliced(b, line, limit);
    Placed(c, rest, limit)
  }

  function AddLines(lines: seq<string>, limit: nat): Build
    requires limit >= 1
  {
    if lines == [] then Build([], []) else AddLine(AddLines(lines[..|lines| - 1], limit), lines[|lines| - 1], limit)
  }

  function Chunks(s: string, limit: nat): seq<string>
    requires limit >= 1
  {
    if |s| <= limit then [s] else AddLines(Split(s), limit).Out()
  }

  // ---------------------------------------------------------------- bounded, and nothing lost

  ghost predicate Bounded(parts: seq<string>, limit: nat) {
    forall i :: 0 <= i < |parts| ==> 0 < |parts[i]| <= limit
  }

  lemma {:induction false} Reassociate(a: string, b: string, c: string)
    ensures (a + b) + c == a + (b + c)
  {
  }

  lemma {:induction false} SlicedKeeps(b: Build, line: string, limit: nat)
    requires limit >= 1 && Bounded(b.Out(), limit)
    ensures var r := Sliced(b, line, limit);
            && Bounded(r.0.Out(), limit)
            && Letters(Join(r.0.Out())) + Letters(r.1) == Letters(Join(b.Out())) + Letters(line)
    decreases |line|
  {
    if |line| <= limit {
    } else {
      var head, tail := line[..limit], line[limit..];
      assert line == head + tail;
      var c := Build(b.Out() + [head], []);
      LettersConcat(head, tail);
      LettersJoin(b.Out(), head);
      SlicedKeeps(c, tail, limit);
      Reassociate(Letters(Join(b.Out())), Letters(head), Letters(tail));
    }
  }

  lemma {:induction false} PlacedText(b: Build, line: string, limit: nat)
    ensures var t, t' := Join(b.Out()), Join(Placed(b, line, limit).Out());
            && (line == [] && (b.current == [] || |b.current| >= limit) ==> t' == t)
            && (!(line == [] && (b.current == [] || |b.current| >= limit)) ==>
                  t' == if b.Out() == [] then line else t + "\n" + line)
  {
    if b.current == [] || |b.current| + 1 + |line| > limit {
      JoinSnoc(b.Out(), line);
    } else {
      JoinSnoc(b.parts, b.current);
      JoinSnoc(b.parts, b.current + "\n" + line);
      Regroup(Join(b.parts) + "\n", b.current, "\n", line);
    }
  }

  lemma {:induction false} PlacedLetters(b: Build, line: string, limit: nat)
    ensures Letters(Join(Placed(b, line, limit).Out())) == Letters(Join(b.Out())) + Letters(line)
  {
    if b.current != [] && |b.current| + 1 + |line| <= limit {
      LettersJoin(b.parts, b.current);
      LettersJoin(b.parts, b.current + "\n" + line);
      LettersSeparated(b.current, line);
      Reassociate(Letters(Join(b.parts)), Letters(b.current), Letters(line));
    } else if line == [] {
      assert Letters(Join(b.Out())) + [] == Letters(Join(b.Out()));
    } else {
      LettersJoin(b.Out(), line);
    }
  }

  lemma {:induction false} AddLineKeeps(b: Build, line: string, limit: nat)
    requires limit >= 1 && Bounded(b.Out(), limit)
    ensures Bounded(AddLine(b, line, limit).Out(), limit)
    ensures Letters(Join(AddLine(b, line, limit).Out())) == Letters(Join(b.Out())) + Letters(line)
  {
    SlicedKeeps(b, line, limit);
    var (c, rest) := Sliced(b, line, limit);
    PlacedLetters(c, rest, limit);
    PlacedBounded(c, rest, limit);
  }

  lemma {:induction false} PlacedBounded(b: Build, line: string, limit: nat)
    requires Bounded(b.Out(), limit) && |line| <= limit
    ensures Bounded(Placed(b, line, limit).Out(), limit)
  {
    assert b.current != [] ==> b.Out()[|b.parts|] == b.current;
    assert forall i :: 0 <= i < |b.parts| ==> b.Out()[i] == b.parts[i];
  }

  lemma {:induction false} AddLinesKeeps(lines: seq<string>, limit: nat)
    requires limit >= 1
    ensures Bounded(AddLines(lines, limit).Out(), limit)
    ensures Letters(Join(AddLines(lines, limit).Out())) == Letters(Join(lines))
  {
    if lines == [] {
    } else {
      var front, last := lines[..|lines| - 1], lines[|lines| - 1];
      AddLinesKeeps(front, limit);
      AddLineKeeps(AddLines(front, limit), last, limit);
      if front != [] { LettersSeparated(Join(front), last); }
    }
  }

  /** Every chunk is within the limit and the characters other than newlines all come through in order. */
  lemma {:induction false} ChunksKeep(s: string, limit: nat)
    requires limit >= 1
    ensures forall i :: 0 <= i < |Chunks(s, limit)| ==> |Chunks(s, limit)[i]| <= limit
    ensures Letters(Join(Chunks(s, limit))) == Letters(s)
  {
    SplitJoin(s);
    AddLinesKeeps(Split(s), limit);
  }

  // ---------------------------------------------------------------- when nothing at all is lost

  /** Length of the chunk being filled after some lines that all fit. */
  function Fill(lines: seq<string>, limit: nat): nat {
    if lines == [] then 0 else
    var before, last := Fill(lines[..|lines| - 1], limit), lines[|lines| - 1];
    if before > 0 && before + 1 + |last| <= limit then before + 1 + |last| else |last|
  }

  /** No line is over the limit, the text does not begin with a blank line, and no blank line comes just
      when the chunk being filled is full. */
  predicate Faithful(lines: seq<string>, limit: nat) {
    lines == [] ||
    var front, last := lines[..|lines| - 1], lines[|lines| - 1];
    Faithful(front, limit) && |last| <= limit && (last == [] ==> front != [] && Fill(front, limit) < limit)
  }

  /** The two texts already differ at a place that both have reached. */
  ghost predicate Diverged(out: string, text: string) {
    exists i :: 0 <= i < |out| && i < |text| && out[i] != text[i]
  }

  /** Blank lines were dropped and nothing followed them yet. */
  ghost predicate Lagging(b: Build, text: string) {
    var out := Join(b.Out());
    && b.current == [] && out <= text && (b.parts != [] ==> |out| < |text|)
    && forall i :: |out| <= i < |text| ==> text[i] == '\n'
  }

  lemma {:induction false} StaysDiverged(out: string, text: string, more: string, rest: string)
    requires Diverged(out, text)
    ensures Diverged(out + more, text + rest)
  {
    var i :| 0 <= i < |out| && i < |text| && out[i] != text[i];
    assert (out + more)[i] == out[i] && (text + rest)[i] == text[i];
  }

  lemma {:induction false} SlicedExtends(b: Build, line: string, limit: nat)
    requires limit >= 1
    ensures Join(b.Out()) <= Join(Sliced(b, line, limit).0.Out())
    decreases |line|
  {
    if |line| <= limit {
    } else {
      JoinSnoc(b.Out(), line[..limit]);
      SlicedExtends(Build(b.Out() + [line[..limit]], []), line[limit..], limit);
    }
  }

  lemma {:induction false} AddLineExtends(b: Build, line: string, limit: nat)
    requires limit >= 1
    ensures Join(b.Out()) <= Join(AddLine(b, line, limit).Out())
  {
    SlicedExtends(b, line, limit);
    var (c, rest) := Sliced(b, line, limit);
    PlacedText(c, rest, limit);
  }

  /** A line over the limit puts a newline where the text has none. */
  lemma {:induction false} LongLineDiverges(b: Build, text: string, line: string, limit: nat)
    requires limit >= 1 && |line| > limit && OneLine(line)
    requires Join(b.Out()) == text && (b.Out() == [] <==> text == [])
    ensures Diverged(Join(AddLine(b, line, limit).Out()), if b.Out() == [] then line else text + "\n" + line)
  {
    var head, tail := line[..limit], line[limit..];
    var c := Build(b.Out() + [head], []);
    JoinSnoc(b.Out(), head);
    var start := if b.Out() == [] then 0 else |text| + 1;
    var out, all := Join(AddLine(b, line, limit).Out()), if b.Out() == [] then line else text + "\n" + line;
    assert AddLine(b, line, limit) == AddLine(c, tail, limit);
    NonEmptyLineFollows(c, tail, limit);
    assert out[start + limit] == '\n' && all[start + limit] == line[limit];
  }

  /** Whatever a non-empty line does to finished chunks, a newline comes first. */
  lemma {:induction false} NonEmptyLineFollows(c: Build, line: string, limit: nat)
    requires limit >= 1 && c.current == [] && c.parts != [] && line != []
    ensures Join(c.Out()) + "\n" <= Join(AddLine(c, line, limit).Out())
  {
    if |line| <= limit {
      PlacedText(c, line, limit);
    } else {
      var d := Build(c.Out() + [line[..limit]], []);
      JoinSnoc(c.Out(), line[..limit]);
      AddLineExtends(d, line[limit..], limit);
      assert AddLine(c, line, limit) == AddLine(d, line[limit..], limit);
    }
  }

  /** After dropped blank lines the next line that has text lands too early. */
  lemma {:induction false} LaggingDiverges(b: Build, text: string, line: string, limit: nat)
    requires limit >= 1 && Lagging(b, text) && line != [] && OneLine(line)
    ensures Diverged(Join(AddLine(b, line, limit).Out()), text + "\n" + line)
  {
    var out, all := Join(AddLine(b, line, limit).Out()), text + "\n" + line;
    var first := if |line| <= limit then line else line[..limit];
    var c := if |line| <= limit then Placed(b, line, limit) else Build(b.Out() + [first], []);
    JoinSnoc(b.Out(), first);
    PlacedText(b, line, limit);
    var start := if b.parts == [] then 0 else |Join(b.Out())| + 1;
    assert Join(c.Out())[start] == line[0];
    if |line| > limit {
      AddLineExtends(c, line[limit..], limit);
      assert AddLine(b, line, limit) == AddLine(c, line[limit..], limit);
    }
    assert out[start] == line[0];
    assert all[start] == '\n';
  }

  ghost predicate Lost(b: Build, text: string) {
    Lagging(b, text) || Diverged(Join(b.Out()), text)
  }

  lemma {:induction false} StaysLost(b: Build, text: string, line: string, limit: nat)
    requires limit >= 1 && Lost(b, text) && OneLine(line)
    ensures Lost(AddLine(b, line, limit), text + "\n" + line)
  {
    if Diverged(Join(b.Out()), text) {
      AddLineExtends(b, line, limit);
      var out := Join(AddLine(b, line, limit).Out());
      StaysDiverged(Join(b.Out()), text, out[|Join(b.Out())|..], "\n" + line);
      Reassociate(text, "\n", line);
    } else if line == [] {
      PlacedText(b, line, limit);
    } else {
      LaggingDiverges(b, text, line, limit);
    }
  }

  /** After some lines that went through exactly, a line that fits goes through exactly too, unless it
      is blank and there is no room for it in the current chunk. */
  lemma {:induction false} NextLine(b: Build, line: string, limit: nat)
    requires limit >= 1 && |line| <= limit && |b.current| <= limit && (b.current == [] ==> b.parts == [])
    ensures var text := if b.Out() == [] then line else Join(b.Out()) + "\n" + line;
            && AddLine(b, line, limit) == Placed(b, line, limit)
            && (line != [] || 0 < |b.current| < limit ==>
                  Join(Placed(b, line, limit).Out()) == text && Placed(b, line, limit).current != [])
            && (line == [] && (b.current == [] || |b.current| == limit) ==> Lagging(Placed(b, line, limit), text))
  {
    PlacedText(b, line, limit);
  }

  lemma {:induction false} OnceLostAlwaysLost(lines: seq<string>, limit: nat)
    requires limit >= 1 && forall i :: 0 <= i < |lines| ==> OneLine(lines[i])
    ensures var b, text := AddLines(lines, limit), Join(lines);
            && (Faithful(lines, limit) ==>
                  && Join(b.Out()) == text && |b.current| == Fill(lines, limit) <= limit
                  && (lines != [] ==> b.current != []))
            && (!Faithful(lines, limit) ==> Lost(b, text))
  {
    if lines == [] {
    } else {
      var front, last := lines[..|lines| - 1], lines[|lines| - 1];
      OnceLostAlwaysLost(front, limit);
      assert lines == front + [last];
      JoinSnoc(front, last);
      var b, text := AddLines(front, limit), Join(front);
      if !Faithful(front, limit) {
        StaysLost(b, text, last, limit);
      } else if |last| > limit {
        LongLineDiverges(b, text, last, limit);
      } else {
        NextLine(b, last, limit);
      }
    }
  }

  /** Joining the chunks gives the text back exactly when it was short enough to be sent as it is, or
      every line fits and no blank line falls on the start of a chunk. */
  lemma {:induction false} RoundTripIff(s: string, limit: nat)
    requires limit >= 1
    ensures Join(Chunks(s, limit)) == s <==> |s| <= limit || Faithful(Split(s), limit)
  {
    SplitJoin(s);
    OnceLostAlwaysLost(Split(s), limit);
  }

  /** In particular when no line is blank or over the limit. */
  lemma {:induction false} PlainLinesAreFaithful(lines: seq<string>, limit: nat)
    requires forall i :: 0 <= i < |lines| ==> 0 < |lines[i]| <= limit
    ensures Faithful(lines, limit)
  {
    if lines == [] {
    } else {
      PlainLinesAreFaithful(lines[..|lines| - 1], limit);
    }
  }

  // ---------------------------------------------------------------- as few chunks as lines allow

  /** The first line of the second chunk would not have fitted into the first one. */
  predicate Close(p: string, q: string, limit: nat) {
    |p| + 1 + |Split(q)[0]| > limit
  }

  ghost predicate AllClose(parts: seq<string>, limit: nat) {
    forall k :: 0 <= k < |parts| - 1 ==> Close(parts[k], parts[k + 1], limit)
  }

  ghost predicate Tight(b: Build, limit: nat) {
    AllClose(b.Out(), limit) && (b.current == [] && b.parts != [] ==> |b.parts[|b.parts| - 1]| >= limit)
  }

  lemma {:induction false} FirstLine(s: string, rest: string)
    ensures OneLine(s) ==> Split(s) == [s]
    ensures Split(s + "\n" + rest)[0] == Split(s)[0]
  {
    if s == [] {
      assert (s + "\n" + rest)[0] == '\n';
    } else {
      FirstLine(s[1..], rest);
      assert s == [s[0]] + s[1..];
      assert (s + "\n" + rest)[1..] == s[1..] + "\n" + rest && (s + "\n" + rest)[0] == s[0];
      if OneLine(s) { assert forall i :: 0 <= i < |s[1..]| ==> s[1..][i] == s[i + 1]; }
    }
  }

  lemma {:induction false} CloseSnoc(parts: seq<string>, x: string, limit: nat)
    requires AllClose(parts, limit) && (parts != [] ==> Close(parts[|parts| - 1], x, limit))
    ensures AllClose(parts + [x], limit)
  {
  }

  lemma {:induction false} SlicedTight(b: Build, line: string, limit: nat)
    requires limit >= 1 && Tight(b, limit) && OneLine(line)
    ensures Tight(Sliced(b, line, limit).0, limit) && OneLine(Sliced(b, line, limit).1)
    decreases |line|
  {
    if |line| > limit {
      var head, tail := line[..limit], line[limit..];
      FirstLine(head, []);
      CloseSnoc(b.Out(), head, limit);
      assert forall i :: 0 <= i < |tail| ==> tail[i] == line[limit + i];
      SlicedTight(Build(b.Out() + [head], []), tail, limit);
    }
  }

  lemma {:induction false} PlacedTight(b: Build, line: string, limit: nat)
    requires Tight(b, limit) && OneLine(line)
    ensures Tight(Placed(b, line, limit), limit)
  {
    FirstLine(line, []);
    if b.current == [] {
      if line != [] { CloseSnoc(b.parts, line, limit); }
    } else if |b.current| + 1 + |line| <= limit {
      var longer := b.current + "\n" + line;
      FirstLine(b.current, line);
      var out, after := b.parts + [b.current], b.parts + [longer];
      forall k | 0 <= k < |after| - 1 ensures Close(after[k], after[k + 1], limit) {
        assert Close(out[k], out[k + 1], limit);
      }
    } else if line != [] {
      CloseSnoc(b.parts + [b.current], line, limit);
    }
  }

  lemma {:induction false} AddLinesTight(lines: seq<string>, limit: nat)
    requires limit >= 1 && forall i :: 0 <= i < |lines| ==> OneLine(lines[i])
    ensures Tight(AddLines(lines, limit), limit)
  {
    if lines != [] {
      var b, last := AddLines(lines[..|lines| - 1], limit), lines[|lines| - 1];
      AddLinesTight(lines[..|lines| - 1], limit);
      SlicedTight(b, last, limit);
      PlacedTight(Sliced(b, last, limit).0, Sliced(b, last, limit).1, limit);
    }
  }

  /** No chunk ends before it has to: the next line would not have fitted any more. */
  lemma {:induction false} ChunksTight(s: string, limit: nat)
    requires limit >= 1
    ensures AllClose(Chunks(s, limit), limit)
  {
    if |s| > limit {
      SplitJoin(s);
      AddLinesTight(Split(s), limit);
    }
  }

  // ---------------------------------------------------------------- the function itself

  method ChunkText(s: string, limit: nat) returns (parts: seq<string>)
    requires limit >= 1
    ensures parts == Chunks(s, limit)
    ensures forall i :: 0 <= i < |parts| ==> |parts[i]| <= limit
    ensures Letters(Join(parts)) == Letters(s)
    ensures Join(parts) == s <==> |s| <= limit || Faithful(Split(s), limit)
    ensures AllClose(parts, limit)
  {
    ChunksTight(s, limit);
    ChunksKeep(s, limit);
    RoundTripIff(s, limit);
    if |s| <= limit {
      return [s];
    }
    parts := [];
    var current: string := [];
    var lines := Split(s);
    for k := 0 to |lines|
      invariant Build(parts, current) == AddLines(lines[..k], limit)
    {
      assert lines[..k + 1][..k] == lines[..k];
      parts, current := TakeLine(parts, current, lines[k], limit);
    }
    assert lines[..|lines|] == lines;
    if current != [] {
      parts := parts + [current];
    }
  }

  /** The body of the loop over lines. */
  method TakeLine(parts0: seq<string>, current0: string, line0: string, limit: nat) returns (parts: seq<string>,
        current: string)
    requires limit >= 1
    ensures Build(parts, current) == AddLine(Build(parts0, current0), line0, limit)
  {
    parts, current := parts0, current0;
    var line := line0;
    while |line| > limit
      invariant Sliced(Build(parts, current), line, limit) == Sliced(Build(parts0, current0), line0, limit)
      decreases |line|
    {
      if current != [] {
        parts := parts + [current];
        current := [];
      }
      parts := parts + [line[..limit]];
      line := line[limit..];
    }
    if current == [] {
      current := line;
    } else if |current| + 1 + |line| <= limit {
      current := current + "\n" + line;
    } else {
      parts := parts + [current];
      current := line;
    }
  }
}
