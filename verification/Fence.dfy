/** Fenced code blocks of a shared session, and a reader for them after section 4.5 of the CommonMark specification. */
module Fence {
  import opened Options

  // ---------------------------------------------------------------- the renderer

  /** How many times the character stands at the front. */
  function Leading(c: char, s: string): (n: nat)
    ensures n <= |s| && (forall i | 0 <= i < n :: s[i] == c) && (n < |s| ==> s[n] != c)
  {
    if s != "" && s[0] == c then 1 + Leading(c, s[1..]) else 0
  }

  /** The lengths of the maximal runs of backticks. */
  function Runs(s: string): seq<nat>
    decreases |s|
  {
    if s == "" then []
    else if s[0] != '`' then Runs(s[1..])
    else [Leading('`', s)] + Runs(s[Leading('`', s)..])
  }

  function MaxOf(ns: seq<nat>): nat
    requires ns != []
  {
    if |ns| == 1 then ns[0]
    else
      var rest := MaxOf(ns[1..]);
      if ns[0] > rest then ns[0] else rest
  }

  function ComputeFenceWidth(content: string): nat {
    var runs := Runs(content);
    if runs == [] then 3
    else if MaxOf(runs) + 1 > 3 then MaxOf(runs) + 1 else 3
  }

  function Ticks(n: nat): string {
    seq(n, i => '`')
  }

  function RenderFencedText(content: string): string {
    var fence := Ticks(ComputeFenceWidth(content));
    fence + "text\n" + content + "\n" + fence
  }

  // ---------------------------------------------------------------- runs of backticks

  ghost predicate RunAt(s: string, i: nat, k: nat) {
    i + k <= |s| && forall j | i <= j < i + k :: s[j] == '`'
  }

  ghost predicate HasRun(s: string, k: nat) {
    exists i: nat :: RunAt(s, i, k)
  }

  lemma {:induction false} RunsBound(s: string, i: nat, k: nat)
    requires k > 0 && RunAt(s, i, k)
    ensures Runs(s) != [] && k <= MaxOf(Runs(s))
    decreases |s|
  {
    var n := Leading('`', s);
    if n == 0 {
      RunsBound(s[1..], i - 1, k);
    } else if i < n {
      MaxOfAtLeast(Runs(s), 0);
    } else {
      assert RunAt(s[n..], i - n, k);
      RunsBound(s[n..], i - n, k);
      MaxOfTail(Runs(s));
      assert Runs(s)[1..] == Runs(s[n..]);
    }
  }

  lemma {:induction false} MaxOfAtLeast(ns: seq<nat>, i: nat)
    requires i < |ns|
    ensures ns[i] <= MaxOf(ns)
    decreases |ns|
  {
    if i > 0 { MaxOfAtLeast(ns[1..], i - 1); }
  }

  lemma MaxOfTail(ns: seq<nat>)
    requires |ns| > 1
    ensures MaxOf(ns[1..]) <= MaxOf(ns)
  {
  }

  lemma {:induction false} RunsAttained(s: string) returns (i: nat)
    requires Runs(s) != []
    ensures RunAt(s, i, MaxOf(Runs(s)))
    decreases |s|
  {
    var n := Leading('`', s);
    if n == 0 {
      i := RunsAttained(s[1..]);
      i := i + 1;
    } else {
      assert Runs(s)[1..] == Runs(s[n..]);
      i := 0;
      if Runs(s[n..]) != [] && MaxOf(Runs(s[n..])) > n {
        i := RunsAttained(s[n..]);
        i := i + n;
      }
    }
  }

  /** The fence has the least width from 3 up that does not occur as a run of backticks in the content. */
  lemma FenceWidthIsLeast(content: string)
    ensures ComputeFenceWidth(content) >= 3
    ensures forall k: nat | k >= ComputeFenceWidth(content) :: !HasRun(content, k)
    ensures forall k: nat | 3 <= k < ComputeFenceWidth(content) :: HasRun(content, k)
  {
    var runs := Runs(content);
    forall k: nat | k >= ComputeFenceWidth(content) ensures !HasRun(content, k) {
      forall i: nat | RunAt(content, i, k) ensures false {
        RunsBound(content, i, k);
      }
    }
    forall k: nat | 3 <= k < ComputeFenceWidth(content) ensures HasRun(content, k) {
      var i := RunsAttained(content);
      assert RunAt(content, i, k);
    }
  }

  // ---------------------------------------------------------------- the reader

  /** The lines of a text: a line ending is a newline, a carriage return, or the two together. */
  function Lines(s: string): (lines: seq<string>)
    ensures lines != []
  {
    if s == "" then [""]
    else if s[0] == '\r' && |s| > 1 && s[1] == '\n' then [""] + Lines(s[2..])
    else if s[0] == '\n' || s[0] == '\r' then [""] + Lines(s[1..])
    else
      var rest := Lines(s[1..]);
      [[s[0]] + rest[0]] + rest[1..]
  }

  predicate Blank(s: string) {
    forall i | 0 <= i < |s| :: s[i] == ' ' || s[i] == '\t'
  }

  /** An opening fence: up to three spaces, at least three backticks, and an info string without backticks. */
  predicate Opens(line: string) {
    var indent := Leading(' ', line);
    var width := Leading('`', line[indent..]);
    indent <= 3 && width >= 3 && '`' !in line[indent + width..]
  }

  /** A closing fence: up to three spaces, at least as many backticks as the opening one, then only white space. */
  predicate Closes(line: string, width: nat) {
    var indent := Leading(' ', line);
    var n := Leading('`', line[indent..]);
    indent <= 3 && n >= width && Blank(line[indent + n..])
  }

  /** Content lines lose as much indentation as the opening fence has. */
  function Unindent(line: string, indent: nat): string {
    var n := Leading(' ', line);
    line[if n < indent then n else indent..]
  }

  datatype Block = Block(info: string, body: seq<string>, rest: seq<string>)

  function Body(lines: seq<string>, width: nat, indent: nat): seq<string> {
    if lines == [] || Closes(lines[0], width) then []
    else [Unindent(lines[0], indent)] + Body(lines[1..], width, indent)
  }

  /** The lines after the closing fence, if there is one. */
  function After(lines: seq<string>, width: nat): seq<string> {
    if lines == [] then []
    else if Closes(lines[0], width) then lines[1..]
    else After(lines[1..], width)
  }

  /** Reads the fenced code block that a document starts with. */
  function Read(document: string): Option<Block> {
    var lines := Lines(document);
    if !Opens(lines[0]) then None
    else
      var indent := Leading(' ', lines[0]);
      var width := Leading('`', lines[0][indent..]);
      Some(Block(lines[0][indent + width..], Body(lines[1..], width, indent), After(lines[1..], width)))
  }

  // ---------------------------------------------------------------- lines

  predicate NoBreak(s: string) {
    forall i | 0 <= i < |s| :: s[i] != '\n' && s[i] != '\r'
  }

  predicate EndsInReturn(s: string) {
    s != "" && s[|s| - 1] == '\r'
  }

  lemma {:induction false} OneLine(s: string)
    requires NoBreak(s)
    ensures Lines(s) == [s]
    decreases |s|
  {
    if s != "" {
      OneLine(s[1..]);
      assert [s[0]] + s[1..] == s;
    }
  }

  /** The lines that a newline after the text leaves: a final carriage return becomes part of that line ending. */
  function LinesBeforeNewline(a: string): seq<string> {
    if EndsInReturn(a) then Lines(a)[..|Lines(a)| - 1] else Lines(a)
  }

  /** A text that ends in a carriage return has an empty last line after it. */
  lemma {:induction false} LastLine(a: string)
    ensures EndsInReturn(a) ==> |Lines(a)| >= 2
    decreases |a|
  {
    if |a| > 1 {
      LastLine(a[1..]);
      LastLine(a[2..]);
    }
  }

  lemma AfterBoth(a: string)
    requires |a| > 1 && a[0] == '\r' && a[1] == '\n'
    ensures LinesBeforeNewline(a) == [""] + LinesBeforeNewline(a[2..])
  {
    LastLine(a[2..]);
  }

  lemma AfterBreak(a: string)
    requires a != "" && a != "\r" && (a[0] == '\n' || (a[0] == '\r' && a[1] != '\n'))
    ensures LinesBeforeNewline(a) == [""] + LinesBeforeNewline(a[1..])
  {
    LastLine(a[1..]);
  }

  lemma AfterChar(a: string)
    requires a != "" && a[0] != '\n' && a[0] != '\r'
    ensures LinesBeforeNewline(a[1..]) != []
    ensures var rest := LinesBeforeNewline(a[1..]); LinesBeforeNewline(a) == [[a[0]] + rest[0]] + rest[1..]
  {
    LastLine(a[1..]);
  }

  lemma LinesAfterReturn(s: string)
    requires |s| >= 2 && s[0] == '\r' && s[1] == '\n'
    ensures Lines(s) == [""] + Lines(s[2..])
  {
  }

  lemma LinesAfterBreak(s: string)
    requires s != "" && (s[0] == '\n' || (s[0] == '\r' && !(|s| > 1 && s[1] == '\n')))
    ensures Lines(s) == [""] + Lines(s[1..])
  {
  }

  lemma LinesAfterChar(s: string)
    requires s != "" && s[0] != '\n' && s[0] != '\r'
    ensures Lines(s) == [[s[0]] + Lines(s[1..])[0]] + Lines(s[1..])[1..]
  {
  }

  lemma ReturnAlone(b: string)
    ensures Lines("\r" + "\n" + b) == LinesBeforeNewline("\r") + Lines(b)
  {
    var s := "\r" + "\n" + b;
    LinesAfterReturn(s);
    assert s[2..] == b;
    assert LinesBeforeNewline("\r") == [""] by {
      LinesAfterBreak("\r");
      assert "\r"[1..] == "" && Lines("") == [""];
    }
  }

  /** A newline after a text ends its last line, unless the text ends in a carriage return that it belongs to. */
  lemma {:induction false} LinesOfJoin(a: string, b: string)
    ensures Lines(a + "\n" + b) == LinesBeforeNewline(a) + Lines(b)
    decreases |a|
  {
    var s := a + "\n" + b;
    if a == "" {
      LinesAfterBreak(s);
      assert s[1..] == b;
    } else if a == "\r" {
      ReturnAlone(b);
    } else if a[0] == '\r' && a[1] == '\n' {
      assert s[2..] == a[2..] + "\n" + b;
      LinesOfJoin(a[2..], b);
      LinesAfterReturn(s);
      AfterBoth(a);
    } else if a[0] == '\n' || a[0] == '\r' {
      assert s[1..] == a[1..] + "\n" + b;
      LinesOfJoin(a[1..], b);
      LinesAfterBreak(s);
      AfterBreak(a);
    } else {
      assert s[1..] == a[1..] + "\n" + b;
      LinesOfJoin(a[1..], b);
      LinesAfterChar(s);
      AfterChar(a);
    }
  }

  lemma {:induction false} FirstLineIsPrefix(s: string)
    ensures Lines(s)[0] <= s
    decreases |s|
  {
    if s != "" { FirstLineIsPrefix(s[1..]); }
  }

  /** A run of backticks in a line is one in the text. */
  lemma {:induction false} RunsOfLines(s: string, l: nat, i: nat, k: nat)
    requires l < |Lines(s)| && RunAt(Lines(s)[l], i, k)
    ensures HasRun(s, k)
    decreases |s|
  {
    FirstLineIsPrefix(s);
    if l == 0 {
      assert RunAt(s, i, k);
    } else {
      var skip := if s[0] == '\r' && |s| > 1 && s[1] == '\n' then 2 else 1;
      var l' := if s[0] == '\n' || s[0] == '\r' then l - 1 else l;
      assert Lines(s)[l] == Lines(s[skip..])[l'];
      RunsOfLines(s[skip..], l', i, k);
      var j: nat :| RunAt(s[skip..], j, k);
      assert RunAt(s, j + skip, k);
    }
  }

  // ---------------------------------------------------------------- the round trip

  /** No line of the content can close the block. */
  lemma NoLineCloses(content: string, l: nat)
    requires l < |Lines(content)|
    ensures !Closes(Lines(content)[l], ComputeFenceWidth(content))
  {
    var line := Lines(content)[l];
    var indent := Leading(' ', line);
    var n := Leading('`', line[indent..]);
    assert RunAt(line, indent, n) by {
      forall j | indent <= j < indent + n ensures line[j] == '`' { assert line[indent..][j - indent] == '`'; }
    }
    FenceWidthIsLeast(content);
    RunsOfLines(content, l, indent, n);
  }

  lemma UnindentNone(line: string)
    ensures Unindent(line, 0) == line
  {
  }

  lemma BodyStep(line: string, rest: seq<string>, width: nat)
    requires !Closes(line, width)
    ensures Body([line] + rest, width, 0) == [line] + Body(rest, width, 0)
    ensures After([line] + rest, width) == After(rest, width)
  {
    UnindentNone(line);
    assert ([line] + rest)[1..] == rest;
  }

  lemma BodyEnds(fence: string, width: nat)
    requires Closes(fence, width)
    ensures Body([fence], width, 0) == [] && After([fence], width) == []
  {
  }

  lemma {:induction false} BodyUntilFence(lines: seq<string>, fence: string, width: nat)
    requires forall l | 0 <= l < |lines| :: !Closes(lines[l], width)
    requires Closes(fence, width)
    ensures Body(lines + [fence], width, 0) == lines && After(lines + [fence], width) == []
    decreases |lines|
  {
    if lines == [] {
      BodyEnds(fence, width);
      assert lines + [fence] == [fence];
    } else {
      BodyUntilFence(lines[1..], fence, width);
      BodyStep(lines[0], lines[1..] + [fence], width);
      assert lines + [fence] == [lines[0]] + (lines[1..] + [fence]);
    }
  }

  lemma {:induction false} LeadingTicks(n: nat, t: string)
    requires t == "" || t[0] != '`'
    ensures Leading('`', Ticks(n) + t) == n
  {
    if n == 0 {
      assert Ticks(0) + t == t;
    } else {
      assert (Ticks(n) + t)[1..] == Ticks(n - 1) + t;
      LeadingTicks(n - 1, t);
    }
  }

  lemma FenceLines(width: nat)
    requires width >= 3
    ensures Opens(Ticks(width) + "text") && Leading('`', Ticks(width) + "text") == width
    ensures Closes(Ticks(width), width)
  {
    LeadingTicks(width, "text");
    LeadingTicks(width, "");
    assert Ticks(width) + "" == Ticks(width);
    assert (Ticks(width) + "text")[width..] == "text";
    assert (Ticks(width) + "text")[0..] == Ticks(width) + "text" && Ticks(width)[0..] == Ticks(width);
  }

  lemma OneLineThen(head: string, b: string)
    requires NoBreak(head)
    ensures Lines(head + "\n" + b) == [head] + Lines(b)
  {
    OneLine(head);
    LinesOfJoin(head, b);
  }

  /** The lines of the rendered block. */
  lemma RenderedLines(content: string, fence: string)
    requires fence == Ticks(ComputeFenceWidth(content))
    ensures Lines(RenderFencedText(content)) == [fence + "text"] + (LinesBeforeNewline(content) + [fence])
  {
    assert RenderFencedText(content) == (fence + "text") + "\n" + (content + "\n" + fence);
    OneLineThen(fence + "text", content + "\n" + fence);
    LinesOfJoin(content, fence);
    OneLine(fence);
  }

  /** What a reader makes of the rendered block. */
  lemma ReadsRendered(content: string)
    ensures Read(RenderFencedText(content)) == Some(Block("text", LinesBeforeNewline(content), []))
  {
    var width := ComputeFenceWidth(content);
    var fence := Ticks(width);
    var body := LinesBeforeNewline(content);
    RenderedLines(content, fence);
    FenceWidthIsLeast(content);
    FenceLines(width);
    forall l | 0 <= l < |body| ensures !Closes(body[l], width) {
      NoLineCloses(content, l);
    }
    BodyUntilFence(body, fence, width);
    assert (fence + "text")[0..] == fence + "text" && (fence + "text")[width..] == "text";
  }

  /** A reader gets back the lines of the content and nothing after them, but for a final carriage return. */
  lemma RoundTrip(content: string)
    ensures Read(RenderFencedText(content)) == Some(Block("text", Lines(content), [])) <==> !EndsInReturn(content)
  {
    ReadsRendered(content);
    assert EndsInReturn(content) ==> |LinesBeforeNewline(content)| < |Lines(content)|;
  }

  /** The lines with newlines between them. */
  function Join(lines: seq<string>): string
    requires lines != []
  {
    if |lines| == 1 then lines[0] else lines[0] + "\n" + Join(lines[1..])
  }

  lemma {:induction false} JoinOfLines(s: string)
    requires '\r' !in s
    ensures Join(Lines(s)) == s
    decreases |s|
  {
    if s != "" {
      JoinOfLines(s[1..]);
      assert s == [s[0]] + s[1..];
      var rest := Lines(s[1..]);
      if s[0] == '\n' {
        assert Lines(s)[1..] == rest;
      } else {
        assert Lines(s)[1..] == rest[1..];
      }
    }
  }

  /** Newline-separated text comes back exactly as it was. */
  lemma TextRoundTrip(content: string)
    requires '\r' !in content
    ensures var block := Read(RenderFencedText(content));
            && block.Some? && block.value.info == "text" && block.value.rest == []
            && block.value.body != [] && Join(block.value.body) == content
  {
    RoundTrip(content);
    JoinOfLines(content);
  }

  /** A single carriage return: the reader gets one empty line for two. */
  lemma ReturnIsLost()
    ensures Lines("\r") == ["", ""]
    ensures Read(RenderFencedText("\r")) == Some(Block("text", [""], []))
  {
    LinesAfterBreak("\r");
    assert "\r"[1..] == "" && Lines("") == [""];
    ReadsRendered("\r");
  }
}
