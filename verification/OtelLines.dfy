/** The line pattern of the Prometheus text format, as far as it decides what the label parser gets to see. */
module OtelLines {
  import opened Options
  import opened OtelLabels

  // ---------------------------------------------------------------- the line pattern

  predicate IsNameStart(c: char) {
    IsKeyStart(c) || c == ':'
  }

  predicate IsNameChar(c: char) {
    IsKeyChar(c) || c == ':'
  }

  predicate IsName(name: string) {
    name != "" && IsNameStart(name[0]) && forall i | 0 <= i < |name| :: IsNameChar(name[i])
  }

  predicate IsDigit(c: char) {
    '0' <= c <= '9'
  }

  predicate IsNumberChar(c: char) {
    IsDigit(c) || c in {'.', 'e', 'E', '+'}
  }

  predicate IsPlainNumber(v: string) {
    v != "" && forall i | 0 <= i < |v| :: IsNumberChar(v[i])
  }

  /** The spellings of a value: an optional minus before digits, dots, signs and exponents, or a special value. */
  predicate IsValue(v: string) {
    || v in {"NaN", "Inf", "+Inf", "-Inf"}
    || IsPlainNumber(v) || (v != "" && v[0] == '-' && IsPlainNumber(v[1..]))
  }

  /** What stands after the name and the label block: white space, a value, and perhaps a timestamp. */
  datatype Tail = Tail(before: string, value: string, between: string, timestamp: string, after: string)

  predicate IsTail(t: Tail) {
    && t.before != "" && AllSpace(t.before) && IsValue(t.value) && AllSpace(t.after)
    && (if t.timestamp == "" then t.between == ""
        else t.between != "" && AllSpace(t.between) && forall i | 0 <= i < |t.timestamp| :: IsDigit(t.timestamp[i]))
  }

  function PrintTail(t: Tail): string {
    t.before + t.value + t.between + t.timestamp + t.after
  }

  ghost predicate MatchesTail(s: string) {
    exists t: Tail :: IsTail(t) && PrintTail(t) == s
  }

  function SkipName(s: string): (rest: string)
    ensures |rest| <= |s|
  {
    if s != "" && IsNameChar(s[0]) then SkipName(s[1..]) else s
  }

  datatype Split = Split(block: string, rest: string)

  /** The text before the first closing brace, and what follows the brace. */
  function SplitAtBrace(s: string): Option<Split> {
    if s == "" then None
    else if s[0] == '}' then Some(Split("", s[1..]))
    else
      match SplitAtBrace(s[1..])
      case None => None
      case Some(Split(block, rest)) => Some(Split([s[0]] + block, rest))
  }

  /** The label block of a line, if the line matches the pattern; a line without braces has no block. */
  ghost function LabelBlock(line: string): Option<Option<string>> {
    if line == "" || !IsNameStart(line[0]) then None
    else
      var afterName := SkipName(line);
      if afterName != "" && afterName[0] == '{' then
        match SplitAtBrace(afterName[1..])
        case None => None
        case Some(Split(block, rest)) => if MatchesTail(rest) then Some(Some(block)) else None
      else if MatchesTail(afterName) then Some(None)
      else None
  }

  /** The labels of a line; a line that does not match, or whose block cannot be parsed, is skipped. */
  ghost function LineLabels(line: string): Option<Labels> {
    match LabelBlock(line)
    case None => None
    case Some(None) => Some(map[])
    case Some(Some(block)) => Parse(Trim(block), map[])
  }

  // ---------------------------------------------------------------- printed lines

  function PrintLine(name: string, labels: seq<Label>, tail: Tail): string {
    name + "{" + Print(labels) + "}" + PrintTail(tail)
  }

  lemma {:induction false} SkipsName(name: string, t: string)
    requires (forall i | 0 <= i < |name| :: IsNameChar(name[i])) && (t == "" || !IsNameChar(t[0]))
    ensures SkipName(name + t) == t
    decreases |name|
  {
    if name == "" {
      assert name + t == t;
    } else {
      assert (name + t)[1..] == name[1..] + t;
      SkipsName(name[1..], t);
    }
  }

  lemma {:induction false} SplitsAtFirst(p: string, t: string)
    requires '}' !in p
    ensures SplitAtBrace(p + "}" + t) == Some(Split(p, t))
    decreases |p|
  {
    if p == "" {
      assert (p + "}" + t)[1..] == t;
    } else {
      assert (p + "}" + t)[1..] == p[1..] + "}" + t;
      SplitsAtFirst(p[1..], t);
      assert [p[0]] + p[1..] == p;
    }
  }

  /** A value ends before any quote, so no tail contains one. */
  lemma TailHasNoQuote(t: Tail)
    requires IsTail(t)
    ensures '"' !in PrintTail(t)
  {
    assert '"' !in t.value by {
      if t.value !in {"NaN", "Inf", "+Inf", "-Inf"} && !IsPlainNumber(t.value) {
        assert t.value == [t.value[0]] + t.value[1..];
      }
    }
  }

  // ---------------------------------------------------------------- braces in printed labels

  /** No value contains a closing brace. */
  predicate NoBraces(labels: seq<Label>) {
    forall i | 0 <= i < |labels| :: '}' !in labels[i].value
  }

  lemma {:induction false} EscapeKeepsBraces(value: string)
    ensures '}' in Escape(value) <==> '}' in value
    decreases |value|
  {
    if value != "" {
      EscapeKeepsBraces(value[1..]);
      assert value == [value[0]] + value[1..];
    }
  }

  lemma PairBraces(l: Label)
    requires WellFormed(l)
    ensures '}' in PrintPair(l) <==> '}' in l.value
  {
    EscapeKeepsBraces(l.value);
    assert '}' !in l.key && '}' !in l.afterKey && '}' !in l.afterEquals;
  }

  lemma {:induction false} PrintBraces(labels: seq<Label>)
    requires AllWellFormed(labels)
    ensures '}' !in Print(labels) <==> NoBraces(labels)
    decreases |labels|
  {
    if labels != [] {
      var l, rest := labels[0], labels[1..];
      PairBraces(l);
      PrintBraces(rest);
      assert '}' !in l.before && '}' !in l.after;
      assert NoBraces(labels) <==> '}' !in l.value && NoBraces(rest) by {
        assert labels == [l] + rest;
      }
    }
  }

  // ---------------------------------------------------------------- which lines come through

  /** A brace before a quote: the quote is left over after the split. */
  lemma {:induction false} SplitLeavesQuote(p: string, t: string)
    requires '}' in p
    ensures var split := SplitAtBrace(p + "\"" + t); split.Some? && '"' in split.value.rest
    decreases |p|
  {
    var s := p + "\"" + t;
    assert s[1..] == p[1..] + "\"" + t;
    if p[0] == '}' {
      assert s[1..][|p| - 1] == '"';
    } else {
      assert p == [p[0]] + p[1..];
      SplitLeavesQuote(p[1..], t);
    }
  }

  /** A printed list ends in the quote of its last value and white space. */
  lemma {:induction false} EndsInQuote(labels: seq<Label>) returns (p: string, w: string)
    requires labels != [] && AllWellFormed(labels)
    ensures Print(labels) == p + "\"" + w && AllSpace(w)
    decreases |labels|
  {
    var l := labels[0];
    var head := l.before + l.key + l.afterKey + "=" + l.afterEquals + "\"" + Escape(l.value);
    if |labels| == 1 {
      p, w := head, l.after;
      assert l.before + PrintPair(l) == head + "\"";
    } else {
      p, w := EndsInQuote(labels[1..]);
      p := l.before + PrintPair(l) + l.after + "," + p;
    }
  }

  lemma NoQuoteNoMatch(s: string)
    requires '"' in s
    ensures !MatchesTail(s)
  {
    forall t | IsTail(t) ensures PrintTail(t) != s {
      TailHasNoQuote(t);
    }
  }

  lemma BraceStopsLine(labels: seq<Label>, tail: Tail)
    requires AllWellFormed(labels) && !NoBraces(labels)
    ensures var split := SplitAtBrace(Print(labels) + "}" + PrintTail(tail));
      split.Some? && !MatchesTail(split.value.rest)
  {
    PrintBraces(labels);
    var p, w := EndsInQuote(labels);
    var t := w + "}" + PrintTail(tail);
    assert '}' in p by { assert '}' !in w; }
    assert Print(labels) + "}" + PrintTail(tail) == p + "\"" + t;
    SplitLeavesQuote(p, t);
    NoQuoteNoMatch(SplitAtBrace(p + "\"" + t).value.rest);
  }

  lemma BlockOfLine(name: string, text: string)
    requires IsName(name)
    ensures LabelBlock(name + "{" + text) ==
            (match SplitAtBrace(text)
             case None => None
             case Some(Split(block, rest)) => if MatchesTail(rest) then Some(Some(block)) else None)
  {
    SkipsName(name, "{" + text);
    assert name + "{" + text == name + ("{" + text) && ("{" + text)[1..] == text;
  }

  /**
   * The labels of a printed line come through intact if and only if no value contains a closing brace; with one, the
   * pattern stops at the brace, what follows is no value, and the whole line is skipped.
   */
  lemma LineRoundTripIff(name: string, labels: seq<Label>, tail: Tail)
    requires IsName(name) && AllWellFormed(labels) && IsTail(tail)
    ensures LabelBlock(PrintLine(name, labels, tail)) == if NoBraces(labels) then Some(Some(Print(labels))) else None
    ensures LineLabels(PrintLine(name, labels, tail)) ==
            if NoBraces(labels) then Some(Collect(labels, map[])) else None
  {
    var text := Print(labels) + "}" + PrintTail(tail);
    assert PrintLine(name, labels, tail) == name + "{" + text;
    BlockOfLine(name, text);
    if NoBraces(labels) {
      PrintBraces(labels);
      SplitsAtFirst(Print(labels), PrintTail(tail));
      RoundTrip(labels);
    } else {
      BraceStopsLine(labels, tail);
    }
  }

  /** The line `up{path="}"} 1` is skipped. */
  lemma BraceLineIsSkipped()
    ensures LineLabels(PrintLine("up", [Label("path", "}", "", "", "", "")], Tail(" ", "1", "", "", ""))) == None
  {
    var labels := [Label("path", "}", "", "", "", "")];
    LineRoundTripIff("up", labels, Tail(" ", "1", "", "", ""));
    assert '}' in labels[0].value;
  }

  // ---------------------------------------------------------------- the characters of the pattern

  predicate DigitCode(n: int) {
    48 <= n <= 57
  }

  lemma OneCharTail(t: Tail, c: char)
    requires IsTail(t) && PrintTail(t) == [' ', c]
    ensures t.value == [c]
  {
    assert |PrintTail(t)| == |t.before| + |t.value| + |t.between| + |t.timestamp| + |t.after|;
    assert |t.before| == 1 && |t.value| == 1;
    assert PrintTail(t)[1] == t.value[0];
  }

  lemma OneCharValue(c: char)
    ensures IsValue([c]) <==> IsNumberChar(c)
  {
    assert |[c]| == 1 && |"NaN"| == 3 && |"Inf"| == 3 && |"+Inf"| == 4 && |"-Inf"| == 4;
    assert IsPlainNumber([c]) <==> IsNumberChar([c][0]);
    assert [c][1..] == "";
  }

  /** A value of one character is a digit, a point, an exponent or a plus sign. */
  lemma ValuesOfOneChar(c: char)
    ensures MatchesTail([' ', c]) <==> DigitCode(c as int) || c == '.' || c == 'e' || c == 'E' || c == '+'
  {
    if IsNumberChar(c) {
      var t := Tail(" ", [c], "", "", "");
      assert IsPlainNumber(t.value) && IsTail(t) && PrintTail(t) == [' ', c];
    }
    if MatchesTail([' ', c]) {
      var t :| IsTail(t) && PrintTail(t) == [' ', c];
      OneCharTail(t, c);
      OneCharValue(c);
    }
  }

  /** The spellings of values that are no numbers. */
  lemma SpecialValues(v: string)
    requires v in {"NaN", "Inf", "+Inf", "-Inf"}
    ensures MatchesTail(" " + v)
  {
    var t := Tail(" ", v, "", "", "");
    assert IsTail(t) && PrintTail(t) == " " + v;
  }

  /** A minus sign may stand before such a value, and nothing else may. */
  lemma MinusBefore(c: char)
    ensures IsValue(['-', c]) <==> DigitCode(c as int) || c == '.' || c == 'e' || c == 'E' || c == '+'
  {
    assert |['-', c]| == 2 && |"NaN"| == 3 && |"Inf"| == 3 && |"+Inf"| == 4 && |"-Inf"| == 4;
    assert ['-', c][1..] == [c] && IsPlainNumber([c]) <==> IsNumberChar([c][0]);
    assert !IsNumberChar(['-', c][0]);
  }

  lemma StampOfTail(t: Tail, c: char)
    requires IsTail(t) && PrintTail(t) == [' ', '1', ' ', c]
    ensures t.timestamp == [c] || (t.timestamp == "" && IsSpace(c))
  {
    var s := [' ', '1', ' ', c];
    assert |s| == |t.before| + |t.value| + |t.between| + |t.timestamp| + |t.after|;
    forall i | 0 <= i < |t.before| ensures IsSpace(s[i]) { assert s[i] == t.before[i]; }
    assert !IsSpace(s[1]) && |t.before| == 1;
    assert t.value[0] == s[1] && IsPlainNumber(t.value);
    forall i | 1 <= i < 1 + |t.value| ensures IsNumberChar(s[i]) { assert s[i] == t.value[i - 1]; }
    assert !IsNumberChar(s[2]) && |t.value| == 1;
    assert PrintTail(t)[3] == (t.between + t.timestamp + t.after)[1];
  }

  /** A timestamp of one character is a digit; in its place there may also be white space at the end. */
  lemma TimestampsOfOneChar(c: char)
    ensures MatchesTail([' ', '1', ' ', c]) <==> DigitCode(c as int) || SpaceCode(c as int)
  {
    if DigitCode(c as int) {
      var t := Tail(" ", "1", " ", [c], "");
      assert IsTail(t) && PrintTail(t) == [' ', '1', ' ', c];
    }
    if SpaceCode(c as int) {
      var t := Tail(" ", "1", "", "", [' ', c]);
      assert IsTail(t) && PrintTail(t) == [' ', '1', ' ', c];
    }
    if MatchesTail([' ', '1', ' ', c]) {
      var t :| IsTail(t) && PrintTail(t) == [' ', '1', ' ', c];
      StampOfTail(t, c);
      if t.timestamp == [c] { assert IsDigit(t.timestamp[0]); }
    }
  }

  /** A metric name starts with a letter, an underscore or a colon. */
  lemma MetricNamesStartWith(c: char)
    ensures LabelBlock([c] + "{}" + " 1") == Some(Some("")) <==> LetterCode(c as int) || c == ':'
  {
    var line := [c] + "{}" + " 1";
    if IsNameStart(c) {
      var t := Tail(" ", "1", "", "", "");
      assert IsTail(t) && PrintTail(t) == " 1";
      SplitsAtFirst("", " 1");
      assert line == [c] + "{" + ("" + "}" + " 1");
      assert IsName([c]);
      BlockOfLine([c], "" + "}" + " 1");
    }
  }

  /** From its second character on it may have digits as well. */
  lemma MetricNamesGoOnWith(c: char)
    ensures LabelBlock(['a', c] + "{}" + " 1") == Some(Some("")) <==>
      LetterCode(c as int) || DigitCode(c as int) || c == ':'
  {
    var line := ['a', c] + "{}" + " 1";
    if IsNameChar(c) {
      var t := Tail(" ", "1", "", "", "");
      assert IsTail(t) && PrintTail(t) == " 1";
      SplitsAtFirst("", " 1");
      assert line == ['a', c] + "{" + ("" + "}" + " 1");
      assert IsName(['a', c]);
      BlockOfLine(['a', c], "" + "}" + " 1");
    } else {
      assert line == "a" + ([c] + "{}" + " 1");
      SkipsName("a", [c] + "{}" + " 1");
      if c == '{' {
        assert ([c] + "{}" + " 1")[1..] == "{" + "}" + " 1";
        SplitsAtFirst("{", " 1");
      }
    }
  }
}
