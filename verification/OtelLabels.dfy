/** The label block of a Prometheus text line: name="value" pairs separated by commas. */
module OtelLabels {
  import opened Options

  type Labels = map<string, string>

  // ---------------------------------------------------------------- characters

  /** White space of a JavaScript regular expression, which is also what trim removes. */
  predicate IsSpace(c: char) {
    c in {'\t', '\n', '\U{B}', '\U{C}', '\r', ' ', '\U{A0}', '\U{1680}', '\U{2028}', '\U{2029}', '\U{202F}', '\U{205F}',
          '\U{3000}', '\U{FEFF}'}
    || '\U{2000}' <= c <= '\U{200A}'
  }

  predicate IsKeyStart(c: char) {
    'a' <= c <= 'z' || 'A' <= c <= 'Z' || c == '_'
  }

  predicate IsKeyChar(c: char) {
    IsKeyStart(c) || '0' <= c <= '9'
  }

  predicate IsKey(key: string) {
    key != "" && IsKeyStart(key[0]) && forall i | 0 <= i < |key| :: IsKeyChar(key[i])
  }

  predicate AllSpace(s: string) {
    forall i | 0 <= i < |s| :: IsSpace(s[i])
  }

  // ---------------------------------------------------------------- what a text means

  function SkipSpaces(s: string): (rest: string)
    ensures |rest| <= |s|
  {
    if s != "" && IsSpace(s[0]) then SkipSpaces(s[1..]) else s
  }

  function TrimEnd(s: string): string {
    if s != "" && IsSpace(s[|s| - 1]) then TrimEnd(s[..|s| - 1]) else s
  }

  function Trim(s: string): string {
    TrimEnd(SkipSpaces(s))
  }

  function TakeKey(s: string): string {
    if s != "" && IsKeyChar(s[0]) then [s[0]] + TakeKey(s[1..]) else ""
  }

  function DropKey(s: string): (rest: string)
    ensures |rest| <= |s|
  {
    if s != "" && IsKeyChar(s[0]) then DropKey(s[1..]) else s
  }

  /** What follows a character that may have white space before it. */
  function Expect(c: char, s: string): (rest: Option<string>)
    ensures rest.Some? ==> |rest.value| < |s|
  {
    var t := SkipSpaces(s);
    if t == "" || t[0] != c then None else Some(t[1..])
  }

  datatype Scanned = Scanned(value: string, rest: string)

  function Unescape(c: char): char {
    if c == 'n' then '\n' else c
  }

  predicate IsEscapable(c: char) {
    c == '"' || c == '\\' || c == 'n'
  }

  function Prepend(c: char, scanned: Option<Scanned>): Option<Scanned> {
    if scanned.None? then None else Some(Scanned([c] + scanned.value.value, scanned.value.rest))
  }

  /** The value up to the first quote that is not escaped, and what follows that quote. */
  function Scan(s: string): (r: Option<Scanned>)
    ensures r.Some? ==> |r.value.rest| < |s|
    decreases |s|
  {
    if s == "" then None
    else if s[0] == '\\' && |s| > 1 then
      if IsEscapable(s[1]) then Prepend(Unescape(s[1]), Scan(s[2..])) else Prepend('\\', Scan(s[1..]))
    else if s[0] == '"' then Some(Scanned("", s[1..]))
    else Prepend(s[0], Scan(s[1..]))
  }

  /** Assigning a string to the property __proto__ of a plain object has no effect. */
  function Assign(out: Labels, key: string, value: string): Labels {
    if key == "__proto__" then out else out[key := value]
  }

  datatype Pair = Pair(key: string, value: string, rest: string)

  /** The quoted value of a name, and what follows it. */
  function ParseValue(key: string, s: string): (r: Option<Pair>)
    ensures r.Some? ==> |r.value.rest| < |s|
  {
    match Expect('"', s)
    case None => None
    case Some(text) =>
      match Scan(text)
      case None => None
      case Some(Scanned(value, rest)) => Some(Pair(key, value, rest))
  }

  function ParsePair(s: string): (r: Option<Pair>)
    ensures r.Some? ==> |r.value.rest| < |s|
  {
    if s == "" || !IsKeyStart(s[0]) then None
    else
      match Expect('=', DropKey(s))
      case None => None
      case Some(atQuote) => ParseValue(TakeKey(s), atQuote)
  }

  function Parse(s: string, out: Labels): Option<Labels>
    decreases |s|
  {
    var t := SkipSpaces(s);
    if t == "" then Some(out)
    else
      match ParsePair(t)
      case None => None
      case Some(Pair(key, value, rest)) =>
        var after := SkipSpaces(rest);
        if after == "" then Some(Assign(out, key, value))
        else if after[0] == ',' then Parse(after[1..], Assign(out, key, value))
        else None
  }

  // ---------------------------------------------------------------- the parser

  method SkipWhitespace(s: string, start: nat) returns (i: nat)
    requires start <= |s|
    ensures start <= i <= |s| && s[i..] == SkipSpaces(s[start..])
  {
    i := start;
    while i < |s| && IsSpace(s[i])
      invariant start <= i <= |s| && SkipSpaces(s[i..]) == SkipSpaces(s[start..])
    {
      assert s[i..][1..] == s[i + 1..];
      i := i + 1;
    }
  }

  lemma KeyNext(s: string, start: nat, i: nat)
    requires start <= i < |s| && IsKeyChar(s[i])
    ensures DropKey(s[i..]) == DropKey(s[i + 1..])
    ensures s[start..i] + TakeKey(s[i..]) == s[start..i + 1] + TakeKey(s[i + 1..])
  {
    assert s[i..][1..] == s[i + 1..];
    assert s[start..i + 1] == s[start..i] + [s[i]];
  }

  method ReadKey(s: string, start: nat) returns (key: string, i: nat)
    requires start <= |s|
    ensures start <= i <= |s| && s[i..] == DropKey(s[start..]) && key == TakeKey(s[start..])
  {
    i := start;
    while i < |s| && IsKeyChar(s[i])
      invariant start <= i <= |s| && DropKey(s[i..]) == DropKey(s[start..])
      invariant TakeKey(s[start..]) == s[start..i] + TakeKey(s[i..])
    {
      KeyNext(s, start, i);
      i := i + 1;
    }
    key := s[start..i];
  }

  function PrependAll(value: string, scanned: Option<Scanned>): Option<Scanned> {
    if scanned.None? then None else Some(Scanned(value + scanned.value.value, scanned.value.rest))
  }

  lemma PrependNext(value: string, c: char, scanned: Option<Scanned>)
    ensures PrependAll(value, Prepend(c, scanned)) == PrependAll(value + [c], scanned)
  {
    if scanned.Some? { assert value + ([c] + scanned.value.value) == value + [c] + scanned.value.value; }
  }

  lemma PrependNothing(scanned: Option<Scanned>)
    ensures PrependAll("", scanned) == scanned
  {
    if scanned.Some? { assert "" + scanned.value.value == scanned.value.value; }
  }

  predicate StartsEscape(s: string, i: nat)
    requires i < |s|
  {
    s[i] == '\\' && i + 1 < |s| && IsEscapable(s[i + 1])
  }

  lemma ScanEscape(s: string, i: nat, value: string)
    requires i < |s| && StartsEscape(s, i)
    ensures PrependAll(value, Scan(s[i..])) == PrependAll(value + [Unescape(s[i + 1])], Scan(s[i + 2..]))
  {
    assert s[i..][2..] == s[i + 2..];
    PrependNext(value, Unescape(s[i + 1]), Scan(s[i + 2..]));
  }

  lemma ScanPlain(s: string, i: nat, value: string)
    requires i < |s| && !StartsEscape(s, i) && s[i] != '"'
    ensures PrependAll(value, Scan(s[i..])) == PrependAll(value + [s[i]], Scan(s[i + 1..]))
  {
    assert s[i..][1..] == s[i + 1..];
    PrependNext(value, s[i], Scan(s[i + 1..]));
  }

  method ReadValue(s: string, start: nat) returns (value: string, i: nat)
    requires start <= |s|
    ensures start <= i <= |s|
    ensures Scan(s[start..]) == if i < |s| && s[i] == '"' then Some(Scanned(value, s[i + 1..])) else None
  {
    value, i := "", start;
    PrependNothing(Scan(s[start..]));
    while i < |s|
      invariant start <= i <= |s|
      invariant Scan(s[start..]) == PrependAll(value, Scan(s[i..]))
    {
      var ch := s[i];
      if ch == '\\' && i + 1 < |s| {
        var next := s[i + 1];
        if next == '"' || next == '\\' || next == 'n' {
          ScanEscape(s, i, value);
          value := value + [Unescape(next)];
          i := i + 2;
          continue;
        }
        ScanPlain(s, i, value);
        value := value + [ch];
        i := i + 1;
        continue;
      }
      if ch == '"' {
        break;
      }
      ScanPlain(s, i, value);
      value := value + [ch];
      i := i + 1;
    }
    if i < |s| { assert s[i..][1..] == s[i + 1..] && value + "" == value; }
  }

  method ReadExpected(s: string, start: nat, c: char) returns (i: Option<nat>)
    requires start <= |s|
    ensures i.Some? ==> start < i.value <= |s|
    ensures Expect(c, s[start..]) == if i.Some? then Some(s[i.value..]) else None
  {
    var j := SkipWhitespace(s, start);
    if !(j < |s| && s[j] == c) { return None; }
    assert s[j..][1..] == s[j + 1..];
    return Some(j + 1);
  }

  method ReadPair(s: string, start: nat) returns (r: Option<(string, string, nat)>)
    requires start < |s|
    ensures r.Some? ==> start < r.value.2 <= |s|
    ensures ParsePair(s[start..]) ==
            if r.Some? then Some(Pair(r.value.0, r.value.1, s[r.value.2..])) else None
  {
    if !IsKeyStart(s[start]) { return None; }
    var key, i := ReadKey(s, start);
    var equals := ReadExpected(s, i, '=');
    if equals.None? { return None; }
    assert ParsePair(s[start..]) == ParseValue(key, s[equals.value..]);
    var quote := ReadExpected(s, equals.value, '"');
    if quote.None? { return None; }
    var value, close := ReadValue(s, quote.value);
    if !(close < |s| && s[close] == '"') { return None; }
    return Some((key, value, close + 1));
  }

  /** Parsing the text comes down to parsing what is left from the cursor on. */
  ghost predicate Reached(s: string, i: nat, out: Labels) {
    i <= |s| && Parse(s, map[]) == Parse(s[i..], out)
  }

  lemma ReachedEnd(s: string, i: nat, out: Labels)
    requires Reached(s, i, out)
    ensures SkipSpaces(s[i..]) == "" ==> Parse(s, map[]) == Some(out)
    ensures SkipSpaces(s[i..]) != "" && ParsePair(SkipSpaces(s[i..])).None? ==> Parse(s, map[]) == None
  {
  }

  /** What follows a pair: the end, a comma and more, or something else. */
  lemma ReachedPair(s: string, i: nat, out: Labels, pair: Pair, after: nat)
    requires Reached(s, i, out) && SkipSpaces(s[i..]) != "" && ParsePair(SkipSpaces(s[i..])) == Some(pair)
    requires after <= |s| && s[after..] == SkipSpaces(pair.rest)
    ensures after == |s| ==> Parse(s, map[]) == Some(Assign(out, pair.key, pair.value))
    ensures after < |s| && s[after] == ',' ==> Reached(s, after + 1, Assign(out, pair.key, pair.value))
    ensures after < |s| && s[after] != ',' ==> Parse(s, map[]) == None
  {
    assert after < |s| ==> s[after..][1..] == s[after + 1..] && s[after..][0] == s[after];
  }

  method ParseLabels(body: string) returns (labels: Option<Labels>)
    ensures labels == Parse(Trim(body), map[])
  {
    var out: Labels := map[];
    var trimmed := Trim(body);
    if trimmed == "" { return Some(out); }
    var i, n := 0, |trimmed|;
    assert trimmed[0..] == trimmed;
    while i < n
      invariant Reached(trimmed, i, out)
    {
      ReachedEnd(trimmed, i, out);
      var atKey := SkipWhitespace(trimmed, i);
      if atKey >= n { break; }
      var pair := ReadPair(trimmed, atKey);
      if pair.None? { return None; }
      var (key, value, rest) := pair.value;
      var after := SkipWhitespace(trimmed, rest);
      ReachedPair(trimmed, i, out, Pair(key, value, trimmed[rest..]), after);
      out := Assign(out, key, value);
      if after >= n { return Some(out); }
      if trimmed[after] != ',' { return None; }
      i := after + 1;
    }
    ReachedEnd(trimmed, i, out);
    return Some(out);
  }

  // ---------------------------------------------------------------- printing

  function EscapeChar(c: char): string {
    if c == '\\' then "\\\\" else if c == '"' then "\\\"" else if c == '\n' then "\\n" else [c]
  }

  function Escape(value: string): string {
    if value == "" then "" else EscapeChar(value[0]) + Escape(value[1..])
  }

  /** A label with the white space a writer may put around its parts. */
  datatype Label = Label(key: string, value: string, before: string, afterKey: string, afterEquals: string,
                         after: string)

  predicate WellFormed(l: Label) {
    IsKey(l.key) && AllSpace(l.before) && AllSpace(l.afterKey) && AllSpace(l.afterEquals) && AllSpace(l.after)
  }

  function PrintPair(l: Label): string {
    l.key + l.afterKey + "=" + l.afterEquals + "\"" + Escape(l.value) + "\""
  }

  function Print(labels: seq<Label>): string {
    if labels == [] then ""
    else labels[0].before + PrintPair(labels[0]) + labels[0].after
         + (if |labels| == 1 then "" else "," + Print(labels[1..]))
  }

  /** The labels written one after the other, a later value of the same name replacing an earlier one. */
  function Collect(labels: seq<Label>, out: Labels): Labels {
    if labels == [] then out else Collect(labels[1..], Assign(out, labels[0].key, labels[0].value))
  }

  lemma {:induction false} SkipsSpaces(w: string, t: string)
    requires AllSpace(w) && (t == "" || !IsSpace(t[0]))
    ensures SkipSpaces(w + t) == t
    decreases |w|
  {
    if w == "" {
      assert w + t == t;
    } else {
      assert (w + t)[1..] == w[1..] + t;
      SkipsSpaces(w[1..], t);
    }
  }

  lemma {:induction false} ReadsKey(key: string, t: string)
    requires forall i | 0 <= i < |key| :: IsKeyChar(key[i])
    requires t == "" || !IsKeyChar(t[0])
    ensures TakeKey(key + t) == key && DropKey(key + t) == t
    decreases |key|
  {
    if key == "" {
      assert key + t == t;
    } else {
      assert (key + t)[1..] == key[1..] + t;
      ReadsKey(key[1..], t);
    }
  }

  lemma ScansChar(c: char, t: string)
    requires t != ""
    ensures Scan(EscapeChar(c) + t) == Prepend(c, Scan(t))
  {
    var s := EscapeChar(c) + t;
    if c == '\\' || c == '"' || c == '\n' {
      assert s[2..] == t;
    } else {
      assert s[1..] == t;
    }
  }

  lemma {:induction false} ScansValue(value: string, t: string)
    ensures Scan(Escape(value) + "\"" + t) == Some(Scanned(value, t))
    decreases |value|
  {
    if value == "" {
      assert (Escape(value) + "\"" + t)[1..] == t;
    } else {
      ScansValue(value[1..], t);
      ScansChar(value[0], Escape(value[1..]) + "\"" + t);
      assert Escape(value) + "\"" + t == EscapeChar(value[0]) + (Escape(value[1..]) + "\"" + t);
      assert [value[0]] + value[1..] == value;
    }
  }

  lemma Expects(c: char, w: string, t: string)
    requires AllSpace(w) && !IsSpace(c)
    ensures Expect(c, w + [c] + t) == Some(t)
  {
    SkipsSpaces(w, [c] + t);
    assert w + [c] + t == w + ([c] + t);
  }

  /** Reading back one printed pair. */
  lemma ReadsPair(l: Label, t: string)
    requires WellFormed(l)
    ensures ParsePair(PrintPair(l) + t) == Some(Pair(l.key, l.value, t))
  {
    var text := Escape(l.value) + "\"" + t;
    var atQuote := l.afterEquals + "\"" + text;
    var afterKey := l.afterKey + "=" + atQuote;
    assert PrintPair(l) + t == l.key + afterKey;
    ReadsKey(l.key, afterKey);
    Expects('=', l.afterKey, atQuote);
    Expects('"', l.afterEquals, text);
    ScansValue(l.value, t);
  }

  predicate AllWellFormed(labels: seq<Label>) {
    forall i | 0 <= i < |labels| :: WellFormed(labels[i])
  }

  /** Parsing what was printed, white space and all, gives the labels back. */
  lemma {:induction false} ParsesPrinted(labels: seq<Label>, out: Labels)
    requires AllWellFormed(labels)
    ensures Parse(Print(labels), out) == Some(Collect(labels, out))
    decreases |labels|
  {
    if labels != [] {
      var l, rest := labels[0], labels[1..];
      var tail := if |labels| == 1 then "" else "," + Print(rest);
      var s := Print(labels);
      assert s == l.before + (PrintPair(l) + (l.after + tail));
      SkipsSpaces(l.before, PrintPair(l) + (l.after + tail));
      ReadsPair(l, l.after + tail);
      SkipsSpaces(l.after, tail);
      if |labels| > 1 {
        assert tail[1..] == Print(rest);
        ParsesPrinted(rest, Assign(out, l.key, l.value));
      }
    }
  }

  // ---------------------------------------------------------------- trimming

  predicate EndsSolid(s: string) {
    s != "" && !IsSpace(s[|s| - 1])
  }

  lemma {:induction false} TrimsEnd(p: string, w: string)
    requires EndsSolid(p) && AllSpace(w)
    ensures TrimEnd(p + w) == p
    decreases |w|
  {
    if w == "" {
      assert p + w == p;
    } else {
      assert (p + w)[..|p + w| - 1] == p + w[..|w| - 1];
      TrimsEnd(p, w[..|w| - 1]);
    }
  }

  lemma {:induction false} SkipsBefore(p: string, w: string)
    requires EndsSolid(p)
    ensures SkipSpaces(p + w) == SkipSpaces(p) + w && EndsSolid(SkipSpaces(p))
    decreases |p|
  {
    if IsSpace(p[0]) {
      assert (p + w)[1..] == p[1..] + w;
      SkipsBefore(p[1..], w);
    }
  }

  lemma {:induction false} SkipsOnce(s: string)
    ensures SkipSpaces(SkipSpaces(s)) == SkipSpaces(s)
    decreases |s|
  {
    if s != "" && IsSpace(s[0]) { SkipsOnce(s[1..]); }
  }

  /** The same labels without the white space after the last one. */
  function Bare(labels: seq<Label>): seq<Label>
    requires labels != []
  {
    if |labels| == 1 then [labels[0].(after := "")] else [labels[0]] + Bare(labels[1..])
  }

  lemma PrintsLast(l: Label)
    requires WellFormed(l)
    ensures Print([l]) == Print([l.(after := "")]) + l.after && EndsSolid(Print([l.(after := "")]))
  {
    assert PrintPair(l.(after := "")) == PrintPair(l);
  }

  lemma PrintsMore(l: Label, rest: seq<Label>)
    requires rest != []
    ensures Print([l] + rest) == l.before + PrintPair(l) + l.after + "," + Print(rest)
  {
    assert ([l] + rest)[1..] == rest;
  }

  lemma {:induction false} PrintsBare(labels: seq<Label>) returns (w: string)
    requires labels != [] && AllWellFormed(labels)
    ensures AllSpace(w) && Print(labels) == Print(Bare(labels)) + w
    ensures EndsSolid(Print(Bare(labels)))
    decreases |labels|
  {
    var l, rest := labels[0], labels[1..];
    assert labels == [l] + rest;
    if |labels| == 1 {
      w := l.after;
      PrintsLast(l);
    } else {
      w := PrintsBare(rest);
      PrintsMore(l, rest);
      PrintsMore(l, Bare(rest));
    }
  }

  lemma {:induction false} CollectsBare(labels: seq<Label>, out: Labels)
    requires labels != [] && AllWellFormed(labels)
    ensures AllWellFormed(Bare(labels)) && Collect(Bare(labels), out) == Collect(labels, out)
    decreases |labels|
  {
    if |labels| > 1 {
      CollectsBare(labels[1..], Assign(out, labels[0].key, labels[0].value));
      assert Bare(labels)[1..] == Bare(labels[1..]);
    }
  }

  /** What the parser gives for any printing of the labels. */
  lemma RoundTrip(labels: seq<Label>)
    requires AllWellFormed(labels)
    ensures Parse(Trim(Print(labels)), map[]) == Some(Collect(labels, map[]))
  {
    if labels != [] {
      var w := PrintsBare(labels);
      var p := Print(Bare(labels));
      SkipsBefore(p, w);
      TrimsEnd(SkipSpaces(p), w);
      SkipsOnce(p);
      CollectsBare(labels, map[]);
      ParsesPrinted(Bare(labels), map[]);
    }
  }

  // ---------------------------------------------------------------- maps

  /** The labels list the entries of a map, in any order, each at least once. */
  ghost predicate Lists(labels: seq<Label>, m: Labels) {
    && (forall i | 0 <= i < |labels| :: labels[i].key in m && m[labels[i].key] == labels[i].value)
    && forall k | k in m :: exists i | 0 <= i < |labels| :: labels[i].key == k
  }

  lemma {:induction false} Collects(labels: seq<Label>, out: Labels, m: Labels)
    requires forall i | 0 <= i < |labels| :: labels[i].key in m && m[labels[i].key] == labels[i].value
    requires forall k | k in out :: k in m && k != "__proto__" && out[k] == m[k]
    ensures var r := Collect(labels, out);
            && (forall k | k in r :: k in m && k != "__proto__" && r[k] == m[k])
            && (forall k | k in out :: k in r)
            && forall i | 0 <= i < |labels| && labels[i].key != "__proto__" :: labels[i].key in r
    decreases |labels|
  {
    if labels != [] {
      var next := Assign(out, labels[0].key, labels[0].value);
      Collects(labels[1..], next, m);
      var r := Collect(labels, out);
      forall i | 0 <= i < |labels| && labels[i].key != "__proto__" ensures labels[i].key in r {
        if i == 0 { assert labels[0].key in next; } else { assert labels[1..][i - 1] == labels[i]; }
      }
    }
  }

  lemma CollectsMap(m: Labels, labels: seq<Label>)
    requires Lists(labels, m)
    ensures Collect(labels, map[]) == m - {"__proto__"}
  {
    Collects(labels, map[], m);
    forall k | k in m && k != "__proto__" ensures k in Collect(labels, map[]) {
      var i :| 0 <= i < |labels| && labels[i].key == k;
    }
  }

  lemma SameWithout(m: Labels, key: string)
    ensures m - {key} == m <==> key !in m
  {
    if key in m { assert key !in m - {key}; }
  }

  /** Printing a map of labels and parsing the text gives the map back, but for a label named __proto__. */
  lemma MapRoundTrip(m: Labels, labels: seq<Label>)
    requires AllWellFormed(labels) && Lists(labels, m)
    ensures Parse(Trim(Print(labels)), map[]) == Some(m - {"__proto__"})
    ensures Parse(Trim(Print(labels)), map[]) == Some(m) <==> "__proto__" !in m
  {
    RoundTrip(labels);
    CollectsMap(m, labels);
    SameWithout(m, "__proto__");
  }

  /** A map with the label __proto__ alone is printed, and read back empty. */
  lemma ProtoIsLost(value: string)
    ensures Parse(Trim(Print([Label("__proto__", value, "", "", "", "")])), map[]) == Some(map[])
  {
    var labels := [Label("__proto__", value, "", "", "", "")];
    RoundTrip(labels);
    assert Collect(labels, map[]) == map[];
  }

  // ---------------------------------------------------------------- malformed blocks

  /** No pair starts with anything but a name. */
  lemma BadStartIsNull(c: char, t: string, out: Labels)
    requires !IsSpace(c) && !IsKeyStart(c)
    ensures Parse([c] + t, out) == None
  {
    assert ([c] + t)[0] == c;
  }

  lemma SolidStart(key: string, t: string)
    requires IsKey(key)
    ensures key + t != "" && (key + t)[0] == key[0] && SkipSpaces(key + t) == key + t
  {
    assert !IsSpace(key[0]);
  }

  /** After the name comes an equals sign, or the block is no block. */
  lemma NoEqualsIsNull(key: string, c: char, t: string, out: Labels)
    requires IsKey(key) && !IsKeyChar(c) && !IsSpace(c) && c != '='
    ensures Parse(key + ([c] + t), out) == None && Parse(key, out) == None
  {
    SolidStart(key, [c] + t);
    ReadsKey(key, [c] + t);
    SolidStart(key, "");
    ReadsKey(key, "");
    assert key + "" == key && SkipSpaces("") == "";
  }

  /** After the equals sign comes a quote. */
  lemma NoQuoteIsNull(key: string, c: char, t: string, out: Labels)
    requires IsKey(key) && !IsSpace(c) && c != '"'
    ensures Parse(key + ("=" + ([c] + t)), out) == None
  {
    SolidStart(key, "=" + ([c] + t));
    ReadsKey(key, "=" + ([c] + t));
    assert ("=" + ([c] + t))[1..] == [c] + t;
    assert Expect('=', "=" + ([c] + t)) == Some([c] + t);
    assert ([c] + t)[0] == c;
  }

  /** A value ends in a quote. */
  lemma {:induction false} NoEndIsNone(value: string)
    ensures Scan(Escape(value)) == None
    decreases |value|
  {
    if value != "" {
      NoEndIsNone(value[1..]);
      if Escape(value[1..]) == "" {
        assert Escape(value) == EscapeChar(value[0]);
        assert Scan("") == None;
        ScansAlone(value[0]);
      } else {
        ScansChar(value[0], Escape(value[1..]));
      }
    }
  }

  lemma ScansAlone(c: char)
    ensures Scan(EscapeChar(c)) == None
  {
    var s := EscapeChar(c);
    assert Scan("") == None;
    if |s| == 1 { assert s[1..] == ""; } else { assert s[2..] == ""; }
  }

  lemma OpenValueIsNull(key: string, value: string, out: Labels)
    requires IsKey(key)
    ensures Parse(key + ("=\"" + Escape(value)), out) == None
  {
    var text := "\"" + Escape(value);
    SolidStart(key, "=\"" + Escape(value));
    ReadsKey(key, "=\"" + Escape(value));
    assert ("=\"" + Escape(value))[1..] == text && text[1..] == Escape(value);
    assert Expect('=', "=\"" + Escape(value)) == Some(text) && Expect('"', text) == Some(Escape(value));
    NoEndIsNone(value);
  }

  /** After a pair comes a comma or the end. */
  lemma GarbageIsNull(l: Label, c: char, t: string, out: Labels)
    requires WellFormed(l) && !IsSpace(c) && c != ','
    ensures Parse(PrintPair(l) + ([c] + t), out) == None
  {
    var s := PrintPair(l) + ([c] + t);
    ReadsPair(l, [c] + t);
    assert s[0] == l.key[0] && !IsSpace(s[0]) && SkipSpaces(s) == s;
    assert ([c] + t)[0] == c && SkipSpaces([c] + t) == [c] + t;
  }

  // ---------------------------------------------------------------- the characters

  /** White space by code point: tab to carriage return, space, and the Unicode spaces. */
  predicate SpaceCode(n: int) {
    || 9 <= n <= 13 || n == 32 || n == 160 || n == 5760 || 8192 <= n <= 8202 || n == 8232 || n == 8233 || n == 8239
    || n == 8287 || n == 12288 || n == 65279
  }

  /** A block of one character is empty exactly if the character is white space, and no block otherwise. */
  lemma SpacesAre(c: char)
    ensures Parse([c], map[]) == if SpaceCode(c as int) then Some(map[]) else None
  {
    if SpaceCode(c as int) {
      assert [c][1..] == "";
    } else {
      OneCharIsNoPair(c);
    }
  }

  lemma OneCharIsNoPair(c: char)
    ensures ParsePair([c]) == None
  {
    assert [c][1..] == "";
    assert SkipSpaces("") == "";
    if IsKeyStart(c) {
      assert DropKey([c]) == "";
    }
  }

  /** A letter by code point, or an underscore. */
  predicate LetterCode(n: int) {
    65 <= n <= 90 || 97 <= n <= 122 || n == 95
  }

  lemma EmptyValue(key: string)
    ensures Expect('=', "=\"\"") == Some("\"\"") && Expect('"', "\"\"") == Some("\"")
    ensures Scan("\"") == Some(Scanned("", ""))
  {
    assert "=\"\""[1..] == "\"\"" && "\"\""[1..] == "\"" && "\""[1..] == "";
  }

  /** A name of one character is a letter or an underscore. */
  lemma NamesStartWith(c: char)
    ensures ParsePair([c] + "=\"\"") == if LetterCode(c as int) then Some(Pair([c], "", "")) else None
  {
    var s := [c] + "=\"\"";
    if IsKeyStart(c) {
      EmptyValue([c]);
      ReadsKey([c], "=\"\"");
    }
  }

  /** From its second character on a name may have digits as well. */
  lemma NamesGoOnWith(c: char)
    ensures ParsePair(['a', c] + "=\"\"") == Some(Pair(['a', c], "", "")) <==>
      LetterCode(c as int) || 48 <= c as int <= 57
  {
    if IsKeyChar(c) {
      EmptyValue(['a', c]);
      ReadsKey(['a', c], "=\"\"");
    } else {
      var s := ['a', c] + "=\"\"";
      assert s == "a" + ([c] + "=\"\"");
      ReadsKey("a", [c] + "=\"\"");
    }
  }

  /** A backslash takes the quote, the backslash and the newline from the next character; before any other it stands for
      itself. */
  lemma EscapesMean(c: char, t: string)
    ensures Scan(['\\', c] + t) ==
      if c == '"' || c == '\\' then Prepend(c, Scan(t))
      else if c == 'n' then Prepend('\n', Scan(t))
      else Prepend('\\', Scan([c] + t))
  {
    var s := ['\\', c] + t;
    assert s[1..] == [c] + t && s[2..] == t;
  }
}
