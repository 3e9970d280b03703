/** llm.ExtractJSON: pulling the first JSON object or array out of a model's completion. */
module JsonScanner {
  import opened Text

  // ---- JSON texts (RFC 8259, sections 2 to 7), with every whitespace choice recorded ----

  /** One unit of a JSON string: an unescaped character, a two-character escape or a \uXXXX escape. */
  datatype Mark = Plain(c: char) | Escaped(c: char) | Unicode(h0: char, h1: char, h2: char, h3: char)

  datatype Value =
    | Scalar(text: string)  // a number or one of true, false, null
    | Str(marks: seq<Mark>)
    | Array(gap: string, items: Items)
    | Object(gap: string, members: Members)

  datatype Items =
    | NoItems
    | Item(before: string, value: Value, after: string, rest: Items)

  datatype Members =
    | NoMembers
    | Member(before: string, key: seq<Mark>, afterKey: string, beforeValue: string, value: Value, after: string,
             rest: Members)

  predicate IsHex(c: char) {
    '0' <= c <= '9' || 'a' <= c <= 'f' || 'A' <= c <= 'F'
  }

  predicate ValidMark(m: Mark) {
    match m
    case Plain(c) => 0x20 <= c as int && c != '"' && c != '\\'
    case Escaped(c) => c in "\"\\/bfnrt"
    case Unicode(h0, h1, h2, h3) => IsHex(h0) && IsHex(h1) && IsHex(h2) && IsHex(h3)
  }

  predicate IsGap(s: string) {
    forall c :: c in s ==> c in " \t\n\r"
  }

  predicate IsScalarText(s: string) {
    s != "" && forall c :: c in s ==> 'a' <= c <= 'z' || '0' <= c <= '9' || c in "+-.E"
  }

  predicate ValidMarks(marks: seq<Mark>) {
    forall m :: m in marks ==> ValidMark(m)
  }

  predicate ValidValue(v: Value) {
    match v
    case Scalar(text) => IsScalarText(text)
    case Str(marks) => ValidMarks(marks)
    case Array(gap, items) => IsGap(gap) && ValidItems(items)
    case Object(gap, members) => IsGap(gap) && ValidMembers(members)
  }

  predicate ValidItems(items: Items) {
    match items
    case NoItems => true
    case Item(before, value, after, rest) => IsGap(before) && ValidValue(value) && IsGap(after) && ValidItems(rest)
  }

  predicate ValidMembers(members: Members) {
    match members
    case NoMembers => true
    case Member(before, key, afterKey, beforeValue, value, after, rest) =>
      IsGap(before) && ValidMarks(key) && IsGap(afterKey) && IsGap(beforeValue) && ValidValue(value) &&
      IsGap(after) && ValidMembers(rest)
  }

  function PrintMark(m: Mark): string {
    match m
    case Plain(c) => [c]
    case Escaped(c) => ['\\', c]
    case Unicode(h0, h1, h2, h3) => ['\\', 'u', h0, h1, h2, h3]
  }

  function PrintMarks(marks: seq<Mark>): string {
    if marks == [] then "" else PrintMark(marks[0]) + PrintMarks(marks[1..])
  }

  function Quote(marks: seq<Mark>): string {
    "\"" + (PrintMarks(marks) + "\"")
  }

  function Print(v: Value): string {
    match v
    case Scalar(text) => text
    case Str(marks) => Quote(marks)
    case Array(gap, items) => "[" + (gap + (PrintItems(items) + "]"))
    case Object(gap, members) => "{" + (gap + (PrintMembers(members) + "}"))
  }

  function PrintItems(items: Items): string {
    match items
    case NoItems => ""
    case Item(before, value, after, rest) =>
      before + (Print(value) + (after + ((if rest.NoItems? then "" else ",") + PrintItems(rest))))
  }

  function PrintMembers(members: Members): string {
    match members
    case NoMembers => ""
    case Member(before, key, afterKey, beforeValue, value, after, rest) =>
      before + (Quote(key) + (afterKey + (":" + (beforeValue + (Print(value) +
      (after + ((if rest.NoMembers? then "" else ",") + PrintMembers(rest))))))))
  }

  // ---- the scanner ----

  datatype Scan = Scan(depth: int, inStr: bool, esc: bool)

  const START := Scan(0, false, false)

  function Closer(open: char): char {
    if open == '[' then ']' else '}'
  }

  /** One byte of the scanner's switch; only brackets of the root's own shape move the depth. */
  function Feed(st: Scan, ch: char, open: char): Scan {
    if st.esc then st.(esc := false)
    else if ch == '\\' && st.inStr then st.(esc := true)
    else if ch == '"' then st.(inStr := !st.inStr)
    else if st.inStr then st
    else if ch == open then st.(depth := st.depth + 1)
    else if ch == Closer(open) then st.(depth := st.depth - 1)
    else st
  }

  /** The byte that brings the depth back to zero. */
  predicate Ends(st: Scan, ch: char, open: char) {
    !st.esc && !st.inStr && ch == Closer(open) && st.depth == 1
  }

  /** How many bytes of text the scanner consumes, from state st, up to and including the closing bracket. */
  function Scanned(text: string, st: Scan, open: char): Option<nat> {
    if text == "" then None
    else if Ends(st, text[0], open) then Some(1)
    else Shift(Scanned(text[1..], Feed(st, text[0], open), open), 1)
  }

  function Shift(o: Option<nat>, k: nat): Option<nat> {
    if o.None? then None else Some(o.value + k)
  }

  const FENCE := "```"

  /** The contents of the first fenced block, when there is a closed one; the text itself otherwise. */
  function Unfenced(s: string): string {
    var fence := Index(s, FENCE);
    if fence.None? then s
    else
      var afterFence := s[fence.value + 3..];
      var nl := Index(afterFence, "\n");
      var rest := if nl.Some? then afterFence[nl.value + 1..] else afterFence;
      var end := Index(rest, FENCE);
      if end.Some? then TrimSpace(rest[..end.value]) else s
  }

  predicate IsOpener(c: char) {
    c == '{' || c == '['
  }

  datatype Failure = NoJson | Unterminated

  /** What ExtractJSON returns. */
  function Extracted(input: string): Result<string, Failure> {
    var s := Unfenced(TrimSpace(input));
    var start := WordLength(s, IsOpener);
    if start == |s| then Err(NoJson)
    else
      var n := Scanned(s[start..], START, s[start]);
      ScannedWithin(s[start..], START, s[start]);
      if n.Some? then Ok(s[start..start + n.value]) else Err(Unterminated)
  }

  lemma {:induction false} ScannedWithin(text: string, st: Scan, open: char)
    ensures var n := Scanned(text, st, open); n.Some? ==> 0 < n.value <= |text|
  {
    if text != "" && !Ends(st, text[0], open) {
      ScannedWithin(text[1..], Feed(st, text[0], open), open);
    }
  }

  method ExtractJSON(input: string) returns (r: Result<string, Failure>)
    ensures r == Extracted(input)
  {
    var s := Unfence(TrimSpace(input));
    var start := WordLength(s, IsOpener);
    if start == |s| {
      return Err(NoJson);
    }
    r := ScanFrom(s, start);
  }

  /** The fence handling at the head of ExtractJSON. */
  method Unfence(text: string) returns (s: string)
    ensures s == Unfenced(text)
  {
    hide Index, TrimSpace;
    s := text;
    var fence := Index(s, FENCE);
    if fence.Some? {
      var rest := s[fence.value + 3..];
      var nl := Index(rest, "\n");
      if nl.Some? {
        rest := rest[nl.value + 1..];
      }
      var end := Index(rest, FENCE);
      if end.Some? {
        s := TrimSpace(rest[..end.value]);
      }
    }
  }

  /** The byte loop of ExtractJSON, from the first bracket on. */
  method ScanFrom(s: string, start: nat) returns (r: Result<string, Failure>)
    requires start < |s| && IsOpener(s[start])
    ensures var n := Scanned(s[start..], START, s[start]);
            if n.Some? then start + n.value <= |s| && r == Ok(s[start..start + n.value]) else r == Err(Unterminated)
  {
    var open := s[start];
    var closeCh := '}';
    if open == '[' {
      closeCh := ']';
    }
    var depth, inStr, esc := 0, false, false;
    for i := start to |s|
      invariant Scanned(s[start..], START, open) ==
                Shift(Scanned(s[i..], Scan(depth, inStr, esc), open), i - start)
    {
      ghost var before := Scan(depth, inStr, esc);
      var ch := s[i];
      assert s[i..][0] == ch && s[i..][1..] == s[i + 1..];
      if esc {
        esc := false;
      } else if ch == '\\' && inStr {
        esc := true;
      } else if ch == '"' {
        inStr := !inStr;
      } else if inStr {
        // literal text
      } else if ch == open {
        depth := depth + 1;
      } else if ch == closeCh {
        depth := depth - 1;
        if depth == 0 {
          assert Scanned(s[i..], Scan(1, false, false), open) == Some(1);
          return Ok(s[start..i + 1]);
        }
      }
      assert Scanned(s[i..], before, open) == Shift(Scanned(s[i + 1..], Scan(depth, inStr, esc), open), 1);
    }
    return Err(Unterminated);
  }

  // ---- scanning over printed text ----

  predicate Quiet(c: char) {
    c !in "{}[]\""
  }

  /** Outside a string, bytes that are neither brackets nor quotes leave the scanner where it is. */
  lemma {:induction false} SkipQuiet(x: string, y: string, st: Scan, open: char)
    requires IsOpener(open) && !st.inStr && !st.esc && forall c :: c in x ==> Quiet(c)
    ensures Scanned(x + y, st, open) == Shift(Scanned(y, st, open), |x|)
  {
    if x == "" {
      assert x + y == y;
    } else {
      assert (x + y)[0] == x[0] && (x + y)[1..] == x[1..] + y;
      assert x[0] in x;
      SkipQuiet(x[1..], y, st, open);
    }
  }

  /** Inside a string every byte is skipped until the closing quote. */
  lemma {:induction false} SkipMarks(marks: seq<Mark>, y: string, st: Scan, open: char)
    requires IsOpener(open) && st.inStr && !st.esc && ValidMarks(marks)
    ensures Scanned(PrintMarks(marks) + y, st, open) == Shift(Scanned(y, st, open), |PrintMarks(marks)|)
  {
    if marks == [] {
      assert PrintMarks(marks) + y == y;
    } else {
      var m, rest := marks[0], PrintMarks(marks[1..]) + y;
      assert m in marks;
      assert PrintMarks(marks) + y == PrintMark(m) + rest;
      SkipMark(m, rest, st, open);
      SkipMarks(marks[1..], y, st, open);
    }
  }

  lemma SkipMark(m: Mark, y: string, st: Scan, open: char)
    requires IsOpener(open) && st.inStr && !st.esc && ValidMark(m)
    ensures Scanned(PrintMark(m) + y, st, open) == Shift(Scanned(y, st, open), |PrintMark(m)|)
  {
    match m
    case Plain(c) =>
      First(c, y, st, open);
    case Escaped(c) =>
      assert PrintMark(m) + y == ['\\'] + ([c] + y);
      First('\\', [c] + y, st, open);
      First(c, y, st.(esc := true), open);
    case Unicode(h0, h1, h2, h3) =>
      var hex := [h0, h1, h2, h3];
      assert PrintMark(m) + y == ['\\'] + (['u'] + (hex + y));
      First('\\', ['u'] + (hex + y), st, open);
      First('u', hex + y, st.(esc := true), open);
      SkipHex(hex, y, st, open);
  }

  lemma {:induction false} SkipHex(x: string, y: string, st: Scan, open: char)
    requires IsOpener(open) && st.inStr && !st.esc && forall c :: c in x ==> IsHex(c)
    ensures Scanned(x + y, st, open) == Shift(Scanned(y, st, open), |x|)
  {
    if x == "" {
      assert x + y == y;
    } else {
      assert x + y == [x[0]] + (x[1..] + y);
      assert x[0] in x;
      First(x[0], x[1..] + y, st, open);
      SkipHex(x[1..], y, st, open);
    }
  }

  lemma First(c: char, y: string, st: Scan, open: char)
    ensures !Ends(st, c, open) ==> Scanned([c] + y, st, open) == Shift(Scanned(y, Feed(st, c, open), open), 1)
    ensures Ends(st, c, open) ==> Scanned([c] + y, st, open) == Some(1)
  {
    assert ([c] + y)[1..] == y;
  }

  lemma SkipQuote(marks: seq<Mark>, y: string, st: Scan, open: char)
    requires IsOpener(open) && !st.inStr && !st.esc && ValidMarks(marks)
    ensures Scanned(Quote(marks) + y, st, open) == Shift(Scanned(y, st, open), |Quote(marks)|)
  {
    var body := PrintMarks(marks);
    assert Quote(marks) + y == ['"'] + (body + (['"'] + y));
    First('"', body + (['"'] + y), st, open);
    SkipMarks(marks, ['"'] + y, st.(inStr := true), open);
    First('"', y, st.(inStr := true), open);
  }

  /** Skipping x and then y is skipping x + y; z is whatever follows. */
  lemma Chain(x: string, y: string, z: string, st: Scan, open: char)
    requires Skips(x, y + z, st, open) && Skips(y, z, st, open)
    ensures Skips(x + y, z, st, open)
  {
    assert (x + y) + z == x + (y + z);
  }

  ghost predicate Skips(x: string, y: string, st: Scan, open: char) {
    Scanned(x + y, st, open) == Shift(Scanned(y, st, open), |x|)
  }

  /** Inside an open root bracket, a printed value is skipped whole: the depth comes back to where it was and never
      reaches zero on the way. */
  lemma {:induction false} SkipValue(v: Value, y: string, st: Scan, open: char)
    requires IsOpener(open) && !st.inStr && !st.esc && st.depth >= 1 && ValidValue(v)
    ensures Skips(Print(v), y, st, open)
    decreases v
  {
    match v
    case Scalar(text) =>
      SkipQuiet(text, y, st, open);
    case Str(marks) =>
      SkipQuote(marks, y, st, open);
    case Array(gap, items) =>
      var inner, close := Feed(st, '[', open), "]" + y;
      SkipItems(items, close, inner, open);
      SkipBracketed('[', gap, PrintItems(items), ']', y, st, open);
    case Object(gap, members) =>
      var inner, close := Feed(st, '{', open), "}" + y;
      SkipMembers(members, close, inner, open);
      SkipBracketed('{', gap, PrintMembers(members), '}', y, st, open);
  }

  lemma SkipBracketed(l: char, gap: string, body: string, r: char, y: string, st: Scan, open: char)
    requires IsOpener(open) && IsOpener(l) && r == Closer(l)
    requires !st.inStr && !st.esc && st.depth >= 1 && IsGap(gap)
    requires Skips(body, [r] + y, Feed(st, l, open), open)
    ensures Skips([l] + (gap + (body + [r])), y, st, open)
  {
    var inner, rest := Feed(st, l, open), body + ([r] + y);
    Reassociate(l, gap, body, r, y);
    First(l, gap + rest, st, open);
    SkipQuiet(gap, rest, inner, open);
    First(r, y, inner, open);
  }

  lemma Reassociate(l: char, gap: string, body: string, r: char, y: string)
    ensures ([l] + (gap + (body + [r]))) + y == [l] + (gap + (body + ([r] + y)))
  {
    assert (body + [r]) + y == body + ([r] + y);
    assert (gap + (body + [r])) + y == gap + ((body + [r]) + y);
  }

  lemma {:induction false} SkipItems(items: Items, y: string, st: Scan, open: char)
    requires IsOpener(open) && !st.inStr && !st.esc && st.depth >= 1 && ValidItems(items)
    ensures Skips(PrintItems(items), y, st, open)
    decreases items
  {
    match items
    case NoItems =>
      assert PrintItems(items) + y == y;
    case Item(before, value, after, rest) =>
      var comma := if rest.NoItems? then "" else ",";
      var p4 := PrintItems(rest);
      var p3 := comma + p4;
      var p2 := after + p3;
      var p1 := Print(value) + p2;
      SkipItems(rest, y, st, open);
      SkipQuiet(comma, p4 + y, st, open);
      Chain(comma, p4, y, st, open);
      SkipQuiet(after, p3 + y, st, open);
      Chain(after, p3, y, st, open);
      SkipValue(value, p2 + y, st, open);
      Chain(Print(value), p2, y, st, open);
      SkipQuiet(before, p1 + y, st, open);
      Chain(before, p1, y, st, open);
  }

  lemma {:induction false} SkipMembers(members: Members, y: string, st: Scan, open: char)
    requires IsOpener(open) && !st.inStr && !st.esc && st.depth >= 1 && ValidMembers(members)
    ensures Skips(PrintMembers(members), y, st, open)
    decreases members
  {
    match members
    case NoMembers =>
      assert PrintMembers(members) + y == y;
    case Member(before, key, afterKey, beforeValue, value, after, rest) =>
      var comma := if rest.NoMembers? then "" else ",";
      var p8 := PrintMembers(rest);
      var p7 := comma + p8;
      var p6 := after + p7;
      var p5 := Print(value) + p6;
      SkipMembers(rest, y, st, open);
      SkipQuiet(comma, p8 + y, st, open);
      Chain(comma, p8, y, st, open);
      SkipQuiet(after, p7 + y, st, open);
      Chain(after, p7, y, st, open);
      SkipValue(value, p6 + y, st, open);
      Chain(Print(value), p6, y, st, open);
      SkipName(before, key, afterKey, beforeValue, p5, y, st, open);
  }

  /** The part of a member up to its value: the name, the colon and the whitespace around them. */
  lemma SkipName(before: string, key: seq<Mark>, afterKey: string, beforeValue: string, p5: string, y: string,
                 st: Scan, open: char)
    requires IsOpener(open) && !st.inStr && !st.esc
    requires IsGap(before) && ValidMarks(key) && IsGap(afterKey) && IsGap(beforeValue)
    requires Skips(p5, y, st, open)
    ensures Skips(before + (Quote(key) + (afterKey + (":" + (beforeValue + p5)))), y, st, open)
  {
    var p4 := beforeValue + p5;
    var p3 := ":" + p4;
    var p2 := afterKey + p3;
    var p1 := Quote(key) + p2;
    SkipQuiet(beforeValue, p5 + y, st, open);
    Chain(beforeValue, p5, y, st, open);
    SkipQuiet(":", p4 + y, st, open);
    Chain(":", p4, y, st, open);
    SkipQuiet(afterKey, p3 + y, st, open);
    Chain(afterKey, p3, y, st, open);
    SkipQuote(key, p2 + y, st, open);
    Chain(Quote(key), p2, y, st, open);
    SkipQuiet(before, p1 + y, st, open);
    Chain(before, p1, y, st, open);
  }

  /** From its own first bracket the scanner consumes a printed object or array exactly, whatever follows. */
  lemma ScansRoot(v: Value, y: string)
    requires ValidValue(v) && (v.Array? || v.Object?)
    ensures Print(v) != "" && IsOpener(Print(v)[0])
    ensures Scanned(Print(v) + y, START, Print(v)[0]) == Some(|Print(v)|)
  {
    var open := Print(v)[0];
    var close := Closer(open);
    if v.Array? {
      SkipItems(v.items, [close] + y, Scan(1, false, false), open);
      RootBracketed(open, v.gap, PrintItems(v.items), y);
    } else {
      SkipMembers(v.members, [close] + y, Scan(1, false, false), open);
      RootBracketed(open, v.gap, PrintMembers(v.members), y);
    }
  }

  lemma RootBracketed(open: char, gap: string, body: string, y: string)
    requires IsOpener(open) && IsGap(gap)
    requires Skips(body, [Closer(open)] + y, Scan(1, false, false), open)
    ensures var text := [open] + (gap + (body + [Closer(open)])); Scanned(text + y, START, open) == Some(|text|)
  {
    var close, inner := Closer(open), Scan(1, false, false);
    Reassociate(open, gap, body, close, y);
    First(open, gap + (body + ([close] + y)), START, open);
    SkipQuiet(gap, body + ([close] + y), inner, open);
    First(close, y, inner, open);
  }

  /** Bare completions: prose without brackets, then the JSON, then anything, with no fence in sight. */
  lemma ExtractsBare(prose: string, v: Value, trailer: string)
    requires ValidValue(v) && (v.Array? || v.Object?)
    requires '{' !in prose && '[' !in prose
    requires !Contains(prose + (Print(v) + trailer), "```")
    ensures Extracted(prose + (Print(v) + trailer)) == Ok(Print(v))
  {
    PrintedEnds(v);
    var pre, post := TrimAtEnds(prose, Print(v), trailer);
    var t := pre + (Print(v) + post);
    assert Unfenced(t) == t;
    Concludes(prose + (Print(v) + trailer), t, pre, v, post);
  }

  /** A fenced block: the fence, an optional language tag, a line break, the contents, the closing fence. */
  function Fenced(tag: string, body: string): string {
    "```" + (tag + ("\n" + (body + "```")))
  }

  /** Fenced completions: everything up to the line after the opening fence is ignored, and so is everything from
      the closing fence on. */
  lemma ExtractsFenced(prose: string, tag: string, lead: string, v: Value, tail: string, trailer: string)
    requires ValidValue(v) && (v.Array? || v.Object?)
    requires !Contains(prose, "```") && '\n' !in tag
    requires '{' !in lead && '[' !in lead
    requires !Contains(lead + (Print(v) + tail), "```")
    ensures Extracted(prose + (Fenced(tag, lead + (Print(v) + tail)) + trailer)) == Ok(Print(v))
  {
    var body := lead + (Print(v) + tail);
    var pre, post := TrimAtEnds(prose, Fenced(tag, body), trailer);
    var before, after := OpensBlock(pre, tag, lead, v, tail, post);
    Concludes(prose + (Fenced(tag, body) + trailer), pre + (Fenced(tag, body) + post), before, v, after);
  }

  lemma OpensBlock(pre: string, tag: string, lead: string, v: Value, tail: string, post: string)
    returns (before: string, after: string)
    requires ValidValue(v) && (v.Array? || v.Object?)
    requires !Contains(pre, FENCE) && '\n' !in tag
    requires forall c :: c in lead ==> !IsOpener(c)
    requires !Contains(lead + (Print(v) + tail), FENCE)
    ensures Unfenced(pre + (Fenced(tag, lead + (Print(v) + tail)) + post)) == before + (Print(v) + after)
    ensures forall c :: c in before ==> !IsOpener(c)
  {
    hide TrimSpace, Unfenced, Index, Print, ValidValue;
    PrintedEnds(v);
    var k := OpensFence(pre, tag, lead + (Print(v) + tail), post);
    var tail' := TailCut(lead, v, tail, k);
    before, after := TrimAtEnds(lead, Print(v), tail');
  }

  /** TrimSpace only shortens what surrounds a text with solid ends; no fence appears by trimming. */
  lemma TrimAtEnds(a: string, m: string, b: string) returns (pre: string, post: string)
    requires m != "" && !IsSpace(m[0]) && !IsSpace(m[|m| - 1])
    ensures TrimSpace(a + (m + b)) == pre + (m + post)
    ensures !Contains(a + (m + b), FENCE) ==> !Contains(pre + (m + post), FENCE)
    ensures !Contains(a, FENCE) ==> !Contains(pre, FENCE)
    ensures (forall c :: c in pre ==> c in a) && post <= b
  {
    TrimAround(a, m, b, IsSpace);
    var from := TrimLeftCuts(a, IsSpace);
    var to := TrimRightCuts(b, IsSpace);
    pre, post := a[from..], b[..to];
    var whole, part := a + (m + b), pre + (m + post);
    assert whole[from..from + |part|] == part;
    if !Contains(whole, FENCE) {
      NoFenceWithin(whole, part, from);
    }
    if !Contains(a, FENCE) {
      NoFenceWithin(a, pre, from);
    }
  }

  /** Losing up to two backticks at the end of the body leaves the printed value whole. */
  lemma TailCut(lead: string, v: Value, tail: string, k: nat) returns (tail': string)
    requires ValidValue(v) && (v.Array? || v.Object?)
    requires var body := lead + (Print(v) + tail);
             k <= |body| && forall i :: |body| - k <= i < |body| ==> body[i] == '`'
    ensures var body := lead + (Print(v) + tail); body[..|body| - k] == lead + (Print(v) + tail')
  {
    PrintedEnds(v);
    var body := lead + (Print(v) + tail);
    var last := |lead| + |Print(v)| - 1;
    assert body[last] == Print(v)[|Print(v)| - 1];
    assert k <= |tail|;
    tail' := tail[..|tail| - k];
  }

  /** A printed object or array starts and ends with a bracket. */
  lemma PrintedEnds(v: Value)
    requires ValidValue(v) && (v.Array? || v.Object?)
    ensures var p := Print(v); p != "" && IsOpener(p[0]) && p[|p| - 1] == Closer(p[0])
    ensures !IsSpace(Print(v)[0]) && !IsSpace(Print(v)[|Print(v)| - 1])
  {
  }

  lemma NoFenceWithin(s: string, part: string, at: nat)
    requires at + |part| <= |s| && s[at..at + |part|] == part
    requires !Contains(s, FENCE)
    ensures !Contains(part, FENCE)
  {
    hide IndexFrom;
    IndexFirst(part, FENCE);
    IndexFirst(s, FENCE);
    forall k | 0 <= k ensures !OccursAt(part, FENCE, k) {
      if k + 3 <= |part| {
        SliceOfSlice(s, at, at + |part|, k, k + 3);
      }
      assert !OccursAt(s, FENCE, at + k);
    }
  }

  lemma Concludes(input: string, t: string, pre: string, v: Value, post: string)
    requires ValidValue(v) && (v.Array? || v.Object?)
    requires TrimSpace(input) == t && Unfenced(t) == pre + (Print(v) + post)
    requires forall c :: c in pre ==> !IsOpener(c)
    ensures Extracted(input) == Ok(Print(v))
  {
    hide TrimSpace, Unfenced, Scanned, Print, ValidValue;
    FindsRoot(pre, v, post);
  }

  /** Once the fences are gone, the first bracket is the root's. */
  lemma FindsRoot(pre: string, v: Value, post: string)
    requires ValidValue(v) && (v.Array? || v.Object?)
    requires forall c :: c in pre ==> !IsOpener(c)
    ensures var s := pre + (Print(v) + post);
            WordLength(s, IsOpener) == |pre| && |pre| < |s| && s[|pre|] == Print(v)[0] &&
            Scanned(s[|pre|..], START, s[|pre|]) == Some(|Print(v)|) &&
            s[|pre|..|pre| + |Print(v)|] == Print(v)
  {
    PrintedEnds(v);
    ScansRoot(v, post);
    hide Print, ValidValue, Scanned, WordLength;
    var s := pre + (Print(v) + post);
    assert s[|pre|..] == Print(v) + post;
    assert s[|pre|..|pre| + |Print(v)|] == (Print(v) + post)[..|Print(v)|] == Print(v);
    assert s[|pre|] == Print(v)[0];
    forall i | 0 <= i < |pre| ensures !IsOpener(s[i]) {
      assert s[i] == pre[i] && pre[i] in pre;
    }
    WordLengthIs(s, |pre|, IsOpener);
  }

  /** The opening fence is found where it was written, or up to two backticks before it when the prose ends in
      backticks; likewise the closing one. Either way the block cut out is the body, less k trailing backticks. */
  lemma OpensFence(pre: string, tag: string, body: string, post: string) returns (k: nat)
    requires !Contains(pre, FENCE) && '\n' !in tag
    requires body != "" && !Contains(body, FENCE)
    ensures k <= |body| && forall i :: |body| - k <= i < |body| ==> body[i] == '`'
    ensures Unfenced(pre + (Fenced(tag, body) + post)) == TrimSpace(body[..|body| - k])
  {
    hide Index, TrimSpace;
    var s := pre + (Fenced(tag, body) + post);
    assert s == pre + (FENCE + (tag + ("\n" + (body + (FENCE + post)))));
    var f, line := FindsOpening(pre, tag, body + (FENCE + post));
    var rest := s[f + 3..][line + 1..];
    var e := FirstFence(body, post);
    k := |body| - e;
    assert rest[..e] == body[..e];
    assert Unfenced(s) == TrimSpace(rest[..e]);
  }

  /** The opening fence and the line break after it: what follows them is z. */
  lemma FindsOpening(pre: string, tag: string, z: string) returns (f: nat, line: nat)
    requires !Contains(pre, FENCE) && '\n' !in tag
    ensures var s := pre + (FENCE + (tag + ("\n" + z)));
            && f + 3 <= |s| && Index(s, FENCE) == Some(f)
            && line < |s[f + 3..]| && Index(s[f + 3..], "\n") == Some(line)
            && s[f + 3..][line + 1..] == z
  {
    hide Index;
    var s := pre + (FENCE + (tag + ("\n" + z)));
    f := FirstFence(pre, tag + ("\n" + z));
    line := |pre| + |tag| - f;
    var left := (pre + FENCE)[f + 3..] + tag;
    assert s == (pre + FENCE) + (tag + ("\n" + z));
    AfterFence(pre + FENCE, tag, "\n" + z, f + 3);
    assert '\n' !in (pre + FENCE)[f + 3..];
    FirstNewline(left, s[f + 3..], z);
  }

  lemma AfterFence(x: string, tag: string, y: string, at: nat)
    requires at <= |x|
    ensures (x + (tag + y))[at..] == (x[at..] + tag) + y
  {
  }

  /** With no fence inside x, the first fence of x + FENCE + y starts at most two places before the end of x. */
  lemma FirstFence(x: string, y: string) returns (f: nat)
    requires !Contains(x, FENCE)
    ensures f <= |x| <= f + 2 && Index(x + (FENCE + y), FENCE) == Some(f)
    ensures forall i :: f <= i < |x| ==> x[i] == '`'
  {
    var s := x + (FENCE + y);
    IndexFirst(s, FENCE);
    IndexFirst(x, FENCE);
    assert OccursAt(s, FENCE, |x|);
    forall i | 0 <= i && i + 3 <= |x| ensures !OccursAt(s, FENCE, i) {
      assert x[i..i + 3] == s[i..i + 3];
      assert !OccursAt(x, FENCE, i);
    }
    f := Index(s, FENCE).value;
    forall i | f <= i < |x| ensures x[i] == '`' {
      assert s[i] == s[f..f + 3][i - f] == FENCE[i - f] == '`';
    }
  }

  lemma FirstNewline(x: string, s: string, y: string)
    requires s == x + ("\n" + y) && '\n' !in x
    ensures Index(s, "\n") == Some(|x|)
  {
    IndexFirst(s, "\n");
    assert s[|x|..|x| + 1] == "\n";
    assert OccursAt(s, "\n", |x|);
    forall i | 0 <= i < |x| ensures !OccursAt(s, "\n", i) {
      assert s[i..i + 1][0] == x[i];
      assert x[i] in x;
    }
  }

  // ---- completions without a whole value ----

  /** What ends a scan ends it whatever follows. */
  lemma {:induction false} ScanStopsEarly(x: string, y: string, st: Scan, open: char)
    requires Scanned(x, st, open).Some?
    ensures Scanned(x + y, st, open) == Scanned(x, st, open)
  {
    assert (x + y)[0] == x[0] && (x + y)[1..] == x[1..] + y;
    if !Ends(st, x[0], open) {
      ScanStopsEarly(x[1..], y, Feed(st, x[0], open), open);
    }
  }

  /** A printed object or array cut off before its end never balances. */
  lemma CutOffNeverEnds(v: Value, part: string)
    requires ValidValue(v) && (v.Array? || v.Object?)
    requires part != "" && part < Print(v)
    ensures IsOpener(part[0]) && Scanned(part, START, part[0]).None?
  {
    hide Print, ValidValue, Scanned;
    PrintedEnds(v);
    ScansRoot(v, "");
    var rest := Print(v)[|part|..];
    assert part + rest == Print(v) == Print(v) + "";
    ScannedWithin(part, START, part[0]);
    if Scanned(part, START, part[0]).Some? {
      ScanStopsEarly(part, rest, START, part[0]);
    }
  }

  lemma RunsOut(input: string, pre: string, v: Value, part: string)
    requires ValidValue(v) && (v.Array? || v.Object?)
    requires part != "" && part < Print(v) && '{' !in pre && '[' !in pre
    requires Unfenced(TrimSpace(input)) == pre + part
    ensures Extracted(input) == Err(Unterminated)
  {
    hide TrimSpace, Unfenced, Scanned, Print, ValidValue;
    CutOffNeverEnds(v, part);
    var s := pre + part;
    forall i | 0 <= i < |pre| ensures !IsOpener(s[i]) {
      assert s[i] == pre[i] && pre[i] in pre;
    }
    WordLengthIs(s, |pre|, IsOpener);
    assert s[|pre|..] == part;
  }

  /** A completion that breaks off inside the value is an error, whatever it holds until then. */
  lemma TruncatedIsRefused(prose: string, v: Value, part: string)
    requires ValidValue(v) && (v.Array? || v.Object?)
    requires part != "" && part < Print(v) && '{' !in prose && '[' !in prose
    requires !Contains(prose + part, "```")
    ensures Extracted(prose + part) == Err(Unterminated)
  {
    hide TrimSpace, Scanned, Print, ValidValue, IndexFrom;
    PrintedEnds(v);
    assert part == [part[0]] + part[1..];
    var pre, post := TrimAtEnds(prose, [part[0]], part[1..]);
    var part' := [part[0]] + post;
    assert part' <= part;
    assert Unfenced(pre + part') == pre + part';
    RunsOut(prose + part, pre, v, part');
  }

  /** So is one that breaks off inside a fenced block. */
  lemma TruncatedBlockIsRefused(prose: string, tag: string, lead: string, v: Value, part: string)
    requires ValidValue(v) && (v.Array? || v.Object?)
    requires part != "" && part < Print(v)
    requires '{' !in prose + tag + lead && '[' !in prose + tag + lead
    requires !Contains(prose, "```") && '\n' !in tag && !Contains(lead + part, "```")
    ensures Extracted(prose + ("```" + (tag + ("\n" + (lead + part))))) == Err(Unterminated)
  {
    hide TrimSpace, Scanned, Print, ValidValue, Index, Unfenced;
    PrintedEnds(v);
    var head := "```" + (tag + ("\n" + (lead + [part[0]])));
    var pre, post := TrimAtEnds(prose, head, part[1..]);
    var part' := [part[0]] + post;
    var opening := "```" + (tag + ("\n" + lead));
    assert part == [part[0]] + part[1..] && part' <= part;
    assert head + part[1..] == "```" + (tag + ("\n" + (lead + part)));
    assert head + post == opening + part' == "```" + (tag + ("\n" + (lead + part')));
    NoFenceWithin(lead + part, lead + part', 0);
    StaysFenced(pre, tag, lead + part');
    assert pre + (head + post) == (pre + opening) + part';
    RunsOut(prose + ("```" + (tag + ("\n" + (lead + part)))), pre + opening, v, part');
  }

  /** A fence that is never closed is left in the text. */
  lemma StaysFenced(pre: string, tag: string, z: string)
    requires !Contains(pre, FENCE) && '\n' !in tag && !Contains(z, FENCE)
    ensures var s := pre + (FENCE + (tag + ("\n" + z))); Unfenced(s) == s
  {
    hide TrimSpace, IndexFrom;
    var f, line := FindsOpening(pre, tag, z);
  }

  /** Without a fence, nothing is found exactly when there is no bracket at all. */
  lemma NoJsonIff(input: string)
    requires !Contains(input, "```")
    ensures Extracted(input) == Err(NoJson) <==> '{' !in input && '[' !in input
  {
    hide TrimSpace, Scanned, IndexFrom;
    var from, to := TrimmedPart(input);
    var t := input[from..to];
    NoFenceWithin(input, t, from);
    assert Unfenced(t) == t;
    FirstOpener(t);
    forall c | c in input && (c == '{' || c == '[') ensures c in t {
      var i :| 0 <= i < |input| && input[i] == c;
      assert t[i - from] == c;
    }
  }

  lemma FirstOpener(t: string)
    ensures WordLength(t, IsOpener) == |t| <==> '{' !in t && '[' !in t
  {
    var n := WordLength(t, IsOpener);
    if n == |t| {
      forall c | c in t ensures !IsOpener(c) {
        assert t[..n] == t;
        WordLengthChars(t, IsOpener, c);
      }
    } else {
      assert t[n] in t;
    }
  }

  /** Trimming cuts nothing but blanks off the ends. */
  lemma TrimmedPart(s: string) returns (from: nat, to: nat)
    ensures from <= to <= |s| && TrimSpace(s) == s[from..to]
    ensures forall i :: 0 <= i < from || to <= i < |s| ==> IsSpace(s[i])
  {
    from := TrimLeftCuts(s, IsSpace);
    var n := TrimRightCuts(s[from..], IsSpace);
    to := from + n;
    assert s[from..][..n] == s[from..to];
    forall i | to <= i < |s| ensures IsSpace(s[i]) {
      assert s[from..][i - from] == s[i];
    }
  }
}
