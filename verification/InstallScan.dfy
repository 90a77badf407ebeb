/** The install-text scanner of the local-first gate (scripts/local-first-gate.ts). */
module InstallScan {
  import opened Seqs
  import opened Text

  /** The three regular-expression tests of the scanner; nothing is assumed about them. */
  datatype Tests = Tests(own: string -> bool, patterns: seq<string -> bool>, marker: string -> bool)

  /** A reported line: its 1-based number and its trimmed text, at most 100 characters. */
  datatype Hit = Hit(n: nat, line: string)

  function TrimEnd(s: string): string {
    if s != "" && IsSpace(s[|s| - 1]) then TrimEnd(s[..|s| - 1]) else s
  }

  function Excerpt(line: string): (r: string) {
    var s := TrimEnd(TrimStart(line));
    if |s| <= 100 then s else s[..100]
  }

  /** Reads one line in a comment state: the next state, and the code on the line if it has any. */
  function Read(inBlock: bool, line: string): (bool, Option<string>) {
    if inBlock then
      var end := IndexOf(line, "*/", 0);
      if end < 0 then (true, None) else (false, Some(line[end + 2..]))
    else
      var t := TrimStart(line);
      if "//" <= t then (false, None)
      else if "/*" <= t then
        var end := IndexOf(t, "*/", 2);
        if end < 0 then (true, None) else (false, Some(t[end + 2..]))
      else (false, Some(line))
  }

  predicate MarkedAbove(t: Tests, above: string) {
    var a := TrimStart(above);
    ("//" <= a || "/*" <= a || "*" <= a) && t.marker(a)
  }

  /** Is this line unmarked install text, given the comment state and the line above it? */
  predicate Flagged(t: Tests, inBlock: bool, above: string, line: string) {
    match Read(inBlock, line).1
    case None => false
    case Some(code) =>
      && !t.own(code)
      && (exists i :: 0 <= i < |t.patterns| && t.patterns[i](code))
      && !MarkedAbove(t, above)
      && !t.marker(line)
  }

  /** Comment state after some lines: what a reader carries to the next line. */
  function BlockAfter(lines: seq<string>, inBlock: bool): bool {
    if lines == [] then inBlock else BlockAfter(lines[1..], Read(inBlock, lines[0]).0)
  }

  function AboveAfter(lines: seq<string>, above: string): string {
    if lines == [] then above else lines[|lines| - 1]
  }

  function Own(t: Tests, inBlock: bool, above: string, line: string, n: nat): seq<Hit> {
    if Flagged(t, inBlock, above, line) then [Hit(n, Excerpt(line))] else []
  }

  function Scan(t: Tests, lines: seq<string>, inBlock: bool, above: string, base: nat): (hits: seq<Hit>) {
    if lines == [] then []
    else
      Own(t, inBlock, above, lines[0], base + 1)
      + Scan(t, lines[1..], Read(inBlock, lines[0]).0, lines[0], base + 1)
  }

  function HitsIn(t: Tests, text: string): seq<Hit> {
    Scan(t, Split(text, '\n'), false, "", 0)
  }

  method AnyMatches(patterns: seq<string -> bool>, code: string) returns (found: bool)
    ensures found <==> exists i :: 0 <= i < |patterns| && patterns[i](code)
  {
    for i := 0 to |patterns|
      invariant forall k :: 0 <= k < i ==> !patterns[k](code)
    {
      if patterns[i](code) {
        return true;
      }
    }
    return false;
  }

  /** The per-line body: the next comment state and whether the line is reported. */
  method Judge(t: Tests, inBlock: bool, above: string, line: string, n: nat) returns (next: bool, own: seq<Hit>)
    ensures next == Read(inBlock, line).0
    ensures own == Own(t, inBlock, above, line, n)
  {
    var (st, code) := Read(inBlock, line);
    next := st;
    if code == None || t.own(code.value) {
      return next, [];
    }
    var found := AnyMatches(t.patterns, code.value);
    if !found || MarkedAbove(t, above) || t.marker(line) {
      return next, [];
    }
    own := [Hit(n, Excerpt(line))];
  }

  method InstallLines(t: Tests, text: string) returns (out: seq<Hit>)
    ensures out == HitsIn(t, text)
  {
    hide Own, Flagged, Read, Excerpt;
    var lines := Split(text, '\n');
    out := [];
    var inBlock := false;
    var above := "";
    for i := 0 to |lines|
      invariant out + Scan(t, lines[i..], inBlock, above, i) == HitsIn(t, text)
    {
      var line := lines[i];
      assert lines[i..][1..] == lines[i + 1..];
      var next, own := Judge(t, inBlock, above, line, i + 1);
      ghost var rest := Scan(t, lines[i + 1..], next, line, i + 1);
      assert (out + own) + rest == out + (own + rest);
      out := out + own;
      inBlock := next;
      above := line;
    }
  }

  /** Scanning composes over concatenation when the comment state and the previous line are carried. */
  lemma {:induction false} ScanConcat(t: Tests, a: seq<string>, b: seq<string>, inBlock: bool, above: string, base: nat)
    ensures
      Scan(t, a + b, inBlock, above, base)
      == Scan(t, a, inBlock, above, base)
         + Scan(t, b, BlockAfter(a, inBlock), AboveAfter(a, above), base + |a|)
  {
    hide Own, Flagged, Read, Excerpt;
    if a == [] {
      assert a + b == b;
    } else {
      assert (a + b)[1..] == a[1..] + b;
      var own, next := Own(t, inBlock, above, a[0], base + 1), Read(inBlock, a[0]).0;
      ScanConcat(t, a[1..], b, next, a[0], base + 1);
      var first := Scan(t, a[1..], next, a[0], base + 1);
      var second := Scan(t, b, BlockAfter(a, inBlock), AboveAfter(a, above), base + |a|);
      assert own + (first + second) == (own + first) + second;
    }
  }

  /** The output is exactly the flagged lines, each judged by the state its prefix leaves. */
  lemma {:induction false} ScanExact(t: Tests, lines: seq<string>, i: nat)
    requires i < |lines|
    ensures
      (exists h :: h in Scan(t, lines, false, "", 0) && h.n == i + 1)
      <==> Flagged(t, BlockAfter(lines[..i], false), AboveAfter(lines[..i], ""), lines[i])
  {
    hide *;
    var st, ab, tail := BlockAfter(lines[..i], false), AboveAfter(lines[..i], ""), lines[i..];
    assert lines == lines[..i] + tail && tail[0] == lines[i] && tail != [];
    ScanConcat(t, lines[..i], tail, false, "", 0);
    ScanHead(t, tail, st, ab, i);
    OwnExact(t, st, ab, lines[i], i + 1);
    ScanRange(t, lines[..i], false, "", 0);
    ScanRange(t, tail[1..], Read(st, lines[i]).0, lines[i], i + 1);
    OnlyOwn(Scan(t, lines[..i], false, "", 0), Own(t, st, ab, lines[i], i + 1),
            Scan(t, tail[1..], Read(st, lines[i]).0, lines[i], i + 1), i + 1);
  }

  lemma ScanHead(t: Tests, lines: seq<string>, inBlock: bool, above: string, base: nat)
    requires lines != []
    ensures Scan(t, lines, inBlock, above, base)
            == Own(t, inBlock, above, lines[0], base + 1)
               + Scan(t, lines[1..], Read(inBlock, lines[0]).0, lines[0], base + 1)
  {
  }

  /** A number between those of the first and the last hits can only be among the middle ones. */
  lemma OnlyOwn(first: seq<Hit>, own: seq<Hit>, last: seq<Hit>, n: nat)
    requires forall h :: h in first ==> h.n < n
    requires forall h :: h in last ==> h.n > n
    requires forall h :: h in own ==> h.n == n
    ensures (exists h :: h in first + (own + last) && h.n == n) <==> own != []
  {
    if own != [] {
      assert own[0] in first + (own + last);
    }
  }

  lemma OwnExact(t: Tests, inBlock: bool, above: string, line: string, n: nat)
    ensures
      var own := Own(t, inBlock, above, line, n);
      (own != [] <==> Flagged(t, inBlock, above, line)) && forall h :: h in own ==> h.n == n
  {
    hide Flagged, Excerpt;
  }

  lemma {:induction false} ScanRange(t: Tests, lines: seq<string>, inBlock: bool, above: string, base: nat)
    ensures forall h :: h in Scan(t, lines, inBlock, above, base) ==> base < h.n <= base + |lines|
  {
    hide Flagged, Read, Excerpt;
    if lines != [] {
      ScanRange(t, lines[1..], Read(inBlock, lines[0]).0, lines[0], base + 1);
    }
  }

  function Shifted(hits: seq<Hit>): seq<Hit> {
    seq(|hits|, i requires 0 <= i < |hits| => Hit(hits[i].n + 1, hits[i].line))
  }

  lemma {:induction false} ScanShift(t: Tests, lines: seq<string>, inBlock: bool, above: string, base: nat)
    ensures Scan(t, lines, inBlock, above, base + 1) == Shifted(Scan(t, lines, inBlock, above, base))
  {
    if lines != [] {
      var own := Own(t, inBlock, above, lines[0], base + 1);
      var rest := Scan(t, lines[1..], Read(inBlock, lines[0]).0, lines[0], base + 1);
      assert Own(t, inBlock, above, lines[0], base + 2) == Shifted(own) by {
        hide Flagged, Excerpt;
      }
      ScanShift(t, lines[1..], Read(inBlock, lines[0]).0, lines[0], base + 1);
      hide Own, Read;
      ShiftedConcat(own, rest);
    }
    hide Own, Read, Flagged;
  }

  lemma ShiftedConcat(a: seq<Hit>, b: seq<Hit>)
    ensures Shifted(a + b) == Shifted(a) + Shifted(b)
  {
  }

  /** A whole-line `//` comment that carries the marker and closes no block comment. */
  predicate MarkerComment(t: Tests, m: string) {
    "//" <= TrimStart(m) && IndexOf(m, "*/", 0) == -1 && t.marker(TrimStart(m))
  }

  lemma MarkerIsSkipped(t: Tests, inBlock: bool, above: string, m: string, line: string)
    requires MarkerComment(t, m)
    ensures Read(inBlock, m) == (inBlock, None)
    ensures forall n :: Own(t, inBlock, above, m, n) == [] && Own(t, inBlock, m, line, n) == []
  {
  }

  /** A marker comment on top of the remaining lines: the first of them is no longer reported. */
  lemma MarkerOnTop(t: Tests, inBlock: bool, above: string, m: string, lines: seq<string>, base: nat)
    requires lines != [] && MarkerComment(t, m)
    ensures
      var after := Scan(t, lines[1..], Read(inBlock, lines[0]).0, lines[0], base + 1);
      && Scan(t, lines, inBlock, above, base) == Own(t, inBlock, above, lines[0], base + 1) + after
      && Scan(t, [m] + lines, inBlock, above, base) == Shifted(after)
  {
    hide Own, Flagged, Read, Excerpt, MarkerComment;
    MarkerIsSkipped(t, inBlock, above, m, lines[0]);
    assert ([m] + lines)[1..] == lines;
    var rest := Scan(t, lines[1..], Read(inBlock, lines[0]).0, lines[0], base + 2);
    assert Scan(t, lines, inBlock, m, base + 1) == [] + rest == rest;
    ScanShift(t, lines[1..], Read(inBlock, lines[0]).0, lines[0], base + 1);
  }

  /** What inserting a marker comment above line k does: that line's report goes, later ones move down one. */
  lemma MarkerInsertion(t: Tests, lines: seq<string>, k: nat, m: string)
    requires k < |lines| && MarkerComment(t, m)
    ensures
      var st, ab := BlockAfter(lines[..k], false), AboveAfter(lines[..k], "");
      var before := Scan(t, lines[..k], false, "", 0);
      var own := Own(t, st, ab, lines[k], k + 1);
      var after := Scan(t, lines[k + 1..], Read(st, lines[k]).0, lines[k], k + 1);
      && Scan(t, lines, false, "", 0) == before + (own + after)
      && Scan(t, lines[..k] + ([m] + lines[k..]), false, "", 0) == before + Shifted(after)
  {
    hide *;
    var st, ab, tail := BlockAfter(lines[..k], false), AboveAfter(lines[..k], ""), lines[k..];
    assert lines == lines[..k] + tail && tail[1..] == lines[k + 1..];
    ScanConcat(t, lines[..k], tail, false, "", 0);
    ScanConcat(t, lines[..k], [m] + tail, false, "", 0);
    MarkerOnTop(t, st, ab, m, tail, k);
  }

  // --- what counts as a comment --------------------------------------------

  ghost predicate Closes(line: string, from: nat) {
    exists k :: from <= k && OccursAt(line, "*/", k)
  }

  /** How one line is read: line comments and open blocks hide text, anything else is code. */
  lemma ReadRules(line: string)
    ensures !Closes(line, 0) ==> Read(true, line) == (true, None)
    ensures
      var t := TrimStart(line);
      && ("//" <= t ==> Read(false, line) == (false, None))
      && ("/*" <= t && !Closes(t, 2) ==> Read(false, line) == (true, None))
      && (!("//" <= t) && !("/*" <= t) ==> Read(false, line) == (false, Some(line)))
  {
    var t := TrimStart(line);
    assert "//"[1] == '/' && "/*"[1] == '*';
  }

  /** A block ends at its first closing mark, and only the text after the mark is code. */
  lemma BlockEnds(inside: string, after: string)
    requires !Closes(inside + "*", 0)
    ensures Read(true, inside + "*/" + after) == (false, Some(after))
  {
    var line := inside + "*/" + after;
    assert OccursAt(line, "*/", |inside|);
    forall k | 0 <= k < |inside|
      ensures OccursAt(line, "*/", k) == OccursAt(inside + "*", "*/", k)
    {
      assert (inside + "*")[k..k + 2] == line[k..k + 2];
    }
    assert line[|inside| + 2..] == after;
  }

  /** Nothing is reported from a block comment, however many lines it spans. */
  lemma {:induction false} BlockIsSilent(t: Tests, lines: seq<string>, above: string, base: nat)
    requires forall l :: l in lines ==> !Closes(l, 0)
    ensures Scan(t, lines, true, above, base) == [] && BlockAfter(lines, true)
  {
    if lines != [] {
      ReadRules(lines[0]);
      assert lines[0] in lines;
      hide Read, Closes;
      BlockIsSilent(t, lines[1..], lines[0], base + 1);
    }
  }

  lemma {:induction false} BlockAfterConcat(a: seq<string>, b: seq<string>, inBlock: bool)
    ensures BlockAfter(a + b, inBlock) == BlockAfter(b, BlockAfter(a, inBlock))
  {
    hide Read;
    if a == [] {
      assert a + b == b;
    } else {
      assert (a + b)[1..] == a[1..] + b;
      BlockAfterConcat(a[1..], b, Read(inBlock, a[0]).0);
    }
  }

  /**
   * A whole block comment, inserted anywhere outside one: its lines report nothing but what follows the
   * closing mark on the last of them, and the reader is outside a comment again.
   */
  lemma BlockCommentIsSilent(
    t: Tests, open: string, inner: seq<string>, inside: string, after: string, above: string, base: nat)
    requires "/*" <= TrimStart(open) && !Closes(TrimStart(open), 2)
    requires forall l :: l in inner ==> !Closes(l, 0)
    requires !Closes(inside + "*", 0)
    ensures
      var last := inside + "*/" + after;
      var lines := [open] + inner + [last];
      && Scan(t, lines, false, above, base)
         == Own(t, true, AboveAfter([open] + inner, above), last, base + |inner| + 2)
      && !BlockAfter(lines, false)
      && ((forall i :: 0 <= i < |t.patterns| ==> !t.patterns[i](after)) ==> Scan(t, lines, false, above, base) == [])
  {
    ReadRules(open);
    BlockEnds(inside, after);
    hide *;
    CommentOnTop(t, open, inner, inside + "*/" + after, above, base);
    if forall i :: 0 <= i < |t.patterns| ==> !t.patterns[i](after) {
      OnlyTheRest(t, AboveAfter([open] + inner, above), inside + "*/" + after, after, base + |inner| + 2);
    }
  }

  lemma CommentOnTop(t: Tests, open: string, inner: seq<string>, last: string, above: string, base: nat)
    requires Read(false, open) == (true, None) && !Read(true, last).0
    requires forall l :: l in inner ==> !Closes(l, 0)
    ensures
      var lines := [open] + inner + [last];
      && Scan(t, lines, false, above, base)
         == Own(t, true, AboveAfter([open] + inner, above), last, base + |inner| + 2)
      && !BlockAfter(lines, false)
  {
    var head := [open] + inner;
    hide *;
    OpeningLine(t, open, above, base + 1);
    assert head != [] && head[0] == open && head[1..] == inner && [last][1..] == [];
    ScanHead(t, head, false, above, base);
    BlockIsSilent(t, inner, open, base + 1);
    BlockHead(head, false);
    ScanConcat(t, head, [last], false, above, base);
    ScanHead(t, [last], true, AboveAfter(head, above), base + |head|);
    ScanNothing(t, Read(true, last).0, last, base + |head| + 1);
    BlockAfterConcat(head, [last], false);
    BlockHead([last], true);
  }

  lemma OpeningLine(t: Tests, open: string, above: string, n: nat)
    requires Read(false, open) == (true, None)
    ensures Own(t, false, above, open, n) == []
  {
    hide Read, Excerpt;
  }

  lemma BlockHead(lines: seq<string>, inBlock: bool)
    requires lines != []
    ensures BlockAfter(lines, inBlock) == BlockAfter(lines[1..], Read(inBlock, lines[0]).0)
    ensures forall b :: BlockAfter([], b) == b
  {
    hide Read;
  }

  lemma ScanNothing(t: Tests, inBlock: bool, above: string, base: nat)
    ensures Scan(t, [], inBlock, above, base) == []
  {
  }

  lemma OnlyTheRest(t: Tests, above: string, last: string, after: string, n: nat)
    requires Read(true, last) == (false, Some(after)) && forall i :: 0 <= i < |t.patterns| ==> !t.patterns[i](after)
    ensures Own(t, true, above, last, n) == []
  {
    hide Read;
  }

  // --- lines as they are written -------------------------------------------

  /** The white space that trimming removes. */
  lemma SpaceSet(c: char)
    ensures IsSpace(c) <==>
      c in "\t\n\U{0B}\U{0C}\r \U{A0}\U{1680}\U{2000}\U{2001}\U{2002}\U{2003}\U{2004}\U{2005}\U{2006}"
           + "\U{2007}\U{2008}\U{2009}\U{200A}\U{2028}\U{2029}\U{202F}\U{205F}\U{3000}\U{FEFF}"
  {
  }

  ghost predicate Blank(s: string) {
    forall c :: c in s ==> IsSpace(c)
  }

  ghost predicate Solid(s: string) {
    s != "" && !IsSpace(s[0])
  }

  lemma {:induction false} TrimIndent(indent: string, s: string)
    requires Blank(indent) && Solid(s)
    ensures TrimStart(indent + s) == s
  {
    if indent == "" {
      assert indent + s == s;
    } else {
      assert indent[0] in indent && (indent + s)[1..] == indent[1..] + s;
      TrimIndent(indent[1..], s);
    }
  }

  /** What a line outside a block comment is, by how it is written. */
  lemma OutsideForms(indent: string, text: string)
    requires Blank(indent)
    ensures Read(false, indent + ("//" + text)) == (false, None)
    ensures !Closes(text, 0) ==> Read(false, indent + ("/*" + text)) == (true, None)
    ensures Solid(text) && !("//" <= text) && !("/*" <= text) ==>
      Read(false, indent + text) == (false, Some(indent + text))
    ensures !Closes(text, 0) ==> Read(true, text) == (true, None)
  {
    TrimIndent(indent, "//" + text);
    TrimIndent(indent, "/*" + text);
    ReadRules(indent + ("//" + text));
    ReadRules(indent + ("/*" + text));
    ReadRules(text);
    OpenStaysOpen(text);
    if Solid(text) {
      TrimIndent(indent, text);
      ReadRules(indent + text);
    }
  }

  lemma OpenStaysOpen(text: string)
    ensures Closes("/*" + text, 2) ==> Closes(text, 0)
  {
    var t := "/*" + text;
    if k :| 2 <= k && OccursAt(t, "*/", k) {
      assert text[k - 2..k] == t[k..k + 2];
      assert OccursAt(text, "*/", k - 2);
    }
  }

  /** A block comment that closes on its own line: what follows the mark is code, and no block stays open. */
  lemma OneLineComment(indent: string, inside: string, after: string)
    requires Blank(indent) && !Closes(inside + "*", 0)
    ensures Read(false, indent + ("/*" + (inside + "*/" + after))) == (false, Some(after))
  {
    var t := "/*" + (inside + "*/" + after);
    TrimIndent(indent, t);
    ClosingMark(inside, after);
    assert "//"[1] == '/' && t[1] == '*';
    hide IndexOf, OccursAt, TrimStart, Closes;
  }

  lemma ClosingMark(inside: string, after: string)
    requires !Closes(inside + "*", 0)
    ensures
      var t := "/*" + (inside + "*/" + after);
      IndexOf(t, "*/", 2) == |inside| + 2 && t[|inside| + 4..] == after
  {
    var line := inside + "*/" + after;
    var t := "/*" + line;
    FirstClose(inside, after);
    assert t[2..] == line && line[|inside|..|inside| + 2] == "*/" && line[|inside| + 2..] == after;
    assert t[|inside| + 4..] == after && t[|inside| + 2..|inside| + 4] == "*/";
    forall k | 2 <= k < |inside| + 2
      ensures !OccursAt(t, "*/", k)
    {
      assert t[k..k + 2] == line[k - 2..k] && !OccursAt(line, "*/", k - 2);
    }
    assert OccursAt(t, "*/", |inside| + 2);
    hide Closes, IndexOf, OccursAt;
  }

  lemma FirstClose(inside: string, after: string)
    requires !Closes(inside + "*", 0)
    ensures forall k :: 0 <= k < |inside| ==> !OccursAt(inside + "*/" + after, "*/", k)
  {
    var line := inside + "*/" + after;
    forall k | 0 <= k < |inside|
      ensures OccursAt(line, "*/", k) == OccursAt(inside + "*", "*/", k)
    {
      assert (inside + "*")[k..k + 2] == line[k..k + 2];
    }
  }

  /** Unmarked install text: install code that is not this program's own, without a marker on or above the line. */
  ghost predicate Unmarked(t: Tests, code: string, above: string, line: string) {
    && !t.own(code) && (exists i :: 0 <= i < |t.patterns| && t.patterns[i](code))
    && !t.marker(line)
    && !(t.marker(TrimStart(above))
         && ("//" <= TrimStart(above) || "/*" <= TrimStart(above) || "*" <= TrimStart(above)))
  }

  /**
   * A line comment on one line, whatever its indent: it is reported exactly when what follows the closing
   * mark is unmarked install text, and the lines below are read outside a comment.
   */
  lemma OneLineCommentScan(
    t: Tests, indent: string, inside: string, after: string, rest: seq<string>, above: string, base: nat)
    requires Blank(indent) && !Closes(inside + "*", 0)
    ensures
      var line := indent + ("/*" + (inside + "*/" + after));
      Scan(t, [line] + rest, false, above, base)
      == (if Unmarked(t, after, above, line) then [Hit(base + 1, Excerpt(line))] else [])
         + Scan(t, rest, false, line, base + 1)
  {
    hide *;
    var line := indent + ("/*" + (inside + "*/" + after));
    OneLineComment(indent, inside, after);
    CodeLine(t, line, after, false, rest, above, base);
  }

  /** Any other line of code is reported exactly when it is unmarked install text. */
  lemma PlainLineScan(t: Tests, indent: string, text: string, rest: seq<string>, above: string, base: nat)
    requires Blank(indent) && Solid(text) && !("//" <= text) && !("/*" <= text)
    ensures
      var line := indent + text;
      Scan(t, [line] + rest, false, above, base)
      == (if Unmarked(t, line, above, line) then [Hit(base + 1, Excerpt(line))] else [])
         + Scan(t, rest, false, line, base + 1)
  {
    hide *;
    OutsideForms(indent, text);
    CodeLine(t, indent + text, indent + text, false, rest, above, base);
  }

  /** So is what follows the end of a block. */
  lemma BlockEndScan(t: Tests, inside: string, after: string, rest: seq<string>, above: string, base: nat)
    requires !Closes(inside + "*", 0)
    ensures
      var line := inside + "*/" + after;
      Scan(t, [line] + rest, true, above, base)
      == (if Unmarked(t, after, above, line) then [Hit(base + 1, Excerpt(line))] else [])
         + Scan(t, rest, false, line, base + 1)
  {
    hide *;
    BlockEnds(inside, after);
    CodeLine(t, inside + "*/" + after, after, true, rest, above, base);
  }

  lemma CodeLine(
    t: Tests, line: string, code: string, inBlock: bool, rest: seq<string>, above: string, base: nat)
    requires Read(inBlock, line) == (false, Some(code))
    ensures
      Scan(t, [line] + rest, inBlock, above, base)
      == (if Unmarked(t, code, above, line) then [Hit(base + 1, Excerpt(line))] else [])
         + Scan(t, rest, false, line, base + 1)
  {
    hide Read, Excerpt;
    assert ([line] + rest)[1..] == rest && ([line] + rest)[0] == line;
  }

  /** The excerpt of a hit: the line without its outer white space, cut to 100 characters. */
  lemma ExcerptMeaning(lead: string, text: string, trail: string)
    requires Blank(lead) && Blank(trail) && Solid(text) && !IsSpace(text[|text| - 1])
    ensures Excerpt(lead + (text + trail)) == if |text| <= 100 then text else text[..100]
  {
    hide IsSpace, TrimEnd, TrimStart;
    TrimIndent(lead, text + trail);
    TrimTrail(text, trail);
  }

  lemma {:induction false} TrimTrail(text: string, trail: string)
    requires Blank(trail) && text != "" && !IsSpace(text[|text| - 1])
    ensures TrimEnd(text + trail) == text
  {
    hide IsSpace;
    if trail == "" {
      assert text + trail == text;
    } else {
      var n := |trail| - 1;
      assert trail[n] in trail && (text + trail)[..|text + trail| - 1] == text + trail[..n];
      TrimTrail(text, trail[..n]);
    }
  }

  /** The hits of a text by its lines: a line is reported exactly when it is flagged, under its own number. */
  lemma TextExact(t: Tests, text: string, i: nat)
    requires i < |Split(text, '\n')|
    ensures
      var lines := Split(text, '\n');
      (exists h :: h in HitsIn(t, text) && h.n == i + 1)
      <==> Flagged(t, BlockAfter(lines[..i], false), AboveAfter(lines[..i], ""), lines[i])
  {
    hide Flagged, Read, Scan, Split;
    ScanExact(t, Split(text, '\n'), i);
  }

  ghost predicate Ascending(hits: seq<Hit>) {
    forall i, j :: 0 <= i < j < |hits| ==> hits[i].n < hits[j].n
  }

  /** The hits stand for lines of the list, whose first is numbered base + 1, with those lines' excerpts. */
  ghost predicate OfLines(hits: seq<Hit>, lines: seq<string>, base: nat) {
    forall h :: h in hits ==> base < h.n <= base + |lines| && h.line == Excerpt(lines[h.n - base - 1])
  }

  /** Hits come in line order, one for a line, each with its line's own excerpt. */
  lemma {:induction false} HitsAreLines(t: Tests, lines: seq<string>, inBlock: bool, above: string, base: nat)
    ensures Ascending(Scan(t, lines, inBlock, above, base))
    ensures OfLines(Scan(t, lines, inBlock, above, base), lines, base)
  {
    hide *;
    if lines == [] {
      ScanNothing(t, inBlock, above, base);
      NoHits(lines, base);
    } else {
      ScanHead(t, lines, inBlock, above, base);
      HitsAreLines(t, lines[1..], Read(inBlock, lines[0]).0, lines[0], base + 1);
      OwnLine(t, inBlock, above, lines[0], base + 1);
      OnTop(Own(t, inBlock, above, lines[0], base + 1),
            Scan(t, lines[1..], Read(inBlock, lines[0]).0, lines[0], base + 1), lines, base);
    }
  }

  lemma NoHits(lines: seq<string>, base: nat)
    ensures Ascending([]) && OfLines([], lines, base)
  {
  }

  lemma OwnLine(t: Tests, inBlock: bool, above: string, line: string, n: nat)
    ensures
      var own := Own(t, inBlock, above, line, n);
      |own| <= 1 && forall h :: h in own ==> h == Hit(n, Excerpt(line))
  {
    hide Flagged, Excerpt;
  }

  lemma OnTop(own: seq<Hit>, rest: seq<Hit>, lines: seq<string>, base: nat)
    requires lines != [] && |own| <= 1 && forall h :: h in own ==> h == Hit(base + 1, Excerpt(lines[0]))
    requires Ascending(rest) && OfLines(rest, lines[1..], base + 1)
    ensures Ascending(own + rest) && OfLines(own + rest, lines, base)
  {
    hide Excerpt;
    forall h | h in rest
      ensures base + 1 < h.n <= base + |lines| && h.line == Excerpt(lines[h.n - base - 1])
    {
      assert lines[h.n - base - 1] == lines[1..][h.n - base - 2];
    }
    assert forall j :: 0 <= j < |rest| ==> rest[j] in rest && base + 1 < rest[j].n;
    assert own != [] ==> own[0] in own && own[0].n == base + 1;
  }
}
