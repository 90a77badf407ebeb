/**
 * Cutting daemon output into lines as chunks arrive (scripts/durable-continue-demo.ts).
 *
 * One log is shared by the tails of two streams, each with a buffer of its own. A chunk is handled
 * without interruption, so a run is any interleaving of decoded chunks.
 */
module LineSplitter {
  import opened Seqs
  import opened Text

  datatype Stream = Stdout | Stderr
  datatype Chunk = Chunk(stream: Stream, text: string)
  datatype Line = Line(stream: Stream, text: string)

  /** The whole-stream meaning: the newline-terminated lines, and the unterminated rest. */
  function Terminated(s: string): seq<string> {
    var parts := Split(s, '\n');
    parts[..|parts| - 1]
  }

  function Rest(s: string): string {
    var parts := Split(s, '\n');
    parts[|parts| - 1]
  }

  function TextOn(s: Stream): Chunk -> string {
    (c: Chunk) => if c.stream == s then c.text else ""
  }

  /** What one stream said in a run. */
  function Said(chunks: seq<Chunk>, s: Stream): string {
    Flat(chunks, TextOn(s))
  }

  function LineOn(s: Stream): Line -> seq<string> {
    (l: Line) => if l.stream == s then [l.text] else []
  }

  /** The lines of one stream, in log order. */
  function LinesOn(lines: seq<Line>, s: Stream): seq<string> {
    Flat(lines, LineOn(s))
  }

  function Tag(s: Stream, texts: seq<string>): (lines: seq<Line>) {
    seq(|texts|, i requires 0 <= i < |texts| => Line(s, texts[i]))
  }

  function Texts(lines: seq<Line>): (texts: seq<string>) {
    seq(|lines|, i requires 0 <= i < |lines| => lines[i].text)
  }

  /** Every line logged in a run with the stream it came from, in the order of the log. */
  function Logged(chunks: seq<Chunk>): seq<Line> {
    if chunks == [] then []
    else
      var before, c := chunks[..|chunks| - 1], chunks[|chunks| - 1];
      Logged(before) + Tag(c.stream, Terminated(Rest(Said(before, c.stream)) + c.text))
  }

  lemma LoggedPush(chunks: seq<Chunk>, c: Chunk)
    ensures Logged(chunks + [c]) == Logged(chunks) + Tag(c.stream, Terminated(Rest(Said(chunks, c.stream)) + c.text))
    ensures Said(chunks + [c], c.stream) == Said(chunks, c.stream) + c.text
    ensures forall s :: s != c.stream ==> Said(chunks + [c], s) == Said(chunks, s)
  {
    hide Terminated, Rest, Flat;
    assert (chunks + [c])[..|chunks|] == chunks;
    forall s {
      FlatPush(chunks, c, TextOn(s));
    }
  }

  class Daemon {
    var log: seq<string>
    var bufs: map<Stream, string>
    ghost var seen: seq<Chunk>

    ghost predicate Valid() reads this {
      && log == Texts(Logged(seen))
      && forall s :: s in bufs && bufs[s] == Rest(Said(seen, s))
    }

    constructor ()
      ensures Valid() && seen == []
    {
      log, bufs, seen := [], map[Stdout := "", Stderr := ""], [];
      new;
      forall s
        ensures s in bufs && bufs[s] == Rest(Said(seen, s))
      {
        assert s == Stdout || s == Stderr;
      }
    }

    /** One decoded chunk of a stream: append it to that stream's buffer and cut off every complete line. */
    method Feed(stream: Stream, chunk: string)
      requires Valid()
      modifies this
      ensures Valid() && seen == old(seen) + [Chunk(stream, chunk)]
    {
      hide Terminated, Rest, IndexOfChar, Logged, Said;
      ghost var held := bufs[stream] + chunk;
      LoggedPush(seen, Chunk(stream, chunk));
      Continue(Said(seen, stream), chunk);
      var buf := bufs[stream] + chunk;
      var nl := IndexOfChar(buf, '\n');
      while nl >= 0
        invariant nl == IndexOfChar(buf, '\n')
        invariant log + Terminated(buf) == old(log) + Terminated(held) && Rest(buf) == Rest(held)
        invariant bufs == old(bufs) && seen == old(seen)
        decreases |buf|
      {
        CutLine(buf, nl);
        var line := buf[..nl];
        ghost var more := Terminated(buf[nl + 1..]);
        assert log + ([line] + more) == (log + [line]) + more;
        buf := buf[nl + 1..];
        log := log + [line];
        nl := IndexOfChar(buf, '\n');
      }
      NoLine(buf);
      assert log + [] == log;
      bufs := bufs[stream := buf];
      seen := seen + [Chunk(stream, chunk)];
    }
  }

  lemma Continue(all: string, chunk: string)
    ensures Terminated(all + chunk) == Terminated(all) + Terminated(Rest(all) + chunk)
    ensures Rest(all + chunk) == Rest(Rest(all) + chunk)
  {
    hide Split;
    var pa, pc := Split(all, '\n'), Split(chunk, '\n');
    var rest := Rest(all);
    SplitConcat(all, chunk, '\n');
    SplitAtom(rest, '\n');
    SplitConcat(rest, chunk, '\n');
    assert Split(rest + chunk, '\n') == [rest + pc[0]] + pc[1..];
    assert Split(all + chunk, '\n') == pa[..|pa| - 1] + ([rest + pc[0]] + pc[1..]);
  }

  lemma CutLine(buf: string, nl: nat)
    requires nl == IndexOfChar(buf, '\n')
    ensures nl < |buf| && Terminated(buf) == [buf[..nl]] + Terminated(buf[nl + 1..])
    ensures Rest(buf) == Rest(buf[nl + 1..])
  {
    hide *;
    FirstNewline(buf, nl);
    SplitAtom(buf[..nl], '\n');
    SplitAt(buf[..nl], buf[nl + 1..], '\n');
    LineThenParts(buf, nl);
  }

  lemma FirstNewline(buf: string, nl: nat)
    requires nl == IndexOfChar(buf, '\n')
    ensures nl < |buf| && '\n' !in buf[..nl] && buf == buf[..nl] + (['\n'] + buf[nl + 1..])
  {
    hide IndexOfChar;
    Around(buf, nl);
  }

  lemma LineThenParts(buf: string, nl: nat)
    requires nl < |buf| && Split(buf, '\n') == Split(buf[..nl], '\n') + Split(buf[nl + 1..], '\n')
    requires Split(buf[..nl], '\n') == [buf[..nl]]
    ensures Terminated(buf) == [buf[..nl]] + Terminated(buf[nl + 1..])
    ensures Rest(buf) == Rest(buf[nl + 1..])
  {
    hide Split;
    CutParts(buf[..nl], Split(buf[nl + 1..], '\n'));
  }

  lemma CutParts(line: string, parts: seq<string>)
    requires |parts| >= 1
    ensures
      var all := [line] + parts;
      all[..|all| - 1] == [line] + parts[..|parts| - 1] && all[|all| - 1] == parts[|parts| - 1]
  {
  }

  lemma NoLine(buf: string)
    requires IndexOfChar(buf, '\n') < 0
    ensures Terminated(buf) == [] && Rest(buf) == buf
  {
    SplitAtom(buf, '\n');
  }

  /** A text is its terminated lines and its rest, nothing more and nothing less. */
  lemma SameLines(a: string, b: string)
    ensures Terminated(a) == Terminated(b) && Rest(a) == Rest(b) <==> a == b
  {
    hide Split, Join;
    JoinSplit(a, '\n');
    JoinSplit(b, '\n');
    Ends(Split(a, '\n'));
    Ends(Split(b, '\n'));
  }

  lemma Ends(parts: seq<string>)
    requires |parts| >= 1
    ensures parts == parts[..|parts| - 1] + [parts[|parts| - 1]]
  {
  }

  lemma {:induction false} TagOn(t: Stream, texts: seq<string>, s: Stream)
    ensures LinesOn(Tag(t, texts), s) == if s == t then texts else []
  {
    if texts != [] {
      var init, last := texts[..|texts| - 1], texts[|texts| - 1];
      assert Tag(t, texts) == Tag(t, init) + [Line(t, last)] && texts == init + [last];
      TagOn(t, init, s);
      FlatPush(Tag(t, init), Line(t, last), LineOn(s));
    }
  }

  /** Each stream's lines stand in the shared log complete, once and in order, whatever the other stream does. */
  lemma {:induction false} StreamInLog(chunks: seq<Chunk>, s: Stream)
    ensures LinesOn(Logged(chunks), s) == Terminated(Said(chunks, s))
  {
    if chunks != [] {
      hide Terminated, Rest, Said, Logged, Flat;
      var before, c := chunks[..|chunks| - 1], chunks[|chunks| - 1];
      assert chunks == before + [c];
      var texts := Terminated(Rest(Said(before, c.stream)) + c.text);
      StreamInLog(before, s);
      LoggedPush(before, c);
      FlatAppend(Logged(before), Tag(c.stream, texts), LineOn(s));
      TagOn(c.stream, texts, s);
      Continue(Said(before, s), c.text);
    } else {
      SplitAtom("", '\n');
    }
  }

  /** Two runs agree on a stream, its lines in the log and its buffer, exactly when they gave it the same characters. */
  lemma ChunkIndependence(a: seq<Chunk>, b: seq<Chunk>, s: Stream)
    ensures LinesOn(Logged(a), s) == LinesOn(Logged(b), s) && Rest(Said(a, s)) == Rest(Said(b, s))
            <==> Said(a, s) == Said(b, s)
  {
    hide Terminated, Rest, Said, Logged, LinesOn;
    StreamInLog(a, s);
    StreamInLog(b, s);
    SameLines(Said(a, s), Said(b, s));
  }

  // --- which logs can arise ------------------------------------------------

  /** `log` holds the elements of a and of b, each in its own order, and nothing else. */
  ghost predicate Merged(log: seq<string>, a: seq<string>, b: seq<string>) {
    exists lines: seq<Line> :: Texts(lines) == log && LinesOn(lines, Stdout) == a && LinesOn(lines, Stderr) == b
  }

  function WholeLines(lines: seq<Line>): seq<Chunk> {
    seq(|lines|, i requires 0 <= i < |lines| => Chunk(lines[i].stream, lines[i].text + "\n"))
  }

  function Ended(texts: seq<string>): string {
    if texts == [] then "" else Ended(texts[..|texts| - 1]) + texts[|texts| - 1] + "\n"
  }

  lemma {:induction false} EndedLines(texts: seq<string>, rest: string)
    requires forall t :: t in texts ==> '\n' !in t
    requires '\n' !in rest
    ensures Terminated(Ended(texts) + rest) == texts && Rest(Ended(texts) + rest) == rest
  {
    SplitAtom(rest, '\n');
    if texts == [] {
      assert Ended(texts) + rest == rest;
    } else {
      var init, last := texts[..|texts| - 1], texts[|texts| - 1];
      assert texts == init + [last];
      EndedLines(init, last);
      SplitAt(Ended(init) + last, rest, '\n');
      assert Ended(texts) + rest == (Ended(init) + last) + (['\n'] + rest);
      hide Split;
      Ends(Split(Ended(init) + last, '\n'));
    }
  }

  lemma NoBreaks(lines: seq<Line>, s: Stream)
    requires forall l :: l in lines ==> '\n' !in l.text
    ensures forall t :: t in LinesOn(lines, s) ==> '\n' !in t
  {
    forall t | t in LinesOn(lines, s)
      ensures '\n' !in t
    {
      FlatMember(lines, LineOn(s), t);
    }
  }

  /** Feeding tagged lines one by one logs exactly them. */
  lemma {:induction false} LineByLine(lines: seq<Line>)
    requires forall l :: l in lines ==> '\n' !in l.text
    ensures Logged(WholeLines(lines)) == lines
    ensures forall s :: Said(WholeLines(lines), s) == Ended(LinesOn(lines, s))
  {
    if lines != [] {
      hide Terminated, Rest, Said, Logged, LinesOn, Ended;
      var init, last := lines[..|lines| - 1], lines[|lines| - 1];
      var c := Chunk(last.stream, last.text + "\n");
      assert WholeLines(lines) == WholeLines(init) + [c] && lines == init + [last];
      LineByLine(init);
      LoggedPush(WholeLines(init), c);
      NoBreaks(init, last.stream);
      OneLine(LinesOn(init, last.stream), last.text);
      assert Tag(last.stream, [last.text]) == [last];
      forall s
        ensures Said(WholeLines(lines), s) == Ended(LinesOn(lines, s))
      {
        SaidByLine(init, last, s);
      }
    }
  }

  lemma SaidByLine(init: seq<Line>, last: Line, s: Stream)
    ensures Ended(LinesOn(init + [last], s))
            == Ended(LinesOn(init, s)) + if s == last.stream then last.text + "\n" else ""
  {
    hide Flat;
    FlatPush(init, last, LineOn(s));
    var before := LinesOn(init, s);
    assert Ended(before) + "" == Ended(before) && before + [] == before;
    if s == last.stream {
      assert LinesOn(init + [last], s) == before + [last.text];
      assert (before + [last.text])[..|before|] == before;
      assert Ended(before) + last.text + "\n" == Ended(before) + (last.text + "\n");
    }
  }

  /** One more whole line after whole lines is logged as it is. */
  lemma OneLine(before: seq<string>, text: string)
    requires forall t :: t in before ==> '\n' !in t
    requires '\n' !in text
    ensures Terminated(Rest(Ended(before)) + (text + "\n")) == [text]
  {
    assert Ended(before) + "" == Ended(before) && "" + (text + "\n") == text + "\n";
    EndedLines(before, "");
    EndedLines([text], "");
    assert [text][..0] == [] && Ended([text]) + "" == text + "\n";
  }

  /** Whole lines and then each stream's rest spell out the two texts. */
  lemma SpellOut(lines: seq<Line>, out: string, err: string) returns (chunks: seq<Chunk>)
    requires LinesOn(lines, Stdout) == Terminated(out) && LinesOn(lines, Stderr) == Terminated(err)
    ensures Said(chunks, Stdout) == out && Said(chunks, Stderr) == err && Logged(chunks) == lines
  {
    hide *;
    LinesHaveNoBreaks(lines, out, err);
    var whole := WholeLines(lines);
    LineByLine(lines);
    AddRest(whole, Stdout, out);
    var more := whole + [Chunk(Stdout, Rest(out))];
    LoggedPush(whole, Chunk(Stdout, Rest(out)));
    AddRest(more, Stderr, err);
    LoggedPush(more, Chunk(Stderr, Rest(err)));
    chunks := more + [Chunk(Stderr, Rest(err))];
  }

  lemma LinesHaveNoBreaks(lines: seq<Line>, out: string, err: string)
    requires LinesOn(lines, Stdout) == Terminated(out) && LinesOn(lines, Stderr) == Terminated(err)
    ensures forall l :: l in lines ==> '\n' !in l.text
  {
    forall l | l in lines
      ensures '\n' !in l.text
    {
      var i :| 0 <= i < |lines| && lines[i] == l;
      FlatMember(lines, LineOn(l.stream), l.text);
      assert l.text in LineOn(l.stream)(lines[i]);
      var text := if l.stream == Stdout then out else err;
      assert l.text in Terminated(text);
      assert l.text in Split(text, '\n');
    }
  }

  /** A stream that has said its whole lines only lacks its rest, which logs nothing. */
  lemma AddRest(chunks: seq<Chunk>, s: Stream, text: string)
    requires Said(chunks, s) == Ended(Terminated(text))
    ensures Said(chunks + [Chunk(s, Rest(text))], s) == text
    ensures Logged(chunks + [Chunk(s, Rest(text))]) == Logged(chunks)
  {
    var rest := Rest(text);
    EndedLines(Terminated(text), rest);
    SameLines(Ended(Terminated(text)) + rest, text);
    EndedLines(Terminated(text), "");
    assert Ended(Terminated(text)) + "" == Ended(Terminated(text));
    SplitAtom(rest, '\n');
    hide Terminated, Rest, Said, Logged;
    LoggedPush(chunks, Chunk(s, rest));
    assert "" + rest == rest && Tag(s, []) == [];
  }

  /**
   * Over every interleaving of chunks the log is an order-preserving merge of the two streams' terminated
   * lines, and every such merge is the log of some interleaving.
   */
  lemma LogsAreMerges(log: seq<string>, out: string, err: string)
    ensures Merged(log, Terminated(out), Terminated(err))
            <==> exists chunks ::
                   Said(chunks, Stdout) == out && Said(chunks, Stderr) == err && Texts(Logged(chunks)) == log
  {
    hide Terminated, Said, Logged, LinesOn, Texts;
    if Merged(log, Terminated(out), Terminated(err)) {
      var lines: seq<Line> :| Texts(lines) == log
        && LinesOn(lines, Stdout) == Terminated(out) && LinesOn(lines, Stderr) == Terminated(err);
      var chunks := SpellOut(lines, out, err);
      assert Texts(Logged(chunks)) == log;
    }
    if chunks :| Said(chunks, Stdout) == out && Said(chunks, Stderr) == err && Texts(Logged(chunks)) == log {
      StreamInLog(chunks, Stdout);
      StreamInLog(chunks, Stderr);
    }
  }
}

/** Following a session log: each read prints the lines past the last count (bin/debug.ts). */
module FileTail {
  import opened Text
  import opened LineSplitter

  /** `raw.split("\n").filter(Boolean)` */
  function NonEmpty(parts: seq<string>): seq<string> {
    if parts == [] then []
    else NonEmpty(parts[..|parts| - 1]) + (if parts[|parts| - 1] == "" then [] else [parts[|parts| - 1]])
  }

  function LinesOf(raw: string): seq<string> {
    NonEmpty(Split(raw, '\n'))
  }

  /** `xs.slice(n)`: empty when n is past the end. */
  function Slice<T>(xs: seq<T>, n: nat): seq<T> {
    if n <= |xs| then xs[n..] else []
  }

  /** Everything handed out after reading these file contents in turn. */
  function Handed(views: seq<string>): seq<string> {
    if views == [] then []
    else
      var n := |views| - 1;
      Handed(views[..n]) + Slice(LinesOf(views[n]), LastCount(views[..n]))
  }

  function LastCount(views: seq<string>): nat {
    if views == [] then 0 else |LinesOf(views[|views| - 1])|
  }

  lemma HandedPush(views: seq<string>, raw: string)
    ensures Handed(views + [raw]) == Handed(views) + Slice(LinesOf(raw), LastCount(views))
    ensures LastCount(views + [raw]) == |LinesOf(raw)|
  {
    hide LinesOf;
    assert (views + [raw])[..|views|] == views;
  }

  method ReadLines(raw: string) returns (lines: seq<string>)
    ensures lines == LinesOf(raw)
  {
    hide Split;
    var parts := Split(raw, '\n');
    lines := [];
    for i := 0 to |parts|
      invariant lines == NonEmpty(parts[..i])
    {
      assert parts[..i + 1][..i] == parts[..i];
      if parts[i] != "" {
        lines := lines + [parts[i]];
      }
    }
    assert parts[..|parts|] == parts;
  }

  class Follower {
    var lastLineCount: nat
    var printed: seq<string>
    ghost var views: seq<string>

    ghost predicate Valid() reads this {
      lastLineCount == LastCount(views) && printed == Handed(views)
    }

    constructor ()
      ensures Valid() && views == []
    {
      lastLineCount, printed, views := 0, [], [];
    }

    /** One watch event: read the file and print what is past the last count. */
    method PrintNewLines(raw: string)
      requires Valid()
      modifies this
      ensures Valid() && views == old(views) + [raw]
    {
      var lines := ReadLines(raw);
      hide Handed, LinesOf, LastCount, Slice;
      var newLines := Slice(lines, lastLineCount);
      lastLineCount := |lines|;
      ghost var before := printed;
      HandedPush(views, raw);
      views := views + [raw];
      for i := 0 to |newLines|
        invariant printed == before + newLines[..i]
        invariant views == old(views) + [raw] && lastLineCount == |lines|
      {
        printed := printed + [newLines[i]];
      }
      assert newLines[..|newLines|] == newLines;
    }
  }

  /** The lines of a text: a newline ends one, and empty ones are dropped. */
  lemma LinesMeaning(line: string, before: string, after: string)
    ensures '\n' !in line ==> LinesOf(line) == if line == "" then [] else [line]
    ensures LinesOf(before + (['\n'] + after)) == LinesOf(before) + LinesOf(after)
  {
    hide Split, NonEmpty;
    if '\n' !in line {
      SplitAtom(line, '\n');
      NonEmptyOne(line);
    }
    SplitAt(before, after, '\n');
    NonEmptyConcat(Split(before, '\n'), Split(after, '\n'));
  }

  /** A read hands out exactly the lines from the last count on; of a file that has no more lines than that, none. */
  lemma ReadHandsOut(views: seq<string>, raw: string)
    ensures
      var handed, count, lines := Handed(views), LastCount(views), LinesOf(raw);
      && handed <= Handed(views + [raw])
      && |Handed(views + [raw])| == |handed| + (if |lines| > count then |lines| - count else 0)
      && (forall i :: count <= i < |lines| ==> Handed(views + [raw])[|handed| + (i - count)] == lines[i])
      && (views != [] ==> count == |LinesOf(views[|views| - 1])|)
  {
    hide LinesOf, Handed;
    HandedPush(views, raw);
  }

  /** Each read only adds lines after the ones of the read before. */
  ghost predicate Chain(views: seq<string>) {
    forall i :: 0 < i < |views| ==> LinesOf(views[i - 1]) <= LinesOf(views[i])
  }

  /** After every read, the lines handed out so far are the nonempty lines of the file as just read. */
  ghost predicate Faithful(views: seq<string>) {
    forall n :: 0 < n <= |views| ==> Handed(views[..n]) == LinesOf(views[n - 1])
  }

  lemma LastRead(views: seq<string>)
    requires views != [] && Chain(views)
    requires |views| > 1 ==> Handed(views[..|views| - 1]) == LinesOf(views[|views| - 2])
    ensures Handed(views) == LinesOf(views[|views| - 1])
  {
    hide LinesOf, Handed;
    var n := |views| - 1;
    assert views == views[..n] + [views[n]];
    HandedPush(views[..n], views[n]);
    if n == 0 {
      NothingRead();
      SliceRest([], LinesOf(views[n]));
    } else {
      SliceRest(LinesOf(views[n - 1]), LinesOf(views[n]));
    }
  }

  lemma SliceRest<T>(prior: seq<T>, all: seq<T>)
    ensures Slice(all, 0) == all && [] + all == all
    ensures prior <= all ==> prior + Slice(all, |prior|) == all
  {
  }

  lemma {:induction false} ChainIsFaithful(views: seq<string>)
    requires Chain(views)
    ensures Faithful(views)
  {
    hide LinesOf, Handed;
    if views != [] {
      var n := |views| - 1;
      ChainIsFaithful(views[..n]);
      forall m | 0 < m <= |views|
        ensures Handed(views[..m]) == LinesOf(views[m - 1])
      {
        if m <= n {
          assert views[..n][..m] == views[..m];
        } else {
          assert views[..m] == views && views[..n][..n] == views[..n];
          LastRead(views);
        }
      }
    }
  }

  lemma FaithfulIsChain(views: seq<string>)
    requires Faithful(views)
    ensures Chain(views)
  {
    hide LinesOf;
    forall i | 0 < i < |views|
      ensures LinesOf(views[i - 1]) <= LinesOf(views[i])
    {
      assert views[..i + 1][..i] == views[..i];
      assert Handed(views[..i + 1]) == LinesOf(views[i]) && Handed(views[..i]) == LinesOf(views[i - 1]);
    }
  }

  /** Every line is printed exactly once, in order, exactly when each read extends the one before by whole lines. */
  lemma ExactlyOnce(views: seq<string>)
    ensures Faithful(views) <==> Chain(views)
  {
    if Chain(views) {
      ChainIsFaithful(views);
    }
    if Faithful(views) {
      FaithfulIsChain(views);
    }
  }

  /** A pure append is safe exactly when the earlier read saw no unfinished line, or the append leaves it as it was. */
  ghost predicate WholeLineAppend(before: string, added: string) {
    Rest(before) == "" || Split(added, '\n')[0] == ""
  }

  ghost predicate GrewByWholeLines(before: string, after: string) {
    before <= after && WholeLineAppend(before, after[|before|..])
  }

  lemma {:induction false} NonEmptyConcat(a: seq<string>, b: seq<string>)
    ensures NonEmpty(a + b) == NonEmpty(a) + NonEmpty(b)
  {
    if b == [] {
      assert a + b == a;
    } else {
      assert (a + b)[..|a + b| - 1] == a + b[..|b| - 1];
      NonEmptyConcat(a, b[..|b| - 1]);
    }
  }

  lemma AppendExtends(before: string, added: string)
    ensures LinesOf(before) <= LinesOf(before + added) <==> WholeLineAppend(before, added)
  {
    var pb, pa := Split(before, '\n'), Split(added, '\n');
    var k := |pb| - 1;
    var first := pb[k] + pa[0];
    SplitConcat(before, added, '\n');
    assert pb == pb[..k] + [pb[k]];
    NonEmptyConcat(pb[..k], [pb[k]]);
    NonEmptyConcat(pb[..k] + [first], pa[1..]);
    NonEmptyConcat(pb[..k], [first]);
    NonEmptyOne(pb[k]);
    NonEmptyOne(first);
    hide NonEmpty, Split;
    var done := NonEmpty(pb[..k]);
    if pb[k] == "" {
      assert LinesOf(before) == done;
    } else {
      assert LinesOf(before) == done + [pb[k]];
      assert LinesOf(before + added) == (done + [first]) + NonEmpty(pa[1..]);
      assert LinesOf(before)[|done|] == pb[k] && LinesOf(before + added)[|done|] == first;
      assert pb[k] == first <==> pa[0] == "" by {
        assert |first| == |pb[k]| + |pa[0]|;
      }
      if pa[0] == "" {
        assert first == pb[k];
      }
    }
  }

  lemma NonEmptyOne(s: string)
    ensures NonEmpty([s]) == if s == "" then [] else [s]
  {
    assert [s][..0] == [];
  }

  /** Appends of whole lines, read at any moments and any number of times, are printed exactly once. */
  lemma {:induction false} WholeLineAppends(views: seq<string>)
    requires forall i :: 0 < i < |views| ==> GrewByWholeLines(views[i - 1], views[i])
    ensures |views| > 0 ==> Handed(views) == LinesOf(views[|views| - 1])
  {
    hide LinesOf, Split, WholeLineAppend;
    forall i | 0 < i < |views|
      ensures LinesOf(views[i - 1]) <= LinesOf(views[i])
    {
      var added := views[i][|views[i - 1]|..];
      assert views[i] == views[i - 1] + added;
      AppendExtends(views[i - 1], added);
    }
    ChainIsFaithful(views);
    assert views[..|views|] == views;
  }

  /** For a file that is only appended to, the follower is always right exactly when every append is whole-line. */
  lemma AppendOnlyExact(views: seq<string>)
    requires forall i :: 0 < i < |views| ==> views[i - 1] <= views[i]
    ensures Faithful(views) <==> forall i :: 0 < i < |views| ==> GrewByWholeLines(views[i - 1], views[i])
  {
    hide LinesOf, Split, WholeLineAppend, Handed;
    ExactlyOnce(views);
    forall i | 0 < i < |views|
      ensures LinesOf(views[i - 1]) <= LinesOf(views[i]) <==> GrewByWholeLines(views[i - 1], views[i])
    {
      var added := views[i][|views[i - 1]|..];
      assert views[i] == views[i - 1] + added;
      AppendExtends(views[i - 1], added);
    }
  }

  /** A line read half written is never completed: the count says it was already printed. */
  lemma HalfLineIsLost()
    ensures Handed(["a", "ab\n"]) == ["a"] && LinesOf("ab\n") == ["ab"]
  {
    hide *;
    HalfLines();
    HandedPush([], "a");
    HandedPush(["a"], "ab\n");
    NothingRead();
    assert [] + ["a"] == ["a"] && ["a"] + ["ab\n"] == ["a", "ab\n"];
  }

  lemma HalfLines()
    ensures LinesOf("a") == ["a"] && LinesOf("ab\n") == ["ab"]
  {
    hide Split, NonEmpty;
    assert "ab\n" == "ab" + (['\n'] + "");
    SplitAtom("a", '\n');
    SplitAtom("ab", '\n');
    SplitAtom("", '\n');
    SplitAt("ab", "", '\n');
    NonEmptyOne("a");
    NonEmptyOne("ab");
    NonEmptyOne("");
    NonEmptyConcat(["ab"], [""]);
  }

  lemma NothingRead()
    ensures Handed([]) == [] && LastCount([]) == 0 && LastCount(["a"]) == |LinesOf("a")|
    ensures Slice(["a"], 0) == ["a"] && Slice(["ab"], 1) == []
  {
  }
}
