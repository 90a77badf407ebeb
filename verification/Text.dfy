/** The string operations of the source language that the models rely on, written out. */
module Text {

  /** Splitting on one character: always at least one part. */
  function Split(s: string, sep: char): (parts: seq<string>)
    ensures |parts| >= 1
    ensures forall p :: p in parts ==> sep !in p
  {
    if s == "" then [""]
    else
      var rest := Split(s[1..], sep);
      if s[0] == sep then [""] + rest else [[s[0]] + rest[0]] + rest[1..]
  }

  function Join(parts: seq<string>, sep: char): string
    requires |parts| >= 1
  {
    if |parts| == 1 then parts[0] else parts[0] + [sep] + Join(parts[1..], sep)
  }

  lemma JoinHead(c: char, parts: seq<string>, sep: char)
    requires |parts| >= 1
    ensures Join([[c] + parts[0]] + parts[1..], sep) == [c] + Join(parts, sep)
    ensures Join([""] + parts, sep) == [sep] + Join(parts, sep)
  {
    var longer := [[c] + parts[0]] + parts[1..];
    assert longer[1..] == parts[1..] && ([""] + parts)[1..] == parts;
  }

  /** Nothing is lost by splitting. */
  lemma {:induction false} JoinSplit(s: string, sep: char)
    ensures Join(Split(s, sep), sep) == s
  {
    if s != "" {
      JoinSplit(s[1..], sep);
      JoinHead(s[0], Split(s[1..], sep), sep);
      hide Join;
      assert [s[0]] + s[1..] == s;
    }
  }

  /** Two split texts put together: the last part of the first continues into the second. */
  function Glue(ps: seq<string>, qs: seq<string>): (r: seq<string>)
    requires |ps| >= 1 && |qs| >= 1
  {
    ps[..|ps| - 1] + [ps[|ps| - 1] + qs[0]] + qs[1..]
  }

  lemma GlueCons(p: string, ps: seq<string>, qs: seq<string>)
    requires |ps| >= 1 && |qs| >= 1
    ensures Glue([p] + ps, qs) == [p] + Glue(ps, qs)
  {
    assert ([p] + ps)[..|ps|] == [p] + ps[..|ps| - 1];
  }

  lemma GlueHead(c: char, ps: seq<string>, qs: seq<string>)
    requires |ps| >= 1 && |qs| >= 1
    ensures
      var g := Glue(ps, qs);
      Glue([[c] + ps[0]] + ps[1..], qs) == [[c] + g[0]] + g[1..]
  {
    var g := Glue(ps, qs);
    var left := [[c] + ps[0]] + ps[1..];
    if |ps| == 1 {
      assert [c] + (ps[0] + qs[0]) == ([c] + ps[0]) + qs[0];
    } else {
      assert g[1..] == ps[1..|ps| - 1] + [ps[|ps| - 1] + qs[0]] + qs[1..];
      assert left[..|ps| - 1] == [[c] + ps[0]] + ps[1..|ps| - 1];
    }
  }

  lemma {:induction false} SplitConcat(a: string, b: string, sep: char)
    ensures Split(a + b, sep) == Glue(Split(a, sep), Split(b, sep))
  {
    if a == "" {
      assert a + b == b && "" + Split(b, sep)[0] == Split(b, sep)[0];
    } else {
      var ra, pb := Split(a[1..], sep), Split(b, sep);
      SplitConcat(a[1..], b, sep);
      assert (a + b)[1..] == a[1..] + b;
      if a[0] == sep {
        GlueCons("", ra, pb);
      } else {
        GlueHead(a[0], ra, pb);
      }
    }
  }

  /** A separator cuts exactly there. */
  lemma SplitAt(a: string, b: string, sep: char)
    ensures Split(a + ([sep] + b), sep) == Split(a, sep) + Split(b, sep)
  {
    hide Split;
    SplitConcat(a, [sep] + b, sep);
    SplitAfter(b, sep);
    GlueFresh(Split(a, sep), Split(b, sep));
  }

  lemma GlueFresh(ps: seq<string>, qs: seq<string>)
    requires |ps| >= 1
    ensures Glue(ps, [""] + qs) == ps + qs
  {
    assert ps[|ps| - 1] + "" == ps[|ps| - 1];
    assert ps == ps[..|ps| - 1] + [ps[|ps| - 1]];
  }

  /** Parts that do not contain the separator come back unchanged. */
  lemma {:induction false} SplitJoin(parts: seq<string>, sep: char)
    requires |parts| >= 1
    requires forall p :: p in parts ==> sep !in p
    ensures Split(Join(parts, sep), sep) == parts
  {
    SplitAtom(parts[0], sep);
    if |parts| > 1 {
      SplitJoin(parts[1..], sep);
      var tail := Join(parts[1..], sep);
      assert Join(parts, sep) == parts[0] + ([sep] + tail);
      assert ([sep] + tail)[1..] == tail;
      SplitConcat(parts[0], [sep] + tail, sep);
      assert Split([sep] + tail, sep) == [""] + parts[1..];
      assert parts[0] + "" == parts[0];
    } else {
      assert parts == [parts[0]];
    }
  }

  lemma SplitAfter(s: string, sep: char)
    ensures Split([sep] + s, sep) == [""] + Split(s, sep)
  {
    assert ([sep] + s)[1..] == s;
  }

  lemma {:induction false} SplitAtom(s: string, sep: char)
    requires sep !in s
    ensures Split(s, sep) == [s]
  {
    if s != "" {
      SplitAtom(s[1..], sep);
      assert [s[0]] + s[1..] == s;
    }
  }

  lemma Around(s: string, i: nat)
    requires i < |s|
    ensures s == s[..i] + ([s[i]] + s[i + 1..])
  {
  }

  predicate EndsWith(s: string, suffix: string) {
    |suffix| <= |s| && s[|s| - |suffix|..] == suffix
  }

  predicate OccursAt(s: string, pat: string, k: int) {
    0 <= k <= |s| - |pat| && s[k..k + |pat|] == pat
  }

  /** First index at or after `from` where `pat` occurs, or -1. */
  function IndexOf(s: string, pat: string, from: nat): (i: int)
    ensures i == -1 || (from <= i && OccursAt(s, pat, i))
    ensures forall k :: from <= k && OccursAt(s, pat, k) ==> 0 <= i <= k
    decreases |s| - from
  {
    if from + |pat| > |s| then -1
    else if OccursAt(s, pat, from) then from
    else IndexOf(s, pat, from + 1)
  }

  /** First index of a character, or -1. */
  function IndexOfChar(s: string, c: char): (i: int)
    ensures -1 <= i < |s|
    ensures i >= 0 ==> s[i] == c
    ensures forall k :: 0 <= k < |s| && (i < 0 || k < i) ==> s[k] != c
  {
    if s == "" then -1
    else if s[0] == c then 0
    else
      var r := IndexOfChar(s[1..], c);
      assert forall k :: 1 <= k < |s| ==> s[k] == s[1..][k - 1];
      if r < 0 then -1 else r + 1
  }

  predicate IsSpace(c: char) {
    var n := c as int;
    || 9 <= n <= 13 || n == 0x20 || n == 0xA0 || n == 0x1680 || 0x2000 <= n <= 0x200A
    || n == 0x2028 || n == 0x2029 || n == 0x202F || n == 0x205F || n == 0x3000 || n == 0xFEFF
  }

  function TrimStart(s: string): (t: string)
    ensures t == "" || !IsSpace(t[0])
  {
    if s != "" && IsSpace(s[0]) then TrimStart(s[1..]) else s
  }

  /** String order by code unit, as `<` compares strings. */
  predicate Less(a: string, b: string) {
    if b == "" then false
    else if a == "" then true
    else a[0] < b[0] || (a[0] == b[0] && Less(a[1..], b[1..]))
  }

  /** If a is not before b, it stays not before anything that b is not after. */
  lemma {:induction false} LessMonotone(a: string, b: string, c: string)
    requires Less(a, b) && !Less(c, b)
    ensures Less(a, c)
  {
    if a != "" && c != "" && a[0] == b[0] == c[0] {
      LessMonotone(a[1..], b[1..], c[1..]);
    }
  }

  const UPPER := "ABCDEFGHIJKLMNOPQRSTUVWXYZ"
  const LOWER := "abcdefghijklmnopqrstuvwxyz"

  /** The alphabets, letter by letter. */
  lemma Alphabet()
    ensures forall j :: 0 <= j < 26 ==> UPPER[j] as int == 65 + j && LOWER[j] as int == 97 + j
  {
  }

  predicate IsDigit(c: char) { '0' <= c <= '9' }

  function DigitValue(c: char): nat
    requires IsDigit(c)
  {
    c as int - '0' as int
  }
}
