/** String order on full dates (YYYY-MM-DD) is calendar order: sections 5.1 and 5.6 of RFC 3339. */
module Dates {
  import opened Text
  import opened GateSpec

  function Value(s: string): nat
    requires forall c :: c in s ==> IsDigit(c)
  {
    if s == "" then 0 else 10 * Value(s[..|s| - 1]) + DigitValue(s[|s| - 1])
  }

  lemma {:induction false} LessParts(a1: string, a2: string, b1: string, b2: string)
    requires |a1| == |b1|
    ensures Less(a1 + a2, b1 + b2) <==> Less(a1, b1) || (a1 == b1 && Less(a2, b2))
  {
    if a1 == "" {
      assert a1 + a2 == a2 && b1 + b2 == b2;
    } else {
      assert (a1 + a2)[1..] == a1[1..] + a2 && (b1 + b2)[1..] == b1[1..] + b2;
      assert a1 == b1 <==> a1[0] == b1[0] && a1[1..] == b1[1..];
      LessParts(a1[1..], a2, b1[1..], b2);
    }
  }

  lemma ValueStep(s: string, n: nat)
    requires |s| == n + 1 && forall c :: c in s ==> IsDigit(c)
    ensures Value(s) == 10 * Value(s[..n]) + DigitValue(s[n])
  {
  }

  /** On digit strings of one length, string order is numeric order. */
  lemma {:induction false} LessValue(a: string, b: string)
    requires |a| == |b|
    requires (forall c :: c in a ==> IsDigit(c)) && (forall c :: c in b ==> IsDigit(c))
    ensures Less(a, b) <==> Value(a) < Value(b)
    ensures a == b <==> Value(a) == Value(b)
  {
    if a != "" {
      hide Less, Value;
      var n := |a| - 1;
      assert a[n] in a && b[n] in b;
      LessValue(a[..n], b[..n]);
      LessLast(a, b, n);
      ValueStep(a, n);
      ValueStep(b, n);
    }
  }

  lemma LessLast(a: string, b: string, n: nat)
    requires |a| == |b| == n + 1
    ensures Less(a, b) <==> Less(a[..n], b[..n]) || (a[..n] == b[..n] && a[n] < b[n])
    ensures a == b <==> a[..n] == b[..n] && a[n] == b[n]
  {
    assert a == a[..n] + [a[n]] && b == b[..n] + [b[n]];
    LessParts(a[..n], [a[n]], b[..n], [b[n]]);
    assert Less([a[n]], [b[n]]) <==> a[n] < b[n];
  }

  ghost predicate DateParts(d: string, year: string, month: string, day: string) {
    && d == year + ("-" + (month + ("-" + day)))
    && |year| == 4 && |month| == 2 && |day| == 2
    && forall c :: c in year || c in month || c in day ==> IsDigit(c)
  }

  function Year(d: string): nat requires IsFullDate(d) { Value(d[..4]) }
  function Month(d: string): nat requires IsFullDate(d) { Value(d[5..7]) }
  function Day(d: string): nat requires IsFullDate(d) { Value(d[8..]) }

  ghost predicate Earlier(a: string, b: string)
    requires IsFullDate(a) && IsFullDate(b)
  {
    Year(a) < Year(b) || (Year(a) == Year(b) &&
      (Month(a) < Month(b) || (Month(a) == Month(b) && Day(a) < Day(b))))
  }

  lemma HasParts(d: string)
    requires IsFullDate(d)
    ensures DateParts(d, d[..4], d[5..7], d[8..])
  {
    assert d == d[..4] + ([d[4]] + (d[5..7] + ([d[7]] + d[8..])));
  }

  /** A full date is four, two and two digits with hyphens between them. */
  lemma FullDateMeaning(d: string)
    ensures IsFullDate(d) <==> exists year, month, day :: DateParts(d, year, month, day)
    ensures forall c :: IsDigit(c) <==> c in "0123456789"
  {
    if IsFullDate(d) {
      HasParts(d);
    }
  }

  lemma StringOrderIsCalendarOrder(a: string, b: string)
    requires IsFullDate(a) && IsFullDate(b)
    ensures Less(a, b) <==> Earlier(a, b)
  {
    hide Less, Value, IsFullDate;
    HasParts(a);
    HasParts(b);
    var (ma, da, mb, db) := (a[5..7], a[8..], b[5..7], b[8..]);
    LessParts(a[..4], "-" + (ma + ("-" + da)), b[..4], "-" + (mb + ("-" + db)));
    LessParts("-", ma + ("-" + da), "-", mb + ("-" + db));
    LessParts(ma, "-" + da, mb, "-" + db);
    LessParts("-", da, "-", db);
    NotLessSelf("-");
    LessValue(a[..4], b[..4]);
    LessValue(ma, mb);
    LessValue(da, db);
  }

  lemma {:induction false} NotLessSelf(s: string)
    ensures !Less(s, s)
  {
    if s != "" {
      NotLessSelf(s[1..]);
    }
  }
}
