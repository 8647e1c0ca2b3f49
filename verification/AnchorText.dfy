/**
 The text `_anchor` hashes: five fields on five lines.  It determines all five, even if the
 flag name holds line breaks, so hashing the text is hashing the fields.
 */
module AnchorText {
  import opened Json
  import opened JsonRoundTrip
  import opened TextLines

  function AnchorPayload(prev: string, flag: string, start: string, end: string, used: int): string {
    prev + "\n" + flag + "\n" + start + "\n" + end + "\n" + Decimal(used)
  }

  lemma {:induction false} FirstLine(a: string, x: string, b: string, y: string)
    requires OneLine(a) && OneLine(b) && a + "\n" + x == b + "\n" + y
    ensures a == b && x == y
  {
    var s := a + "\n" + x;
    if a == [] || b == [] {
      assert s[0] == (a + "\n")[0] == (b + "\n")[0];
      assert a == [] ==> s[1..] == x;
      assert b == [] ==> s[1..] == y;
    } else {
      assert s[0] == a[0] == b[0];
      assert s[1..] == a[1..] + "\n" + x && s[1..] == b[1..] + "\n" + y;
      FirstLine(a[1..], x, b[1..], y);
    }
  }

  lemma {:induction false} LastLine(x: string, a: string, y: string, b: string)
    requires OneLine(a) && OneLine(b) && x + "\n" + a == y + "\n" + b
    ensures a == b && x == y
    decreases |a|
  {
    var s := x + "\n" + a;
    var n := |s| - 1;
    if a == [] || b == [] {
      assert s[n] == ("\n" + a)[|a|] == ("\n" + b)[|b|];
      assert a == [] ==> s[..n] == x;
      assert b == [] ==> s[..n] == y;
    } else {
      assert s[n] == a[|a| - 1] == b[|b| - 1];
      var a', b' := a[..|a| - 1], b[..|b| - 1];
      assert a == a' + [s[n]] && b == b' + [s[n]];
      assert s[..n] == x + "\n" + a' && s[..n] == y + "\n" + b';
      LastLine(x, a', y, b');
    }
  }

  lemma DecimalOneLine(n: int)
    ensures OneLine(Decimal(n))
  {
    DigitsHead(if n < 0 then -n else n);
  }

  lemma DecimalInjective(m: int, n: int)
    requires Decimal(m) == Decimal(n)
    ensures m == n
  {
    ParseIntReadsDecimal(m, "");
    ParseIntReadsDecimal(n, "");
  }

  lemma HeadLine(p: string, f: string, s: string, e: string, d: string)
    ensures p + "\n" + f + "\n" + s + "\n" + e + "\n" + d == p + "\n" + (f + "\n" + s + "\n" + e + "\n" + d)
  {}

  /** Equal texts have equal fields: hex digests and ISO timestamps are single lines. */
  lemma AnchorPayloadInjective(p: string, f: string, s: string, e: string, u: int,
                               p': string, f': string, s': string, e': string, u': int)
    requires OneLine(p) && OneLine(s) && OneLine(e) && OneLine(p') && OneLine(s') && OneLine(e')
    requires AnchorPayload(p, f, s, e, u) == AnchorPayload(p', f', s', e', u')
    ensures p == p' && f == f' && s == s' && e == e' && u == u'
  {
    var x, x' := f + "\n" + s + "\n" + e + "\n" + Decimal(u), f' + "\n" + s' + "\n" + e' + "\n" + Decimal(u');
    HeadLine(p, f, s, e, Decimal(u));
    HeadLine(p', f', s', e', Decimal(u'));
    FirstLine(p, x, p', x');
    DecimalOneLine(u);
    DecimalOneLine(u');
    LastLine(f + "\n" + s + "\n" + e, Decimal(u), f' + "\n" + s' + "\n" + e', Decimal(u'));
    DecimalInjective(u, u');
    LastLine(f + "\n" + s, e, f' + "\n" + s', e');
    LastLine(f, s, f', s');
  }

  /** With a flag name that is one line: five lines, in this order. */
  lemma AnchorLines(prev: string, flag: string, start: string, end: string, used: int)
    requires OneLine(prev) && OneLine(flag) && OneLine(start) && OneLine(end)
    ensures Lines(AnchorPayload(prev, flag, start, end, used)) == [prev, flag, start, end, Decimal(used)]
  {
    var d := Decimal(used);
    DecimalOneLine(used);
    Regroup(prev, flag, start, end, d);
    LinesOfLine(d);
    LinesOfHead(end, d);
    LinesOfHead(start, end + "\n" + d);
    LinesOfHead(flag, start + "\n" + (end + "\n" + d));
    LinesOfHead(prev, flag + "\n" + (start + "\n" + (end + "\n" + d)));
  }

  lemma Regroup(p: string, f: string, s: string, e: string, d: string)
    ensures p + "\n" + f + "\n" + s + "\n" + e + "\n" + d
      == p + "\n" + (f + "\n" + (s + "\n" + (e + "\n" + d)))
  {
    Tail(p + "\n" + f + "\n" + s, e, d);
    Tail(p + "\n" + f, s, e + "\n" + d);
    Tail(p, f, s + "\n" + (e + "\n" + d));
  }

  lemma Tail(a: string, b: string, c: string)
    ensures a + "\n" + b + "\n" + c == a + "\n" + (b + "\n" + c)
  {}
}
