/** The lines of a text, split at every line feed. */
module TextLines {
  import opened Json

  function Lines(s: string): (r: seq<string>)
    ensures r != []
  {
    if s == [] then [[]]
    else
      var rest := Lines(s[1..]);
      if s[0] == '\n' then [[]] + rest else [[s[0]] + rest[0]] + rest[1..]
  }

  predicate OneLine(s: string) { '\n' !in s }

  lemma {:induction false} LinesOfLine(s: string)
    requires OneLine(s)
    ensures Lines(s) == [s]
  {
    if s != [] {
      LinesOfLine(s[1..]);
      assert s == [s[0]] + s[1..];
    }
  }

  lemma {:induction false} LinesOfHead(s: string, t: string)
    requires OneLine(s)
    ensures Lines(s + "\n" + t) == [s] + Lines(t)
  {
    var whole := s + "\n" + t;
    if s == [] {
      assert whole[1..] == t;
    } else {
      assert whole[0] == s[0] && whole[1..] == s[1..] + "\n" + t;
      LinesOfHead(s[1..], t);
      assert s == [s[0]] + s[1..];
    }
  }

  /** Lines joined by line feeds are the lines of the text. */
  lemma {:induction false} LinesOfJoin(texts: seq<string>)
    requires texts != [] && forall i :: 0 <= i < |texts| ==> OneLine(texts[i])
    ensures Lines(Join("\n", texts)) == texts
  {
    if |texts| == 1 {
      LinesOfLine(texts[0]);
    } else {
      LinesOfJoin(texts[1..]);
      LinesOfHead(texts[0], Join("\n", texts[1..]));
      assert texts == [texts[0]] + texts[1..];
    }
  }
}
