/**
 `parse_backlog`: one walk over the lines of the backlog with a current initiative, a
 current epic and two live text buffers, against what the document says line by line.
 The regular expressions classify lines beforehand; strip and the tier and summary texts
 are parameters.  Items are values in a list and the current ones are indices into it.
 */
module Backlog {
  import opened Wrappers
  import opened Json
  import opened TextLines

  datatype Line =
    | SprintHeader(sprint: string)
    | InitHeader(key: string, title: string)
    | EpicHeader(key: string, title: string)
    | StoryLine(key: string, status: string, priority: string, size: string, body: string)
    | TableLine(text: string, isHead: bool, story: Option<string>)  // starts with "|"
    | TextLine(text: string)  // anything else that is neither a heading nor a list item
    | OtherLine  // blank, another heading, or a list item that is no story

  datatype Kind = Initiative | Epic | Story

  datatype Item = Item(kind: Kind, key: string, summary: string, description: string, status: string,
                       priority: string, size: string, parent: string, labels: seq<string>)

  datatype Env = Env(strip: string -> string, tier: string -> Option<string>, summary: string -> string)

  const STATUSES: seq<string> := ["Backlog", "In Design", "In Progress", "Done", "Won't Do", "—"]
  const PRIORITIES: seq<string> := ["P0", "P1", "P2", "P3", "—"]
  const SIZES: seq<string> := ["XS", "S", "M", "L", "XL"]

  // ---------- what the document says ----------

  predicate IsItem(l: Line) { l.InitHeader? || l.EpicHeader? || l.StoryLine? }

  /** Line j is the latest initiative before line n. */
  ghost predicate LatestInit(lines: seq<Line>, n: nat, j: int) {
    0 <= j < n <= |lines| && lines[j].InitHeader? && forall k :: j < k < n ==> !lines[k].InitHeader?
  }

  /** Line j is the latest epic before line n, with no initiative after it. */
  ghost predicate LatestEpic(lines: seq<Line>, n: nat, j: int) {
    && 0 <= j < n <= |lines| && lines[j].EpicHeader?
    && forall k :: j < k < n ==> !lines[k].EpicHeader? && !lines[k].InitHeader?
  }

  /**
   Text at line n belongs to the item of line j: the latest epic since the latest initiative,
   or else that initiative.
   */
  ghost predicate Owns(lines: seq<Line>, j: int, n: nat) {
    LatestEpic(lines, n, j) || (LatestInit(lines, n, j) && forall k :: j < k < n ==> !lines[k].EpicHeader?)
  }

  /** The sprint heading in force at line n. */
  function LatestSprint(lines: seq<Line>, n: nat): Option<string>
    requires n <= |lines|
  {
    if n == 0 then None
    else if lines[n - 1].SprintHeader? then Some(lines[n - 1].sprint)
    else LatestSprint(lines, n - 1)
  }

  predicate IsTableHead(lines: seq<Line>, h: nat)
    requires h < |lines|
  {
    lines[h].TableLine? && lines[h].isHead && LatestSprint(lines, h).Some?
  }

  /** Line n would continue a sprint table: a table head stands above it with only table lines in between. */
  ghost predicate InTable(lines: seq<Line>, n: nat)
    requires n <= |lines|
  {
    exists h :: 0 <= h < n && IsTableHead(lines, h) && forall k :: h < k < n ==> lines[k].TableLine?
  }

  ghost predicate IsSprintRow(lines: seq<Line>, n: nat)
    requires n < |lines|
  {
    lines[n].TableLine? && !IsTableHead(lines, n) && InTable(lines, n) && lines[n].story.Some?
  }

  /** The line is text some description gets: prose, or a table line that is no sprint-table head or row. */
  ghost predicate Eligible(lines: seq<Line>, n: nat)
    requires n < |lines|
  {
    lines[n].TextLine? || (lines[n].TableLine? && !IsTableHead(lines, n) && !IsSprintRow(lines, n))
  }

  /** The texts before line n that belong to the item of line j, in order. */
  ghost function Texts(lines: seq<Line>, j: int, n: nat): seq<string>
    requires n <= |lines|
  {
    if n == 0 then []
    else Texts(lines, j, n - 1) + (if Eligible(lines, n - 1) && Owns(lines, j, n - 1) then [lines[n - 1].text] else [])
  }

  /** The story-to-sprint table: a later row replaces an earlier one. */
  ghost function Sprints(lines: seq<Line>, n: nat): map<string, string>
    requires n <= |lines|
  {
    if n == 0 then map[]
    else if IsSprintRow(lines, n - 1) && LatestSprint(lines, n - 1).Some? then
      Sprints(lines, n - 1)[lines[n - 1].story.value := LatestSprint(lines, n - 1).value]
    else Sprints(lines, n - 1)
  }

  function Describe(env: Env, texts: seq<string>): string {
    if texts == [] then "" else env.strip(Join("\n", texts))
  }

  function TierLabels(env: Env, kind: Kind, texts: seq<string>): seq<string> {
    if kind.Initiative? && texts != [] && env.tier(Describe(env, texts)).Some? then
      ["tier-" + env.tier(Describe(env, texts)).value]
    else []
  }

  /**
   The parent of an item at line n: for a story the latest epic since the latest initiative, or
   else that initiative.
   */
  ghost predicate ParentIs(lines: seq<Line>, n: nat, parent: string)
    requires n < |lines|
  {
    match lines[n]
    case StoryLine(_, _, _, _, _) =>
      if exists j :: Owns(lines, j, n) then exists j :: Owns(lines, j, n) && parent == lines[j].key else parent == ""
    case EpicHeader(_, _) =>
      if HasInit(lines, n) then exists j :: LatestInit(lines, n, j) && parent == lines[j].key else parent == ""
    case _ => parent == ""
  }

  /** The item says what its line says, apart from description and labels. */
  ghost predicate FromLine(env: Env, lines: seq<Line>, n: nat, it: Item)
    requires n < |lines|
  {
    && ParentIs(lines, n, it.parent)
    && match lines[n]
       case InitHeader(key, title) =>
         it == Item(Initiative, key, title, it.description, "In Progress", "P0", "", it.parent, it.labels)
       case EpicHeader(key, title) =>
         it == Item(Epic, key, title, it.description, "In Progress",
                    if HasInit(lines, n) then "P0" else "—", "", it.parent, it.labels)
       case StoryLine(key, status, priority, size, body) =>
         it == Item(Story, key, env.summary(body), body,
                    if status in STATUSES then status else "Backlog",
                    if priority in PRIORITIES then priority else "—",
                    if size in SIZES then size else "", it.parent, [])
       case _ => false
  }

  ghost predicate HasInit(lines: seq<Line>, n: nat) { exists j :: LatestInit(lines, n, j) }

  // ---------- the walk ----------

  datatype State = State(
    items: seq<Item>,
    curInit: Option<nat>,
    curEpic: Option<nat>,
    initBuf: seq<string>,
    epicBuf: seq<string>,
    curSprint: Option<string>,
    inTable: bool,
    sprints: map<string, string>)

  const START := State([], None, None, [], [], None, false, map[])

  predicate Consistent(s: State) {
    && (s.curInit.Some? ==> s.curInit.value < |s.items|)
    && (s.curEpic.Some? ==> s.curEpic.value < |s.items|)
  }

  /** `flush_meta` on one item. */
  function Flushed(env: Env, it: Item, buf: seq<string>): Item {
    if buf == [] then it
    else it.(description := Describe(env, buf), labels := it.labels + TierLabels(env, it.kind, buf))
  }

  function FlushEpic(env: Env, s: State): State
    requires Consistent(s)
  {
    match s.curEpic
    case None => s.(epicBuf := [])
    case Some(i) => s.(items := s.items[i := Flushed(env, s.items[i], s.epicBuf)], epicBuf := [])
  }

  function FlushInit(env: Env, s: State): State
    requires Consistent(s)
  {
    match s.curInit
    case None => s.(initBuf := [])
    case Some(i) => s.(items := s.items[i := Flushed(env, s.items[i], s.initBuf)], initBuf := [])
  }

  function KeyOf(s: State, cur: Option<nat>): string
    requires cur.Some? ==> cur.value < |s.items|
  {
    match cur
    case None => ""
    case Some(i) => s.items[i].key
  }

  /** One line of the walk. */
  function Walk(env: Env, s: State, l: Line): State
    requires Consistent(s)
  {
    match l
    case SprintHeader(sprint) => s.(curSprint := Some(sprint), inTable := false)
    case TableLine(text, isHead, story) =>
      if s.curSprint.Some? && isHead then s.(inTable := true)
      else if s.curSprint.Some? && s.inTable && story.Some? then
        s.(sprints := s.sprints[story.value := s.curSprint.value])
      else AddText(s, text)
    case InitHeader(key, title) =>
      var t := FlushInit(env, FlushEpic(env, s));
      t.(items := t.items + [Item(Initiative, key, title, "", "In Progress", "P0", "", "", [])],
         curInit := Some(|t.items|), curEpic := None, inTable := false)
    case EpicHeader(key, title) =>
      var t := FlushEpic(env, s);
      t.(items := t.items + [Item(Epic, key, title, "", "In Progress",
                                  if s.curInit.Some? then t.items[s.curInit.value].priority else "—",
                                  "", KeyOf(t, s.curInit), [])],
         curEpic := Some(|t.items|), inTable := false)
    case StoryLine(key, status, priority, size, body) =>
      s.(items := s.items + [Item(Story, key, env.summary(body), body,
                                  if status in STATUSES then status else "Backlog",
                                  if priority in PRIORITIES then priority else "—",
                                  if size in SIZES then size else "",
                                  if s.curEpic.Some? then KeyOf(s, s.curEpic) else KeyOf(s, s.curInit), [])],
         inTable := false)
    case TextLine(text) => AddText(s.(inTable := false), text)
    case OtherLine => s.(inTable := false)
  }

  function AddText(s: State, text: string): State {
    if s.curEpic.Some? then s.(epicBuf := s.epicBuf + [text])
    else if s.curInit.Some? then s.(initBuf := s.initBuf + [text])
    else s
  }

  // ---------- the invariant ----------

  /** Item i is still collecting text. */
  predicate Open(s: State, i: nat) { s.curInit == Some(i) || s.curEpic == Some(i) }

  /** The live text of an open item. */
  function BufferOf(s: State, i: nat): seq<string> { if s.curEpic == Some(i) then s.epicBuf else s.initBuf }

  /** The item of line at[i]: as its line says, and described unless it is still open. */
  ghost predicate ItemOk(env: Env, lines: seq<Line>, n: nat, s: State, at: seq<nat>, i: nat)
    requires i < |s.items| && i < |at| && at[i] < |lines| && n <= |lines|
  {
    var it, j := s.items[i], at[i];
    && FromLine(env, lines, j, it)
    && (!it.kind.Story? ==>
          && it.description == (if Open(s, i) then "" else Describe(env, Texts(lines, j, n)))
          && it.labels == (if Open(s, i) then [] else TierLabels(env, it.kind, Texts(lines, j, n))))
  }

  /** at lists the item lines before n, in order. */
  ghost predicate ItemLines(lines: seq<Line>, n: nat, at: seq<nat>)
    requires n <= |lines|
  {
    && (forall i :: 0 <= i < |at| ==> at[i] < n && IsItem(lines[at[i]]))
    && (forall i, k :: 0 <= i < k < |at| ==> at[i] < at[k])
    && (forall j :: 0 <= j < n && IsItem(lines[j]) ==> j in at)
  }

  ghost predicate CurrentOk(lines: seq<Line>, n: nat, s: State, at: seq<nat>)
    requires n <= |lines| && |s.items| == |at| && Consistent(s)
  {
    && (s.curInit.Some? ==>
          LatestInit(lines, n, at[s.curInit.value]) && s.initBuf == Texts(lines, at[s.curInit.value], n))
    && (s.curInit.None? ==> !HasInit(lines, n) && s.initBuf == [])
    && (s.curEpic.Some? ==>
          LatestEpic(lines, n, at[s.curEpic.value]) && s.epicBuf == Texts(lines, at[s.curEpic.value], n))
    && (s.curEpic.None? ==> (forall j :: !LatestEpic(lines, n, j)) && s.epicBuf == [])
  }

  ghost predicate ItemsOk(env: Env, lines: seq<Line>, n: nat, s: State, at: seq<nat>)
    requires n <= |lines|
  {
    && |s.items| == |at| && Consistent(s)
    && ItemLines(lines, n, at)
    && CurrentOk(lines, n, s, at)
    && (forall i {:trigger ItemOk(env, lines, n, s, at, i)} :: 0 <= i < |at| ==> ItemOk(env, lines, n, s, at, i))
  }

  ghost predicate SprintsOk(lines: seq<Line>, n: nat, s: State)
    requires n <= |lines|
  {
    && s.curSprint == LatestSprint(lines, n)
    && s.inTable == InTable(lines, n)
    && s.sprints == Sprints(lines, n)
  }

  // ---------- sprint tables ----------

  lemma InTableStep(lines: seq<Line>, n: nat)
    requires n < |lines|
    ensures InTable(lines, n + 1) <==> lines[n].TableLine? && (InTable(lines, n) || IsTableHead(lines, n))
  {
    if lines[n].TableLine? {
      if InTable(lines, n) {
        var h :| 0 <= h < n && IsTableHead(lines, h) && forall k :: h < k < n ==> lines[k].TableLine?;
        assert forall k :: h < k < n + 1 ==> lines[k].TableLine?;
      }
      if IsTableHead(lines, n) {
        var m := n + 1;
        assert 0 <= n < m && IsTableHead(lines, n);
        assert forall k :: n < k < m ==> k in [n];
      }
    }
    if InTable(lines, n + 1) {
      var h :| 0 <= h < n + 1 && IsTableHead(lines, h) && forall k :: h < k < n + 1 ==> lines[k].TableLine?;
      if h < n {
        assert lines[n].TableLine?;
        assert forall k :: h < k < n ==> lines[k].TableLine?;
      }
    }
  }

  lemma {:induction false} SprintStays(lines: seq<Line>, h: nat, n: nat)
    requires h <= n <= |lines| && LatestSprint(lines, h).Some?
    ensures LatestSprint(lines, n).Some?
  {
    if h < n { SprintStays(lines, h, n - 1); }
  }

  lemma TableHasSprint(lines: seq<Line>, n: nat)
    requires n <= |lines| && InTable(lines, n)
    ensures LatestSprint(lines, n).Some?
  {
    var h :| 0 <= h < n && IsTableHead(lines, h) && forall k :: h < k < n ==> lines[k].TableLine?;
    SprintStays(lines, h, n);
  }

  lemma WalkSprints(env: Env, lines: seq<Line>, n: nat, s: State)
    requires n < |lines| && Consistent(s) && SprintsOk(lines, n, s)
    ensures SprintsOk(lines, n + 1, Walk(env, s, lines[n]))
  {
    InTableStep(lines, n);
    if InTable(lines, n) { TableHasSprint(lines, n); }
  }

  // ---------- who owns a line ----------

  lemma LatestStep(lines: seq<Line>, n: nat, j: int)
    requires n < |lines|
    ensures LatestInit(lines, n + 1, j) <==> if lines[n].InitHeader? then j == n else LatestInit(lines, n, j)
    ensures LatestEpic(lines, n + 1, j) <==>
      if lines[n].EpicHeader? then j == n else !lines[n].InitHeader? && LatestEpic(lines, n, j)
  {}

  /** Without a current epic, no epic stands between the latest initiative and here. */
  lemma {:induction false} NoEpicSince(lines: seq<Line>, n: nat, i: int, m: nat)
    requires m <= n && LatestInit(lines, n, i) && i < m && forall k :: m <= k < n ==> !lines[k].EpicHeader?
    requires forall j :: !LatestEpic(lines, n, j)
    ensures forall k :: i < k < n ==> !lines[k].EpicHeader?
    decreases m
  {
    if i + 1 < m {
      if lines[m - 1].EpicHeader? {
        assert LatestEpic(lines, n, m - 1);
      }
      NoEpicSince(lines, n, i, m - 1);
    }
  }

  /** Whose text a line is, in terms of the current items. */
  lemma OwnerIsCurrent(lines: seq<Line>, n: nat, s: State, at: seq<nat>, j: int)
    requires n <= |lines| && |s.items| == |at| && Consistent(s) && CurrentOk(lines, n, s, at)
    ensures Owns(lines, j, n) <==>
      if s.curEpic.Some? then j == at[s.curEpic.value] else s.curInit.Some? && j == at[s.curInit.value]
  {
    if s.curEpic.None? && s.curInit.Some? { NoEpicSince(lines, n, at[s.curInit.value], n); }
    if s.curEpic.Some? {
      assert lines[at[s.curEpic.value]].EpicHeader?;
    }
    if LatestInit(lines, n, j) { assert HasInit(lines, n); }
  }

  /** A closed item gets no more text. */
  lemma ClosedKeepsTexts(env: Env, lines: seq<Line>, n: nat, s: State, at: seq<nat>, i: nat)
    requires n < |lines| && ItemsOk(env, lines, n, s, at) && i < |at| && !Open(s, i)
    ensures Texts(lines, at[i], n + 1) == Texts(lines, at[i], n)
  {
    OwnerIsCurrent(lines, n, s, at, at[i]);
  }

  // ---------- the items ----------

  /** What the walk does with a line that is no item: it goes to the live buffer exactly when it is eligible. */
  lemma WalkEligible(env: Env, lines: seq<Line>, n: nat, s: State)
    requires n < |lines| && Consistent(s) && SprintsOk(lines, n, s) && !IsItem(lines[n])
    ensures var s' := Walk(env, s, lines[n]);
      var t := if Eligible(lines, n) then AddText(s, lines[n].text) else s;
      && s'.items == s.items && s'.curInit == s.curInit && s'.curEpic == s.curEpic
      && s'.initBuf == t.initBuf && s'.epicBuf == t.epicBuf
  {
    if InTable(lines, n) { TableHasSprint(lines, n); }
  }

  /** The current items when no item line passes. */
  lemma LatestKept(lines: seq<Line>, n: nat, m: nat)
    requires n < |lines| && m == n + 1 && !lines[n].InitHeader? && !lines[n].EpicHeader?
    ensures forall j :: LatestInit(lines, m, j) <==> LatestInit(lines, n, j)
    ensures forall j :: LatestEpic(lines, m, j) <==> LatestEpic(lines, n, j)
    ensures HasInit(lines, m) <==> HasInit(lines, n)
  {
    forall j ensures LatestInit(lines, m, j) <==> LatestInit(lines, n, j) { LatestStep(lines, n, j); }
    forall j ensures LatestEpic(lines, m, j) <==> LatestEpic(lines, n, j) { LatestStep(lines, n, j); }
  }

  lemma TextCurrent(env: Env, lines: seq<Line>, n: nat, s: State, at: seq<nat>, m: nat)
    requires n < |lines| && m == n + 1 && |s.items| == |at| && Consistent(s)
    requires CurrentOk(lines, n, s, at) && SprintsOk(lines, n, s) && !IsItem(lines[n])
    ensures CurrentOk(lines, m, Walk(env, s, lines[n]), at)
  {
    WalkEligible(env, lines, n, s);
    LatestKept(lines, n, m);
    if s.curEpic.Some? { OwnerIsCurrent(lines, n, s, at, at[s.curEpic.value]); }
    if s.curInit.Some? {
      OwnerIsCurrent(lines, n, s, at, at[s.curInit.value]);
      assert lines[at[s.curInit.value]].InitHeader?;
    }
  }

  /** A line that adds no item and closes none; texts go to the owner. */
  lemma WalkText(env: Env, lines: seq<Line>, n: nat, s: State, at: seq<nat>, m: nat)
    requires n < |lines| && m == n + 1 && ItemsOk(env, lines, n, s, at) && SprintsOk(lines, n, s)
    requires !IsItem(lines[n])
    ensures ItemsOk(env, lines, m, Walk(env, s, lines[n]), at)
  {
    var s' := Walk(env, s, lines[n]);
    TextCurrent(env, lines, n, s, at, m);
    WalkEligible(env, lines, n, s);
    forall i | 0 <= i < |at| ensures ItemOk(env, lines, m, s', at, i) {
      assert ItemOk(env, lines, n, s, at, i);
      if !Open(s, i) { ClosedKeepsTexts(env, lines, n, s, at, i); }
    }
  }

  /** An item line is no text. */
  lemma HeaderKeepsTexts(lines: seq<Line>, n: nat, j: int)
    requires n < |lines| && IsItem(lines[n])
    ensures Texts(lines, j, n + 1) == Texts(lines, j, n)
  {}

  lemma {:induction false} FreshTexts(lines: seq<Line>, j: int, n: nat)
    requires n <= |lines| && n <= j
    ensures Texts(lines, j, n) == []
  {
    if n > 0 { FreshTexts(lines, j, n - 1); }
  }

  lemma ItemLinesSnoc(lines: seq<Line>, n: nat, at: seq<nat>)
    requires n < |lines| && ItemLines(lines, n, at) && IsItem(lines[n])
    ensures ItemLines(lines, n + 1, at + [n])
  {
    forall j | 0 <= j < n + 1 && IsItem(lines[j]) ensures j in at + [n] {
      if j < n { assert j in at; }
    }
  }

  /** The key of an item is the key of its line. */
  lemma KeyOfLine(env: Env, lines: seq<Line>, n: nat, s: State, at: seq<nat>, i: nat)
    requires n <= |lines| && ItemsOk(env, lines, n, s, at) && i < |at|
    ensures s.items[i].key == lines[at[i]].key
    ensures lines[at[i]].InitHeader? ==> s.items[i].kind.Initiative? && s.items[i].priority == "P0"
    ensures lines[at[i]].EpicHeader? ==> s.items[i].kind.Epic?
  {
    assert ItemOk(env, lines, n, s, at, i);
  }

  lemma WalkStory(env: Env, lines: seq<Line>, n: nat, s: State, at: seq<nat>, m: nat)
    requires n < |lines| && m == n + 1 && ItemsOk(env, lines, n, s, at) && lines[n].StoryLine?
    ensures ItemsOk(env, lines, m, Walk(env, s, lines[n]), at + [n])
  {
    var s', at' := Walk(env, s, lines[n]), at + [n];
    ItemLinesSnoc(lines, n, at);
    LatestKept(lines, n, m);
    forall j ensures Texts(lines, j, m) == Texts(lines, j, n) { HeaderKeepsTexts(lines, n, j); }
    StoryParent(env, lines, n, s, at);
    assert CurrentOk(lines, m, s', at');
    forall i | 0 <= i < |at'| ensures ItemOk(env, lines, m, s', at', i) {
      if i < |at| { assert ItemOk(env, lines, n, s, at, i); }
    }
  }

  lemma StoryParent(env: Env, lines: seq<Line>, n: nat, s: State, at: seq<nat>)
    requires n < |lines| && ItemsOk(env, lines, n, s, at) && lines[n].StoryLine?
    ensures ParentIs(lines, n, if s.curEpic.Some? then KeyOf(s, s.curEpic) else KeyOf(s, s.curInit))
  {
    forall j ensures Owns(lines, j, n) <==>
      if s.curEpic.Some? then j == at[s.curEpic.value] else s.curInit.Some? && j == at[s.curInit.value]
    {
      OwnerIsCurrent(lines, n, s, at, j);
    }
    if s.curEpic.Some? {
      KeyOfLine(env, lines, n, s, at, s.curEpic.value);
      assert Owns(lines, at[s.curEpic.value], n);
    } else if s.curInit.Some? {
      KeyOfLine(env, lines, n, s, at, s.curInit.value);
      assert Owns(lines, at[s.curInit.value], n);
    }
  }

  /** Flushing the current item gives it the description of the texts so far. */
  lemma FlushedOk(env: Env, lines: seq<Line>, n: nat, s: State, at: seq<nat>, i: nat)
    requires n <= |lines| && ItemsOk(env, lines, n, s, at) && i < |at| && Open(s, i)
    ensures var buf := if s.curEpic == Some(i) then s.epicBuf else s.initBuf;
      var it := Flushed(env, s.items[i], buf);
      && FromLine(env, lines, at[i], it) && !it.kind.Story?
      && it.description == Describe(env, Texts(lines, at[i], n))
      && it.labels == TierLabels(env, it.kind, Texts(lines, at[i], n))
  {
    assert ItemOk(env, lines, n, s, at, i);
    KeyOfLine(env, lines, n, s, at, i);
  }

  lemma EpicParent(env: Env, lines: seq<Line>, n: nat, s: State, at: seq<nat>)
    requires n < |lines| && ItemsOk(env, lines, n, s, at) && lines[n].EpicHeader?
    ensures ParentIs(lines, n, KeyOf(s, s.curInit))
    ensures s.curInit.Some? <==> HasInit(lines, n)
    ensures s.curInit.Some? ==> s.items[s.curInit.value].priority == "P0"
  {
    if s.curInit.Some? {
      KeyOfLine(env, lines, n, s, at, s.curInit.value);
      assert LatestInit(lines, n, at[s.curInit.value]);
      assert HasInit(lines, n);
    }
  }

  /** Text is over for an open item that line n closes: what its buffer holds is all its texts. */
  lemma Closed(env: Env, lines: seq<Line>, n: nat, m: nat, s: State, at: seq<nat>, i: nat, s': State, at': seq<nat>)
    requires n < |lines| && m == n + 1 && ItemsOk(env, lines, n, s, at) && IsItem(lines[n]) && i < |at|
    requires i < |s'.items| && i < |at'| && at'[i] == at[i] && (Open(s', i) ==> Open(s, i))
    requires s'.items[i] ==
      if Open(s, i) && !Open(s', i) then Flushed(env, s.items[i], BufferOf(s, i))
      else s.items[i]
    ensures ItemOk(env, lines, m, s', at', i)
  {
    HeaderKeepsTexts(lines, n, at[i]);
    assert ItemOk(env, lines, n, s, at, i);
    if Open(s, i) && !Open(s', i) { FlushedOk(env, lines, n, s, at, i); }
  }

  /** The two current items are never the same one. */
  lemma TwoCurrents(lines: seq<Line>, n: nat, s: State, at: seq<nat>)
    requires n <= |lines| && |s.items| == |at| && Consistent(s) && CurrentOk(lines, n, s, at)
    ensures s.curInit.Some? ==> s.curInit != s.curEpic
  {
    if s.curInit.Some? && s.curEpic.Some? {
      assert lines[at[s.curInit.value]].InitHeader?;
      assert lines[at[s.curEpic.value]].EpicHeader?;
    }
  }

  lemma EpicCurrent(env: Env, lines: seq<Line>, n: nat, s: State, at: seq<nat>, m: nat)
    requires n < |lines| && m == n + 1 && |s.items| == |at| && Consistent(s) && CurrentOk(lines, n, s, at)
    requires lines[n].EpicHeader?
    ensures CurrentOk(lines, m, Walk(env, s, lines[n]), at + [n])
  {
    forall j ensures LatestInit(lines, m, j) <==> LatestInit(lines, n, j) { LatestStep(lines, n, j); }
    forall j ensures LatestEpic(lines, m, j) <==> j == n { LatestStep(lines, n, j); }
    forall j ensures Texts(lines, j, m) == Texts(lines, j, n) { HeaderKeepsTexts(lines, n, j); }
    FreshTexts(lines, n, n);
  }

  /** What a heading does to the items already there: it flushes those it closes. */
  lemma HeaderItems(env: Env, s: State, l: Line, i: nat)
    requires Consistent(s) && (l.EpicHeader? || l.InitHeader?) && i < |s.items|
    requires s.curInit.Some? ==> s.curInit != s.curEpic
    ensures var s' := Walk(env, s, l);
      && |s'.items| == |s.items| + 1 && (Open(s', i) ==> Open(s, i))
      && s'.items[i] ==
           if Open(s, i) && !Open(s', i) then Flushed(env, s.items[i], BufferOf(s, i))
           else s.items[i]
  {}

  lemma OldItems(env: Env, lines: seq<Line>, n: nat, s: State, at: seq<nat>, m: nat, s': State, at': seq<nat>, i: nat)
    requires n < |lines| && m == n + 1 && ItemsOk(env, lines, n, s, at) && i < |at|
    requires lines[n].EpicHeader? || lines[n].InitHeader?
    requires s' == Walk(env, s, lines[n]) && at' == at + [n] && |s'.items| == |at'|
    ensures ItemOk(env, lines, m, s', at', i)
  {
    TwoCurrents(lines, n, s, at);
    HeaderItems(env, s, lines[n], i);
    Closed(env, lines, n, m, s, at, i, s', at');
  }

  /** The invariant after a heading, from its parts. */
  lemma HeaderItemsOk(env: Env, lines: seq<Line>, n: nat, s: State, at: seq<nat>, m: nat, s': State, at': seq<nat>)
    requires n < |lines| && m == n + 1 && ItemsOk(env, lines, n, s, at)
      && (lines[n].EpicHeader? || lines[n].InitHeader?)
    requires s' == Walk(env, s, lines[n]) && at' == at + [n] && |s'.items| == |at'|
    requires ItemLines(lines, m, at') && CurrentOk(lines, m, s', at') && ItemOk(env, lines, m, s', at', |at|)
    ensures ItemsOk(env, lines, m, s', at')
  {
    forall i | 0 <= i < |at| ensures ItemOk(env, lines, m, s', at', i) {
      OldItems(env, lines, n, s, at, m, s', at', i);
    }
    FromParts(env, lines, m, s', at', |at|);
  }

  lemma FromParts(env: Env, lines: seq<Line>, m: nat, s: State, at: seq<nat>, last: nat)
    requires m <= |lines| && |at| == |s.items| == last + 1 && Consistent(s)
    requires ItemLines(lines, m, at) && CurrentOk(lines, m, s, at) && ItemOk(env, lines, m, s, at, last)
    requires forall i {:trigger ItemOk(env, lines, m, s, at, i)} :: 0 <= i < last ==> ItemOk(env, lines, m, s, at, i)
    ensures ItemsOk(env, lines, m, s, at)
  {}

  lemma NewEpic(env: Env, lines: seq<Line>, n: nat, s: State, at: seq<nat>, m: nat)
    requires n < |lines| && m == n + 1 && ItemsOk(env, lines, n, s, at) && lines[n].EpicHeader?
    ensures var s' := Walk(env, s, lines[n]); |s'.items| == |at| + 1 && ItemOk(env, lines, m, s', at + [n], |at|)
  {
    TwoCurrents(lines, n, s, at);
    EpicParent(env, lines, n, s, at);
    if s.curInit.Some? { HeaderItems(env, s, lines[n], s.curInit.value); }
  }

  lemma NewInit(env: Env, lines: seq<Line>, n: nat, s: State, at: seq<nat>, m: nat)
    requires n < |lines| && m == n + 1 && |s.items| == |at| && Consistent(s) && lines[n].InitHeader?
    ensures var s' := Walk(env, s, lines[n]); |s'.items| == |at| + 1 && ItemOk(env, lines, m, s', at + [n], |at|)
  {}

  lemma WalkEpic(env: Env, lines: seq<Line>, n: nat, s: State, at: seq<nat>, m: nat)
    requires n < |lines| && m == n + 1 && ItemsOk(env, lines, n, s, at) && lines[n].EpicHeader?
    ensures ItemsOk(env, lines, m, Walk(env, s, lines[n]), at + [n])
  {
    ItemLinesSnoc(lines, n, at);
    EpicCurrent(env, lines, n, s, at, m);
    NewEpic(env, lines, n, s, at, m);
    HeaderItemsOk(env, lines, n, s, at, m, Walk(env, s, lines[n]), at + [n]);
  }

  lemma InitCurrent(env: Env, lines: seq<Line>, n: nat, s: State, at: seq<nat>, m: nat)
    requires n < |lines| && m == n + 1 && |s.items| == |at| && Consistent(s) && lines[n].InitHeader?
    ensures CurrentOk(lines, m, Walk(env, s, lines[n]), at + [n])
  {
    forall j ensures LatestInit(lines, m, j) <==> j == n { LatestStep(lines, n, j); }
    forall j ensures !LatestEpic(lines, m, j) { LatestStep(lines, n, j); }
    HeaderKeepsTexts(lines, n, n);
    FreshTexts(lines, n, n);
  }

  lemma WalkInit(env: Env, lines: seq<Line>, n: nat, s: State, at: seq<nat>, m: nat)
    requires n < |lines| && m == n + 1 && ItemsOk(env, lines, n, s, at) && lines[n].InitHeader?
    ensures ItemsOk(env, lines, m, Walk(env, s, lines[n]), at + [n])
  {
    ItemLinesSnoc(lines, n, at);
    InitCurrent(env, lines, n, s, at, m);
    NewInit(env, lines, n, s, at, m);
    HeaderItemsOk(env, lines, n, s, at, m, Walk(env, s, lines[n]), at + [n]);
  }

  /** One line keeps the invariant; an item line joins the list. */
  lemma WalkKeeps(env: Env, lines: seq<Line>, n: nat, s: State, at: seq<nat>, m: nat)
    requires n < |lines| && m == n + 1 && ItemsOk(env, lines, n, s, at) && SprintsOk(lines, n, s)
    ensures ItemsOk(env, lines, m, Walk(env, s, lines[n]), if IsItem(lines[n]) then at + [n] else at)
    ensures SprintsOk(lines, m, Walk(env, s, lines[n]))
  {
    WalkSprints(env, lines, n, s);
    match lines[n]
    case InitHeader(_, _) => WalkInit(env, lines, n, s, at, m);
    case EpicHeader(_, _) => WalkEpic(env, lines, n, s, at, m);
    case StoryLine(_, _, _, _, _) => WalkStory(env, lines, n, s, at, m);
    case _ => WalkText(env, lines, n, s, at, m);
  }

  /** The state before line n, and the item lines behind its items. */
  function WalkTo(env: Env, lines: seq<Line>, n: nat): (s: State)
    requires n <= |lines|
    ensures Consistent(s)
  {
    if n == 0 then START else Walk(env, WalkTo(env, lines, n - 1), lines[n - 1])
  }

  function ItemLinesTo(lines: seq<Line>, n: nat): seq<nat>
    requires n <= |lines|
  {
    if n == 0 then []
    else if IsItem(lines[n - 1]) then ItemLinesTo(lines, n - 1) + [n - 1] else ItemLinesTo(lines, n - 1)
  }

  lemma {:induction false} WalkToOk(env: Env, lines: seq<Line>, n: nat)
    requires n <= |lines|
    ensures ItemsOk(env, lines, n, WalkTo(env, lines, n), ItemLinesTo(lines, n))
    ensures SprintsOk(lines, n, WalkTo(env, lines, n))
  {
    if n > 0 {
      WalkToOk(env, lines, n - 1);
      WalkKeeps(env, lines, n - 1, WalkTo(env, lines, n - 1), ItemLinesTo(lines, n - 1), n);
    }
  }

  // ---------- the result ----------

  /** The item of line j of the whole document. */
  ghost predicate ItemFinal(env: Env, lines: seq<Line>, j: nat, it: Item)
    requires j < |lines|
  {
    && FromLine(env, lines, j, it)
    && (!it.kind.Story? ==>
          && it.description == Describe(env, Texts(lines, j, |lines|))
          && it.labels == TierLabels(env, it.kind, Texts(lines, j, |lines|)))
  }

  /** The items are those of the document's item lines, one each, in order. */
  ghost predicate Parsed(env: Env, lines: seq<Line>, items: seq<Item>, at: seq<nat>) {
    && |items| == |at| && ItemLines(lines, |lines|, at)
    && (forall i :: 0 <= i < |at| ==> ItemFinal(env, lines, at[i], items[i]))
  }

  /** What the two closing flushes do to one item. */
  lemma FlushBoth(env: Env, s: State, i: nat)
    requires Consistent(s) && i < |s.items| && (s.curInit.Some? ==> s.curInit != s.curEpic)
    ensures var t := FlushInit(env, FlushEpic(env, s));
      && |t.items| == |s.items|
      && t.items[i] ==
           if Open(s, i) then Flushed(env, s.items[i], BufferOf(s, i)) else s.items[i]
  {}

  lemma FinalFlush(env: Env, lines: seq<Line>, s: State, at: seq<nat>)
    requires ItemsOk(env, lines, |lines|, s, at)
    ensures Parsed(env, lines, FlushInit(env, FlushEpic(env, s)).items, at)
  {
    var n := |lines|;
    TwoCurrents(lines, n, s, at);
    if |at| > 0 { FlushBoth(env, s, 0); }
    forall i | 0 <= i < |at| ensures ItemFinal(env, lines, at[i], FlushInit(env, FlushEpic(env, s)).items[i]) {
      FlushBoth(env, s, i);
      assert ItemOk(env, lines, n, s, at, i);
      if Open(s, i) { FlushedOk(env, lines, n, s, at, i); }
    }
  }

  /** The walk over all lines with the two flushes that close it. */
  function Walked(env: Env, lines: seq<Line>): State {
    FlushInit(env, FlushEpic(env, WalkTo(env, lines, |lines|)))
  }

  lemma WalkedAll(env: Env, lines: seq<Line>)
    ensures Parsed(env, lines, Walked(env, lines).items, ItemLinesTo(lines, |lines|))
    ensures Walked(env, lines).sprints == Sprints(lines, |lines|)
  {
    WalkToOk(env, lines, |lines|);
    FinalFlush(env, lines, WalkTo(env, lines, |lines|), ItemLinesTo(lines, |lines|));
  }

  // ---------- the parser ----------

  /** The live variables of `parse_backlog`. */
  class Walker {
    var items: seq<Item>
    var curInit: Option<nat>
    var curEpic: Option<nat>
    var initBuf: seq<string>
    var epicBuf: seq<string>
    var curSprint: Option<string>
    var inTable: bool
    var sprints: map<string, string>

    ghost function Value(): State
      reads this
    {
      State(items, curInit, curEpic, initBuf, epicBuf, curSprint, inTable, sprints)
    }

    constructor ()
      ensures Value() == START
    {
      items, curInit, curEpic, initBuf, epicBuf := [], None, None, [], [];
      curSprint, inTable, sprints := None, false, map[];
    }

    /** The rewriting half of `flush_meta`; the callers clear the buffer. */
    method Rewrite(env: Env, i: nat, buf: seq<string>)
      requires i < |items|
      modifies this`items
      ensures items == old(items)[i := Flushed(env, old(items)[i], buf)]
    {
      if buf != [] {
        var description := env.strip(Join("\n", buf));
        var tier := env.tier(description);
        items := items[i := items[i].(description := description)];
        assert old(items[i]).labels + [] == old(items[i]).labels;
        if tier.Some? && items[i].kind.Initiative? {
          items := items[i := items[i].(labels := items[i].labels + ["tier-" + tier.value])];
        }
      }
    }

    method CloseEpic(env: Env)
      requires Consistent(Value())
      modifies this
      ensures Value() == FlushEpic(env, old(Value()))
    {
      if curEpic.Some? { Rewrite(env, curEpic.value, epicBuf); }
      epicBuf := [];
    }

    method CloseInit(env: Env)
      requires Consistent(Value())
      modifies this
      ensures Value() == FlushInit(env, old(Value()))
    {
      if curInit.Some? { Rewrite(env, curInit.value, initBuf); }
      initBuf := [];
    }

    method Text(text: string)
      modifies this`epicBuf, this`initBuf
      ensures Value() == AddText(old(Value()), text)
    {
      if curEpic.Some? {
        epicBuf := epicBuf + [text];
      } else if curInit.Some? {
        initBuf := initBuf + [text];
      }
    }

    method Table(env: Env, text: string, isHead: bool, story: Option<string>)
      requires Consistent(Value())
      modifies this
      ensures Value() == Walk(env, old(Value()), TableLine(text, isHead, story))
    {
      if curSprint.Some? && isHead {
        inTable := true;
      } else if curSprint.Some? && inTable && story.Some? {
        sprints := sprints[story.value := curSprint.value];
      } else {
        Text(text);
      }
    }

    method Init(env: Env, key: string, title: string)
      requires Consistent(Value())
      modifies this
      ensures Value() == Walk(env, old(Value()), InitHeader(key, title))
    {
      CloseEpic(env);
      CloseInit(env);
      curEpic, curInit, inTable := None, Some(|items|), false;
      items := items + [Item(Initiative, key, title, "", "In Progress", "P0", "", "", [])];
    }

    method Epic(env: Env, key: string, title: string)
      requires Consistent(Value())
      modifies this
      ensures Value() == Walk(env, old(Value()), EpicHeader(key, title))
    {
      CloseEpic(env);
      var priority, parent := "—", "";
      if curInit.Some? { priority, parent := items[curInit.value].priority, items[curInit.value].key; }
      curEpic, inTable := Some(|items|), false;
      items := items + [Item(Kind.Epic, key, title, "", "In Progress", priority, "", parent, [])];
    }

    method Story(env: Env, key: string, status: string, priority: string, size: string, body: string)
      requires Consistent(Value())
      modifies this
      ensures Value() == Walk(env, old(Value()), StoryLine(key, status, priority, size, body))
    {
      var parent := "";
      if curEpic.Some? {
        parent := items[curEpic.value].key;
      } else if curInit.Some? {
        parent := items[curInit.value].key;
      }
      items := items + [Item(Kind.Story, key, env.summary(body), body,
                             if status in STATUSES then status else "Backlog",
                             if priority in PRIORITIES then priority else "—",
                             if size in SIZES then size else "", parent, [])];
      inTable := false;
    }

    method OneLine(env: Env, l: Line)
      requires Consistent(Value())
      modifies this
      ensures Value() == Walk(env, old(Value()), l)
    {
      match l
      case SprintHeader(sprint) => curSprint, inTable := Some(sprint), false;
      case TableLine(text, isHead, story) => Table(env, text, isHead, story);
      case InitHeader(key, title) => Init(env, key, title);
      case EpicHeader(key, title) => Epic(env, key, title);
      case StoryLine(key, status, priority, size, body) => Story(env, key, status, priority, size, body);
      case TextLine(text) =>
        inTable := false;
        Text(text);
      case OtherLine => inTable := false;
    }

    method Lines(env: Env, lines: seq<Line>)
      requires Value() == START
      modifies this
      ensures Value() == Walked(env, lines)
    {
      for n := 0 to |lines|
        invariant Value() == WalkTo(env, lines, n)
      {
        OneLine(env, lines[n]);
      }
      CloseEpic(env);
      CloseInit(env);
    }
  }

  /** `parse_backlog`; at is the item line behind each item. */
  method ParseBacklog(env: Env, lines: seq<Line>)
    returns (items: seq<Item>, sprints: map<string, string>, ghost at: seq<nat>)
    ensures Parsed(env, lines, items, at)
    ensures sprints == Sprints(lines, |lines|)
  {
    var w := new Walker();
    w.Lines(env, lines);
    WalkedAll(env, lines);
    items, sprints, at := w.items, w.sprints, ItemLinesTo(lines, |lines|);
  }

  // ---------- what the result means ----------

  /** A description is a text whose lines are the item's texts, one each and in order, stripped at both ends. */
  lemma DescriptionLines(env: Env, texts: seq<string>)
    requires texts != [] && forall i :: 0 <= i < |texts| ==> OneLine(texts[i])
    ensures exists s :: Lines(s) == texts && Describe(env, texts) == env.strip(s)
  {
    LinesOfJoin(texts);
    assert Lines(Join("\n", texts)) == texts;
  }

  /** The fields of a story: known values are kept, and unknown ones become backlog, no priority and no size. */
  lemma StoryFields(env: Env, lines: seq<Line>, items: seq<Item>, at: seq<nat>, i: nat)
    requires Parsed(env, lines, items, at) && i < |items| && lines[at[i]].StoryLine?
    ensures var l, it := lines[at[i]], items[i];
      && it.kind == Story && it.key == l.key && it.description == l.body && it.labels == []
      && (if l.status in ["Backlog", "In Design", "In Progress", "Done", "Won't Do", "—"] then it.status == l.status
          else it.status == "Backlog")
      && it.priority == (if l.priority in ["P0", "P1", "P2", "P3", "—"] then l.priority else "—")
      && it.size == (if l.size in ["XS", "S", "M", "L", "XL"] then l.size else "")
  {
    assert ItemFinal(env, lines, at[i], items[i]);
  }

  /** At most one item owns a line, and some item does once a heading stands above it. */
  lemma OwnerUnique(lines: seq<Line>, n: nat)
    requires n <= |lines|
    ensures forall j, k :: Owns(lines, j, n) && Owns(lines, k, n) ==> j == k
    ensures (exists j :: Owns(lines, j, n)) <==>
      (exists j :: 0 <= j < n && (lines[j].InitHeader? || lines[j].EpicHeader?))
  {
    if exists j :: 0 <= j < n && (lines[j].InitHeader? || lines[j].EpicHeader?) {
      var j := LastHeading(lines, n);
    }
  }

  lemma {:induction false} LastHeading(lines: seq<Line>, n: nat) returns (j: nat)
    requires n <= |lines| && exists j :: 0 <= j < n && (lines[j].InitHeader? || lines[j].EpicHeader?)
    ensures Owns(lines, j, n)
  {
    j := n - 1;
    while !(lines[j].InitHeader? || lines[j].EpicHeader?)
      invariant 0 <= j < n
      invariant exists k :: 0 <= k <= j && (lines[k].InitHeader? || lines[k].EpicHeader?)
      invariant forall k :: j < k < n ==> !lines[k].InitHeader? && !lines[k].EpicHeader?
      decreases j
    {
      j := j - 1;
    }
    assert LatestEpic(lines, n, j) || LatestInit(lines, n, j);
  }

  lemma {:induction false} TextsGrow(lines: seq<Line>, j: int, n: nat, m: nat)
    requires n <= m <= |lines|
    ensures Texts(lines, j, n) <= Texts(lines, j, m)
  {
    if n < m { TextsGrow(lines, j, n, m - 1); }
  }

  /** An eligible line lands in its owner's description, right after the owner's earlier lines, and in no other. */
  lemma TextLands(lines: seq<Line>, n: nat, j: int)
    requires n < |lines| && Eligible(lines, n) && Owns(lines, j, n)
    ensures var texts := Texts(lines, j, |lines|);
      |Texts(lines, j, n)| < |texts| && texts[|Texts(lines, j, n)|] == lines[n].text
    ensures forall k :: k != j ==> Texts(lines, k, n + 1) == Texts(lines, k, n)
  {
    OwnerUnique(lines, n);
    var m := n + 1;
    TextsGrow(lines, j, m, |lines|);
  }

  /** Every text of a description is an eligible line its item owns. */
  lemma {:induction false} TextComesFrom(lines: seq<Line>, j: int, m: nat, k: nat) returns (n: nat)
    requires m <= |lines| && k < |Texts(lines, j, m)|
    ensures n < m && Eligible(lines, n) && Owns(lines, j, n) && |Texts(lines, j, n)| == k
    ensures Texts(lines, j, m)[k] == lines[n].text
  {
    if k < |Texts(lines, j, m - 1)| {
      n := TextComesFrom(lines, j, m - 1, k);
    } else {
      n := m - 1;
    }
  }

  lemma FinalFromLine(env: Env, lines: seq<Line>, items: seq<Item>, at: seq<nat>, i: nat)
    requires Parsed(env, lines, items, at) && i < |items|
    ensures at[i] < |lines| && ParentIs(lines, at[i], items[i].parent)
    ensures lines[at[i]].InitHeader? ==> items[i].kind.Initiative? && items[i].key == lines[at[i]].key
    ensures lines[at[i]].EpicHeader? ==> items[i].kind.Epic? && items[i].key == lines[at[i]].key
    ensures lines[at[i]].StoryLine? ==> items[i].kind.Story?
  {
    assert ItemFinal(env, lines, at[i], items[i]);
  }

  predicate HigherKind(above: Kind, below: Kind) {
    (above.Initiative? && !below.Initiative?) || (above.Epic? && below.Story?)
  }

  /** Where a named parent stands in the document. */
  lemma ParentLine(lines: seq<Line>, n: nat, parent: string) returns (j: nat)
    requires n < |lines| && ParentIs(lines, n, parent) && parent != ""
    ensures j < n && (lines[j].InitHeader? || (lines[j].EpicHeader? && lines[n].StoryLine?))
    ensures lines[j].key == parent
    ensures lines[n].EpicHeader? || lines[n].StoryLine?
  {
    if lines[n].StoryLine? {
      j :| Owns(lines, j, n) && parent == lines[j].key;
    } else {
      j :| LatestInit(lines, n, j) && parent == lines[j].key;
    }
  }

  /** A parent that is named at all is an earlier item of a higher kind. */
  lemma ParentIsEarlier(env: Env, lines: seq<Line>, items: seq<Item>, at: seq<nat>, i: nat)
    requires Parsed(env, lines, items, at) && i < |items| && items[i].parent != ""
    ensures exists k :: 0 <= k < i && items[k].key == items[i].parent && HigherKind(items[k].kind, items[i].kind)
  {
    FinalFromLine(env, lines, items, at, i);
    var j := ParentLine(lines, at[i], items[i].parent);
    var k := ItemOfLine(env, lines, items, at, j);
    FinalFromLine(env, lines, items, at, k);
    assert k < i;
  }

  lemma ItemOfLine(env: Env, lines: seq<Line>, items: seq<Item>, at: seq<nat>, j: nat) returns (k: nat)
    requires Parsed(env, lines, items, at) && j < |lines| && IsItem(lines[j])
    ensures k < |items| && at[k] == j
    ensures forall i :: 0 <= i < |at| && j < at[i] ==> k < i
  {
    assert j in at;
    k :| 0 <= k < |at| && at[k] == j;
  }
}
