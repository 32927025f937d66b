// The line-by-line parser of the agents' reports, on lines that are already classified, and the de-duplication of a run.
module IssueParser {
  import opened Common
  import opened MarkdownEscapes

  datatype Section = LocationPath | Description | AcceptanceCriteria | Recommendation | GitDiff

  // What the patterns see in a line. Captured texts are stripped.
  datatype Kind =
    | Heading(id: string, registered: Option<string>)   // "#### Issue <id>", and the role registered for its prefix
    | Fence
    | Title(text: string)
    | Label(parts: Option<seq<string>>)                 // None: nothing is left of the label list
    | OpenQuestions(rest: string)
    | Opens(section: Section, rest: string)
    | Bullet(ofField: bool)                             // starts with "- **"; ofField: names a known field all the same
    | Continuation(none: bool)                          // other text; none: "none", "-" or "n/a" in any case
    | Blank

  // A line as it stands, without the space behind it, and without the space around it.
  datatype Line = Line(raw: string, trimmed: string, stripped: string, kind: Kind)

  datatype Piece = SectionHead(section: Section) | Verbatim(text: string)

  // Where a continuation line goes.
  datatype Field = NoField | DescField | OpenQuestionsField

  // The issue being collected.
  datatype Draft = Draft(
    id: string,
    role: string,
    title: string,
    desc: seq<Piece>,
    openQuestions: seq<string>,
    explicitLabels: seq<string>)

  datatype Issue =
    | Issue(id: string, role: string, title: string, labels: seq<string>, desc: seq<Piece>, openQuestions: seq<string>)
    | WholeDocument(id: string, role: string, labels: seq<string>)

  // What the parser carries from line to line: the issues so far, the one being collected, the field that continuation
  // lines go to, whether a fence is open, and the lines held back since it opened. Only issues and cur belong to a block;
  // the other three outlive it unless they are reset.
  datatype State = State(issues: seq<Issue>, cur: Option<Draft>, field: Field, inCode: bool, code: seq<Piece>)

  const BEGIN := State([], None, NoField, false, [])

  // The tables of the script: a role's label, and the severities that a title shows.
  datatype Tables = Tables(roleLabel: string -> string, severities: string -> seq<string>)

  // ----- De-duplication -----

  /** The elements whose key no earlier element has. */
  function KeepFirst<T(==), K(==)>(s: seq<T>, key: T -> K): seq<T> {
    if s == [] then []
    else
      var kept, last := KeepFirst(s[..|s| - 1], key), s[|s| - 1];
      if exists x :: x in kept && key(x) == key(last) then kept else kept + [last]
  }

  ghost function Keys<T, K>(s: seq<T>, key: T -> K): set<K> { set x | x in s :: key(x) }

  /** No key is left twice, none is lost, and each is left with its first bearer. */
  lemma FirstOfEachKey<T(!new), K>(s: seq<T>, key: T -> K)
    ensures var r := KeepFirst(s, key);
      && Keys(r, key) == Keys(s, key)
      && (forall i, j | 0 <= i < j < |r| :: key(r[i]) != key(r[j]))
      && (forall x | x in r :: IsFirst(s, key, x))
  {
    KeysAreKept(s, key);
    FirstsAreKept(s, key);
  }

  lemma {:induction false} KeysAreKept<T, K>(s: seq<T>, key: T -> K)
    ensures var r := KeepFirst(s, key);
      Keys(r, key) == Keys(s, key) && forall i, j | 0 <= i < j < |r| :: key(r[i]) != key(r[j])
  {
    if s != [] {
      var front, last := s[..|s| - 1], s[|s| - 1];
      KeysAreKept(front, key);
      OneMoreKey(front, key, last);
      OneMoreKey(KeepFirst(front, key), key, last);
      assert s == front + [last];
    }
  }

  lemma OneMoreKey<T, K>(s: seq<T>, key: T -> K, x: T)
    ensures Keys(s + [x], key) == Keys(s, key) + {key(x)}
  {}

  lemma {:induction false} FirstsAreKept<T(!new), K>(s: seq<T>, key: T -> K)
    ensures forall x | x in KeepFirst(s, key) :: IsFirst(s, key, x)
  {
    if s != [] {
      var front, last := s[..|s| - 1], s[|s| - 1];
      FirstsAreKept(front, key);
      KeysAreKept(front, key);
      assert s == front + [last];
      forall x | x in KeepFirst(s, key)
        ensures IsFirst(s, key, x)
      {
        if x in KeepFirst(front, key) {
          StillFirst(front, key, x, last);
        } else {
          NewKeyIsFirst(front, key, x);
        }
      }
    }
  }

  lemma StillFirst<T(!new), K>(s: seq<T>, key: T -> K, x: T, last: T)
    requires IsFirst(s, key, x)
    ensures IsFirst(s + [last], key, x)
  {
    var i :| 0 <= i < |s| && s[i] == x && forall j | 0 <= j < i :: key(s[j]) != key(x);
    assert (s + [last])[i] == x;
  }

  lemma NewKeyIsFirst<T(!new), K>(s: seq<T>, key: T -> K, x: T)
    requires key(x) !in Keys(s, key)
    ensures IsFirst(s + [x], key, x)
  {
    assert (s + [x])[|s|] == x;
  }

  ghost predicate IsFirst<T(!new), K>(s: seq<T>, key: T -> K, x: T) {
    exists i | 0 <= i < |s| :: s[i] == x && forall j | 0 <= j < i :: key(s[j]) != key(x)
  }

  method Deduplicate<T(==), K(==)>(s: seq<T>, key: T -> K) returns (r: seq<T>)
    ensures r == KeepFirst(s, key)
  {
    var seen := {};
    r := [];
    for i := 0 to |s|
      invariant r == KeepFirst(s[..i], key) && seen == Keys(r, key)
    {
      assert s[..i + 1][..i] == s[..i];
      if key(s[i]) !in seen {
        assert Keys(r + [s[i]], key) == Keys(r, key) + {key(s[i])};
        seen, r := seen + {key(s[i])}, r + [s[i]];
      }
    }
    assert s[..|s|] == s;
  }

  // ----- One line -----

  function Itself(s: string): string { s }

  function OneIfAny(rest: string): seq<Piece> { if rest == [] then [] else [Verbatim(rest)] }

  function NonEmpty(s: seq<string>): seq<string> {
    if s == [] then []
    else NonEmpty(s[..|s| - 1]) + if s[|s| - 1] == [] then [] else [s[|s| - 1]]
  }

  /** Of a label list the labels that are not empty, in order. */
  lemma {:induction false} EmptyLabelsAreDropped(a: seq<string>, x: string, b: seq<string>)
    ensures NonEmpty(a + [x] + b) == NonEmpty(a) + (if x == [] then [] else [x]) + NonEmpty(b)
    decreases |b|
  {
    if b == [] {
      assert a + [x] + b == a + [x] && (a + [x])[..|a|] == a;
    } else {
      assert (a + [x] + b)[..|a + [x] + b| - 1] == a + [x] + b[..|b| - 1];
      EmptyLabelsAreDropped(a, x, b[..|b| - 1]);
    }
  }

  /** The issue a block makes: none without a title. */
  function Finish(t: Tables, d: Draft): seq<Issue> {
    if d.title == [] then []
    else
      var labels := [t.roleLabel(d.role)] + if d.explicitLabels != [] then d.explicitLabels else t.severities(d.title);
      [Issue(d.id, d.role, d.title, KeepFirst(labels, Itself), d.desc, d.openQuestions)]
  }

  /** What finalising the issue being collected adds to the issues. */
  function Finished(t: Tables, cur: Option<Draft>): seq<Issue> {
    if cur.Some? then Finish(t, cur.value) else []
  }

  /** The flush at a heading and at the end. The lines held back by a fence are not reset. */
  function Flush(t: Tables, s: State): State {
    s.(issues := s.issues + Finished(t, s.cur), cur := None, field := NoField, inCode := false)
  }

  function NewDraft(role: string, id: string, registered: Option<string>): Draft {
    Draft(id, registered.GetOr(role), "", [], [], [])
  }

  /** A heading flushes, begins an issue, and resets the rest. */
  function Open(t: Tables, role: string, s: State, id: string, registered: Option<string>): State {
    Flush(t, s).(cur := Some(NewDraft(role, id, registered)), field := NoField, inCode := false, code := [])
  }

  /** What any other line does to the issue being collected; without one it does nothing. */
  function Read(s: State, l: Line): State {
    if s.cur.None? then s
    else
      var d := s.cur.value;
      if s.inCode then
        var code := s.code + [Verbatim(l.raw)];
        if l.kind.Fence? then s.(inCode := false, cur := Some(d.(desc := d.desc + code)), code := []) else s.(code := code)
      else match l.kind
        case Fence => s.(inCode := true, code := [Verbatim(l.raw)])
        case Title(text) => s.(cur := Some(d.(title := Unescaped(text))), field := NoField)
        case Label(parts) =>
          if parts.None? then s.(field := NoField)
          else s.(cur := Some(d.(explicitLabels := KeepFirst(NonEmpty(parts.value), Itself))), field := NoField)
        case OpenQuestions(rest) =>
          s.(cur := Some(d.(openQuestions := d.openQuestions + (if rest == [] then [] else [rest]))), field := OpenQuestionsField)
        case Opens(section, rest) =>
          s.(cur := Some(d.(desc := d.desc + [SectionHead(section)] + OneIfAny(if section.GitDiff? then [] else rest))),
             field := if section.LocationPath? || section.Description? then DescField else NoField)
        case Bullet(ofField) => if ofField then s else s.(cur := Some(d.(desc := d.desc + [Verbatim(l.stripped)])))
        case Continuation(none) =>
          if s.field.OpenQuestionsField? then
            (if none then s else s.(cur := Some(d.(openQuestions := d.openQuestions + [l.trimmed]))))
          else if s.field.DescField? then s.(cur := Some(d.(desc := d.desc + [Verbatim(l.trimmed)])))
          else s
        case Blank => s
        case Heading(_, _) => s
  }

  function Step(t: Tables, role: string, s: State, l: Line): State {
    if l.kind.Heading? then Open(t, role, s, l.kind.id, l.kind.registered) else Read(s, l)
  }

  // ----- A document -----

  function Run(t: Tables, role: string, s: State, lines: seq<Line>): State {
    if lines == [] then s else Step(t, role, Run(t, role, s, lines[..|lines| - 1]), lines[|lines| - 1])
  }

  /** The issues after parsing some lines from a state, and flushing. */
  function Parsed(t: Tables, role: string, s: State, lines: seq<Line>): seq<Issue> {
    Flush(t, Run(t, role, s, lines)).issues
  }

  predicate NoHeading(lines: seq<Line>) { forall l | l in lines :: !l.kind.Heading? }

  /** The first heading from a line on, or the end. */
  function NextHeading(lines: seq<Line>, i: nat): (h: nat)
    requires i <= |lines|
    ensures i <= h <= |lines| && (h < |lines| ==> lines[h].kind.Heading?)
    decreases |lines| - i
  {
    if i == |lines| || lines[i].kind.Heading? then i else NextHeading(lines, i + 1)
  }

  /** No line before the next heading is one. */
  lemma {:induction false} NothingIsSkipped(lines: seq<Line>, i: nat, j: nat)
    requires i <= |lines| && i <= j < NextHeading(lines, i)
    ensures !lines[j].kind.Heading?
    decreases |lines| - i
  {
    if i < j {
      NothingIsSkipped(lines, i + 1, j);
    }
  }

  /** The issues of the heading-delimited blocks from a line on, in order, each block parsed by itself. */
  function BlockIssues(parse: seq<Line> -> seq<Issue>, lines: seq<Line>, i: nat): seq<Issue>
    requires i <= |lines|
    decreases |lines| - i
  {
    var h := NextHeading(lines, i);
    if h == |lines| then []
    else
      var e := NextHeading(lines, h + 1);
      parse(lines[h..e]) + BlockIssues(parse, lines, e)
  }

  /** Parsing a text as a document of its own. */
  function Parser(t: Tables, role: string): seq<Line> -> seq<Issue> {
    lines => Parsed(t, role, BEGIN, lines)
  }

  // A report: the role whose directory it is in, the id it falls back to, its lines, and whether it is blank.
  datatype Report = Report(role: string, documentId: string, lines: seq<Line>, isBlank: bool)

  function ReportIssues(t: Tables, r: Report): seq<Issue> {
    var structured := BlockIssues(Parser(t, r.role), r.lines, 0);
    if structured == [] && !r.isBlank then [WholeDocument(r.documentId, r.role, [t.roleLabel(r.role)])] else structured
  }

  /** A report that is not blank always makes an issue: where no block does, the whole document is one, under the report's
      own role and id. */
  lemma EveryReportMakesAnIssue(t: Tables, r: Report)
    ensures ReportIssues(t, r) == [] <==> r.isBlank && Parsed(t, r.role, BEGIN, r.lines) == []
    ensures Parsed(t, r.role, BEGIN, r.lines) != [] ==> ReportIssues(t, r) == Parsed(t, r.role, BEGIN, r.lines)
    ensures Parsed(t, r.role, BEGIN, r.lines) == [] && !r.isBlank ==>
      var issues := ReportIssues(t, r);
      && |issues| == 1 && issues[0].WholeDocument? && issues[0].id == r.documentId && issues[0].role == r.role
      && issues[0].labels == [t.roleLabel(r.role)]
  {
    ParsedIsBlockwise(t, r.role, r.lines);
  }

  function AllIssues(t: Tables, reports: seq<Report>): seq<Issue> {
    if reports == [] then [] else AllIssues(t, reports[..|reports| - 1]) + ReportIssues(t, reports[|reports| - 1])
  }

  method ParseAgentOutput(t: Tables, role: string, documentId: string, lines: seq<Line>, isBlank: bool)
    returns (issues: seq<Issue>)
    ensures issues == ReportIssues(t, Report(role, documentId, lines, isBlank))
  {
    issues := [];
    var cur: Option<Draft> := None;
    var field, inCode := NoField, false;
    var code: seq<Piece> := [];
    for i := 0 to |lines|
      invariant State(issues, cur, field, inCode, code) == Run(t, role, BEGIN, lines[..i])
    {
      var l := lines[i];
      assert lines[..i + 1][..i] == lines[..i];
      if l.kind.Heading? {
        issues, cur, field, inCode := FlushDraft(t, issues, cur);
        cur := Some(NewDraft(role, l.kind.id, l.kind.registered));
        field, inCode, code := NoField, false, [];
        continue;
      }
      if cur.None? {
        continue;
      }
      cur, field, inCode, code := ReadLine(issues, cur.value, field, inCode, code, l);
    }
    assert lines[..|lines|] == lines;
    issues, cur, field, inCode := FlushDraft(t, issues, cur);
    ParsedIsBlockwise(t, role, lines);
    if issues == [] && !isBlank {
      issues := [WholeDocument(documentId, role, [t.roleLabel(role)])];
    }
  }

  method FlushDraft(t: Tables, issues: seq<Issue>, cur: Option<Draft>)
    returns (all: seq<Issue>, cur': Option<Draft>, field: Field, inCode: bool)
    ensures forall f, c, code :: State(all, cur', field, inCode, code) == Flush(t, State(issues, cur, f, c, code))
  {
    all := if cur.Some? then issues + Finish(t, cur.value) else issues;
    cur', field, inCode := None, NoField, false;
  }

  /** A line below a heading, as the parser reads it: inside a fence first, then by what the line is. */
  method ReadLine(ghost issues: seq<Issue>, d: Draft, field: Field, inCode: bool, code: seq<Piece>, l: Line)
    returns (cur': Option<Draft>, field': Field, inCode': bool, code': seq<Piece>)
    requires !l.kind.Heading?
    ensures State(issues, cur', field', inCode', code') == Read(State(issues, Some(d), field, inCode, code), l)
  {
    var cur := d;
    field', inCode', code' := field, inCode, code;
    if inCode {
      code' := code + [Verbatim(l.raw)];
      if l.kind.Fence? {
        inCode' := false;
        cur := cur.(desc := cur.desc + code');
        code' := [];
      }
      return Some(cur), field', inCode', code';
    }
    match l.kind {
      case Fence =>
        inCode', code' := true, [Verbatim(l.raw)];
      case Title(text) =>
        var title := StripMdEscapes(text);
        cur, field' := cur.(title := title), NoField;
      case Label(parts) =>
        if parts.Some? {
          var labels := Deduplicate(NonEmpty(parts.value), Itself);
          cur := cur.(explicitLabels := labels);
        }
        field' := NoField;
      case OpenQuestions(rest) =>
        cur := cur.(openQuestions := cur.openQuestions + if rest == [] then [] else [rest]);
        field' := OpenQuestionsField;
      case Opens(section, rest) =>
        cur := cur.(desc := cur.desc + [SectionHead(section)] + OneIfAny(if section.GitDiff? then [] else rest));
        field' := if section.LocationPath? || section.Description? then DescField else NoField;
      case Bullet(ofField) =>
        if !ofField {
          cur := cur.(desc := cur.desc + [Verbatim(l.stripped)]);
        }
      case Continuation(none) =>
        if field == OpenQuestionsField && !none {
          cur := cur.(openQuestions := cur.openQuestions + [l.trimmed]);
        } else if field == DescField {
          cur := cur.(desc := cur.desc + [Verbatim(l.trimmed)]);
        }
      case _ =>
    }
    cur' := Some(cur);
  }

  method ParseSwarmRun(t: Tables, reports: seq<Report>) returns (issues: seq<Issue>)
    ensures issues == KeepFirst(AllIssues(t, reports), (i: Issue) => (i.role, i.id))
  {
    var out := [];
    for i := 0 to |reports|
      invariant out == AllIssues(t, reports[..i])
    {
      assert reports[..i + 1][..i] == reports[..i];
      var r := reports[i];
      var more := ParseAgentOutput(t, r.role, r.documentId, r.lines, r.isBlank);
      out := out + more;
    }
    assert reports[..|reports|] == reports;
    issues := Deduplicate(out, (i: Issue) => (i.role, i.id));
  }

  // ----- Blocks do not touch each other -----

  lemma Assoc(a: seq<Issue>, b: seq<Issue>, c: seq<Issue>)
    ensures (a + b) + c == a + (b + c)
  {}

  /** Whatever is left over at a heading, it goes on from there as from the beginning, behind the issues so far. */
  lemma HeadingForgets(t: Tables, role: string, s: State, h: Line)
    requires h.kind.Heading?
    ensures var begun := Step(t, role, BEGIN, h);
      && begun.issues == []
      && Step(t, role, s, h) == begun.(issues := s.issues + Finished(t, s.cur))
  {}

  lemma StepCarriesIssues(t: Tables, role: string, s: State, l: Line, front: seq<Issue>)
    ensures Step(t, role, s.(issues := front + s.issues), l) ==
      var r := Step(t, role, s, l); r.(issues := front + r.issues)
  {
    Assoc(front, s.issues, Finished(t, s.cur));
  }

  lemma {:induction false} RunCarriesIssues(t: Tables, role: string, s: State, lines: seq<Line>, front: seq<Issue>)
    ensures Run(t, role, s.(issues := front + s.issues), lines) ==
      var r := Run(t, role, s, lines); r.(issues := front + r.issues)
  {
    if lines != [] {
      var before := lines[..|lines| - 1];
      RunCarriesIssues(t, role, s, before, front);
      StepCarriesIssues(t, role, Run(t, role, s, before), lines[|lines| - 1], front);
    }
  }

  lemma {:induction false} RunConcat(t: Tables, role: string, s: State, a: seq<Line>, b: seq<Line>)
    ensures Run(t, role, s, a + b) == Run(t, role, Run(t, role, s, a), b)
    decreases |b|
  {
    if b == [] {
      assert a + b == a;
    } else {
      assert (a + b)[..|a + b| - 1] == a + b[..|b| - 1];
      RunConcat(t, role, s, a, b[..|b| - 1]);
    }
  }

  /** From every state, with whatever it has open or left over, lines that begin with a heading add to the issues exactly
      what they make on their own. */
  lemma HeadingStartsAfresh(t: Tables, role: string, s: State, lines: seq<Line>)
    requires lines != [] ==> lines[0].kind.Heading?
    ensures Parsed(t, role, s, lines) == s.issues + Finished(t, s.cur) + Parsed(t, role, BEGIN, lines)
  {
    if lines != [] {
      var h, rest := lines[0], lines[1..];
      assert lines == [h] + rest;
      RunConcat(t, role, s, [h], rest);
      RunConcat(t, role, BEGIN, [h], rest);
      OneLine(t, role, s, h);
      OneLine(t, role, BEGIN, h);
      HeadingForgets(t, role, s, h);
      var begun, front := Step(t, role, BEGIN, h), s.issues + Finished(t, s.cur);
      assert front + begun.issues == front;
      RunCarriesIssues(t, role, begun, rest, front);
      var r := Run(t, role, begun, rest);
      Assoc(front, r.issues, Finished(t, r.cur));
    }
  }

  lemma OneLine(t: Tables, role: string, s: State, l: Line)
    ensures Run(t, role, s, [l]) == Step(t, role, s, l)
  {
    assert [l][..0] == [];
  }

  /** Parsing a document cut at a heading is parsing its two parts, from every state and whatever the first leaves open. */
  lemma BlocksAreIndependent(t: Tables, role: string, s: State, a: seq<Line>, b: seq<Line>)
    requires b != [] ==> b[0].kind.Heading?
    ensures Parsed(t, role, s, a + b) == Parsed(t, role, s, a) + Parsed(t, role, BEGIN, b)
  {
    RunConcat(t, role, s, a, b);
    HeadingStartsAfresh(t, role, Run(t, role, s, a), b);
  }

  lemma {:induction false} RunSkipsThePreamble(t: Tables, role: string, s: State, lines: seq<Line>)
    requires s.cur.None? && NoHeading(lines)
    ensures Run(t, role, s, lines) == s
  {
    if lines != [] {
      assert lines[|lines| - 1] in lines;
      RunSkipsThePreamble(t, role, s, lines[..|lines| - 1]);
    }
  }

  lemma NoHeadingBefore(lines: seq<Line>, i: nat)
    requires i <= |lines|
    ensures NoHeading(lines[i..NextHeading(lines, i)])
  {
    forall l | l in lines[i..NextHeading(lines, i)]
      ensures !l.kind.Heading?
    {
      var j :| i <= j < NextHeading(lines, i) && lines[j] == l;
      NothingIsSkipped(lines, i, j);
    }
  }

  ghost predicate Splits(parse: seq<Line> -> seq<Issue>, a: seq<Line>, b: seq<Line>) {
    (b != [] ==> b[0].kind.Heading?) ==> parse(a + b) == parse(a) + parse(b)
  }

  ghost predicate SkipsPreamble(parse: seq<Line> -> seq<Issue>, a: seq<Line>) {
    NoHeading(a) ==> parse(a) == []
  }

  ghost predicate IsAdditive(parse: seq<Line> -> seq<Issue>) {
    (forall a, b :: Splits(parse, a, b)) && forall a :: SkipsPreamble(parse, a)
  }

  lemma ParserIsAdditive(t: Tables, role: string)
    ensures IsAdditive(Parser(t, role))
  {
    forall a: seq<Line>, b: seq<Line>
      ensures Splits(Parser(t, role), a, b)
    {
      if b != [] ==> b[0].kind.Heading? {
        BlocksAreIndependent(t, role, BEGIN, a, b);
      }
    }
    forall a
      ensures SkipsPreamble(Parser(t, role), a)
    {
      if NoHeading(a) {
        RunSkipsThePreamble(t, role, BEGIN, a);
      }
    }
  }

  lemma SplitsAtHeading(parse: seq<Line> -> seq<Issue>, lines: seq<Line>, i: nat, j: nat)
    requires IsAdditive(parse) && i <= j <= |lines| && (j < |lines| ==> lines[j].kind.Heading?)
    ensures parse(lines[i..]) == parse(lines[i..j]) + parse(lines[j..])
  {
    Cut(lines, i, j);
    assert Splits(parse, lines[i..j], lines[j..]);
  }

  lemma PreambleIsSkipped(parse: seq<Line> -> seq<Issue>, lines: seq<Line>, i: nat)
    requires IsAdditive(parse) && i <= |lines|
    ensures parse(lines[i..]) == parse(lines[NextHeading(lines, i)..])
  {
    var h := NextHeading(lines, i);
    NoHeadingBefore(lines, i);
    SplitsAtHeading(parse, lines, i, h);
    assert SkipsPreamble(parse, lines[i..h]);
  }

  lemma {:induction false} AdditiveIsBlockwise(parse: seq<Line> -> seq<Issue>, lines: seq<Line>, i: nat)
    requires IsAdditive(parse) && i <= |lines|
    ensures parse(lines[i..]) == BlockIssues(parse, lines, i)
    decreases |lines| - i
  {
    var h := NextHeading(lines, i);
    PreambleIsSkipped(parse, lines, i);
    if h < |lines| {
      var e := NextHeading(lines, h + 1);
      SplitsAtHeading(parse, lines, h, e);
      AdditiveIsBlockwise(parse, lines, e);
    } else {
      assert SkipsPreamble(parse, lines[h..]);
    }
  }

  /** A document is parsed block by block. */
  lemma ParsedIsBlockwise(t: Tables, role: string, lines: seq<Line>)
    ensures Parsed(t, role, BEGIN, lines) == BlockIssues(Parser(t, role), lines, 0)
  {
    ParserIsAdditive(t, role);
    AdditiveIsBlockwise(Parser(t, role), lines, 0);
    assert lines[0..] == lines;
  }

  lemma Cut(lines: seq<Line>, i: nat, j: nat)
    requires i <= j <= |lines|
    ensures lines[i..] == lines[i..j] + lines[j..]
    ensures if j < |lines| then lines[j..] != [] && lines[j..][0] == lines[j] else lines[j..] == []
  {}

  // ----- What is left over -----

  predicate IsConsistent(s: State) { if s.inCode then s.cur.Some? && s.code != [] else s.code == [] }

  lemma {:induction false} RunIsConsistent(t: Tables, role: string, s: State, lines: seq<Line>)
    requires IsConsistent(s)
    ensures IsConsistent(Run(t, role, s, lines))
  {
    if lines != [] {
      RunIsConsistent(t, role, s, lines[..|lines| - 1]);
    }
  }

  /** After a flush at most the lines held back by a fence are left over, and they are exactly when the block left it open. */
  lemma OnlyHeldBackLinesAreLeftOver(t: Tables, role: string, lines: seq<Line>)
    ensures var s := Run(t, role, BEGIN, lines); var after := Flush(t, s);
      && after == BEGIN.(issues := after.issues, code := s.code)
      && (after.code != [] <==> s.inCode)
  {
    RunIsConsistent(t, role, BEGIN, lines);
  }

  predicate SameButHeldBack(s: State, r: State) {
    if s.inCode then r == s else r == s.(code := r.code)
  }

  /** Held-back lines do no harm even where nothing resets them: outside a fence they are never read. */
  lemma {:induction false} HeldBackLinesAreNeverRead(t: Tables, role: string, s: State, r: State, lines: seq<Line>)
    requires SameButHeldBack(s, r)
    ensures SameButHeldBack(Run(t, role, s, lines), Run(t, role, r, lines))
    ensures Parsed(t, role, s, lines) == Parsed(t, role, r, lines)
  {
    if lines != [] {
      HeldBackLinesAreNeverRead(t, role, s, r, lines[..|lines| - 1]);
    }
  }

  // ----- What a block makes of its lines -----

  /** Whether a block's lines leave a fence open: an odd number of fence lines. */
  predicate FenceOpen(lines: seq<Line>) {
    lines != [] && FenceOpen(lines[..|lines| - 1]) != lines[|lines| - 1].kind.Fence?
  }

  /** The last title given outside the fences. */
  function LastTitle(lines: seq<Line>): string {
    if lines == [] then []
    else
      var front, last := lines[..|lines| - 1], lines[|lines| - 1];
      if last.kind.Title? && !FenceOpen(front) then Unescaped(last.kind.text) else LastTitle(front)
  }

  /** The last label list given outside the fences that has something in it. */
  function LastLabels(lines: seq<Line>): seq<string> {
    if lines == [] then []
    else
      var front, last := lines[..|lines| - 1], lines[|lines| - 1];
      if last.kind.Label? && last.kind.parts.Some? && !FenceOpen(front) then KeepFirst(NonEmpty(last.kind.parts.value), Itself)
      else LastLabels(front)
  }

  /** The field that prose below these lines goes to, as the last field line outside the fences has it. */
  function OpenField(lines: seq<Line>): Field {
    if lines == [] then NoField
    else
      var front, last := lines[..|lines| - 1], lines[|lines| - 1];
      if FenceOpen(front) then OpenField(front)
      else match last.kind
        case Title(_) => NoField
        case Label(_) => NoField
        case OpenQuestions(_) => OpenQuestionsField
        case Opens(LocationPath, _) => DescField
        case Opens(Description, _) => DescField
        case Opens(_, _) => NoField
        case _ => OpenField(front)
  }

  /** The lines from the last opening fence on. */
  function SinceFence(lines: seq<Line>): seq<Piece> {
    if !FenceOpen(lines) then []
    else
      var front, last := lines[..|lines| - 1], lines[|lines| - 1];
      SinceFence(front) + [Verbatim(last.raw)]
  }

  /** What the last of some lines adds to the description. */
  function LastDescribes(lines: seq<Line>): seq<Piece>
    requires lines != []
  {
    var front, last := lines[..|lines| - 1], lines[|lines| - 1];
    if FenceOpen(front) then
      if last.kind.Fence? then SinceFence(front) + [Verbatim(last.raw)] else []
    else match last.kind
      case Opens(GitDiff, _) => [SectionHead(GitDiff)]
      case Opens(section, rest) => if rest == [] then [SectionHead(section)] else [SectionHead(section), Verbatim(rest)]
      case Bullet(false) => [Verbatim(last.stripped)]
      case Continuation(_) => if OpenField(front) == DescField then [Verbatim(last.trimmed)] else []
      case _ => []
  }

  /** The description, line by line: section heads with their rest, bullets that name no field, the prose of a location or
      a description, and every closed fence as it stands. */
  function DescriptionOf(lines: seq<Line>): seq<Piece> {
    if lines == [] then [] else DescriptionOf(lines[..|lines| - 1]) + LastDescribes(lines)
  }

  /** The open questions: what stands on their line and in the prose below it, but for a "none". */
  function QuestionsOf(lines: seq<Line>): seq<string> {
    if lines == [] then []
    else
      var front, last := lines[..|lines| - 1], lines[|lines| - 1];
      QuestionsOf(front) +
        if FenceOpen(front) then []
        else match last.kind
          case OpenQuestions(rest) => if rest == [] then [] else [rest]
          case Continuation(false) => if OpenField(front) == OpenQuestionsField then [last.trimmed] else []
          case _ => []
  }

  /** What reading a block's lines below its heading has come to. */
  predicate HasRead(role: string, h: Line, lines: seq<Line>, s: State)
    requires h.kind.Heading?
  {
    && s.issues == [] && s.inCode == FenceOpen(lines) && s.cur.Some?
    && s.cur.value.id == h.kind.id && s.cur.value.role == h.kind.registered.GetOr(role)
    && s.cur.value.title == LastTitle(lines) && s.cur.value.explicitLabels == LastLabels(lines)
    && s.cur.value.desc == DescriptionOf(lines) && s.cur.value.openQuestions == QuestionsOf(lines)
    && s.field == OpenField(lines) && s.code == SinceFence(lines)
  }

  lemma ReadsOneMore(role: string, h: Line, front: seq<Line>, s: State, l: Line)
    requires h.kind.Heading? && HasRead(role, h, front, s)
    ensures HasRead(role, h, front + [l], Read(s, l))
  {
    if s.inCode {
      ReadsOneMoreInFence(role, h, front, s, l);
    } else if l.kind.Continuation? || l.kind.Bullet? || l.kind.Opens? {
      ReadsOneMoreForTheDescription(role, h, front, s, l);
    } else {
      ReadsOneMoreAside(role, h, front, s, l);
    }
  }

  lemma ReadsOneMoreInFence(role: string, h: Line, front: seq<Line>, s: State, l: Line)
    requires h.kind.Heading? && HasRead(role, h, front, s) && s.inCode
    ensures HasRead(role, h, front + [l], Read(s, l))
  {
    assert (front + [l])[..|front|] == front;
  }

  lemma ReadsOneMoreForTheDescription(role: string, h: Line, front: seq<Line>, s: State, l: Line)
    requires h.kind.Heading? && HasRead(role, h, front, s) && !s.inCode
    requires l.kind.Continuation? || l.kind.Bullet? || l.kind.Opens?
    ensures HasRead(role, h, front + [l], Read(s, l))
  {
    assert (front + [l])[..|front|] == front;
  }

  lemma ReadsOneMoreAside(role: string, h: Line, front: seq<Line>, s: State, l: Line)
    requires h.kind.Heading? && HasRead(role, h, front, s) && !s.inCode
    requires !(l.kind.Continuation? || l.kind.Bullet? || l.kind.Opens?)
    ensures HasRead(role, h, front + [l], Read(s, l))
  {
    assert (front + [l])[..|front|] == front;
  }

  lemma {:induction false} BlockReads(t: Tables, role: string, h: Line, lines: seq<Line>)
    requires h.kind.Heading? && NoHeading(lines)
    ensures HasRead(role, h, lines, Run(t, role, Step(t, role, BEGIN, h), lines))
  {
    if lines != [] {
      var front, last := lines[..|lines| - 1], lines[|lines| - 1];
      BlockReads(t, role, h, front);
      assert last in lines && lines == front + [last];
      ReadsOneMore(role, h, front, Run(t, role, Step(t, role, BEGIN, h), front), last);
    }
  }

  /** A block makes an issue exactly when its last title outside the fences is not empty. The issue carries the block's
      description and open questions; its labels start with the role's and are all different, and the rest are those of
      the last label list, or else the severities in the title. */
  lemma BlockMakesAnIssueExactlyWhenTitled(t: Tables, role: string, h: Line, lines: seq<Line>)
    requires h.kind.Heading? && NoHeading(lines)
    ensures var r := Parsed(t, role, BEGIN, [h] + lines);
      && |r| == (if LastTitle(lines) == [] then 0 else 1)
      && (r != [] ==>
        var labels := if LastLabels(lines) != [] then LastLabels(lines) else t.severities(LastTitle(lines));
        && r[0].Issue? && r[0].desc == DescriptionOf(lines) && r[0].openQuestions == QuestionsOf(lines)
        && r[0].id == h.kind.id && r[0].title == LastTitle(lines) && r[0].role == h.kind.registered.GetOr(role)
        && r[0].labels == KeepFirst([t.roleLabel(r[0].role)] + labels, Itself))
  {
    RunConcat(t, role, BEGIN, [h], lines);
    OneLine(t, role, BEGIN, h);
    BlockReads(t, role, h, lines);
  }

  lemma {:induction false} KeepFirstKeepsTheFirst<T, K>(s: seq<T>, key: T -> K)
    requires s != []
    ensures KeepFirst(s, key) != [] && KeepFirst(s, key)[0] == s[0]
  {
    if |s| == 1 {
      assert KeepFirst(s[..0], key) == [];
    } else {
      KeepFirstKeepsTheFirst(s[..|s| - 1], key);
    }
  }

  predicate NoFence(lines: seq<Line>) { forall l | l in lines :: !l.kind.Fence? }

  function Raw(lines: seq<Line>): seq<Piece> { seq(|lines|, i requires 0 <= i < |lines| => Verbatim(lines[i].raw)) }

  lemma {:induction false} InsideAFence(t: Tables, role: string, s: State, lines: seq<Line>)
    requires s.cur.Some? && s.inCode && NoFence(lines) && NoHeading(lines)
    ensures Run(t, role, s, lines) == s.(code := s.code + Raw(lines))
  {
    if lines == [] {
      assert s.code + Raw(lines) == s.code;
    } else {
      var n := |lines| - 1;
      InsideAFence(t, role, s, lines[..n]);
      assert Raw(lines) == Raw(lines[..n]) + [Verbatim(lines[n].raw)];
      assert lines[n] in lines;
    }
  }

  lemma OpenFence(t: Tables, role: string, s: State, fence: Line, body: seq<Line>)
    requires s.cur.Some? && !s.inCode && fence.kind.Fence? && NoFence(body) && NoHeading(body)
    ensures Run(t, role, s, [fence] + body) == s.(inCode := true, code := Raw([fence] + body))
  {
    RunConcat(t, role, s, [fence], body);
    OneLine(t, role, s, fence);
    InsideAFence(t, role, Step(t, role, s, fence), body);
    assert Raw([fence] + body) == [Verbatim(fence.raw)] + Raw(body);
  }

  /** A fence that is never closed adds nothing to the issue, however much it holds. */
  lemma UnclosedFenceIsLost(t: Tables, role: string, s: State, fence: Line, body: seq<Line>)
    requires s.cur.Some? && !s.inCode && fence.kind.Fence? && NoFence(body) && NoHeading(body)
    ensures Parsed(t, role, s, [fence] + body) == Parsed(t, role, s, [])
  {
    OpenFence(t, role, s, fence, body);
  }

  /** A closed fence is kept as it stands, and read for nothing else: titles, labels and fields in it do not count. */
  lemma ClosedFenceIsVerbatim(t: Tables, role: string, s: State, fence: Line, body: seq<Line>, end: Line)
    requires s.cur.Some? && !s.inCode && fence.kind.Fence? && end.kind.Fence? && NoFence(body) && NoHeading(body)
    ensures var d := s.cur.value;
      Run(t, role, s, [fence] + body + [end])
        == s.(cur := Some(d.(desc := d.desc + Raw([fence] + body + [end]))), code := [])
  {
    var open := [fence] + body;
    OpenFence(t, role, s, fence, body);
    RunConcat(t, role, s, open, [end]);
    OneLine(t, role, Run(t, role, s, open), end);
    OneMoreRaw(open, end);
  }

  lemma OneMoreRaw(lines: seq<Line>, l: Line)
    ensures Raw(lines + [l]) == Raw(lines) + [Verbatim(l.raw)]
  {}

  predicate IsProse(lines: seq<Line>) { forall l | l in lines :: l.kind.Continuation? || l.kind.Blank? }

  function Prose(lines: seq<Line>): seq<Piece> {
    if lines == [] then []
    else
      var last := lines[|lines| - 1];
      Prose(lines[..|lines| - 1]) + if last.kind.Continuation? then [Verbatim(last.trimmed)] else []
  }

  lemma {:induction false} ProseGoesToTheOpenField(t: Tables, role: string, s: State, lines: seq<Line>)
    requires s.cur.Some? && !s.inCode && IsProse(lines) && !s.field.OpenQuestionsField?
    ensures var d := s.cur.value;
      Run(t, role, s, lines) == if s.field.DescField? then s.(cur := Some(d.(desc := d.desc + Prose(lines)))) else s
  {
    if lines == [] {
      assert s.cur.value.desc + [] == s.cur.value.desc;
    } else {
      var front, last := lines[..|lines| - 1], lines[|lines| - 1];
      ProseGoesToTheOpenField(t, role, s, front);
      assert last in lines;
      var more := if last.kind.Continuation? then [Verbatim(last.trimmed)] else [];
      assert s.cur.value.desc + Prose(front) + more == s.cur.value.desc + Prose(lines);
      assert more == [] ==> s.cur.value.desc + Prose(front) == s.cur.value.desc + Prose(lines);
    }
  }

  /** Of the text below a section's head, a location or a description keeps every line that is not blank; acceptance
      criteria, a recommendation and a diff keep nothing outside fences and bullets. */
  lemma SectionsKeepTheirProseOrNone(t: Tables, role: string, s: State, head: Line, lines: seq<Line>)
    requires s.cur.Some? && !s.inCode && head.kind.Opens? && IsProse(lines)
    ensures var r, after := Run(t, role, s, [head] + lines), Step(t, role, s, head);
      && r.cur.Some? && after.cur.Some?
      && r.cur.value.desc == after.cur.value.desc +
        if head.kind.section.LocationPath? || head.kind.section.Description? then Prose(lines) else []
  {
    RunConcat(t, role, s, [head], lines);
    OneLine(t, role, s, head);
    ProseGoesToTheOpenField(t, role, Step(t, role, s, head), lines);
  }
}
