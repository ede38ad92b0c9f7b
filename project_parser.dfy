/** projectParser.ts: a project file is a frontmatter block (project, priority,
    deadline) followed by task lines of the form
      - [ ] #<id> <name> | <duration> [| short|long|any] [| after:#<id>,#<id>]
    The task-line regular expression is modelled as a recognizer over the pieces
    of the line between '|' characters. */
module ProjectParser {
  import opened Text
  import opened Types
  import opened Markdown
  import opened Seqs

  // ------------------------------------------------------------ dependencies

  /** `s.replace(c, '')` with a one-character pattern: only the first
      occurrence goes. */
  function RemoveFirst(s: string, c: char): (r: string)
    ensures c !in s ==> r == s
    ensures c in s ==> |r| == |s| - 1
  {
    var i := IndexOfChar(s, c);
    if i == -1 then s else s[..i] + s[i + 1..]
  }

  /** parseDependencies: no capture (or an empty one) is no dependency;
      otherwise every comma-separated piece loses its first '#' and is trimmed. */
  function ParseDependencies(deps: Option<string>): (r: seq<string>)
    ensures r == [] <==> deps.None? || deps.value == []
    ensures forall i :: 0 <= i < |r| ==> Trimmed(r[i])
  {
    if deps.None? || deps.value == [] then []
    else
      var pieces := Split(deps.value, ',');
      seq(|pieces|, i requires 0 <= i < |pieces| => Trim(RemoveFirst(pieces[i], '#')))
  }

  /** Every id with a '#' in front, as an after-field lists them. */
  function Hashed(ids: seq<string>): (r: seq<string>)
    ensures |r| == |ids| && forall i :: 0 <= i < |ids| ==> r[i] == "#" + ids[i]
  {
    seq(|ids|, i requires 0 <= i < |ids| => "#" + ids[i])
  }

  /** The text after "after:" that names `ids`: "#1,#2". */
  function RenderDeps(ids: seq<string>): string {
    Join(Hashed(ids), ',')
  }

  /** Writing dependency ids out as "#a,#b" and parsing them gives them back,
      for ids that hold no comma and no surrounding whitespace. */
  lemma DependenciesRoundTrip(ids: seq<string>)
    requires forall i :: 0 <= i < |ids| ==> ',' !in ids[i] && Trimmed(ids[i])
    ensures ParseDependencies(Some(RenderDeps(ids))) == ids
  {
    if ids != [] {
      var hs := Hashed(ids);
      forall i | 0 <= i < |hs|
        ensures ',' !in hs[i]
      {
        assert hs[i] == "#" + ids[i];
      }
      SplitJoin(hs, ',');
      assert RenderDeps(ids) != [] by {
        assert |Join(hs, ',')| >= |hs[0]| by {
          JoinLength(hs, ',');
        }
      }
      var r := ParseDependencies(Some(RenderDeps(ids)));
      assert |r| == |ids|;
      forall i | 0 <= i < |ids|
        ensures r[i] == ids[i]
      {
        UnhashTrimmed(ids[i]);
      }
    }
  }

  lemma UnhashTrimmed(id: string)
    requires Trimmed(id)
    ensures Trim(RemoveFirst("#" + id, '#')) == id
  {
    assert IndexOfChar("#" + id, '#') == 0;
    assert RemoveFirst("#" + id, '#') == id;
    TrimOfTrimmed(id);
  }

  lemma {:induction false} JoinLength(ps: seq<string>, sep: char)
    requires ps != []
    ensures |Join(ps, sep)| >= |ps[0]| && Join(ps, sep)[..|ps[0]|] == ps[0]
  {
  }

  /** A join of dependency-character pieces with ',' holds only dependency
      characters. */
  lemma {:induction false} JoinDepChars(ps: seq<string>)
    requires forall i :: 0 <= i < |ps| ==> forall k :: 0 <= k < |ps[i]| ==> IsDepChar(ps[i][k])
    ensures forall k :: 0 <= k < |Join(ps, ',')| ==> IsDepChar(Join(ps, ',')[k])
  {
    if |ps| > 1 {
      JoinDepChars(ps[1..]);
      var rest := Join(ps[1..], ',');
      assert Join(ps, ',') == ps[0] + [','] + rest;
      forall k | 0 <= k < |Join(ps, ',')|
        ensures IsDepChar(Join(ps, ',')[k])
      {
        if k < |ps[0]| {
          assert Join(ps, ',')[k] == ps[0][k];
        } else if k > |ps[0]| {
          assert Join(ps, ',')[k] == rest[k - |ps[0]| - 1];
        }
      }
    }
  }

  /** Numeric ids render to an after-field capture. */
  lemma RenderDepsCapture(ids: seq<string>)
    requires ids != []
    requires forall i :: 0 <= i < |ids| ==> ids[i] != [] && AllDigits(ids[i])
    ensures IsDepsCapture(RenderDeps(ids))
  {
    var hs := Hashed(ids);
    forall i | 0 <= i < |hs|
      ensures forall k :: 0 <= k < |hs[i]| ==> IsDepChar(hs[i][k])
    {
      assert hs[i] == "#" + ids[i];
    }
    JoinDepChars(hs);
    JoinLength(hs, ',');
    assert RenderDeps(ids)[0] == hs[0][0];
  }

  // -------------------------------------------------------------- task lines

  const TaskPrefix: string := "- [ ] #"
  const AfterKey: string := "after:"

  /** The length of the run of digits `s` starts with. */
  function DigitRun(s: string): (n: nat)
    ensures n <= |s| && AllDigits(s[..n])
    ensures n < |s| ==> !IsDigit(s[n])
  {
    if s != [] && IsDigit(s[0]) then
      var m := DigitRun(s[1..]);
      assert s[..m + 1] == [s[0]] + s[1..][..m];
      m + 1
    else 0
  }

  lemma {:induction false} DigitRunOf(d: string, rest: string)
    requires AllDigits(d)
    requires rest == [] || !IsDigit(rest[0])
    ensures DigitRun(d + rest) == |d|
  {
    if d != [] {
      assert (d + rest)[1..] == d[1..] + rest;
      DigitRunOf(d[1..], rest);
    } else {
      assert d + rest == rest;
    }
  }

  /** The block-type alternatives `short|long|any`. */
  function BlockTypeOf(s: string): (r: Option<BlockType>)
    ensures r.Some? ==> s == BlockName(r.value)
  {
    if s == "short" then Some(Short)
    else if s == "long" then Some(Long)
    else if s == "any" then Some(Any)
    else None
  }

  function BlockName(b: BlockType): (s: string)
  {
    match b
    case Short => "short"
    case Long => "long"
    case Any => "any"
  }

  /** The characters `[\d,#]`. */
  predicate IsDepChar(c: char) {
    IsDigit(c) || c == ',' || c == '#'
  }

  /** The capture `#[\d,#]+`. */
  predicate IsDepsCapture(s: string) {
    |s| >= 2 && s[0] == '#' && forall i :: 0 <= i < |s| ==> IsDepChar(s[i])
  }

  /** The piece `\s*after:(#[\d,#]+)` that ends a task line: its capture. */
  function AfterField(p: string): (r: Option<string>)
    ensures r.Some? ==> IsDepsCapture(r.value) && TrimStart(p) == AfterKey + r.value
  {
    var q := TrimStart(p);
    if StartsWith(q, AfterKey) && IsDepsCapture(q[|AfterKey|..]) then
      assert q == q[..|AfterKey|] + q[|AfterKey|..];
      Some(q[|AfterKey|..])
    else None
  }

  /** What the pieces after the name carry: the duration text, the block type
      and the dependency capture, each possibly absent. */
  datatype TaskFields = TaskFields(duration: string, blockType: Option<BlockType>, deps: Option<string>)

  /** The part of the pattern after the name,
      `\s*(\d+\.?\d*[hm])\s*(?:\|\s*(short|long|any))?\s*(?:\|\s*after:(#[\d,#]+))?$`,
      read from the pieces between the '|' characters. */
  function Fields(ps: seq<string>): (r: Option<TaskFields>)
    ensures r.Some? ==> 1 <= |ps| <= 3 && IsDurationToken(r.value.duration)
    ensures r.Some? ==> r.value.deps.Some? ==> IsDepsCapture(r.value.deps.value)
  {
    if |ps| == 0 || |ps| > 3 || !IsDurationToken(Trim(ps[0])) then None
    else
      var d := Trim(ps[0]);
      if |ps| == 1 then Some(TaskFields(d, None, None))
      else if |ps| == 2 then
        if BlockTypeOf(Trim(ps[1])).Some? then Some(TaskFields(d, BlockTypeOf(Trim(ps[1])), None))
        else if AfterField(ps[1]).Some? then Some(TaskFields(d, None, AfterField(ps[1])))
        else None
      else if BlockTypeOf(Trim(ps[1])).Some? && AfterField(ps[2]).Some? then
        Some(TaskFields(d, BlockTypeOf(Trim(ps[1])), AfterField(ps[2])))
      else None
  }

  /** The text between the id and the '|' that ends the name fits
      `\s+(.+?)\s*`: it starts with whitespace (checked by the caller), and the
      name — `.` matches no line break — is its trimmed text, or, when that is
      empty, one whitespace character after the first. */
  predicate NameRegionOk(head: string) {
    var name := Trim(head);
    if name != [] then forall i :: 0 <= i < |name| ==> !IsLineBreak(name[i])
    else exists k :: 1 <= k < |head| && !IsLineBreak(head[k])
  }

  /** The name can end at the '|' that closes piece `j`: the pieces after it
      fit the rest of the pattern and the text before it fits the name. */
  predicate NameEndsAt(parts: seq<string>, j: nat) {
    j + 1 < |parts| && Fields(parts[j + 1..]).Some? && NameRegionOk(Join(parts[..j + 1], '|'))
  }

  /** Where the name could end, piece by piece. */
  function NameEnds(parts: seq<string>): (r: seq<bool>)
    ensures |r| == |parts| && forall j :: 0 <= j < |parts| ==> r[j] == NameEndsAt(parts, j)
  {
    seq(|parts|, j requires 0 <= j < |parts| => NameEndsAt(parts, j))
  }

  function BlockOr(b: Option<BlockType>): BlockType {
    if b.Some? then b.value else Any
  }

  /** The task a trimmed line describes, or None when the line does not match
      `^- \[ \] #(\d+)\s+(.+?)\s*\|...$`. */
  function MatchTaskLine(t: string): (r: Option<Task>)
    ensures r.Some? ==> r.value.id != [] && AllDigits(r.value.id)
                        && StartsWith(t, TaskPrefix) && StartsWith(t[|TaskPrefix|..], r.value.id)
                        && Trimmed(r.value.name)
                        && forall i :: 0 <= i < |r.value.dependencies| ==> Trimmed(r.value.dependencies[i])
    ensures !StartsWith(t, TaskPrefix) ==> r.None?
  {
    if !StartsWith(t, TaskPrefix) then None
    else
      var rest := t[|TaskPrefix|..];
      var n := DigitRun(rest);
      if n == 0 || n >= |rest| || !IsSpace(rest[n]) then None
      else
        var parts := Split(rest[n..], '|');
        match FirstTrue(NameEnds(parts), 0)
        case None => None
        case Some(i) => Some(TaskAt(rest[..n], parts, i))
  }

  /** The task read when the name ends at the '|' closing piece `i`: the
      name trimmed, the duration, the block type (`any` when absent) and the
      dependencies. */
  function TaskAt(id: string, parts: seq<string>, i: nat): (r: Task)
    requires NameEndsAt(parts, i)
    ensures r.id == id && Trimmed(r.name)
    ensures forall k :: 0 <= k < |r.dependencies| ==> Trimmed(r.dependencies[k])
  {
    var f := Fields(parts[i + 1..]).value;
    Task(id, Trim(Join(parts[..i + 1], '|')), ParseDuration(f.duration), BlockOr(f.blockType),
         ParseDependencies(f.deps))
  }

  // ---------------------------------------------------------------- rendering

  /** A task a task line can carry unchanged: a numeric id, a name with no
      '|', no line break and no whitespace at its ends, and numeric
      dependency ids. */
  predicate WellFormedTask(t: Task) {
    t.id != [] && AllDigits(t.id)
    && t.name != [] && Trimmed(t.name) && '|' !in t.name
    && (forall i :: 0 <= i < |t.name| ==> !IsLineBreak(t.name[i]))
    && forall i :: 0 <= i < |t.dependencies| ==> t.dependencies[i] != [] && AllDigits(t.dependencies[i])
  }

  /** The task line for `t`, with the duration in minutes and the block type
      written out; the after-field only when there are dependencies. */
  function RenderTask(t: Task): string {
    TaskPrefix + t.id + " " + t.name + " | " + NatToString(t.duration) + "m | " + BlockName(t.blockType)
    + (if t.dependencies == [] then "" else " | " + AfterKey + RenderDeps(t.dependencies))
  }

  lemma NoBarInDepChars(s: string)
    requires forall i :: 0 <= i < |s| ==> IsDepChar(s[i])
    ensures '|' !in s
  {
    forall i | 0 <= i < |s|
      ensures s[i] != '|'
    {
      assert IsDepChar(s[i]);
    }
  }

  /** The pieces of the text after the id of a rendered task line. */
  function RenderedPieces(t: Task): seq<string> {
    var h := " " + t.name + " ";
    var d := " " + (NatToString(t.duration) + "m") + " ";
    if t.dependencies == [] then [h, d, " " + BlockName(t.blockType)]
    else [h, d, " " + BlockName(t.blockType) + " ", " " + AfterKey + RenderDeps(t.dependencies)]
  }

  lemma RenderedLayout(t: Task)
    ensures RenderTask(t) == TaskPrefix + t.id + Join(RenderedPieces(t), '|')
  {
    var h := " " + t.name + " ";
    var d := " " + (NatToString(t.duration) + "m") + " ";
    var bn := BlockName(t.blockType);
    var n := NatToString(t.duration);
    if t.dependencies == [] {
      Join3(h, d, " " + bn, '|');
      TaskText3(TaskPrefix, t.id, t.name, n, bn);
    } else {
      var deps := RenderDeps(t.dependencies);
      Join4(h, d, " " + bn + " ", " " + AfterKey + deps, '|');
      TaskText4(TaskPrefix, t.id, t.name, n, bn, AfterKey, deps);
    }
  }

  lemma TaskText3(p: string, id: string, name: string, n: string, bn: string)
    ensures p + id + " " + name + " | " + n + "m | " + bn + ""
            == p + id + ((" " + name + " ") + "|" + (" " + (n + "m") + " ") + "|" + (" " + bn))
  {
  }

  lemma TaskText4(p: string, id: string, name: string, n: string, bn: string, key: string, deps: string)
    ensures p + id + " " + name + " | " + n + "m | " + bn + (" | " + key + deps)
            == p + id + ((" " + name + " ") + "|" + (" " + (n + "m") + " ") + "|" + (" " + bn + " ")
                         + "|" + (" " + key + deps))
  {
  }

  lemma RenderedSplit(t: Task)
    requires WellFormedTask(t)
    ensures Split(Join(RenderedPieces(t), '|'), '|') == RenderedPieces(t)
  {
    var ps := RenderedPieces(t);
    MinutesText(t.duration);
    forall i | 0 <= i < |ps|
      ensures '|' !in ps[i]
    {
      if i == 3 {
        RenderDepsCapture(t.dependencies);
        NoBarInDepChars(RenderDeps(t.dependencies));
      }
    }
    SplitJoin(ps, '|');
  }

  /** The pieces after the name read back as the task's duration, block type and
      dependency capture. */
  lemma RenderedFields(t: Task)
    requires WellFormedTask(t)
    ensures Fields(RenderedPieces(t)[1..]) ==
              Some(TaskFields(NatToString(t.duration) + "m", Some(t.blockType),
                              if t.dependencies == [] then None else Some(RenderDeps(t.dependencies))))
  {
    var m := NatToString(t.duration) + "m";
    MinutesText(t.duration);
    TrimPadded(" ", m, " ");
    if t.dependencies == [] {
      FieldsWithoutDeps(m, t.blockType);
    } else {
      RenderDepsCapture(t.dependencies);
      FieldsWithDeps(m, t.blockType, RenderDeps(t.dependencies));
    }
  }

  lemma FieldsWithoutDeps(m: string, b: BlockType)
    requires IsDurationToken(m) && Trim(" " + m + " ") == m
    ensures Fields([" " + m + " ", " " + BlockName(b)]) == Some(TaskFields(m, Some(b), None))
  {
    var bn := BlockName(b);
    BlockNameRead(b);
    TrimPadded(" ", bn, "");
    assert " " + bn + "" == " " + bn;
    FieldsOfTwo([" " + m + " ", " " + bn], m, b);
  }

  lemma BlockNameRead(b: BlockType)
    ensures Trimmed(BlockName(b)) && BlockTypeOf(BlockName(b)) == Some(b)
  {
  }

  lemma FieldsOfTwo(ps: seq<string>, d: string, b: BlockType)
    requires |ps| == 2 && Trim(ps[0]) == d && IsDurationToken(d) && BlockTypeOf(Trim(ps[1])) == Some(b)
    ensures Fields(ps) == Some(TaskFields(d, Some(b), None))
  {
  }

  lemma FieldsWithDeps(m: string, b: BlockType, r: string)
    requires IsDurationToken(m) && Trim(" " + m + " ") == m && IsDepsCapture(r)
    ensures Fields([" " + m + " ", " " + BlockName(b) + " ", " " + AfterKey + r]) == Some(TaskFields(m, Some(b), Some(r)))
  {
    var ps := [" " + m + " ", " " + BlockName(b) + " ", " " + AfterKey + r];
    BlockPiece(b);
    AfterFieldOf(r);
    FieldsOfThree(ps, m, b, r);
  }

  lemma BlockPiece(b: BlockType)
    ensures BlockTypeOf(Trim(" " + BlockName(b) + " ")) == Some(b)
  {
    TrimPadded(" ", BlockName(b), " ");
  }

  lemma FieldsOfThree(ps: seq<string>, d: string, b: BlockType, r: string)
    requires |ps| == 3 && Trim(ps[0]) == d && IsDurationToken(d)
    requires BlockTypeOf(Trim(ps[1])) == Some(b) && AfterField(ps[2]) == Some(r)
    ensures Fields(ps) == Some(TaskFields(d, Some(b), Some(r)))
  {
  }

  lemma AfterFieldOf(r: string)
    requires IsDepsCapture(r)
    ensures AfterField(" " + AfterKey + r) == Some(r)
  {
    assert " " + AfterKey + r == " " + (AfterKey + r);
    TrimStartOfSpaces(" ", AfterKey + r);
    assert (AfterKey + r)[|AfterKey|..] == r;
  }

  lemma RenderedName(t: Task)
    requires WellFormedTask(t)
    ensures NameRegionOk(Join(RenderedPieces(t)[..1], '|'))
    ensures Trim(Join(RenderedPieces(t)[..1], '|')) == t.name
  {
    var h := " " + t.name + " ";
    assert RenderedPieces(t)[..1] == [h];
    TrimPadded(" ", t.name, " ");
  }

  /** A well-formed task written out as a task line is read back unchanged. */
  lemma TaskLineRoundTrip(t: Task)
    requires WellFormedTask(t)
    ensures MatchTaskLine(RenderTask(t)) == Some(t)
  {
    var ps := RenderedPieces(t);
    RenderedLayout(t);
    RenderedSplit(t);
    RenderedFields(t);
    RenderedName(t);
    MinutesText(t.duration);
    if t.dependencies != [] {
      DependenciesOfIds(t.dependencies);
    }
    MatchOfTaskPieces(t, RenderTask(t), ps);
  }

  lemma DependenciesOfIds(ids: seq<string>)
    requires ids != [] && forall i :: 0 <= i < |ids| ==> ids[i] != [] && AllDigits(ids[i])
    ensures ParseDependencies(Some(RenderDeps(ids))) == ids
  {
    forall i | 0 <= i < |ids|
      ensures ',' !in ids[i] && Trimmed(ids[i])
    {
      NoCommaInDigits(ids[i]);
    }
    DependenciesRoundTrip(ids);
  }

  /** The match of a line whose pieces after the id read back as the name,
      the duration, the block type and the dependencies of `t`. */
  lemma MatchOfTaskPieces(t: Task, line: string, ps: seq<string>)
    requires t.id != [] && AllDigits(t.id)
    requires line == TaskPrefix + t.id + Join(ps, '|') && Split(Join(ps, '|'), '|') == ps
    requires |ps| >= 2 && ps[0] != [] && ps[0][0] == ' '
    requires Fields(ps[1..]) == Some(TaskFields(NatToString(t.duration) + "m", Some(t.blockType),
                                                if t.dependencies == [] then None else Some(RenderDeps(t.dependencies))))
    requires NameRegionOk(Join(ps[..1], '|')) && Trim(Join(ps[..1], '|')) == t.name
    requires ParseDuration(NatToString(t.duration) + "m") == t.duration
    requires t.dependencies != [] ==> ParseDependencies(Some(RenderDeps(t.dependencies))) == t.dependencies
    ensures MatchTaskLine(line) == Some(t)
  {
    assert NameEndsAt(ps, 0);
    MatchAtFirstPiece(t.id, ps, line);
  }

  /** A line whose name ends at the first '|' reads as the task of its
      pieces. */
  lemma MatchAtFirstPiece(id: string, ps: seq<string>, line: string)
    requires id != [] && AllDigits(id)
    requires line == TaskPrefix + id + Join(ps, '|') && Split(Join(ps, '|'), '|') == ps
    requires ps[0] != [] && ps[0][0] == ' ' && NameEndsAt(ps, 0)
    ensures MatchTaskLine(line) == Some(TaskAt(id, ps, 0))
  {
    JoinStartsWithFirst(ps, '|');
    TaskLineHead(id, Join(ps, '|'));
    assert FirstTrue(NameEnds(ps), 0) == Some(0);
  }

  /** After the prefix, a task line starts with its id, then whitespace. */
  lemma TaskLineHead(id: string, after: string)
    requires id != [] && AllDigits(id) && after != [] && after[0] == ' '
    ensures var line := TaskPrefix + id + after;
            StartsWith(line, TaskPrefix)
            && var rest := line[|TaskPrefix|..];
               DigitRun(rest) == |id| && rest[..|id|] == id && rest[|id|..] == after
  {
    var line := TaskPrefix + id + after;
    assert line == TaskPrefix + (id + after);
    var rest := line[|TaskPrefix|..];
    assert rest == id + after;
    DigitRunOf(id, after);
  }

  lemma NoCommaInDigits(s: string)
    requires s != [] && AllDigits(s)
    ensures ',' !in s && Trimmed(s)
  {
    forall i | 0 <= i < |s|
      ensures s[i] != ','
    {
      assert IsDigit(s[i]);
    }
    assert IsDigit(s[0]) && IsDigit(s[|s| - 1]);
  }

  // ------------------------------------------------------------ project files

  /** What a line says once trimmed: a task or nothing. */
  function TaskOfLine(line: string): Option<Task>
  {
    MatchTaskLine(Trim(line))
  }

  /** What each line says. */
  function LineTasks(lines: seq<string>): seq<Option<Task>>
  {
    Map(TaskOfLine, lines)
  }

  /** The tasks of the lines that match the task pattern once trimmed, in
      file order. */
  function TaskLines(lines: seq<string>): seq<Task>
  {
    Somes(LineTasks(lines))
  }

  /** `frontmatter.deadline || null`. */
  function DeadlineOf(fm: map<string, string>): (r: Option<string>)
    ensures r.Some? <==> "deadline" in fm && fm["deadline"] != []
    ensures r.Some? ==> r.value == fm["deadline"]
  {
    if "deadline" in fm && fm["deadline"] != [] then Some(fm["deadline"]) else None
  }

  /** The project parseProject returns for a file's content and name. */
  function ProjectOf(content: string, filename: string): Project
  {
    var fm := Frontmatter(content);
    var name := StripMd(filename);
    Project(name, FieldOr(fm, "project", name), FieldOr(fm, "priority", "medium"), DeadlineOf(fm),
            TaskLines(Split(BodyAfterHeader(content), '\n')))
  }

  /** parseProject: the frontmatter record, then the tasks of the lines after
      the header. */
  method ParseProject(content: string, filename: string) returns (p: Project)
    ensures p == ProjectOf(content, filename)
  {
    var frontmatter := ParseFrontmatter(content);
    var body := BodyAfterHeader(content);
    var tasks := CollectTasks(Split(body, '\n'));
    var name := StripMd(filename);
    p := Project(name, FieldOr(frontmatter, "project", name), FieldOr(frontmatter, "priority", "medium"),
                 DeadlineOf(frontmatter), tasks);
  }

  /** The loop of parseProject: trim each line and push the task it matches. */
  method CollectTasks(lines: seq<string>) returns (tasks: seq<Task>)
    ensures tasks == TaskLines(lines)
  {
    tasks := [];
    ghost var found := LineTasks(lines);
    for i := 0 to |lines|
      invariant tasks == Somes(found[..i])
    {
      SomesStep(found, i);
      var trimmed := Trim(lines[i]);
      var m := MatchTaskLine(trimmed);
      if m.Some? {
        tasks := tasks + [m.value];
      }
    }
    SomesWhole(found);
  }

  /** Without a frontmatter block the project is named after the file, has
      medium priority and no deadline. */
  lemma ProjectDefaults(content: string, filename: string)
    requires FrontmatterBody(content).None?
    ensures ProjectOf(content, filename).project == StripMd(filename)
    ensures ProjectOf(content, filename).priority == "medium"
    ensures ProjectOf(content, filename).deadline.None?
  {
  }

  /** Every task of a project comes from one of the lines after its header. */
  lemma TaskLinesFromLines(lines: seq<string>, t: Task)
    requires t in TaskLines(lines)
    ensures exists i :: 0 <= i < |lines| && MatchTaskLine(Trim(lines[i])) == Some(t)
  {
    SomesFrom(LineTasks(lines), t);
  }

  lemma RenderTaskTrimmed(t: Task)
    requires WellFormedTask(t)
    ensures Trim(RenderTask(t)) == RenderTask(t)
  {
    var line := RenderTask(t);
    RenderedLayout(t);
    assert line[0] == '-';
    var bn := BlockName(t.blockType);
    if t.dependencies == [] {
      assert line[|line| - 1] == bn[|bn| - 1];
    } else {
      var r := RenderDeps(t.dependencies);
      RenderDepsCapture(t.dependencies);
      assert line[|line| - 1] == r[|r| - 1];
      assert IsDepChar(r[|r| - 1]);
    }
    TrimOfTrimmed(line);
  }

  /** The task lines of a list of well-formed tasks give the list back. */
  lemma RenderedTasks(ts: seq<Task>)
    requires forall i :: 0 <= i < |ts| ==> WellFormedTask(ts[i])
    ensures TaskLines(RenderedTaskLines(ts)) == ts
  {
    var lines := RenderedTaskLines(ts);
    var found := LineTasks(lines);
    forall i | 0 <= i < |ts|
      ensures found[i] == Some(ts[i])
    {
      RenderTaskTrimmed(ts[i]);
      TaskLineRoundTrip(ts[i]);
    }
    SomesAll(found);
  }

  /** A task line is one line: it holds no line break. */
  lemma RenderTaskOneLine(t: Task)
    requires WellFormedTask(t)
    ensures '\n' !in RenderTask(t)
  {
    var ps := RenderedPieces(t);
    RenderedLayout(t);
    MinutesText(t.duration);
    forall i | 0 <= i < |ps|
      ensures '\n' !in ps[i]
    {
      if i == 0 {
        assert forall k :: 0 <= k < |t.name| ==> t.name[k] != '\n';
      } else if i == 1 {
        DigitsAvoid(NatToString(t.duration), '\n');
      } else if i == 3 {
        var r := RenderDeps(t.dependencies);
        RenderDepsCapture(t.dependencies);
        assert forall k :: 0 <= k < |r| ==> r[k] != '\n' by {
          forall k | 0 <= k < |r|
            ensures r[k] != '\n'
          {
            assert IsDepChar(r[k]);
          }
        }
      }
    }
    JoinAvoids(ps, '|', '\n');
    DigitsAvoid(t.id, '\n');
  }

  lemma DigitsAvoid(s: string, c: char)
    requires AllDigits(s) && !IsDigit(c)
    ensures c !in s
  {
    forall i | 0 <= i < |s|
      ensures s[i] != c
    {
      assert IsDigit(s[i]);
    }
  }

  // ------------------------------------------------------- whole project files

  function RenderedTaskLines(ts: seq<Task>): (r: seq<string>)
    ensures |r| == |ts| && forall i :: 0 <= i < |ts| ==> r[i] == RenderTask(ts[i])
  {
    seq(|ts|, i requires 0 <= i < |ts| => RenderTask(ts[i]))
  }

  /** The text of a project file: a frontmatter block, then one task line per
      task. */
  function RenderProjectFile(block: string, ts: seq<Task>): string {
    Open + block + Close + "\n" + Join(RenderedTaskLines(ts), '\n')
  }

  /** The lines after the header of a written-out project file give back its
      tasks. */
  lemma BodyTasks(ts: seq<Task>)
    requires forall i :: 0 <= i < |ts| ==> WellFormedTask(ts[i])
    ensures TaskLines(Split("\n" + Join(RenderedTaskLines(ts), '\n'), '\n')) == ts
  {
    var ls := if ts == [] then [[]] else RenderedTaskLines(ts);
    BodyLines(ts);
    TaskLinesRead(ts);
    LeadingBlankLine(ls);
  }

  /** The body after the header: a blank line, then the task lines. */
  lemma BodyLines(ts: seq<Task>)
    requires forall i :: 0 <= i < |ts| ==> WellFormedTask(ts[i])
    ensures Split("\n" + Join(RenderedTaskLines(ts), '\n'), '\n')
            == [[]] + (if ts == [] then [[]] else RenderedTaskLines(ts))
  {
    var lines := RenderedTaskLines(ts);
    var j := Join(lines, '\n');
    assert "\n" + j == [] + ['\n'] + j;
    SplitPrefix([], j, '\n');
    if ts != [] {
      forall i | 0 <= i < |lines|
        ensures '\n' !in lines[i]
      {
        RenderTaskOneLine(ts[i]);
      }
      SplitJoin(lines, '\n');
    }
  }

  lemma TaskLinesRead(ts: seq<Task>)
    requires forall i :: 0 <= i < |ts| ==> WellFormedTask(ts[i])
    ensures TaskLines(if ts == [] then [[]] else RenderedTaskLines(ts)) == ts
  {
    if ts == [] {
      assert Trim([]) == [];
      assert LineTasks([[]]) == [None];
    } else {
      RenderedTasks(ts);
    }
  }

  /** A blank line before the task lines adds nothing. */
  lemma LeadingBlankLine(lines: seq<string>)
    ensures TaskLines([[]] + lines) == TaskLines(lines)
  {
    assert Trim([]) == [];
    SomesLeadingNone(TaskOfLine, [], lines);
  }

  /** Parsing a written-out project file gives back its tasks, in order. */
  lemma ProjectFileTasks(block: string, ts: seq<Task>, filename: string)
    requires !Contains(block, Dashes)
    requires forall i :: 0 <= i < |ts| ==> WellFormedTask(ts[i])
    ensures ProjectOf(RenderProjectFile(block, ts), filename).tasks == ts
  {
    var j := Join(RenderedTaskLines(ts), '\n');
    assert RenderProjectFile(block, ts) == Open + block + Close + ("\n" + j);
    HeaderEnd(block, "\n" + j);
    BodyTasks(ts);
  }

  /** The record of a written-out project file is the record of its block. */
  lemma ProjectFileFrontmatter(block: string, ts: seq<Task>)
    requires !Contains(block, Dashes)
    ensures Frontmatter(RenderProjectFile(block, ts)) == Collect(LineEntries(Split(block, '\n')))
  {
    var j := Join(RenderedTaskLines(ts), '\n');
    assert RenderProjectFile(block, ts) == Open + block + Close + ("\n" + j);
    NoCloseWithoutDashes(block);
    FrontmatterOfBlock(block, "\n" + j);
  }
}
