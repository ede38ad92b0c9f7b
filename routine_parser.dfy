/** routineParser.ts: a routine file is a frontmatter block (type: routine,
    name, priority) followed by routine lines of the form
      - [ ] <name> | <duration> | <days> [| HH:MM|morning|afternoon|evening]
    where <days> is a keyword (daily, weekdays, weekends) or a comma-separated
    list of day names. */
module RoutineParser {
  import opened Text
  import opened Types
  import opened Seqs
  import opened Markdown

  // ------------------------------------------------------------------ repeat

  const Week: seq<string> := ["Mon", "Tue", "Wed", "Thu", "Fri", "Sat", "Sun"]
  const Weekdays: seq<string> := ["Mon", "Tue", "Wed", "Thu", "Fri"]
  const Weekends: seq<string> := ["Sat", "Sun"]

  /** `d.charAt(0).toUpperCase() + d.slice(1).toLowerCase()`. */
  function Capitalize(d: string): (r: string)
    ensures |r| == |d|
    ensures d != [] ==> r[0] == UpperChar(d[0])
    ensures forall i :: 1 <= i < |d| ==> r[i] == LowerChar(d[i])
  {
    if d == [] then [] else [UpperChar(d[0])] + ToLower(d[1..])
  }

  /** The day list a repeat keyword (already trimmed and lower-cased) stands
      for, if it is one. */
  function KeywordDays(normalized: string): (r: Option<seq<string>>)
    ensures normalized == "daily" ==> r == Some(Week)
    ensures normalized == "weekdays" ==> r == Some(Weekdays)
    ensures normalized == "weekends" ==> r == Some(Weekends)
    ensures r.None? <==> normalized !in {"daily", "weekdays", "weekends"}
    ensures r.Some? ==> |r.value| >= 1
    ensures r.Some? ==> forall i :: 0 <= i < |r.value| ==> Capitalize(r.value[i]) == r.value[i] && Trimmed(r.value[i])
  {
    DayListsNormal();
    if normalized == "daily" then Some(Week)
    else if normalized == "weekdays" then Some(Weekdays)
    else if normalized == "weekends" then Some(Weekends)
    else None
  }

  /** The comma-separated pieces of a repeat field, each trimmed and
      capitalized. */
  function DayPieces(repeat: string): (r: seq<string>)
    ensures |r| == |Split(repeat, ',')| >= 1
    ensures forall i :: 0 <= i < |r| ==> Capitalize(r[i]) == r[i] && Trimmed(r[i])
  {
    var pieces := Split(repeat, ',');
    var r := seq(|pieces|, i requires 0 <= i < |pieces| => Capitalize(Trim(pieces[i])));
    assert forall i :: 0 <= i < |r| ==> Capitalize(r[i]) == r[i] && Trimmed(r[i]) by {
      forall i | 0 <= i < |r|
        ensures Capitalize(r[i]) == r[i] && Trimmed(r[i])
      {
        CapitalizeNormal(Trim(pieces[i]));
      }
    }
    r
  }

  /** parseRepeat: the keywords daily, weekdays and weekends in any case and
      with any surrounding whitespace; otherwise the comma-separated pieces,
      each trimmed and capitalized. */
  function ParseRepeat(repeat: string): (r: seq<string>)
    ensures ToLower(Trim(repeat)) == "daily" ==> r == Week
    ensures ToLower(Trim(repeat)) == "weekdays" ==> r == Weekdays
    ensures ToLower(Trim(repeat)) == "weekends" ==> r == Weekends
    ensures ToLower(Trim(repeat)) !in {"daily", "weekdays", "weekends"} ==> r == DayPieces(repeat)
    ensures |r| >= 1
    ensures forall i :: 0 <= i < |r| ==> Capitalize(r[i]) == r[i] && Trimmed(r[i])
  {
    match KeywordDays(ToLower(Trim(repeat)))
    case Some(days) => days
    case None => DayPieces(repeat)
  }

  /** Capitalizing twice is capitalizing once, and it keeps a trimmed string
      trimmed. */
  lemma CapitalizeNormal(d: string)
    ensures Capitalize(Capitalize(d)) == Capitalize(d)
    ensures Trimmed(d) ==> Trimmed(Capitalize(d))
  {
    var c := Capitalize(d);
    if d != [] {
      assert Capitalize(c)[0] == UpperChar(UpperChar(d[0]));
    }
  }

  /** The day names of the keyword lists are already in the capitalized form. */
  lemma DayListsNormal()
    ensures forall i :: 0 <= i < |Week| ==> Capitalize(Week[i]) == Week[i] && Trimmed(Week[i])
    ensures forall i :: 0 <= i < |Week| ==> |Week[i]| == 3 && ',' !in Week[i]
    ensures forall i :: 0 <= i < |Weekdays| ==> Weekdays[i] == Week[i]
    ensures forall i :: 0 <= i < |Weekends| ==> Weekends[i] == Week[i + 5]
  {
    forall i | 0 <= i < |Week|
      ensures Capitalize(Week[i]) == Week[i] && Trimmed(Week[i])
      ensures |Week[i]| == 3 && ',' !in Week[i]
    {
      var d := Week[i];
      assert |d| == 3;
      assert Capitalize(d) == [UpperChar(d[0]), LowerChar(d[1]), LowerChar(d[2])];
    }
  }

  /** Capitalizing ignores the case the string was written in. */
  lemma CapitalizeLower(d: string)
    ensures Capitalize(ToLower(d)) == Capitalize(d)
  {
    if d != [] {
      assert ToLower(d)[1..] == ToLower(d[1..]);
      ToLowerTwice(d[1..]);
    }
  }

  lemma DayPiecesIgnoreCase(s: string)
    ensures DayPieces(ToLower(s)) == DayPieces(s)
  {
    SplitLower(s, ',');
    var p := Split(s, ',');
    forall i | 0 <= i < |p|
      ensures Capitalize(Trim(ToLower(p[i]))) == Capitalize(Trim(p[i]))
    {
      TrimLower(p[i]);
      CapitalizeLower(Trim(p[i]));
    }
  }

  /** The day list does not depend on the case the repeat field is written in
      ("DAILY", "Weekdays" and "mon,TUE" are read like their lower-case forms). */
  lemma RepeatIgnoresCase(s: string)
    ensures ParseRepeat(ToLower(s)) == ParseRepeat(s)
  {
    TrimLower(s);
    ToLowerTwice(Trim(s));
    DayPiecesIgnoreCase(s);
  }

  /** `daily` is the whole week, from Monday. */
  lemma DailyExample()
    ensures ParseRepeat("daily") == ["Mon", "Tue", "Wed", "Thu", "Fri", "Sat", "Sun"]
  {
    KeywordRepeat("daily", "daily");
  }

  /** `weekdays` is Monday to Friday. */
  lemma WeekdaysExample()
    ensures ParseRepeat("weekdays") == ["Mon", "Tue", "Wed", "Thu", "Fri"]
  {
    KeywordRepeat("weekdays", "weekdays");
  }

  /** `Weekends`, in any case, is Saturday and Sunday. */
  lemma WeekendsExample()
    ensures ParseRepeat("Weekends") == ["Sat", "Sun"]
  {
    KeywordRepeat("Weekends", "weekends");
  }

  /** A trimmed field whose lower-case form is `keyword`. */
  lemma KeywordRepeat(s: string, keyword: string)
    requires Trimmed(s) && |s| == |keyword|
    requires forall i :: 0 <= i < |s| ==> LowerChar(s[i]) == keyword[i]
    ensures ToLower(Trim(s)) == keyword
  {
    TrimOfTrimmed(s);
  }

  /** `k` three-letter names joined with a separator take `4k - 1`
      characters. */
  lemma {:induction false} JoinThreesLength(parts: seq<string>, sep: char)
    requires |parts| >= 1
    requires forall i :: 0 <= i < |parts| ==> |parts[i]| == 3
    ensures |Join(parts, sep)| == 4 * |parts| - 1
  {
    if |parts| > 1 {
      JoinThreesLength(parts[1..], sep);
    }
  }

  lemma KeywordLengths(normalized: string)
    ensures KeywordDays(normalized).Some? ==> |normalized| == 5 || |normalized| == 8
  {
  }

  /** A trimmed string of length `4k - 1` is not a repeat keyword, so it is
      read as a list. */
  lemma NotAKeyword(j: string, k: nat)
    requires |j| == 4 * k - 1 && Trimmed(j)
    ensures ParseRepeat(j) == DayPieces(j)
  {
    TrimOfTrimmed(j);
    NoKeywordOfLength(ToLower(j), k);
  }

  lemma NoKeywordOfLength(n: string, k: nat)
    requires |n| == 4 * k - 1
    ensures KeywordDays(n) == None
  {
    KeywordLengths(n);
  }

  /** Day names in the capitalized form read back as themselves. */
  lemma {:induction false} DayPiecesOfJoin(days: seq<string>)
    requires |days| >= 1
    requires forall i :: 0 <= i < |days| ==> ',' !in days[i] && Trimmed(days[i]) && Capitalize(days[i]) == days[i]
    ensures DayPieces(Join(days, ',')) == days
  {
    SplitJoin(days, ',');
    forall i | 0 <= i < |days|
      ensures Capitalize(Trim(days[i])) == days[i]
    {
      TrimOfTrimmed(days[i]);
    }
  }

  /** A week day name as parseRepeat writes it ("Mon" ... "Sun"). */
  predicate IsDayName(d: string) {
    d in Week
  }

  /** What a week day name looks like. */
  lemma DayNameShape(d: string)
    requires IsDayName(d)
    ensures |d| == 3 && ',' !in d && d != [] && Trimmed(d) && Capitalize(d) == d
  {
    DayListsNormal();
    var k :| 0 <= k < |Week| && Week[k] == d;
  }

  /** Writing a list of day names comma-separated and reading it back gives
      the list: three-letter names never spell a keyword. */
  lemma RepeatRoundTrip(days: seq<string>)
    requires |days| >= 1
    requires forall i :: 0 <= i < |days| ==> IsDayName(days[i])
    ensures ParseRepeat(Join(days, ',')) == days
  {
    DaysShape(days);
    ListRoundTrip(days);
  }

  /** Three-letter, comma-free, trimmed and capitalized: the shape of every
      week day name. */
  predicate PlainDays(days: seq<string>)
  {
    (forall i :: 0 <= i < |days| ==> |days[i]| == 3 && ',' !in days[i] && days[i] != [])
    && (forall i :: 0 <= i < |days| ==> Trimmed(days[i]) && Capitalize(days[i]) == days[i])
  }

  lemma DaysShape(days: seq<string>)
    requires forall i :: 0 <= i < |days| ==> IsDayName(days[i])
    ensures PlainDays(days)
  {
    forall i | 0 <= i < |days|
      ensures |days[i]| == 3 && ',' !in days[i] && days[i] != []
      ensures Trimmed(days[i]) && Capitalize(days[i]) == days[i]
    {
      DayNameShape(days[i]);
    }
  }

  lemma ListRoundTrip(days: seq<string>)
    requires |days| >= 1 && PlainDays(days)
    ensures ParseRepeat(Join(days, ',')) == days
  {
    var j := Join(days, ',');
    JoinThreesLength(days, ',');
    JoinTrimmed(days, ',');
    NotAKeyword(j, |days|);
    DayPiecesOfJoin(days);
  }

  // ------------------------------------------------------------ routine lines

  const RoutinePrefix: string := "- [ ] "

  /** The characters `[a-zA-Z,]`. */
  predicate IsRepeatChar(c: char) {
    'a' <= c <= 'z' || 'A' <= c <= 'Z' || c == ','
  }

  /** The capture `[a-zA-Z,]+`. */
  predicate IsRepeatCapture(s: string) {
    s != [] && forall i :: 0 <= i < |s| ==> IsRepeatChar(s[i])
  }

  /** The capture `\d{2}:\d{2}|morning|afternoon|evening`. */
  predicate IsTimeCapture(s: string) {
    (|s| == 5 && IsDigit(s[0]) && IsDigit(s[1]) && s[2] == ':' && IsDigit(s[3]) && IsDigit(s[4]))
    || s == "morning" || s == "afternoon" || s == "evening"
  }

  /** The last piece `\s*(<time>)` of a routine line: its capture. */
  function TimeField(p: string): (r: Option<string>)
    ensures r.Some? ==> IsTimeCapture(r.value) && TrimStart(p) == r.value
  {
    var q := TrimStart(p);
    if IsTimeCapture(q) then Some(q) else None
  }

  /** What the pieces after the name carry: the duration text, the repeat
      text and the preferred time, if any. */
  datatype RoutineFields = RoutineFields(duration: string, repeat: string, time: Option<string>)

  /** The part of the pattern after the name,
      `\s*(\d+\.?\d*[hm])\s*\|\s*([a-zA-Z,]+)\s*(?:\|\s*(<time>))?$`,
      read from the pieces between the '|' characters. */
  function RFields(ps: seq<string>): (r: Option<RoutineFields>)
    ensures r.Some? ==> 2 <= |ps| <= 3 && IsDurationToken(r.value.duration) && IsRepeatCapture(r.value.repeat)
    ensures r.Some? ==> r.value.time.Some? ==> IsTimeCapture(r.value.time.value)
    ensures r.Some? ==> (r.value.time.Some? <==> |ps| == 3)
  {
    if |ps| < 2 || |ps| > 3 || !IsDurationToken(Trim(ps[0])) || !IsRepeatCapture(Trim(ps[1])) then None
    else if |ps| == 2 then Some(RoutineFields(Trim(ps[0]), Trim(ps[1]), None))
    else match TimeField(ps[2])
      case None => None
      case Some(tm) => Some(RoutineFields(Trim(ps[0]), Trim(ps[1]), Some(tm)))
  }

  /** How much of the text before the '|' that ends the name the lazy
      `(.+?)` takes when `\s*` follows it: everything but the trailing
      whitespace, and at least one character. */
  function NameLength(head: string): (k: nat)
    requires head != []
    ensures 1 <= k <= |head| && AllSpace(head[k..])
  {
    var e := TrimEnd(head);
    if e == [] then 1 else |e|
  }

  /** The text before the '|' fits `(.+?)\s*`: `.` matches no line break. */
  predicate RoutineNameOk(head: string) {
    head != [] && forall i :: 0 <= i < NameLength(head) ==> !IsLineBreak(head[i])
  }

  /** The name can end at the '|' that closes piece `j`. */
  predicate RoutineEndsAt(parts: seq<string>, j: nat) {
    j + 1 < |parts| && RFields(parts[j + 1..]).Some? && RoutineNameOk(Join(parts[..j + 1], '|'))
  }

  function RoutineEnds(parts: seq<string>): (r: seq<bool>)
    ensures |r| == |parts| && forall j :: 0 <= j < |parts| ==> r[j] == RoutineEndsAt(parts, j)
  {
    seq(|parts|, j requires 0 <= j < |parts| => RoutineEndsAt(parts, j))
  }

  /** The routine task a trimmed line describes, or None when the line does
      not match the routine line pattern. The name is the lazy capture,
      trimmed; a missing time is None. */
  function MatchRoutineLine(t: string): (r: Option<RoutineTask>)
    ensures r.Some? ==> StartsWith(t, RoutinePrefix) && Trimmed(r.value.name)
    ensures r.Some? ==> |r.value.repeat| >= 1
    ensures r.Some? ==> r.value.preferredTime.Some? ==> IsTimeCapture(r.value.preferredTime.value)
    ensures !StartsWith(t, RoutinePrefix) ==> r.None?
  {
    if !StartsWith(t, RoutinePrefix) then None
    else
      var parts := Split(t[|RoutinePrefix|..], '|');
      match FirstTrue(RoutineEnds(parts), 0)
      case None => None
      case Some(i) => Some(RoutineAt(parts, i))
  }

  /** The task read when the name ends at the '|' closing piece `i`: the
      name trimmed, the duration, the days and the time. */
  function RoutineAt(parts: seq<string>, i: nat): (r: RoutineTask)
    requires RoutineEndsAt(parts, i)
    ensures Trimmed(r.name) && |r.repeat| >= 1
    ensures r.preferredTime.Some? ==> IsTimeCapture(r.preferredTime.value)
  {
    var head := Join(parts[..i + 1], '|');
    var f := RFields(parts[i + 1..]).value;
    RoutineTask(Trim(head[..NameLength(head)]), ParseDuration(f.duration), ParseRepeat(f.repeat), f.time)
  }

  // ---------------------------------------------------------------- rendering

  /** A routine task a routine line can carry unchanged: a name with no '|',
      no line break and no whitespace at its ends, at least one day name, and
      a preferred time in one of the accepted forms. */
  predicate WellFormedRoutineTask(t: RoutineTask) {
    t.name != [] && Trimmed(t.name) && '|' !in t.name
    && (forall i :: 0 <= i < |t.name| ==> !IsLineBreak(t.name[i]))
    && |t.repeat| >= 1 && (forall i :: 0 <= i < |t.repeat| ==> IsDayName(t.repeat[i]))
    && (t.preferredTime.Some? ==> IsTimeCapture(t.preferredTime.value))
  }

  /** The routine line for `t`: duration in minutes, days comma-separated, and
      the time field only when there is a preferred time. */
  function RenderRoutineTask(t: RoutineTask): string {
    RoutinePrefix + t.name + " | " + NatToString(t.duration) + "m | " + Join(t.repeat, ',')
    + (if t.preferredTime.None? then "" else " | " + t.preferredTime.value)
  }

  /** The pieces of a rendered routine line after the prefix. */
  function RoutinePieces(t: RoutineTask): seq<string> {
    var h := t.name + " ";
    var d := " " + (NatToString(t.duration) + "m") + " ";
    var days := Join(t.repeat, ',');
    if t.preferredTime.None? then [h, d, " " + days]
    else [h, d, " " + days + " ", " " + t.preferredTime.value]
  }

  lemma RoutineLayout(t: RoutineTask)
    ensures RenderRoutineTask(t) == RoutinePrefix + Join(RoutinePieces(t), '|')
  {
    var n := NatToString(t.duration);
    var days := Join(t.repeat, ',');
    if t.preferredTime.None? {
      Join3(t.name + " ", " " + (n + "m") + " ", " " + days, '|');
      LineText3(RoutinePrefix, t.name, n, days);
    } else {
      var tm := t.preferredTime.value;
      Join4(t.name + " ", " " + (n + "m") + " ", " " + days + " ", " " + tm, '|');
      LineText4(RoutinePrefix, t.name, n, days, tm);
    }
  }

  lemma LineText3(p: string, name: string, n: string, days: string)
    ensures p + name + " | " + n + "m | " + days + ""
            == p + ((name + " ") + "|" + (" " + (n + "m") + " ") + "|" + (" " + days))
  {
  }

  lemma LineText4(p: string, name: string, n: string, days: string, tm: string)
    ensures p + name + " | " + n + "m | " + days + (" | " + tm)
            == p + ((name + " ") + "|" + (" " + (n + "m") + " ") + "|" + (" " + days + " ") + "|" + (" " + tm))
  {
  }

  /** The days joined with ',' form a repeat capture with no whitespace at
      its ends. */
  lemma DaysText(days: seq<string>)
    requires |days| >= 1 && forall i :: 0 <= i < |days| ==> IsDayName(days[i])
    ensures var j := Join(days, ','); IsRepeatCapture(j) && Trimmed(j)
  {
    DaysShape(days);
    JoinTrimmed(days, ',');
    JoinRepeatChars(days);
  }

  lemma {:induction false} JoinRepeatChars(days: seq<string>)
    requires |days| >= 1 && forall i :: 0 <= i < |days| ==> IsDayName(days[i])
    ensures forall k :: 0 <= k < |Join(days, ',')| ==> IsRepeatChar(Join(days, ',')[k])
  {
    DayNameLetters(days[0]);
    if |days| > 1 {
      JoinRepeatChars(days[1..]);
    }
  }

  lemma DayNameLetters(d: string)
    requires IsDayName(d)
    ensures forall k :: 0 <= k < |d| ==> IsRepeatChar(d[k]) && !IsLineBreak(d[k]) && d[k] != '|'
  {
    var i :| 0 <= i < |Week| && Week[i] == d;
  }

  lemma TimeText(tm: string)
    requires IsTimeCapture(tm)
    ensures tm != [] && !IsSpace(tm[0]) && !IsSpace(tm[|tm| - 1])
    ensures forall k :: 0 <= k < |tm| ==> tm[k] != '|' && !IsLineBreak(tm[k])
  {
  }

  lemma RoutineSplit(t: RoutineTask)
    requires WellFormedRoutineTask(t)
    ensures Split(Join(RoutinePieces(t), '|'), '|') == RoutinePieces(t)
  {
    var ps := RoutinePieces(t);
    MinutesText(t.duration);
    forall i | 0 <= i < |ps|
      ensures '|' !in ps[i]
    {
      if i == 2 {
        DaysNoBar(t.repeat);
      } else if i == 3 {
        TimeText(t.preferredTime.value);
      }
    }
    SplitJoin(ps, '|');
  }

  lemma DaysNoBar(days: seq<string>)
    requires |days| >= 1 && forall i :: 0 <= i < |days| ==> IsDayName(days[i])
    ensures '|' !in Join(days, ',')
  {
    forall i | 0 <= i < |days|
      ensures '|' !in days[i]
    {
      DayNameLetters(days[i]);
    }
    JoinAvoids(days, ',', '|');
  }

  /** The pieces after the name read back as the duration, the days and the
      time. */
  lemma RoutineFieldsOf(t: RoutineTask)
    requires WellFormedRoutineTask(t)
    ensures RFields(RoutinePieces(t)[1..]) ==
              Some(RoutineFields(NatToString(t.duration) + "m", Join(t.repeat, ','), t.preferredTime))
  {
    var m := NatToString(t.duration) + "m";
    var days := Join(t.repeat, ',');
    MinutesText(t.duration);
    TrimPadded(" ", m, " ");
    DaysText(t.repeat);
    if t.preferredTime.None? {
      TrimPadded(" ", days, "");
      assert " " + days + "" == " " + days;
    } else {
      TrimPadded(" ", days, " ");
      var tm := t.preferredTime.value;
      TimeText(tm);
      TrimStartOfSpaces(" ", tm);
      FieldsOfThreePieces(RoutinePieces(t)[1..], m, days, tm);
    }
  }

  lemma FieldsOfThreePieces(ps: seq<string>, d: string, days: string, tm: string)
    requires |ps| == 3 && Trim(ps[0]) == d && IsDurationToken(d)
    requires Trim(ps[1]) == days && IsRepeatCapture(days) && TimeField(ps[2]) == Some(tm)
    ensures RFields(ps) == Some(RoutineFields(d, days, Some(tm)))
  {
  }

  lemma RoutineNameOf(t: RoutineTask)
    requires WellFormedRoutineTask(t)
    ensures RoutineNameOk(Join(RoutinePieces(t)[..1], '|'))
    ensures var head := Join(RoutinePieces(t)[..1], '|'); Trim(head[..NameLength(head)]) == t.name
  {
    var head := t.name + " ";
    assert RoutinePieces(t)[..1] == [head];
    TrimEndOfSpaces(t.name, " ");
    assert head[..|t.name|] == t.name;
    TrimOfTrimmed(t.name);
  }

  /** A well-formed routine task written out as a routine line is read back
      unchanged. */
  lemma RoutineLineRoundTrip(t: RoutineTask)
    requires WellFormedRoutineTask(t)
    ensures MatchRoutineLine(RenderRoutineTask(t)) == Some(t)
  {
    var line := RenderRoutineTask(t);
    var ps := RoutinePieces(t);
    RoutineLayout(t);
    RoutineSplit(t);
    RoutineFieldsOf(t);
    RoutineNameOf(t);
    MinutesText(t.duration);
    RepeatRoundTrip(t.repeat);
    MatchOfPieces(t, line, ps);
  }

  /** The match of a line whose pieces after the prefix read back as the
      name, the duration, the days and the time of `t`. */
  lemma MatchOfPieces(t: RoutineTask, line: string, ps: seq<string>)
    requires line == RoutinePrefix + Join(ps, '|') && Split(Join(ps, '|'), '|') == ps
    requires RFields(ps[1..]) == Some(RoutineFields(NatToString(t.duration) + "m", Join(t.repeat, ','), t.preferredTime))
    requires RoutineNameOk(Join(ps[..1], '|'))
    requires var head := Join(ps[..1], '|'); Trim(head[..NameLength(head)]) == t.name
    requires ParseDuration(NatToString(t.duration) + "m") == t.duration
    requires ParseRepeat(Join(t.repeat, ',')) == t.repeat
    ensures MatchRoutineLine(line) == Some(t)
  {
    assert StartsWith(line, RoutinePrefix);
    assert line[|RoutinePrefix|..] == Join(ps, '|');
    var parts := Split(line[|RoutinePrefix|..], '|');
    assert parts == ps;
    assert RoutineEndsAt(ps, 0);
    assert FirstTrue(RoutineEnds(ps), 0) == Some(0);
    assert MatchRoutineLine(line) == Some(RoutineAt(ps, 0));
  }

  lemma RenderRoutineTrimmed(t: RoutineTask)
    requires WellFormedRoutineTask(t)
    ensures Trim(RenderRoutineTask(t)) == RenderRoutineTask(t)
  {
    var line := RenderRoutineTask(t);
    RoutineLayout(t);
    assert line[0] == '-';
    DaysText(t.repeat);
    var days := Join(t.repeat, ',');
    if t.preferredTime.None? {
      assert line[|line| - 1] == days[|days| - 1];
    } else {
      var tm := t.preferredTime.value;
      TimeText(tm);
      assert line[|line| - 1] == tm[|tm| - 1];
    }
    TrimOfTrimmed(line);
  }

  /** A routine line is one line: it holds no line break. */
  lemma RoutineOneLine(t: RoutineTask)
    requires WellFormedRoutineTask(t)
    ensures '\n' !in RenderRoutineTask(t)
  {
    var ps := RoutinePieces(t);
    RoutineLayout(t);
    forall i | 0 <= i < |ps|
      ensures '\n' !in ps[i]
    {
      if i == 0 {
        assert forall k :: 0 <= k < |t.name| ==> t.name[k] != '\n';
      } else if i == 1 {
        var digits := NatToString(t.duration);
        assert forall k :: 0 <= k < |digits| ==> digits[k] != '\n' by {
          forall k | 0 <= k < |digits|
            ensures digits[k] != '\n'
          {
            assert IsDigit(digits[k]);
          }
        }
      } else if i == 2 {
        forall k | 0 <= k < |t.repeat|
          ensures '\n' !in t.repeat[k]
        {
          DayNameLetters(t.repeat[k]);
        }
        JoinAvoids(t.repeat, ',', '\n');
      } else if i == 3 {
        TimeText(t.preferredTime.value);
      }
    }
    JoinAvoids(ps, '|', '\n');
    assert '\n' !in RoutinePrefix;
  }

  // ------------------------------------------------------------ routine files

  /** What a line says once trimmed: a routine task or nothing. */
  function RoutineOfLine(line: string): Option<RoutineTask>
  {
    MatchRoutineLine(Trim(line))
  }

  /** What each line says. */
  function LineRoutineTasks(lines: seq<string>): seq<Option<RoutineTask>>
  {
    Map(RoutineOfLine, lines)
  }

  /** The routine tasks of the lines that match the routine line pattern once
      trimmed, in file order. */
  function RoutineTaskLines(lines: seq<string>): seq<RoutineTask>
  {
    Somes(LineRoutineTasks(lines))
  }

  /** The routine parseRoutine returns for a file's content and name. */
  function RoutineOf(content: string, filename: string): Routine
  {
    var fm := Frontmatter(content);
    var name := StripMd(filename);
    Routine(name, FieldOr(fm, "name", name), FieldOr(fm, "priority", "medium"),
            RoutineTaskLines(Split(BodyAfterHeader(content), '\n')))
  }

  /** parseRoutine: the frontmatter record, then the routine tasks of the
      lines after the header. */
  method ParseRoutine(content: string, filename: string) returns (r: Routine)
    ensures r == RoutineOf(content, filename)
  {
    var frontmatter := ParseFrontmatter(content);
    var body := BodyAfterHeader(content);
    var tasks := CollectRoutineTasks(Split(body, '\n'));
    var name := StripMd(filename);
    r := Routine(name, FieldOr(frontmatter, "name", name), FieldOr(frontmatter, "priority", "medium"), tasks);
  }

  /** The loop of parseRoutine: trim each line and push the routine task it
      matches. */
  method CollectRoutineTasks(lines: seq<string>) returns (tasks: seq<RoutineTask>)
    ensures tasks == RoutineTaskLines(lines)
  {
    tasks := [];
    ghost var found := LineRoutineTasks(lines);
    for i := 0 to |lines|
      invariant tasks == Somes(found[..i])
    {
      SomesStep(found, i);
      var trimmed := Trim(lines[i]);
      var m := MatchRoutineLine(trimmed);
      if m.Some? {
        tasks := tasks + [m.value];
      }
    }
    SomesWhole(found);
  }

  /** Without a frontmatter block the routine is named after the file and has
      medium priority. */
  lemma RoutineDefaults(content: string, filename: string)
    requires FrontmatterBody(content).None?
    ensures RoutineOf(content, filename).name == StripMd(filename)
    ensures RoutineOf(content, filename).priority == "medium"
  {
  }

  /** Every routine task comes from one of the lines after the header. */
  lemma RoutineTasksFromLines(lines: seq<string>, t: RoutineTask)
    requires t in RoutineTaskLines(lines)
    ensures exists i :: 0 <= i < |lines| && MatchRoutineLine(Trim(lines[i])) == Some(t)
  {
    SomesFrom(LineRoutineTasks(lines), t);
  }

  // ------------------------------------------------------------ isRoutineFile

  const TypeRoutine: string := "type: routine"
  const TypeRoutineTight: string := "type:routine"

  /** isRoutineFile: the file has a frontmatter block that mentions
      "type: routine" or "type:routine" anywhere in it. */
  function IsRoutineFile(content: string): (r: bool)
    ensures r ==> StartsWith(content, Open)
  {
    match FrontmatterBody(content)
    case None => false
    case Some(b) => Contains(b, TypeRoutine) || Contains(b, TypeRoutineTight)
  }

  /** For a file that starts with a frontmatter block, the answer depends on
      the block alone. */
  lemma RoutineFileOfBlock(b: string, rest: string)
    requires !Contains(b, Close)
    ensures IsRoutineFile(Open + b + Close + rest) <==> Contains(b, TypeRoutine) || Contains(b, TypeRoutineTight)
  {
    FrontmatterBodyOfBlock(b, rest);
  }

  // ------------------------------------------------------- whole routine files

  function RenderedRoutineLines(ts: seq<RoutineTask>): (r: seq<string>)
    ensures |r| == |ts| && forall i :: 0 <= i < |ts| ==> r[i] == RenderRoutineTask(ts[i])
  {
    seq(|ts|, i requires 0 <= i < |ts| => RenderRoutineTask(ts[i]))
  }

  /** The text of a routine file: a frontmatter block, then one routine line
      per routine task. */
  function RenderRoutineFile(block: string, ts: seq<RoutineTask>): string {
    Open + block + Close + "\n" + Join(RenderedRoutineLines(ts), '\n')
  }

  /** The routine lines of well-formed routine tasks give the tasks back. */
  lemma RenderedRoutines(ts: seq<RoutineTask>)
    requires forall i :: 0 <= i < |ts| ==> WellFormedRoutineTask(ts[i])
    ensures RoutineTaskLines(RenderedRoutineLines(ts)) == ts
  {
    var found := LineRoutineTasks(RenderedRoutineLines(ts));
    forall i | 0 <= i < |ts|
      ensures found[i] == Some(ts[i])
    {
      RenderRoutineTrimmed(ts[i]);
      RoutineLineRoundTrip(ts[i]);
    }
    SomesAll(found);
  }

  /** A blank line before the routine lines adds nothing. */
  lemma RoutineLeadingBlankLine(lines: seq<string>)
    ensures RoutineTaskLines([[]] + lines) == RoutineTaskLines(lines)
  {
    assert Trim([]) == [];
    SomesLeadingNone(RoutineOfLine, [], lines);
  }

  lemma RoutineLinesSplit(ts: seq<RoutineTask>)
    requires forall i :: 0 <= i < |ts| ==> WellFormedRoutineTask(ts[i])
    ensures Split(Join(RenderedRoutineLines(ts), '\n'), '\n') == if ts == [] then [[]] else RenderedRoutineLines(ts)
  {
    var lines := RenderedRoutineLines(ts);
    if ts != [] {
      forall i | 0 <= i < |lines|
        ensures '\n' !in lines[i]
      {
        RoutineOneLine(ts[i]);
      }
      SplitJoin(lines, '\n');
    }
  }

  lemma RoutineBodyTasks(ts: seq<RoutineTask>)
    requires forall i :: 0 <= i < |ts| ==> WellFormedRoutineTask(ts[i])
    ensures RoutineTaskLines(Split("\n" + Join(RenderedRoutineLines(ts), '\n'), '\n')) == ts
  {
    var ls := if ts == [] then [[]] else RenderedRoutineLines(ts);
    RoutineBodyLines(ts);
    RoutineLinesRead(ts);
    RoutineLeadingBlankLine(ls);
  }

  /** The body after the header: a blank line, then the routine lines. */
  lemma RoutineBodyLines(ts: seq<RoutineTask>)
    requires forall i :: 0 <= i < |ts| ==> WellFormedRoutineTask(ts[i])
    ensures Split("\n" + Join(RenderedRoutineLines(ts), '\n'), '\n')
            == [[]] + (if ts == [] then [[]] else RenderedRoutineLines(ts))
  {
    var j := Join(RenderedRoutineLines(ts), '\n');
    assert "\n" + j == [] + ['\n'] + j;
    SplitPrefix([], j, '\n');
    RoutineLinesSplit(ts);
  }

  lemma RoutineLinesRead(ts: seq<RoutineTask>)
    requires forall i :: 0 <= i < |ts| ==> WellFormedRoutineTask(ts[i])
    ensures RoutineTaskLines(if ts == [] then [[]] else RenderedRoutineLines(ts)) == ts
  {
    if ts == [] {
      assert Trim([]) == [];
      assert LineRoutineTasks([[]]) == [None];
    } else {
      RenderedRoutines(ts);
    }
  }

  /** Parsing a written-out routine file gives back its routine tasks, in
      order. */
  lemma RoutineFileTasks(block: string, ts: seq<RoutineTask>, filename: string)
    requires !Contains(block, Dashes)
    requires forall i :: 0 <= i < |ts| ==> WellFormedRoutineTask(ts[i])
    ensures RoutineOf(RenderRoutineFile(block, ts), filename).tasks == ts
  {
    var j := Join(RenderedRoutineLines(ts), '\n');
    assert RenderRoutineFile(block, ts) == Open + block + Close + ("\n" + j);
    HeaderEnd(block, "\n" + j);
    RoutineBodyTasks(ts);
  }

  /** A written-out routine file is recognised as a routine file exactly when
      its block says so. */
  lemma RoutineFileRecognised(block: string, ts: seq<RoutineTask>)
    requires !Contains(block, Dashes)
    ensures IsRoutineFile(RenderRoutineFile(block, ts)) <==> Contains(block, TypeRoutine) || Contains(block, TypeRoutineTight)
  {
    var j := Join(RenderedRoutineLines(ts), '\n');
    assert RenderRoutineFile(block, ts) == Open + block + Close + ("\n" + j);
    NoCloseWithoutDashes(block);
    RoutineFileOfBlock(block, "\n" + j);
  }
}
