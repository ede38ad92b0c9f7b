/** What projectParser.ts and routineParser.ts share: the `---` frontmatter
    block and its `key: value` lines, duration strings such as "1.5h" or "30m",
    the body that follows the header, and the filename without ".md". The two
    source files carry identical copies of parseDuration and parseFrontmatter;
    they are defined once here. */
module Markdown {
  import opened Text
  import opened Types

  // ------------------------------------------------------------- frontmatter

  const Open: string := "---\n"
  const Close: string := "\n---"
  const Dashes: string := "---"

  /** The capture of `/^---\n([\s\S]*?)\n---/`: the text between an opening
      "---" line at the very start and the first "\n---" after it. */
  function FrontmatterBody(content: string): (r: Option<string>)
    ensures r.Some? ==> StartsWith(content, Open + r.value + Close)
  {
    if !StartsWith(content, Open) then None
    else
      var k := IndexOfFrom(content, Close, 4);
      if k < 0 then None
      else
        assert content[..k + 4] == Open + content[4..k] + Close by {
          assert content[..4] == Open;
          assert content[k..k + 4] == Close;
        }
        Some(content[4..k])
  }

  /** The block ends at the first "\n---" after the opening line, and there is
      no block exactly when the opening line is missing or no "\n---" follows. */
  lemma FrontmatterBodyFirstClose(content: string)
    ensures FrontmatterBody(content).Some? ==>
              forall k :: 4 <= k < 4 + |FrontmatterBody(content).value| ==> !OccursAt(content, Close, k)
    ensures FrontmatterBody(content).None? <==>
              !StartsWith(content, Open) || forall k :: 4 <= k <= |content| ==> !OccursAt(content, Close, k)
  {
    IndexOfFromFirst(content, Close, 4);
  }

  /** A block written out as the regex expects it is found again, whatever
      follows it, as long as the block itself holds no "\n---". */
  lemma FrontmatterBodyOfBlock(b: string, rest: string)
    requires !Contains(b, Close)
    ensures FrontmatterBody(Open + b + Close + rest) == Some(b)
  {
    var c := Open + b + Close + rest;
    assert c[..4] == Open;
    assert OccursAt(c, Close, 4 + |b|) by {
      assert c[4 + |b|..4 + |b| + 4] == Close;
    }
    forall k | 4 <= k < 4 + |b|
      ensures !OccursAt(c, Close, k)
    {
      if k + 4 <= 4 + |b| {
        assert c[k..k + 4] == b[k - 4..k];
        assert !OccursAt(b, Close, k - 4);
      } else {
        // the "\n" that opens the closing line would sit under a '-'
        var j := 4 + |b| - k;
        assert c[k + j] == '\n';
        assert c[k + j] == c[k..k + 4][j];
      }
    }
    IndexOfFromIs(c, Close, 4, 4 + |b|);
    assert c[4..4 + |b|] == b;
  }

  /** The record of a file that starts with such a block is the record of the
      block's lines. */
  lemma FrontmatterOfBlock(b: string, rest: string)
    requires !Contains(b, Close)
    ensures Frontmatter(Open + b + Close + rest) == Collect(LineEntries(Split(b, '\n')))
  {
    FrontmatterBodyOfBlock(b, rest);
  }

  /** One frontmatter line: no colon means no entry; otherwise the trimmed text
      before the first colon maps to the trimmed text after it. */
  function LineEntry(line: string): (r: Option<(string, string)>)
    ensures r.None? <==> ':' !in line
  {
    var i := IndexOfChar(line, ':');
    if i == -1 then None else Some((Trim(line[..i]), Trim(line[i + 1..])))
  }

  /** The record built from a list of optional entries, later entries
      overwriting earlier ones. */
  function Collect(es: seq<Option<(string, string)>>): map<string, string>
  {
    if es == [] then map[]
    else
      var m := Collect(es[..|es| - 1]);
      match es[|es| - 1]
      case None => m
      case Some(kv) => m[kv.0 := kv.1]
  }

  /** The entry of every line, in order. */
  function LineEntries(lines: seq<string>): (es: seq<Option<(string, string)>>)
    ensures |es| == |lines| && forall i :: 0 <= i < |lines| ==> es[i] == LineEntry(lines[i])
  {
    seq(|lines|, i requires 0 <= i < |lines| => LineEntry(lines[i]))
  }

  /** The record parseFrontmatter returns for `content`. */
  function Frontmatter(content: string): map<string, string>
  {
    match FrontmatterBody(content)
    case None => map[]
    case Some(b) => Collect(LineEntries(Split(b, '\n')))
  }

  /** parseFrontmatter (projectParser.ts and routineParser.ts): one pass over the
      block's lines filling the record. */
  method ParseFrontmatter(content: string) returns (fm: map<string, string>)
    ensures fm == Frontmatter(content)
    ensures FrontmatterBody(content).None? ==> fm == map[]
  {
    var body := FrontmatterBody(content);
    if body.None? {
      return map[];
    }
    fm := map[];
    var lines := Split(body.value, '\n');
    ghost var es := LineEntries(lines);
    for i := 0 to |lines|
      invariant fm == Collect(es[..i])
    {
      CollectStep(es, i);
      var line := lines[i];
      var colonIndex := IndexOfChar(line, ':');
      if colonIndex == -1 {
        continue;
      }
      var key := Trim(line[..colonIndex]);
      var value := Trim(line[colonIndex + 1..]);
      fm := fm[key := value];
    }
    assert es[..|lines|] == es;
  }

  lemma CollectStep(es: seq<Option<(string, string)>>, i: nat)
    requires i < |es|
    ensures es[i].None? ==> Collect(es[..i + 1]) == Collect(es[..i])
    ensures es[i].Some? ==> Collect(es[..i + 1]) == Collect(es[..i])[es[i].value.0 := es[i].value.1]
  {
    assert es[..i + 1][..i] == es[..i];
  }

  /** A key is present exactly when some entry names it. */
  lemma {:induction false} CollectKeys(es: seq<Option<(string, string)>>, key: string)
    ensures key in Collect(es) <==> exists i :: 0 <= i < |es| && es[i].Some? && es[i].value.0 == key
  {
    if es != [] {
      var n := |es| - 1;
      var init := es[..n];
      CollectKeys(init, key);
      if key in Collect(es) && key !in Collect(init) {
        assert es[n].Some? && es[n].value.0 == key;
      }
      if key in Collect(init) {
        var i :| 0 <= i < |init| && init[i].Some? && init[i].value.0 == key;
        assert es[i] == init[i];
      }
      if exists i :: 0 <= i < |es| && es[i].Some? && es[i].value.0 == key {
        var i :| 0 <= i < |es| && es[i].Some? && es[i].value.0 == key;
        if i < n {
          assert init[i] == es[i];
        }
      }
    }
  }

  /** The value of a key is the one of the last entry that names it. */
  lemma {:induction false} CollectLastWins(es: seq<Option<(string, string)>>, i: nat)
    requires i < |es| && es[i].Some?
    requires forall j :: i < j < |es| ==> es[j].None? || es[j].value.0 != es[i].value.0
    ensures es[i].value.0 in Collect(es) && Collect(es)[es[i].value.0] == es[i].value.1
  {
    var init := es[..|es| - 1];
    if i < |es| - 1 {
      assert init[i] == es[i];
      forall j | i < j < |init|
        ensures init[j].None? || init[j].value.0 != init[i].value.0
      {
        assert init[j] == es[j];
      }
      CollectLastWins(init, i);
    }
  }

  /** The line has a colon and its trimmed text before it is `key`. */
  predicate NamesKey(line: string, key: string) {
    LineEntry(line).Some? && LineEntry(line).value.0 == key
  }

  /** A key of the record built from `lines` is present exactly when some line
      has a colon with that key before it. */
  lemma LinesKeys(lines: seq<string>, key: string)
    ensures key in Collect(LineEntries(lines)) <==> exists i :: 0 <= i < |lines| && NamesKey(lines[i], key)
  {
    var es := LineEntries(lines);
    CollectKeys(es, key);
    if key in Collect(es) {
      var i :| 0 <= i < |es| && es[i].Some? && es[i].value.0 == key;
      assert NamesKey(lines[i], key);
    }
    if exists i :: 0 <= i < |lines| && NamesKey(lines[i], key) {
      var i :| 0 <= i < |lines| && NamesKey(lines[i], key);
      assert es[i].Some? && es[i].value.0 == key;
    }
  }

  /** `record.key || fallback`: an absent key or an empty value gives the fallback. */
  function FieldOr(fm: map<string, string>, key: string, fallback: string): (r: string)
    ensures key in fm && fm[key] != [] ==> r == fm[key]
    ensures (key !in fm || fm[key] == []) ==> r == fallback
  {
    if key in fm && fm[key] != [] then fm[key] else fallback
  }

  // ----------------------------------------------------------- body and name

  /** `content.slice(content.indexOf('---', 3) + 3)`, or the whole content when
      no "---" starts at position 3 or later. */
  function BodyAfterHeader(content: string): (body: string)
    ensures IndexOfFrom(content, Dashes, 3) == -1 ==> body == content
    ensures IndexOfFrom(content, Dashes, 3) >= 0 ==> EndsWith(content, body) && |body| + 3 <= |content|
  {
    var bodyStart := IndexOfFrom(content, Dashes, 3);
    if bodyStart != -1 then content[bodyStart + 3..] else content
  }

  /** Where the header ends: the body after a frontmatter block that holds no
      "---" is exactly what follows the closing line. */
  lemma HeaderEnd(block: string, rest: string)
    requires !Contains(block, Dashes)
    ensures BodyAfterHeader(Open + block + Close + rest) == rest
  {
    var c := Open + block + Close + rest;
    var e := 4 + |block|;
    assert c[e + 1..e + 4] == Dashes;
    forall k | 3 <= k < e + 1
      ensures !OccursAt(c, Dashes, k)
    {
      if k == 3 {
        assert c[3] == '\n' && c[k..k + 3][0] == c[3];
      } else if k + 3 <= e {
        assert c[k..k + 3] == block[k - 4..k - 1];
        assert !OccursAt(block, Dashes, k - 4);
      } else {
        assert c[e] == '\n' && c[k..k + 3][e - k] == c[e];
      }
    }
    IndexOfFromIs(c, Dashes, 3, e + 1);
    assert c[e + 4..] == rest;
  }

  lemma NoCloseWithoutDashes(block: string)
    requires !Contains(block, Dashes)
    ensures !Contains(block, Close)
  {
    forall k | 0 <= k <= |block|
      ensures !OccursAt(block, Close, k)
    {
      if OccursAt(block, Close, k) {
        assert block[k + 1..k + 4] == block[k..k + 4][1..];
        assert OccursAt(block, Dashes, k + 1);
      }
    }
  }

  /** `filename.replace(/\.md$/, '')`. */
  function StripMd(filename: string): (r: string)
    ensures EndsWith(filename, ".md") ==> r + ".md" == filename
    ensures !EndsWith(filename, ".md") ==> r == filename
  {
    if EndsWith(filename, ".md") then filename[..|filename| - 3] else filename
  }

  lemma StripMdOfMd(name: string)
    ensures StripMd(name + ".md") == name
  {
    assert EndsWith(name + ".md", ".md");
  }

  // ---------------------------------------------------------------- duration

  /** `^\d+\.?\d*$`: digits, then optionally a dot and more (possibly no) digits. */
  predicate IsDecimal(n: string) {
    var d := IndexOfChar(n, '.');
    if d == -1 then n != [] && AllDigits(n)
    else d > 0 && AllDigits(n[..d]) && AllDigits(n[d + 1..])
  }

  predicate IsUnit(c: char) {
    c == 'h' || c == 'm'
  }

  /** `^\d+\.?\d*[hm]$`. */
  predicate IsDurationToken(s: string) {
    |s| >= 2 && IsUnit(s[|s| - 1]) && IsDecimal(s[..|s| - 1])
  }

  /** `Math.round(a / b)` for a non-negative quotient: the whole number
      nearest to a / b, halves rounded up. */
  function RoundDiv(a: nat, b: nat): (r: nat)
    requires b > 0
    ensures 2 * r * b <= 2 * a + b < 2 * (r + 1) * b
  {
    (2 * a + b) / (2 * b)
  }

  /** The exact value of a decimal numeral as a fraction (numerator, 10^k). */
  function DecimalFraction(n: string): (f: (nat, nat))
    requires IsDecimal(n)
    ensures f.1 >= 1
  {
    var d := IndexOfChar(n, '.');
    if d == -1 then (DigitsValue(n), 1)
    else
      assert AllDigits(n[..d] + n[d + 1..]) by {
        DigitsValueAppend(n[..d], n[d + 1..]);
      }
      (DigitsValue(n[..d] + n[d + 1..]), Pow10(|n| - d - 1))
  }

  /** parseDuration: hours times 60 or minutes, rounded half up to whole
      minutes; anything that is not `^\d+\.?\d*[hm]$` is 0. */
  function ParseDuration(s: string): (r: nat)
    ensures !IsDurationToken(s) ==> r == 0
  {
    if !IsDurationToken(s) then 0
    else
      var f := DecimalFraction(s[..|s| - 1]);
      if s[|s| - 1] == 'h' then RoundDiv(f.0 * 60, f.1) else RoundDiv(f.0, f.1)
  }

  /** Every duration token is rounded to the whole number of minutes nearest
      its exact value (the numeral p / q, times 60 for hours), halves up. */
  lemma ParseDurationRounds(s: string)
    requires IsDurationToken(s)
    ensures var f := DecimalFraction(s[..|s| - 1]);
            var u := if s[|s| - 1] == 'h' then 60 else 1;
            var r := ParseDuration(s);
            2 * r * f.1 <= 2 * f.0 * u + f.1 < 2 * (r + 1) * f.1
  {
  }

  /** A numeral with a dot stands for its digits over a power of ten: the
      whole part shifted by the places after the dot, plus the fraction
      digits. */
  lemma DecimalFractionOf(n: string, k: nat)
    requires 0 < k < |n| && n[k] == '.' && AllDigits(n[..k]) && AllDigits(n[k + 1..])
    ensures IsDecimal(n)
    ensures DecimalFraction(n) == (DigitsValue(n[..k]) * Pow10(|n[k + 1..]|) + DigitsValue(n[k + 1..]),
                                   Pow10(|n[k + 1..]|))
  {
    DecimalAtDot(n, k);
    DigitsValueAppend(n[..k], n[k + 1..]);
  }

  /** Read at its first dot, a numeral is its digits without the dot over
      ten to the number of places after it. */
  lemma DecimalAtDot(n: string, k: nat)
    requires 0 < k < |n| && n[k] == '.' && AllDigits(n[..k]) && AllDigits(n[k + 1..])
    ensures IsDecimal(n)
    ensures DecimalFraction(n) == (DigitsValue(n[..k] + n[k + 1..]), Pow10(|n[k + 1..]|))
  {
    DotAt(n, k);
  }

  /** The first dot of a numeral whose digits run up to position `k`. */
  lemma DotAt(n: string, k: nat)
    requires k < |n| && n[k] == '.' && AllDigits(n[..k])
    ensures IndexOfChar(n, '.') == k
  {
    assert n[k] == '.';
  }

  /** A quarter hour written with two decimal places is exact: `2.25h` is
      135 minutes. */
  lemma QuarterHourExample()
    ensures ParseDuration("2.25h") == 135
  {
    var a := "2.25h";
    assert a[..|a| - 1][..1] == "2" && a[..|a| - 1][2..] == "25";
    DecimalFractionOf(a[..|a| - 1], 1);
    assert DigitsValue("25") == 25 by {
      assert "25"[..1] == "2";
    }
  }

  /** A half minute rounds up: `1.5m` is 2 minutes. */
  lemma HalfMinuteExample()
    ensures ParseDuration("1.5m") == 2
  {
    var b := "1.5m";
    assert b[..|b| - 1][..1] == "1" && b[..|b| - 1][2..] == "5";
    DecimalFractionOf(b[..|b| - 1], 1);
  }

  /** Whole hours become 60 minutes each, whole minutes stay as they are. */
  lemma {:induction false} ParseWholeDuration(digits: string)
    requires digits != [] && AllDigits(digits)
    ensures ParseDuration(digits + "h") == 60 * DigitsValue(digits)
    ensures ParseDuration(digits + "m") == DigitsValue(digits)
  {
    NoDotInDigits(digits);
    var h := digits + "h";
    var m := digits + "m";
    assert h[..|h| - 1] == digits && m[..|m| - 1] == digits;
  }

  /** A numeral with one decimal place: N.D hours is 60 N + 6 D minutes. */
  lemma {:induction false} ParseTenthsOfHour(n: nat, d: nat)
    requires d < 10
    ensures ParseDuration(NatToString(n) + "." + [DigitChar(d)] + "h") == 60 * n + 6 * d
  {
    var whole := NatToString(n);
    var num := whole + "." + [DigitChar(d)];
    var s := num + "h";
    assert s[..|s| - 1] == num;
    assert IndexOfChar(num, '.') == |whole| by {
      NoDotInDigits(whole);
      assert num[..|whole|] == whole;
    }
    assert num[..|whole|] == whole && num[|whole| + 1..] == [DigitChar(d)];
    assert AllDigits([DigitChar(d)]);
    DigitsValueAppend(whole, [DigitChar(d)]);
    assert DigitsValue([DigitChar(d)]) == d by {
      assert [DigitChar(d)][..0] == [];
    }
    assert DecimalFraction(num) == (10 * n + d, 10);
  }

  lemma NoDotInDigits(s: string)
    requires AllDigits(s)
    ensures '.' !in s
  {
    forall i | 0 <= i < |s|
      ensures s[i] != '.'
    {
      assert IsDigit(s[i]);
    }
  }

  /** An example of the parser's own tests: minutes are taken as they are. */
  lemma ThirtyMinutesExample()
    ensures ParseDuration("30m") == 30
  {
    ParseWholeDuration("30");
    assert "30"[..1] == "3" && DigitsValue("3") == 3;
    assert DigitsValue("30") == 30;
    assert "30" + "m" == "30m";
  }

  /** Fractional hours round to whole minutes. */
  lemma HalfHourExamples()
    ensures ParseDuration("1.5h") == 90
    ensures ParseDuration("0.5h") == 30
    ensures ParseDuration("2.5h") == 150
  {
    HalfHourOf(1);
    assert [DigitChar(1)] + ".5h" == "1.5h";
    HalfHourOf(0);
    assert [DigitChar(0)] + ".5h" == "0.5h";
    HalfHourOf(2);
    assert [DigitChar(2)] + ".5h" == "2.5h";
  }

  lemma HalfHourOf(n: nat)
    requires n < 10
    ensures ParseDuration([DigitChar(n)] + ".5h") == 60 * n + 30
  {
    ParseTenthsOfHour(n, 5);
    assert NatToString(n) == [DigitChar(n)];
    assert [DigitChar(n)] + "." + [DigitChar(5)] + "h" == [DigitChar(n)] + ".5h";
  }

  /** The duration text a written-out line carries: "<minutes>m". */
  lemma MinutesText(d: nat)
    ensures var m := NatToString(d) + "m";
            Trimmed(m) && '|' !in m && IsDurationToken(m) && ParseDuration(m) == d
  {
    var digits := NatToString(d);
    var m := digits + "m";
    NoDotInDigits(digits);
    ParseWholeDuration(digits);
    assert m[..|m| - 1] == digits;
    assert IsDigit(m[0]) && !IsSpace(m[0]);
    forall i | 0 <= i < |m|
      ensures m[i] != '|'
    {
      if i < |digits| {
        assert IsDigit(digits[i]);
      }
    }
  }
}
