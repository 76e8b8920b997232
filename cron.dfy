/** The cron expression helpers: a syntax check that follows one anchored
    regular expression of five fields, and a describer that splits on single
    spaces and recognises four well-known schedules. */
module Cron {
  import opened Text

  // ---------------------------------------------------------------------
  // The field grammar
  // ---------------------------------------------------------------------

  /** `[0-9]+` */
  predicate IsNumber(s: string) {
    s != [] && forall i :: 0 <= i < |s| ==> IsDigit(s[i])
  }

  /** `[0-9]+<sep>[0-9]+` */
  predicate IsNumberPair(f: string, sep: char) {
    exists i :: 0 < i < |f| && f[i] == sep && IsNumber(f[..i]) && IsNumber(f[i + 1..])
  }

  /** One field: `\*|[0-9]+|\*\/[0-9]+|[0-9]+-[0-9]+|[0-9]+,[0-9]+`.
      Only the shape is checked: no bound is placed on the numbers. */
  predicate IsField(f: string) {
    || f == "*"
    || IsNumber(f)
    || (|f| > 2 && f[..2] == "*/" && IsNumber(f[2..]))
    || IsNumberPair(f, '-')
    || IsNumberPair(f, ',')
  }

  /** A non-empty run of non-whitespace characters. */
  predicate IsWordRun(r: string) {
    r != [] && forall i :: 0 <= i < |r| ==> !IsWhitespace(r[i])
  }

  /** A non-empty run of whitespace: what `\s+` matches. */
  predicate IsBlankRun(r: string) {
    r != [] && IsBlank(r)
  }

  /** A field holds no whitespace. */
  lemma FieldIsWord(f: string)
    requires IsField(f)
    ensures IsWordRun(f)
  {
    if IsNumberPair(f, '-') || IsNumberPair(f, ',') {
      var sep := if IsNumberPair(f, '-') then '-' else ',';
      var i :| 0 < i < |f| && f[i] == sep && IsNumber(f[..i]) && IsNumber(f[i + 1..]);
      forall j | 0 <= j < |f| ensures !IsWhitespace(f[j]) {
        if j < i {
          assert f[j] == f[..i][j];
        } else if j > i {
          assert f[j] == f[i + 1..][j - i - 1];
        }
      }
    } else if |f| > 2 && f[..2] == "*/" && IsNumber(f[2..]) {
      forall j | 0 <= j < |f| ensures !IsWhitespace(f[j]) {
        if j < 2 {
          assert f[j] == f[..2][j];
        } else {
          assert f[j] == f[2..][j - 2];
        }
      }
    }
  }

  /** The strings of `rs` written one after another. */
  function Concat(rs: seq<string>): string {
    if rs == [] then "" else rs[0] + Concat(rs[1..])
  }

  /** Nine runs: field, whitespace, field, ..., field. */
  predicate CronRuns(rs: seq<string>) {
    && |rs| == 9
    && IsField(rs[0]) && IsBlankRun(rs[1]) && IsField(rs[2]) && IsBlankRun(rs[3]) && IsField(rs[4])
    && IsBlankRun(rs[5]) && IsField(rs[6]) && IsBlankRun(rs[7]) && IsField(rs[8])
  }

  /** `Concat` from position `k` on: the string at `k`, then the rest. */
  lemma ConcatFrom(rs: seq<string>, k: nat)
    requires k < |rs|
    ensures Concat(rs[k..]) == rs[k] + Concat(rs[k + 1..])
  {
    assert rs[k..][1..] == rs[k + 1..];
  }

  /** `Concat` of nine strings, written out. */
  lemma Concat9(rs: seq<string>)
    requires |rs| == 9
    ensures Concat(rs) == rs[0] + (rs[1] + (rs[2] + (rs[3] + (rs[4] + (rs[5] + (rs[6] + (rs[7] + rs[8])))))))
  {
    assert rs[0..] == rs;
    ConcatFrom(rs, 0); ConcatFrom(rs, 1); ConcatFrom(rs, 2); ConcatFrom(rs, 3); ConcatFrom(rs, 4);
    ConcatFrom(rs, 5); ConcatFrom(rs, 6); ConcatFrom(rs, 7); ConcatFrom(rs, 8);
    assert Concat(rs[9..]) == "";
  }

  /** What the anchored regular expression `^F(\s+F){4}$` accepts, with `F`
      the field alternation: the whole string is the concatenation of five
      fields separated by four runs of whitespace. */
  ghost predicate CronShape(s: string) {
    exists rs :: Concat(rs) == s && CronRuns(rs)
  }

  // ---------------------------------------------------------------------
  // The checker: split into maximal runs, then test the runs
  // ---------------------------------------------------------------------

  /** Length of the longest prefix whose characters are whitespace exactly
      when `ws` is. */
  function RunLength(s: string, ws: bool): (n: nat)
    ensures n <= |s|
    ensures forall i :: 0 <= i < n ==> IsWhitespace(s[i]) == ws
    ensures n < |s| ==> IsWhitespace(s[n]) != ws
  {
    if s == [] || IsWhitespace(s[0]) != ws then 0 else 1 + RunLength(s[1..], ws)
  }

  /** Every run is a word or a blank run, and the two kinds alternate. */
  predicate Alternating(rs: seq<string>) {
    && (forall i :: 0 <= i < |rs| ==> IsWordRun(rs[i]) || IsBlankRun(rs[i]))
    && (forall i :: 0 <= i < |rs| - 1 ==> (IsBlankRun(rs[i]) <==> IsWordRun(rs[i + 1])))
  }

  /** A run put in front of alternating runs that start with the other kind
      of character still alternates. */
  lemma AlternatingCons(r: string, rest: seq<string>)
    requires IsWordRun(r) || IsBlankRun(r)
    requires Alternating(rest)
    requires rest != [] ==> IsWhitespace(rest[0][0]) != IsWhitespace(r[0])
    ensures Alternating([r] + rest)
  {
    var rs := [r] + rest;
    assert rs[0] == r;
    assert forall i :: 1 <= i < |rs| ==> rs[i] == rest[i - 1];
    if rest != [] {
      assert IsBlankRun(r) <==> IsWhitespace(r[0]);
      assert IsWordRun(rest[0]) <==> !IsWhitespace(rest[0][0]);
    }
  }

  /** `s` cut into its maximal runs of whitespace and of non-whitespace. */
  function Runs(s: string): (rs: seq<string>)
    ensures Concat(rs) == s
    ensures Alternating(rs)
    ensures s != [] ==> rs != [] && rs[0] != [] && rs[0][0] == s[0]
    decreases |s|
  {
    if s == [] then []
    else
      var n := RunLength(s, IsWhitespace(s[0]));
      var rest := Runs(s[n..]);
      assert s == s[..n] + s[n..];
      assert IsWhitespace(s[0]) ==> IsBlankRun(s[..n]);
      assert !IsWhitespace(s[0]) ==> IsWordRun(s[..n]);
      AlternatingCons(s[..n], rest);
      assert ([s[..n]] + rest)[1..] == rest;
      [s[..n]] + rest
  }

  /** `isValidCronExpression`: the string splits into exactly the nine runs
      field, whitespace, ..., field. */
  predicate IsValidCronExpression(s: string) {
    CronRuns(Runs(s))
  }

  lemma {:induction false} RunLengthOf(a: string, b: string, ws: bool)
    requires forall i :: 0 <= i < |a| ==> IsWhitespace(a[i]) == ws
    requires b == [] || IsWhitespace(b[0]) != ws
    ensures RunLength(a + b, ws) == |a|
  {
    if a != [] {
      assert (a + b)[1..] == a[1..] + b;
      RunLengthOf(a[1..], b, ws);
    } else {
      assert a + b == b;
    }
  }

  /** A word or blank run is all of one kind. */
  lemma RunIsUniform(r: string)
    requires IsWordRun(r) || IsBlankRun(r)
    ensures forall i :: 0 <= i < |r| ==> IsWhitespace(r[i]) == IsWhitespace(r[0])
  {
  }

  lemma AlternatingTail(rs: seq<string>)
    requires rs != [] && Alternating(rs)
    ensures Alternating(rs[1..])
  {
    assert forall i :: 0 <= i < |rs| - 1 ==> rs[1..][i] == rs[i + 1];
  }

  /** The first run of an alternating cut is the first maximal run. */
  lemma RunsHead(rs: seq<string>)
    requires rs != [] && Alternating(rs)
    ensures Concat(rs) != [] && Concat(rs)[0] == rs[0][0]
    ensures RunLength(Concat(rs), IsWhitespace(rs[0][0])) == |rs[0]|
  {
    var a, b := rs[0], Concat(rs[1..]);
    RunIsUniform(a);
    if rs[1..] != [] {
      assert IsBlankRun(rs[0]) <==> IsWordRun(rs[1]);
      assert b[0] == rs[1][0];
    }
    RunLengthOf(a, b, IsWhitespace(a[0]));
  }

  /** A string has only one cut into alternating runs. */
  lemma {:induction false} RunsUnique(s: string, rs: seq<string>)
    requires Concat(rs) == s && Alternating(rs)
    ensures rs == Runs(s)
    decreases |rs|
  {
    if rs != [] {
      RunsHead(rs);
      var n := |rs[0]|;
      assert s[..n] == rs[0] && s[n..] == Concat(rs[1..]);
      AlternatingTail(rs);
      RunsUnique(s[n..], rs[1..]);
    }
  }

  /** No run is both a word and whitespace. */
  lemma WordIsNotBlank(r: string)
    ensures !(IsWordRun(r) && IsBlankRun(r))
  {
    if r != [] {
      assert IsWordRun(r) ==> !IsWhitespace(r[0]);
      assert IsBlankRun(r) ==> IsWhitespace(r[0]);
    }
  }

  /** Runs that are words at even positions and whitespace at odd ones
      alternate. */
  lemma {:induction false} WordFirstAlternates(rs: seq<string>)
    requires forall i :: 0 <= i < |rs| ==> if i % 2 == 0 then IsWordRun(rs[i]) else IsBlankRun(rs[i])
    ensures Alternating(rs)
  {
    forall i | 0 <= i < |rs| - 1 ensures IsBlankRun(rs[i]) <==> IsWordRun(rs[i + 1]) {
      WordIsNotBlank(rs[i]);
      WordIsNotBlank(rs[i + 1]);
    }
  }

  lemma CronRunsAlternate(rs: seq<string>)
    requires CronRuns(rs)
    ensures Alternating(rs)
  {
    FieldIsWord(rs[0]); FieldIsWord(rs[2]); FieldIsWord(rs[4]); FieldIsWord(rs[6]); FieldIsWord(rs[8]);
    forall i | 0 <= i < 9 ensures if i % 2 == 0 then IsWordRun(rs[i]) else IsBlankRun(rs[i]) {
      assert i == 0 || i == 1 || i == 2 || i == 3 || i == 4 || i == 5 || i == 6 || i == 7 || i == 8;
    }
    WordFirstAlternates(rs);
  }

  /** The checker accepts exactly what the regular expression accepts. */
  lemma ValidIffCronShape(s: string)
    ensures IsValidCronExpression(s) <==> CronShape(s)
  {
    if CronShape(s) {
      var rs :| Concat(rs) == s && CronRuns(rs);
      CronRunsAlternate(rs);
      RunsUnique(s, rs);
    }
  }

  /** To show a string valid it is enough to cut it into field, whitespace,
      ..., field. */
  lemma ValidBy(s: string, rs: seq<string>)
    requires CronRuns(rs)
    requires s == rs[0] + (rs[1] + (rs[2] + (rs[3] + (rs[4] + (rs[5] + (rs[6] + (rs[7] + rs[8])))))))
    ensures IsValidCronExpression(s)
  {
    Concat9(rs);
    ValidIffCronShape(s);
  }

  /** To show a string invalid it is enough to cut it into alternating runs
      that are not field, whitespace, ..., field. */
  lemma NotValidBy(s: string, rs: seq<string>)
    requires Concat(rs) == s && Alternating(rs) && !CronRuns(rs)
    ensures !IsValidCronExpression(s)
  {
    RunsUnique(s, rs);
  }

  lemma {:induction false} ConcatAppend(rs: seq<string>, t: string)
    ensures Concat(rs + [t]) == Concat(rs) + t
  {
    if rs != [] {
      assert (rs + [t])[1..] == rs[1..] + [t];
      ConcatAppend(rs[1..], t);
    } else {
      assert [t][1..] == [];
    }
  }

  /** The pattern is anchored at both ends: a valid expression neither starts
      nor ends with whitespace. */
  lemma ValidHasNoOuterWhitespace(s: string)
    requires IsValidCronExpression(s)
    ensures s != [] && !IsWhitespace(s[0]) && !IsWhitespace(s[|s| - 1])
  {
    var rs := Runs(s);
    CronRunsAlternate(rs);
    assert s[0] == rs[0][0];
    assert rs == rs[..8] + [rs[8]];
    ConcatAppend(rs[..8], rs[8]);
    assert s[|s| - 1] == rs[8][|rs[8]| - 1];
  }

  /** No range check: every field may be any number of digits. */
  lemma NoRangeCheck()
    ensures IsValidCronExpression("99 99 99 99 99")
  {
    assert IsNumber("99") && IsBlankRun(" ");
    ValidBy("99 99 99 99 99", ["99", " ", "99", " ", "99", " ", "99", " ", "99"]);
  }

  /** The daily-at-nine schedule passes. */
  lemma AcceptsDailyNine()
    ensures IsValidCronExpression("0 9 * * *")
  {
    assert IsNumber("0") && IsNumber("9") && IsBlankRun(" ");
    ValidBy("0 9 * * *", ["0", " ", "9", " ", "*", " ", "*", " ", "*"]);
  }

  /** Steps, ranges and pairs are fields. */
  lemma AcceptsStepRangePair()
    ensures IsValidCronExpression("*/15 0-23 1,15 * *")
  {
    StepRangePairFields();
    assert IsBlankRun(" ");
    ValidBy("*/15 0-23 1,15 * *", ["*/15", " ", "0-23", " ", "1,15", " ", "*", " ", "*"]);
  }

  /** A step, a range and a two-item list are each a field. */
  lemma StepRangePairFields()
    ensures IsField("*/15") && IsField("0-23") && IsField("1,15") && IsField("*")
  {
    assert IsNumberPair("0-23", '-') by { assert "0-23"[..1] == "0" && "0-23"[2..] == "23"; }
    assert IsNumberPair("1,15", ',') by { assert "1,15"[..1] == "1" && "1,15"[2..] == "15"; }
    assert "*/15"[..2] == "*/" && "*/15"[2..] == "15";
  }

  /** Letters are not part of any field. */
  lemma RejectsLetters()
    ensures !IsValidCronExpression("9am")
  {
    var rs := ["9am"];
    assert Concat(rs) == "9am";
    assert IsWordRun("9am");
    WordFirstAlternates(rs);
    NotValidBy("9am", rs);
  }

  /** Four fields are too few. */
  lemma RejectsFourFields()
    ensures !IsValidCronExpression("* * * *")
  {
    var rs := ["*", " ", "*", " ", "*", " ", "*"];
    assert Concat(rs) == "* * * *";
    assert IsWordRun("*") && IsBlankRun(" ");
    WordFirstAlternates(rs);
    NotValidBy("* * * *", rs);
  }

  /** A list of three is not a field. */
  lemma RejectsTripleList()
    ensures !IsValidCronExpression("1,2,3 * * * *")
  {
    TripleListNotField();
    assert IsWordRun("*") && IsBlankRun(" ");
    var rs := ["1,2,3", " ", "*", " ", "*", " ", "*", " ", "*"];
    Concat9(rs);
    WordFirstAlternates(rs);
    NotValidBy("1,2,3 * * * *", rs);
  }

  /** `1,2,3` is a run of non-whitespace but matches no field form. */
  lemma TripleListNotField()
    ensures IsWordRun("1,2,3") && !IsField("1,2,3")
  {
    var f := "1,2,3";
    assert !IsNumber(f) by { assert f[1] == ','; }
    assert !IsNumber(f[..3]) by { assert f[..3][1] == ','; }
    assert !IsNumber(f[2..]) by { assert f[2..][1] == ','; }
    forall i | 0 < i < |f| && f[i] == ','
      ensures !(IsNumber(f[..i]) && IsNumber(f[i + 1..]))
    {
      assert i == 1 || i == 3;
    }
    assert !IsNumberPair(f, '-') by {
      forall i | 0 < i < |f| ensures f[i] != '-' { }
    }
  }

  /** A step needs a number. */
  lemma RejectsEmptyStep()
    ensures !IsValidCronExpression("*/ * * * *")
  {
    assert IsWordRun("*") && IsBlankRun(" ");
    var rs := ["*/", " ", "*", " ", "*", " ", "*", " ", "*"];
    Concat9(rs);
    assert IsWordRun("*/");
    WordFirstAlternates(rs);
    assert !IsNumber("*/"[..1]);
    assert !IsNumber("*/") by { assert "*/"[0] == '*'; }
    NotValidBy("*/ * * * *", rs);
  }

  /** A leading space is rejected: the pattern is anchored. */
  lemma RejectsLeadingSpace()
    ensures !IsValidCronExpression(" 0 9 * * *")
  {
    if IsValidCronExpression(" 0 9 * * *") {
      ValidHasNoOuterWhitespace(" 0 9 * * *");
    }
  }

  // ---------------------------------------------------------------------
  // The describer
  // ---------------------------------------------------------------------

  /** `s.split(' ')`: cut at every single space, keeping empty pieces. */
  function SplitOnSpace(s: string): (parts: seq<string>)
    ensures |parts| >= 1
    ensures forall i :: 0 <= i < |parts| ==> ' ' !in parts[i]
  {
    if s == [] then [""]
    else
      var rest := SplitOnSpace(s[1..]);
      if s[0] == ' ' then [""] + rest else [[s[0]] + rest[0]] + rest[1..]
  }

  /** `parts.join(' ')`. */
  function JoinWithSpace(parts: seq<string>): string
    requires |parts| >= 1
  {
    if |parts| == 1 then parts[0] else parts[0] + (" " + JoinWithSpace(parts[1..]))
  }

  /** The number of space characters in `s`. */
  function CountSpaces(s: string): nat {
    if s == [] then 0 else (if s[0] == ' ' then 1 else 0) + CountSpaces(s[1..])
  }

  /** Joining the pieces of a split gives the string back. */
  lemma {:induction false} SplitThenJoin(s: string)
    ensures JoinWithSpace(SplitOnSpace(s)) == s
    ensures |SplitOnSpace(s)| == CountSpaces(s) + 1
  {
    if s != [] {
      SplitThenJoin(s[1..]);
      var rest := SplitOnSpace(s[1..]);
      if s[0] == ' ' {
        assert ([""] + rest)[1..] == rest;
      } else if |rest| > 1 {
        assert ([[s[0]] + rest[0]] + rest[1..])[1..] == rest[1..];
      }
    }
  }

  lemma {:induction false} SplitWord(a: string, t: string)
    requires ' ' !in a
    ensures SplitOnSpace(a + t) == [a + SplitOnSpace(t)[0]] + SplitOnSpace(t)[1..]
  {
    var x := SplitOnSpace(t);
    if a == [] {
      assert a + t == t;
      assert a + x[0] == x[0];
      assert x == [x[0]] + x[1..];
    } else {
      assert (a + t)[1..] == a[1..] + t;
      SplitWord(a[1..], t);
      var rest := SplitOnSpace(a[1..] + t);
      assert rest[0] == a[1..] + x[0] && rest[1..] == x[1..];
      assert [a[0]] + (a[1..] + x[0]) == a + x[0];
    }
  }

  /** Splitting pieces that hold no space, joined by single spaces, gives
      the pieces back. */
  lemma {:induction false} JoinThenSplit(parts: seq<string>)
    requires |parts| >= 1 && forall i :: 0 <= i < |parts| ==> ' ' !in parts[i]
    ensures SplitOnSpace(JoinWithSpace(parts)) == parts
  {
    if |parts| == 1 {
      SplitWord(parts[0], "");
      assert parts[0] + "" == parts[0];
    } else {
      JoinThenSplit(parts[1..]);
      var t := JoinWithSpace(parts[1..]);
      assert parts[0] + " " + t == parts[0] + (" " + t);
      SplitWord(parts[0], " " + t);
      assert (" " + t)[1..] == t;
      assert SplitOnSpace(" " + t) == [""] + parts[1..];
      assert parts[0] + "" == parts[0];
    }
  }

  const InvalidDescription := "Invalid cron expression"

  /** The sentence for five pieces outside the four known schedules. */
  function Template(minute: string, hour: string, day: string, month: string, dayOfWeek: string): string {
    "Runs at " + minute + " minutes past hour " + hour + " on day " + day + " of month " + month
    + " and day " + dayOfWeek + " of week"
  }

  /** `describeCronExpression`: defined on every string. */
  function Describe(s: string): string {
    var parts := SplitOnSpace(s);
    if |parts| != 5 then InvalidDescription
    else if s == "0 0 * * *" then "At 12:00 AM every day"
    else if s == "0 9 * * *" then "At 9:00 AM every day"
    else if s == "0 0 * * 0" then "At 12:00 AM every Sunday"
    else if s == "0 0 1 * *" then "At 12:00 AM on the 1st of every month"
    else Template(parts[0], parts[1], parts[2], parts[3], parts[4])
  }

  /** `JoinWithSpace` of five pieces, written out. */
  lemma Join5(parts: seq<string>)
    requires |parts| == 5
    ensures JoinWithSpace(parts) == parts[0] + (" " + (parts[1] + (" " + (parts[2] + (" " + (parts[3] + (" " + parts[4])))))))
  {
    JoinFrom(parts, 0); JoinFrom(parts, 1); JoinFrom(parts, 2); JoinFrom(parts, 3);
    assert parts[0..] == parts;
    assert JoinWithSpace(parts[4..]) == parts[4];
  }

  /** `JoinWithSpace` from position `k` on, when a later piece follows. */
  lemma JoinFrom(parts: seq<string>, k: nat)
    requires k + 1 < |parts|
    ensures JoinWithSpace(parts[k..]) == parts[k] + (" " + JoinWithSpace(parts[k + 1..]))
  {
    assert parts[k..][1..] == parts[k + 1..];
  }

  /** Five space-free pieces joined by single spaces split back into them. */
  lemma SplitFive(s: string, parts: seq<string>)
    requires |parts| == 5 && forall i :: 0 <= i < 5 ==> ' ' !in parts[i]
    requires s == parts[0] + (" " + (parts[1] + (" " + (parts[2] + (" " + (parts[3] + (" " + parts[4])))))))
    ensures SplitOnSpace(s) == parts
  {
    Join5(parts);
    JoinThenSplit(parts);
  }

  /** The describer says "invalid" exactly when `split(' ')` does not give
      five pieces. */
  lemma DescribeInvalidIffPieces(s: string)
    ensures Describe(s) == InvalidDescription <==> |SplitOnSpace(s)| != 5
  {
    var parts := SplitOnSpace(s);
    if |parts| == 5 {
      var t := Template(parts[0], parts[1], parts[2], parts[3], parts[4]);
      assert t[0] == 'R';
      assert InvalidDescription[0] == 'I';
    }
  }

  /** The describer calls an expression invalid exactly when it does not
      hold four space characters. */
  lemma DescribeInvalidIff(s: string)
    ensures Describe(s) == InvalidDescription <==> CountSpaces(s) != 4
  {
    SplitThenJoin(s);
    DescribeInvalidIffPieces(s);
  }

  /** The four known schedules get their fixed sentences. */
  lemma DescribeDailyMidnight()
    ensures Describe("0 0 * * *") == "At 12:00 AM every day"
  {
    SplitFive("0 0 * * *", ["0", "0", "*", "*", "*"]);
  }

  lemma DescribeDailyNine()
    ensures Describe("0 9 * * *") == "At 9:00 AM every day"
  {
    SplitFive("0 9 * * *", ["0", "9", "*", "*", "*"]);
    assert "0 9 * * *" != "0 0 * * *" by { assert "0 9 * * *"[2] != "0 0 * * *"[2]; }
  }

  lemma DescribeSundayMidnight()
    ensures Describe("0 0 * * 0") == "At 12:00 AM every Sunday"
  {
    SplitFive("0 0 * * 0", ["0", "0", "*", "*", "0"]);
    assert "0 0 * * 0" != "0 0 * * *" by { assert "0 0 * * 0"[8] != "0 0 * * *"[8]; }
    assert "0 0 * * 0" != "0 9 * * *" by { assert "0 0 * * 0"[2] != "0 9 * * *"[2]; }
  }

  lemma DescribeMonthlyFirst()
    ensures Describe("0 0 1 * *") == "At 12:00 AM on the 1st of every month"
  {
    SplitFive("0 0 1 * *", ["0", "0", "1", "*", "*"]);
    assert "0 0 1 * *" != "0 0 * * *" by { assert "0 0 1 * *"[4] != "0 0 * * *"[4]; }
    assert "0 0 1 * *" != "0 9 * * *" by { assert "0 0 1 * *"[2] != "0 9 * * *"[2]; }
    assert "0 0 1 * *" != "0 0 * * 0" by { assert "0 0 1 * *"[4] != "0 0 * * 0"[4]; }
  }

  /** Any other five space-free pieces joined by single spaces are recited
      in order: minute, hour, day, month, day of week. */
  lemma DescribeRecitesFields(minute: string, hour: string, day: string, month: string, dayOfWeek: string)
    requires ' ' !in minute && ' ' !in hour && ' ' !in day && ' ' !in month && ' ' !in dayOfWeek
    requires JoinWithSpace([minute, hour, day, month, dayOfWeek])
             !in {"0 0 * * *", "0 9 * * *", "0 0 * * 0", "0 0 1 * *"}
    ensures Describe(JoinWithSpace([minute, hour, day, month, dayOfWeek]))
            == Template(minute, hour, day, month, dayOfWeek)
  {
    JoinThenSplit([minute, hour, day, month, dayOfWeek]);
  }

  /** When every separator of a valid expression is one space, the describer
      sees the same five fields the checker saw and never says "invalid". */
  lemma SingleSpacedValidIsDescribed(s: string)
    requires IsValidCronExpression(s)
    requires Runs(s)[1] == Runs(s)[3] == Runs(s)[5] == Runs(s)[7] == " "
    ensures SplitOnSpace(s) == [Runs(s)[0], Runs(s)[2], Runs(s)[4], Runs(s)[6], Runs(s)[8]]
    ensures Describe(s) != InvalidDescription
  {
    var rs := Runs(s);
    var fields := [rs[0], rs[2], rs[4], rs[6], rs[8]];
    FieldIsWord(rs[0]); FieldIsWord(rs[2]); FieldIsWord(rs[4]); FieldIsWord(rs[6]); FieldIsWord(rs[8]);
    forall i | 0 <= i < 5 ensures ' ' !in fields[i] {
      assert IsWordRun(fields[i]);
    }
    Concat9(rs);
    SplitFive(s, fields);
    DescribeInvalidIffPieces(s);
  }

  lemma DoubleSpaceAccepted()
    ensures IsValidCronExpression("0  9 * * *")
  {
    assert IsNumber("0") && IsNumber("9") && IsBlankRun(" ") && IsBlankRun("  ");
    ValidBy("0  9 * * *", ["0", "  ", "9", " ", "*", " ", "*", " ", "*"]);
  }

  lemma DoubleSpaceDescribedInvalid()
    ensures Describe("0  9 * * *") == InvalidDescription
  {
    var parts := ["0", "", "9", "*", "*", "*"];
    assert parts[0..] == parts;
    JoinFrom(parts, 0); JoinFrom(parts, 1); JoinFrom(parts, 2); JoinFrom(parts, 3); JoinFrom(parts, 4);
    assert JoinWithSpace(parts[5..]) == "*";
    assert JoinWithSpace(parts) == "0  9 * * *";
    JoinThenSplit(parts);
    DescribeInvalidIffPieces("0  9 * * *");
  }

  lemma TabsAccepted()
    ensures IsValidCronExpression("0\t9\t*\t*\t*")
  {
    assert IsNumber("0") && IsNumber("9") && IsBlankRun("\t");
    ValidBy("0\t9\t*\t*\t*", ["0", "\t", "9", "\t", "*", "\t", "*", "\t", "*"]);
  }

  lemma TabsDescribedInvalid()
    ensures Describe("0\t9\t*\t*\t*") == InvalidDescription
  {
    var s := "0\t9\t*\t*\t*";
    assert ' ' !in s;
    SplitWord(s, "");
    assert s + "" == s;
    DescribeInvalidIffPieces(s);
  }

  /** The two functions disagree on separators: the checker accepts any run
      of whitespace, the describer cuts at single spaces. An accepted
      expression whose space count is not four is described as invalid. */
  lemma SeparatorGap()
    ensures IsValidCronExpression("0  9 * * *") && Describe("0  9 * * *") == InvalidDescription
    ensures IsValidCronExpression("0\t9\t*\t*\t*") && Describe("0\t9\t*\t*\t*") == InvalidDescription
  {
    DoubleSpaceAccepted();
    DoubleSpaceDescribedInvalid();
    TabsAccepted();
    TabsDescribedInvalid();
  }

  /** With exactly four spaces the describer recites, whatever the other
      whitespace: a space followed by a tab is one separator to the checker,
      but the tab stays inside the describer's hour field. */
  lemma TabInsideFieldRecited()
    ensures IsValidCronExpression("0 \t9 * * *")
    ensures Describe("0 \t9 * * *") == Template("0", "\t9", "*", "*", "*")
  {
    TabInsideFieldAccepted();
    TabInsideFieldDescribed();
  }

  lemma TabInsideFieldAccepted()
    ensures IsValidCronExpression("0 \t9 * * *")
  {
    assert IsNumber("0") && IsNumber("9") && IsBlankRun(" \t") && IsBlankRun(" ");
    ValidBy("0 \t9 * * *", ["0", " \t", "9", " ", "*", " ", "*", " ", "*"]);
  }

  lemma TabInsideFieldDescribed()
    ensures Describe("0 \t9 * * *") == Template("0", "\t9", "*", "*", "*")
  {
    var s := "0 \t9 * * *";
    SplitFive(s, ["0", "\t9", "*", "*", "*"]);
    assert s != "0 0 * * *" by { assert s[2] != "0 0 * * *"[2]; }
    assert s != "0 9 * * *" by { assert s[2] != "0 9 * * *"[2]; }
    assert s != "0 0 * * 0" by { assert s[2] != "0 0 * * 0"[2]; }
    assert s != "0 0 1 * *" by { assert s[2] != "0 0 1 * *"[2]; }
  }

  lemma LetterFieldRejected()
    ensures !IsValidCronExpression("a * * * *")
  {
    assert IsWordRun("*") && IsBlankRun(" ");
    var rs := ["a", " ", "*", " ", "*", " ", "*", " ", "*"];
    Concat9(rs);
    assert IsWordRun("a");
    WordFirstAlternates(rs);
    assert !IsNumber("a") by { assert !IsDigit("a"[0]); }
    NotValidBy("a * * * *", rs);
  }

  /** A field the checker refuses is still recited by the describer. */
  lemma DescribeLetterField()
    ensures Describe("a * * * *") == Template("a", "*", "*", "*", "*")
  {
    var s := "a * * * *";
    SplitFive(s, ["a", "*", "*", "*", "*"]);
    assert s != "0 0 * * *" by { assert s[0] != "0 0 * * *"[0]; }
    assert s != "0 9 * * *" by { assert s[0] != "0 9 * * *"[0]; }
    assert s != "0 0 * * 0" by { assert s[0] != "0 0 * * 0"[0]; }
    assert s != "0 0 1 * *" by { assert s[0] != "0 0 1 * *"[0]; }
  }

  /** The describer does not check syntax: five space-separated pieces that
      the checker rejects still get the template. */
  lemma DescribeIgnoresSyntax()
    ensures !IsValidCronExpression("a * * * *")
    ensures Describe("a * * * *") == Template("a", "*", "*", "*", "*")
  {
    LetterFieldRejected();
    DescribeLetterField();
  }
}
