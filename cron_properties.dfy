/** What the description of a cron expression promises: the field-count
    check, the idiom table, the clock-time override, the name lookups and the
    shape of the joined sentence. */
module CronProperties {
  import opened JsString
  import opened CronDescription

  /** Five fields none of which holds a space. */
  predicate SpaceFree(fields: seq<string>)
  {
    forall i :: 0 <= i < |fields| ==> ' ' !in fields[i]
  }

  /** Joining five space-free fields with single spaces gives an expression
      whose description is its idiom sentence, if it is one, and otherwise
      the fragments of exactly those fields joined by spaces. */
  lemma DescribeFields(fields: seq<string>)
    requires |fields| == 5 && SpaceFree(fields)
    ensures Split(Join(fields, " "), ' ') == fields
    ensures Idiom(Join(fields, " ")).Some? ==> Describe(Join(fields, " ")) == Idiom(Join(fields, " ")).value
    ensures Idiom(Join(fields, " ")).None? ==> Describe(Join(fields, " ")) == Join(Fragments(fields), " ")
  {
    assert " " == [' '];
    SplitJoin(fields, ' ');
    var frags := Fragments(fields);
    JoinHead(frags, " ");
  }

  /** The description is never empty, and it starts with the first letter of
      the invalid-expression text, of an idiom sentence, of a minute fragment
      or of the clock time. */
  lemma DescribeHead(expr: string)
    ensures |Describe(expr)| > 0 && Describe(expr)[0] in "IEFAMa"
    ensures |Split(expr, ' ')| == 5 && Idiom(expr).None? ==> Describe(expr)[0] in "EAMa"
  {
    var fields := Split(expr, ' ');
    if |fields| != 5 {
      assert Describe(expr) == InvalidExpression;
    } else if Idiom(expr).Some? {
      assert Describe(expr) == Idiom(expr).value;
    } else {
      var frags := Fragments(fields);
      assert Describe(expr) == Join(frags, " ");
      JoinHead(frags, " ");
    }
  }

  /** The description is "Invalid expression" exactly when the expression
      does not hold four spaces, that is when splitting it on single spaces
      does not give five fields. Consecutive spaces give empty fields, which
      count. */
  lemma InvalidIffNotFiveFields(expr: string)
    ensures Describe(expr) == InvalidExpression <==> Count(expr, ' ') != 4
  {
    DescribeHead(expr);
  }

  /** Each idiom string splits into five fields, so it reaches the idiom
      table and gets its canned sentence. */
  lemma IdiomSentence(expr: string)
    requires Idiom(expr).Some?
    ensures Describe(expr) == Idiom(expr).value
  {
    IdiomSplit(expr);
  }

  /** An idiom sentence starting with "F" is reached only from its idiom:
      no fragment starts with that letter. */
  lemma FirstDayOnlyFromIdiom(expr: string)
    ensures Describe(expr)[0] == 'F' <==> expr == "0 0 1 * *"
  {
    DescribeHead(expr);
    if expr == "0 0 1 * *" {
      FirstDayIdiom();
      IdiomSentence(expr);
    } else {
      if Idiom(expr).Some? {
        IdiomHeads(expr);
        IdiomSentence(expr);
      }
    }
  }

  lemma FirstDayIdiom()
    ensures Idiom("0 0 1 * *") == Some("First day of every month at midnight")
  {
  }

  /** Only the first-day idiom has a sentence starting with "F". */
  lemma IdiomHeads(expr: string)
    requires Idiom(expr).Some? && expr != "0 0 1 * *"
    ensures Idiom(expr).value[0] == 'E'
  {
    if expr == "* * * * *" {
    } else if expr == "0 * * * *" {
    } else if expr == "0 0 * * *" {
    } else if expr == "0 0 * * 0" {
    } else {
      assert expr == "0 0 1 1 *";
      assert Idiom(expr).value == "Every January 1st at midnight";
    }
  }

  /** "Every minute" is the description of `* * * * *` and of nothing else:
      when the minute fragment survives, an hour fragment follows it, and the
      two are always longer than that sentence. */
  lemma EveryMinuteOnlyFromIdiom(expr: string)
    ensures Describe(expr) == "Every minute" <==> expr == "* * * * *"
  {
    if Idiom(expr).Some? {
      IdiomSentence(expr);
    }
    var fields := Split(expr, ' ');
    if |fields| == 5 && Idiom(expr).None? {
      var frags := Fragments(fields);
      var m, h := fields[0], fields[1];
      if TimeShape(h) == Other {
        JoinHead(frags, " ");
        assert frags[0][0] == 'a';
      } else {
        assert frags[0] == MinuteFragment(m) && frags[1] == HourFragment(h);
        assert |frags[0]| >= 9 by {
          match TimeShape(m)
          case Wildcard =>
          case Step =>
          case List =>
          case Range =>
            assert '-' in m;
          case Other =>
        }
        assert |frags[1]| >= 7 by {
          match TimeShape(h)
          case Wildcard =>
          case Step =>
          case List =>
            assert ',' in h;
          case Range =>
            assert '-' in h;
        }
        JoinLength(frags, " ");
      }
    }
  }

  /** A plain hour (not `*` and without `/`, `,` or `-`) replaces the
      minute fragment by the zero-padded clock time, whatever the shape of
      the minute field. Only `0 0 * * *` is caught first by the idiom
      table. */
  lemma ClockOverride(m: string, h: string)
    requires ' ' !in m && ' ' !in h
    requires TimeShape(h) == Other
    requires !(m == "0" && h == "0")
    ensures Describe(Join([m, h, "*", "*", "*"], " ")) == "at " + Pad2(h) + ":" + Pad2(m)
  {
    var fields := [m, h, "*", "*", "*"];
    DescribeFields(fields);
    IdiomFields(fields);
    TimeOnlyNotIdiom(m, h);
    TimeOnlyFragments(m, h);
  }

  /** When the hour is not a plain value, the minute fragment stays first and
      one hour fragment follows it. */
  lemma MinuteFragmentKept(m: string, h: string)
    requires ' ' !in m && ' ' !in h
    requires TimeShape(h) != Other
    requires !(h == "*" && (m == "*" || m == "0"))
    ensures Describe(Join([m, h, "*", "*", "*"], " ")) == MinuteFragment(m) + " " + HourFragment(h)
  {
    var fields := [m, h, "*", "*", "*"];
    DescribeFields(fields);
    IdiomFields(fields);
    TimeOnlyNotIdiom(m, h);
    TimeOnlyFragments(m, h);
    var frags := TimeFragments(m, h);
    assert frags[1..] == [HourFragment(h)];
  }

  /** The worked example `30 14 * * *`: two o'clock in the afternoon, half past. */
  lemma ClockExample1()
    ensures Describe("30 14 * * *") == "at 14:30"
  {
    ClockExample1Split();
    ClockExample1Fragments();
    NotIdiom("30 14 * * *");
    DescribeVia("30 14 * * *", ["30", "14", "*", "*", "*"], "at 14:30");
  }

  lemma ClockExample1Split()
    ensures Split("30 14 * * *", ' ') == ["30", "14", "*", "*", "*"]
  {
    FieldsOf(["30", "14", "*", "*", "*"], "30 14 * * *");
  }

  lemma ClockExample1Fragments()
    ensures Fragments(["30", "14", "*", "*", "*"]) == ["at 14:30"]
  {
    assert TimeShape("14") == Other;
    assert Pad2("14") == "14" && Pad2("30") == "30";
    assert ClockFragment("30", "14") == "at 14:30";
    ClockExampleFragments("30", "14", "at 14:30");
  }

  /** The worked example `5 9 * * *`: both numbers are padded to two digits. */
  lemma ClockExample2()
    ensures Describe("5 9 * * *") == "at 09:05"
  {
    ClockExample2Split();
    ClockExample2Fragments();
    NotIdiom("5 9 * * *");
    DescribeVia("5 9 * * *", ["5", "9", "*", "*", "*"], "at 09:05");
  }

  lemma ClockExample2Split()
    ensures Split("5 9 * * *", ' ') == ["5", "9", "*", "*", "*"]
  {
    FieldsOf(["5", "9", "*", "*", "*"], "5 9 * * *");
  }

  lemma ClockExample2Fragments()
    ensures Fragments(["5", "9", "*", "*", "*"]) == ["at 09:05"]
  {
    assert TimeShape("9") == Other;
    assert ClockFragment("5", "9") == "at 09:05";
    ClockExampleFragments("5", "9", "at 09:05");
  }

  /** A step minute is swallowed by the clock time of a plain hour, which pads it as text. */
  lemma ClockExample3()
    ensures Describe("*/15 9 * * *") == "at 09:*/15"
  {
    ClockExample3Split();
    ClockExample3Fragments();
    NotIdiom("*/15 9 * * *");
    DescribeVia("*/15 9 * * *", ["*/15", "9", "*", "*", "*"], "at 09:*/15");
  }

  lemma ClockExample3Split()
    ensures Split("*/15 9 * * *", ' ') == ["*/15", "9", "*", "*", "*"]
  {
    FieldsOf(["*/15", "9", "*", "*", "*"], "*/15 9 * * *");
  }

  lemma ClockExample3Fragments()
    ensures Fragments(["*/15", "9", "*", "*", "*"]) == ["at 09:*/15"]
  {
    assert TimeShape("9") == Other;
    assert ClockFragment("*/15", "9") == "at 09:*/15";
    ClockExampleFragments("*/15", "9", "at 09:*/15");
  }

  /** A double space makes an empty field: with four fields around it there are
      five parts and no validation, so the empty hour reads as a plain value
      and pads to "00". */
  lemma ClockExample4()
    ensures Describe("0  * * *") == "at 00:00"
  {
    ClockExample4Split();
    ClockExample4Fragments();
    NotIdiom("0  * * *");
    DescribeVia("0  * * *", ["0", "", "*", "*", "*"], "at 00:00");
  }

  lemma ClockExample4Split()
    ensures Split("0  * * *", ' ') == ["0", "", "*", "*", "*"]
  {
    FieldsOf(["0", "", "*", "*", "*"], "0  * * *");
  }

  lemma ClockExample4Fragments()
    ensures Fragments(["0", "", "*", "*", "*"]) == ["at 00:00"]
  {
    assert TimeShape("") == Other;
    assert ClockFragment("0", "") == "at 00:00";
    ClockExampleFragments("0", "", "at 00:00");
  }

  /** The fragments of an expression with a plain hour and the last three
      fields `*` are the clock time alone. */
  lemma ClockExampleFragments(m: string, h: string, clock: string)
    requires TimeShape(h) == Other && ClockFragment(m, h) == clock
    ensures Fragments([m, h, "*", "*", "*"]) == [clock]
  {
    TimeOnlyFragments(m, h);
  }

  /** A double space between five fields gives six parts, so the expression
      is invalid. */
  lemma EmptyFieldInvalid()
    ensures Describe("0  0 * * *") == InvalidExpression
  {
    EmptyFieldCount();
    InvalidIffNotFiveFields("0  0 * * *");
  }

  lemma EmptyFieldCount()
    ensures Count("0  0 * * *", ' ') == 5
  {
  }

  /** A field holding both `,` and `/` is a step to the minute and hour
      branches and a list to the day-of-month branch. */
  lemma ListStepOrder(f: string)
    requires ',' in f && '/' in f
    ensures MinuteFragment(f) == "Every " + AfterFirst(f, '/') + " minutes"
    ensures HourFragment(f) == "every " + AfterFirst(f, '/') + " hours"
    ensures DayOfMonthFragments(f) == ["on days " + f]
  {
  }

  /** Looking up a canonical numeral, followed by any text that does not
      start with a digit, gives the table entry when the index is in range
      and the entry is not empty, and the raw text otherwise. */
  lemma LookupNumeral(names: seq<string>, n: nat, t: string)
    requires t == [] || !IsDigit(t[0])
    ensures LookupName(names, Decimal(n) + t) ==
      if n < |names| && names[n] != "" then names[n] else Decimal(n) + t
  {
    ParseIntOfDecimal(n, t);
  }

  /** Months 1 to 12 are named. */
  lemma MonthsNamed()
    ensures forall n :: 1 <= n <= 12 ==> LookupName(Months, Decimal(n)) == Months[n]
  {
    forall n | 1 <= n <= 12 ensures LookupName(Months, Decimal(n)) == Months[n] {
      LookupNumeral(Months, n, "");
      assert Decimal(n) + "" == Decimal(n);
    }
  }

  /** Month 0 is not named, because its table entry is empty, and neither is
      month 13, which is past the end of the table. */
  lemma MonthsUnnamed()
    ensures LookupName(Months, "0") == "0" && LookupName(Months, "13") == "13"
  {
    assert Months[0] == "";
    assert ParseInt("0") == Some(0);
    assert LeadingDigits("13") == "13";
    assert ParseInt("13") == Some(13);
  }

  /** A zero-padded month is named as well: `parseInt` ignores leading zeros. */
  lemma ZeroPaddedMonth()
    ensures LookupName(Months, "01") == Months[1]
  {
    ParseIntOfDigits("01", "");
    assert "01" + "" == "01";
    assert DecimalValue("01") == 1 by {
      assert "01"[..1] == "0";
      assert "0"[..0] == "";
    }
  }

  /** Day 0 is Sunday; day 7 is past the end of the table and not named. */
  lemma DayNames()
    ensures LookupName(Days, "0") == "Sunday" && LookupName(Days, "7") == "7"
  {
    assert ParseInt("0") == Some(0);
    assert ParseInt("7") == Some(7);
  }

  /** A two-element list is looked up element by element. */
  lemma LookupPair(names: seq<string>, a: string, b: string)
    requires ',' !in a && ',' !in b
    ensures LookupList(names, a + "," + b) == LookupName(names, a) + ", " + LookupName(names, b)
  {
    var elems := [a, b];
    assert "," == [','];
    assert elems[1..] == [b];
    assert Join(elems, [',']) == a + "," + b;
    SplitJoin(elems, ',');
    var named := LookupEach(names, elems);
    assert named == [LookupName(names, a), LookupName(names, b)];
    assert named[1..] == [LookupName(names, b)];
    assert Join(named, ", ") == named[0] + ", " + named[1];
    assert Split(a + "," + b, ',') == elems;
  }

  /** Any list of comma-free elements is looked up element by element and
      joined with ", ". */
  lemma LookupListOf(names: seq<string>, elems: seq<string>)
    requires |elems| >= 1
    requires forall i :: 0 <= i < |elems| ==> ',' !in elems[i]
    ensures LookupList(names, Join(elems, ",")) == Join(LookupEach(names, elems), ", ")
  {
    assert "," == [','];
    SplitJoin(elems, ',');
  }

  /** A month list containing a range is still read as a list, each element
      named by its leading number. */
  lemma MonthListExample()
    ensures NameFragments("1-3,5", Months, "in ") == ["in " + (Months[1] + ", " + Months[5])]
  {
    MonthListLookup();
    assert "1-3,5"[3] == ',';
    assert DayShape("1-3,5") == List;
  }

  lemma MonthListLookup()
    ensures LookupList(Months, "1-3,5") == Months[1] + ", " + Months[5]
  {
    SplitMonthList();
    assert Months[1] != "" && Months[5] != "";
    LookupNumeral(Months, 1, "-3");
    assert Decimal(1) + "-3" == "1-3";
    LookupNumeral(Months, 5, "");
    assert Decimal(5) + "" == "5";
    assert LookupName(Months, "1-3") == Months[1];
    assert LookupName(Months, "5") == Months[5];
    var named := LookupEach(Months, ["1-3", "5"]);
    assert |named| == 2 && named[0] == Months[1] && named[1] == Months[5];
    assert named[1..] == [Months[5]];
    assert Join(named, ", ") == Months[1] + ", " + Months[5];
  }

  lemma SplitMonthList()
    ensures Split("1-3,5", ',') == ["1-3", "5"]
  {
    var elems := ["1-3", "5"];
    assert elems[1..] == ["5"];
    assert Join(elems, [',']) == "1-3,5";
    SplitJoin(elems, ',');
  }

  /** A month or day-of-week field with a step or a range and no list
      contributes nothing. */
  lemma NoNameForStepOrRange(f: string, names: seq<string>, prefix: string)
    requires prefix != ""
    requires ',' !in f && ('/' in f || '-' in f)
    ensures NameFragments(f, names, prefix) == []
  {
  }

  // ---------------------------------------------------------------------------
  // Helpers

  /** Every idiom string is nine characters long and starts with `*` or `0`. */
  lemma NotIdiom(expr: string)
    requires |expr| != 9 || (expr[0] != '*' && expr[0] != '0')
    ensures Idiom(expr).None?
  {
    if |expr| == 9 {
      assert "* * * * *"[0] == '*';
      assert "0 * * * *"[0] == '0';
    }
  }

  /** The description of a five-field expression that is not an idiom is its
      joined fragments. */
  lemma DescribeVia(expr: string, fields: seq<string>, text: string)
    requires Split(expr, ' ') == fields && |fields| == 5
    requires Idiom(expr).None?
    requires Join(Fragments(fields), " ") == text
    ensures Describe(expr) == text
  {
    JoinHead(Fragments(fields), " ");
  }

  /** Of the expressions whose last three fields are `*`, only the first three
      idioms are in the idiom table. */
  lemma TimeOnlyNotIdiom(m: string, h: string)
    requires !(m == "0" && h == "0") && !(h == "*" && (m == "*" || m == "0"))
    ensures [m, h, "*", "*", "*"] !in IdiomFieldTable
  {
    var fields := [m, h, "*", "*", "*"];
    assert fields != IdiomFieldTable[0] && fields != IdiomFieldTable[1] && fields != IdiomFieldTable[2];
    assert fields[4] != IdiomFieldTable[3][4];
    assert fields[2] != IdiomFieldTable[4][2];
    assert fields[2] != IdiomFieldTable[5][2];
  }

  /** With the last three fields `*`, only the minute and hour give fragments. */
  lemma TimeOnlyFragments(m: string, h: string)
    ensures Fragments([m, h, "*", "*", "*"]) == TimeFragments(m, h)
  {
    assert DayOfMonthFragments("*") == [];
    assert NameFragments("*", Months, "in ") == [];
    assert NameFragments("*", Days, "on ") == [];
    assert TimeFragments(m, h) + [] + [] + [] == TimeFragments(m, h);
  }

  /** The fields of the six idiom strings. */
  const IdiomFieldTable: seq<seq<string>> := [
    ["*", "*", "*", "*", "*"], ["0", "*", "*", "*", "*"], ["0", "0", "*", "*", "*"],
    ["0", "0", "*", "*", "0"], ["0", "0", "1", "*", "*"], ["0", "0", "1", "1", "*"]]

  /** Fields joined by single spaces split back into the same fields. */
  lemma FieldsOf(fields: seq<string>, expr: string)
    requires |fields| == 5 && SpaceFree(fields)
    requires Join(fields, " ") == expr
    ensures Split(expr, ' ') == fields
  {
    assert " " == [' '];
    SplitJoin(fields, ' ');
  }

  lemma SplitIdiom0() ensures Split("* * * * *", ' ') == IdiomFieldTable[0] { FieldsOf(IdiomFieldTable[0], "* * * * *"); }
  lemma SplitIdiom1() ensures Split("0 * * * *", ' ') == IdiomFieldTable[1] { FieldsOf(IdiomFieldTable[1], "0 * * * *"); }
  lemma SplitIdiom2() ensures Split("0 0 * * *", ' ') == IdiomFieldTable[2] { FieldsOf(IdiomFieldTable[2], "0 0 * * *"); }
  lemma SplitIdiom3() ensures Split("0 0 * * 0", ' ') == IdiomFieldTable[3] { FieldsOf(IdiomFieldTable[3], "0 0 * * 0"); }
  lemma SplitIdiom4() ensures Split("0 0 1 * *", ' ') == IdiomFieldTable[4] { FieldsOf(IdiomFieldTable[4], "0 0 1 * *"); }
  lemma SplitIdiom5() ensures Split("0 0 1 1 *", ' ') == IdiomFieldTable[5] { FieldsOf(IdiomFieldTable[5], "0 0 1 1 *"); }

  /** An idiom string splits into one of the six field lists. */
  lemma IdiomSplit(expr: string)
    requires Idiom(expr).Some?
    ensures Split(expr, ' ') in IdiomFieldTable
  {
    if expr == "* * * * *" { SplitIdiom0(); }
    else if expr == "0 * * * *" { SplitIdiom1(); }
    else if expr == "0 0 * * *" { SplitIdiom2(); }
    else if expr == "0 0 * * 0" { SplitIdiom3(); }
    else if expr == "0 0 1 * *" { SplitIdiom4(); }
    else { SplitIdiom5(); }
  }

  /** Five space-free fields joined by spaces form an idiom only when they
      are one of the six idiom field lists. */
  lemma IdiomFields(fields: seq<string>)
    requires |fields| == 5 && SpaceFree(fields)
    ensures Idiom(Join(fields, " ")).Some? ==> fields in IdiomFieldTable
  {
    var expr := Join(fields, " ");
    FieldsOf(fields, expr);
    if Idiom(expr).Some? {
      IdiomSplit(expr);
    }
  }
}
