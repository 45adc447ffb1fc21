/** The human-readable description of a five-field cron expression
    (`describeCron` in server.js).

    The specification is the function `Describe`: it sorts each field into a
    `Shape`, maps each shape to a sentence fragment and joins the fragments.
    The method `DescribeCron` is the source's own procedure, which tests the
    raw field text and pushes fragments onto a local list, shifting the
    minute fragment off again when the hour is a plain value; its contract is
    that it computes `Describe`. */
module CronDescription {
  import opened JsString

  /** Month names by number; index 0 holds the empty string, so a month
      written as 0 has no name. */
  const Months: seq<string> := ["", "January", "February", "March", "April", "May", "June",
                                "July", "August", "September", "October", "November", "December"]

  /** Day-of-week names, Sunday first. */
  const Days: seq<string> := ["Sunday", "Monday", "Tuesday", "Wednesday", "Thursday", "Friday", "Saturday"]

  /** The text the description falls back to when the split does not give five fields. */
  const InvalidExpression := "Invalid expression"

  /** The text for an empty list of fragments. */
  const CustomSchedule := "Custom schedule"

  /** How one field is read: exactly `*`, a step (`/`), a list (`,`), a range
      (`-`) or anything else. Nothing is checked about the digits. */
  datatype Shape = Wildcard | Step | List | Range | Other

  /** Minute and hour fields test `/` before `,` before `-`. */
  function TimeShape(f: string): (shape: Shape)
    ensures shape == Wildcard <==> f == "*"
    ensures shape == Step <==> f != "*" && '/' in f
    ensures shape == List <==> f != "*" && '/' !in f && ',' in f
    ensures shape == Other <==> f != "*" && '/' !in f && ',' !in f && '-' !in f
  {
    if f == "*" then Wildcard
    else if '/' in f then Step
    else if ',' in f then List
    else if '-' in f then Range
    else Other
  }

  /** Day-of-month, month and day-of-week fields test `,` before `/`. */
  function DayShape(f: string): (shape: Shape)
    ensures shape == Wildcard <==> f == "*"
    ensures shape == List <==> f != "*" && ',' in f
    ensures shape == Step <==> f != "*" && ',' !in f && '/' in f
    ensures shape == Other <==> f != "*" && '/' !in f && ',' !in f && '-' !in f
  {
    if f == "*" then Wildcard
    else if ',' in f then List
    else if '/' in f then Step
    else if '-' in f then Range
    else Other
  }

  /** The whole-expression idioms with canned sentences, by exact string equality. */
  function Idiom(expr: string): (sentence: Option<string>)
    ensures sentence.Some? ==> |sentence.value| > 0 && sentence.value[0] in "EF"
  {
    if expr == "* * * * *" then Some("Every minute")
    else if expr == "0 * * * *" then Some("Every hour, on the hour")
    else if expr == "0 0 * * *" then Some("Every day at midnight")
    else if expr == "0 0 * * 0" then Some("Every Sunday at midnight")
    else if expr == "0 0 1 * *" then Some("First day of every month at midnight")
    else if expr == "0 0 1 1 *" then Some("Every January 1st at midnight")
    else None
  }

  function MinuteFragment(m: string): (frag: string)
    ensures |frag| > 0 && frag[0] in "EAM"
  {
    match TimeShape(m)
    case Wildcard => "Every minute"
    case Step => "Every " + AfterFirst(m, '/') + " minutes"
    case List => "At minutes " + m
    case Range => "Minutes " + m
    case Other => "At minute " + m
  }

  function HourFragment(h: string): (frag: string)
    requires TimeShape(h) != Other
    ensures |frag| > 0
  {
    match TimeShape(h)
    case Wildcard => "of every hour"
    case Step => "every " + AfterFirst(h, '/') + " hours"
    case List => "at hours " + h
    case Range => "hours " + h
  }

  /** The clock time that replaces the minute fragment when the hour is a
      plain value; the minute text is used whatever its shape. */
  function ClockFragment(m: string, h: string): (clock: string)
    ensures |clock| >= 8 && |clock| >= |m| + 6 && clock[..3] == "at "
    ensures clock[|clock| - |m|..] == m
  {
    var pm := Pad2(m);
    var clock := "at " + Pad2(h) + ":" + pm;
    assert clock[|clock| - |pm|..] == pm;
    assert clock[|clock| - |m|..] == pm[|pm| - |m|..];
    assert clock[..3] == "at ";
    clock
  }

  /** The fragments of the minute and hour fields: the clock time alone, or
      the minute fragment followed by the hour fragment. */
  function TimeFragments(m: string, h: string): (frags: seq<string>)
    ensures 1 <= |frags| <= 2 && frags[0] != "" && frags[0][0] in "EAMa"
    ensures "" !in frags
  {
    if TimeShape(h) == Other then [ClockFragment(m, h)]
    else [MinuteFragment(m), HourFragment(h)]
  }

  /** The day-of-month fragment, if any: ranges read like plain values. */
  function DayOfMonthFragments(d: string): (frags: seq<string>)
    ensures |frags| == (if d == "*" then 0 else 1)
    ensures "" !in frags
  {
    match DayShape(d)
    case Wildcard => []
    case List => ["on days " + d]
    case Step => ["every " + AfterFirst(d, '/') + " days"]
    case _ => ["on day " + d]
  }

  /** `names[parseInt(s)] || s`: the table entry when the parsed index is in
      range and the entry is not empty, otherwise the raw text. */
  function LookupName(names: seq<string>, s: string): (name: string)
    ensures name == s || (name in names && name != "")
    ensures ParseInt(s).None? ==> name == s
  {
    match ParseInt(s)
    case Some(n) => if 0 <= n < |names| && names[n] != "" then names[n] else s
    case None => s
  }

  /** `elems.map(e => names[parseInt(e)] || e)`. */
  function LookupEach(names: seq<string>, elems: seq<string>): (named: seq<string>)
    ensures |named| == |elems|
    ensures forall i :: 0 <= i < |elems| ==> named[i] == LookupName(names, elems[i])
  {
    if elems == [] then [] else [LookupName(names, elems[0])] + LookupEach(names, elems[1..])
  }

  /** `f.split(',').map(e => names[parseInt(e)] || e).join(', ')`. */
  function LookupList(names: seq<string>, f: string): (named: string)
    ensures ',' !in f ==> named == LookupName(names, f)
  {
    var named := Join(LookupEach(names, Split(f, ',')), ", ");
    if ',' in f then named else SplitWithoutSeparator(f, ','); named
  }

  /** The fragment of a month or day-of-week field, if any: a list or a
      plain value is named; a step or a range gives nothing. */
  function NameFragments(f: string, names: seq<string>, prefix: string): (frags: seq<string>)
    requires prefix != ""
    ensures |frags| <= 1
    ensures "" !in frags
  {
    match DayShape(f)
    case List => [prefix + LookupList(names, f)]
    case Other => [prefix + LookupName(names, f)]
    case _ => []
  }

  /** All fragments of a five-field expression, in field order. */
  function Fragments(fields: seq<string>): (frags: seq<string>)
    requires |fields| == 5
    ensures 1 <= |frags| <= 5
    ensures "" !in frags
    ensures frags[0][0] in "EAMa"
  {
    TimeFragments(fields[0], fields[1])
      + DayOfMonthFragments(fields[2])
      + NameFragments(fields[3], Months, "in ")
      + NameFragments(fields[4], Days, "on ")
  }

  /** The description of a raw cron expression. */
  function Describe(expr: string): (description: string)
    ensures description != CustomSchedule
  {
    var fields := Split(expr, ' ');
    if |fields| != 5 then InvalidExpression
    else match Idiom(expr)
      case Some(sentence) => sentence
      case None =>
        var frags := Fragments(fields);
        JoinHead(frags, " ");
        var text := Join(frags, " ");
        if text == "" then CustomSchedule else text
  }

  /** `describeCron` as the source writes it: a local list `desc` that each
      field branch pushes onto, and a shift that drops the minute fragment
      again when the hour is a plain value. */
  method DescribeCron(expr: string) returns (description: string)
    ensures description == Describe(expr)
  {
    var parts := Split(expr, ' ');
    if |parts| != 5 {
      return InvalidExpression;
    }
    var minute, hour, dayOfMonth, month, dayOfWeek := parts[0], parts[1], parts[2], parts[3], parts[4];

    if expr == "* * * * *" { return "Every minute"; }
    if expr == "0 * * * *" { return "Every hour, on the hour"; }
    if expr == "0 0 * * *" { return "Every day at midnight"; }
    if expr == "0 0 * * 0" { return "Every Sunday at midnight"; }
    if expr == "0 0 1 * *" { return "First day of every month at midnight"; }
    if expr == "0 0 1 1 *" { return "Every January 1st at midnight"; }

    var desc: seq<string> := [];
    desc := PushMinute(desc, minute);
    desc := PushHour(desc, minute, hour);
    assert desc == TimeFragments(minute, hour);
    desc := PushDayOfMonth(desc, dayOfMonth);
    desc := PushNames(desc, month, Months, "in ");
    desc := PushNames(desc, dayOfWeek, Days, "on ");
    assert desc == Fragments(parts);

    var text := Join(desc, " ");
    description := if text == "" then CustomSchedule else text;
  }

  /** The minute branch: exactly one fragment is pushed. */
  method PushMinute(desc: seq<string>, minute: string) returns (desc': seq<string>)
    ensures desc' == desc + [MinuteFragment(minute)]
  {
    desc' := desc;
    if minute == "*" {
      desc' := desc' + ["Every minute"];
    } else if '/' in minute {
      SplitSecond(minute, '/');
      desc' := desc' + ["Every " + Split(minute, '/')[1] + " minutes"];
    } else if ',' in minute {
      desc' := desc' + ["At minutes " + minute];
    } else if '-' in minute {
      desc' := desc' + ["Minutes " + minute];
    } else {
      desc' := desc' + ["At minute " + minute];
    }
  }

  /** The hour branch: one hour fragment is pushed, except for a plain hour,
      where the clock time is pushed and the first fragment shifted off. */
  method PushHour(desc: seq<string>, minute: string, hour: string) returns (desc': seq<string>)
    requires |desc| >= 1
    ensures TimeShape(hour) == Other ==> desc' == desc[1..] + [ClockFragment(minute, hour)]
    ensures TimeShape(hour) != Other ==> desc' == desc + [HourFragment(hour)]
  {
    desc' := desc;
    if hour == "*" {
      desc' := desc' + ["of every hour"];
    } else if '/' in hour {
      SplitSecond(hour, '/');
      desc' := desc' + ["every " + Split(hour, '/')[1] + " hours"];
    } else if ',' in hour {
      desc' := desc' + ["at hours " + hour];
    } else if '-' in hour {
      desc' := desc' + ["hours " + hour];
    } else {
      desc' := desc' + ["at " + Pad2(hour) + ":" + Pad2(minute)];
      desc' := desc'[1..];
    }
  }

  /** The day-of-month branch: nothing for `*`, otherwise one fragment, with
      `,` tested before `/`. */
  method PushDayOfMonth(desc: seq<string>, dayOfMonth: string) returns (desc': seq<string>)
    ensures desc' == desc + DayOfMonthFragments(dayOfMonth)
  {
    desc' := desc;
    if dayOfMonth != "*" {
      if ',' in dayOfMonth {
        desc' := desc' + ["on days " + dayOfMonth];
      } else if '/' in dayOfMonth {
        SplitSecond(dayOfMonth, '/');
        desc' := desc' + ["every " + Split(dayOfMonth, '/')[1] + " days"];
      } else {
        desc' := desc' + ["on day " + dayOfMonth];
      }
    }
  }

  /** The month and day-of-week branches, which differ only in the name
      table and the prefix: a list or a plain value is named, a step or a
      range pushes nothing. */
  method PushNames(desc: seq<string>, f: string, names: seq<string>, prefix: string) returns (desc': seq<string>)
    requires prefix != ""
    ensures desc' == desc + NameFragments(f, names, prefix)
  {
    desc' := desc;
    if f != "*" {
      if ',' in f {
        desc' := desc' + [prefix + LookupList(names, f)];
      } else if '/' !in f && '-' !in f {
        desc' := desc' + [prefix + LookupName(names, f)];
      }
    }
  }
}
