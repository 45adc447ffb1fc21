# Cron expression descriptions

A model of `describeCron` from the cron builder service (`server.js`).
The function takes a five-field cron expression (minute, hour, day of
month, month, day of week) and returns an English sentence for it. The
steps are:

- It splits the text on single spaces and rejects anything that does not
  give exactly five parts.
- It answers six common expressions with canned sentences.
- Otherwise it builds a list of sentence fragments, one field at a time,
  and joins them with spaces.

The project has three modules:

- `JsString` (`js_string.dfy`) models the JavaScript string built-ins the
  function uses:
  - `split` on one character, empty pieces included;
  - `join`;
  - `includes`, which is Dafny's `in`;
  - `parseInt` without a radix;
  - `padStart(2, '0')`;
  - the `split('/')[1]` idiom.

  It proves the split/join round trips and that `parseInt` reads any
  run of digits, leading zeros included, as its decimal value.
- `CronDescription` (`cron_description.dfy`) has two parts:
  - The specification function `Describe`. It sorts each field into a
    `Shape` (wildcard, step, list, range or plain value) and maps the
    shapes to fragments.
  - The method `DescribeCron`. It is the source's own procedure: a local
    list `desc` that each field branch pushes onto. For a plain hour, the
    minute fragment is shifted off again. Its postcondition is that it
    computes `Describe`.
- `CronProperties` (`cron_properties.dfy`) proves what the description
  promises:
  - the five-field check;
  - the idiom table;
  - the clock-time override for a plain hour;
  - the name lookups for months and days of the week;
  - the description is never empty, so the "Custom schedule" fallback is
    unreachable.

Where the code behaves in ways a reader may not expect, the model follows
the code:

- The idioms are matched by exact string equality. White space is not
  normalised, so `0  0 * * *` is not "Every day at midnight".
- A plain hour replaces the minute fragment by `at HH:MM` whatever the
  shape of the minute field. So `*/15 9 * * *` is described as
  `at 09:*/15`, with no check that the minute is a single value.
- Empty fields are accepted. A double space in a four-field expression
  makes five parts, one of them empty, and the empty field is described
  like any plain value. For example, `0  * * *` is `at 00:00`.

## Model

| member | source | states |
|---|---|---|
| CronDescription.Describe | server.js:82-160 | the specification of the whole description; its contract states that it is never the "Custom schedule" fallback, because the fragment list always starts with a non-empty fragment |
| CronDescription.DescribeCron | server.js:82-160 | the push/shift procedure returns exactly the specification `Describe`: "Invalid expression" unless there are five parts, the idiom sentence for the six idioms, otherwise the fragments joined by spaces, or "Custom schedule" if that is empty |
| CronDescription.PushMinute | server.js:98-109 | exactly one minute fragment is pushed, chosen by testing `*`, then `/`, then `,`, then `-` |
| CronDescription.PushHour | server.js:111-123 | a non-plain hour pushes one hour fragment; a plain hour pushes the clock time and shifts the first fragment off the list |
| CronDescription.PushDayOfMonth | server.js:125-134 | nothing is pushed for `*`; otherwise one fragment, testing `,` before `/`, with a range read like a plain value |
| CronDescription.PushNames | server.js:136-157 | the month and day-of-week branches push the named list or named value, and nothing for a step or a range |
| CronDescription.Months | server.js:137-138 | the month table: an empty entry at index 0, then January to December |
| CronDescription.Days | server.js:149 | the day-of-week table, Sunday first |
| CronDescription.TimeShape | server.js:99-119 | the minute and hour test order: exactly `*` is a wildcard, any other field with `/` is a step, one with `,` but no `/` is a list, and a field with none of `/`, `,`, `-` is a plain value |
| CronDescription.DayShape | server.js:126-155 | the day-of-month, month and day-of-week test order: exactly `*` is a wildcard, any other field with `,` is a list, one with `/` but no `,` is a step, and a field with none of `/`, `,`, `-` is a plain value |
| CronDescription.Idiom | server.js:88-94 | each idiom sentence is non-empty and starts with "E" or "F" |
| CronDescription.MinuteFragment | server.js:98-109 | the minute fragment is non-empty and starts with "E", "A" or "M" |
| CronDescription.HourFragment | server.js:111-119 | an hour fragment that is not the clock time is non-empty |
| CronDescription.ClockFragment | server.js:121 | the clock time starts with "at ", is at least eight characters long, and ends with the raw minute text |
| CronDescription.TimeFragments | server.js:98-123 | after the minute and hour branches the list holds one or two non-empty fragments, the first starting with "E", "A", "M" or "a" |
| CronDescription.DayOfMonthFragments | server.js:125-134 | no fragment for `*`, exactly one non-empty fragment otherwise |
| CronDescription.LookupName | server.js:144 | `names[parseInt(s)] \|\| s` is either the raw text or a non-empty entry of the table, and the raw text when `parseInt` gives no number |
| CronDescription.LookupList | server.js:141 | a field without `,` is looked up as a single element (the general list case is `LookupListOf`) |
| CronDescription.LookupEach | server.js:141 | the mapped list has the length of the split list, and element i is the lookup of element i |
| CronDescription.NameFragments | server.js:139-157 | a month or day-of-week field gives at most one fragment, never an empty one |
| CronDescription.Fragments | server.js:96-157 | a five-field expression gives between one and five fragments, none empty, the first starting with "E", "A", "M" or "a" |
| JsString.Count | server.js:83 | the count of a character is positive exactly when the character occurs |
| JsString.Split | server.js:83 | `split` gives one piece more than there are separators, and no piece holds the separator |
| JsString.Join | server.js:159 | `join` starts with its first piece |
| JsString.TakeUntil | server.js:102 | the text before the first separator is a separator-free prefix that stops at the separator |
| JsString.AfterFirst | server.js:102 | the text after the first separator holds no separator and is shorter than the input |
| JsString.LeadingDigits | server.js:141 | the leading digit run is a prefix of digits, stopped by a non-digit or the end |
| JsString.ParseInt | server.js:144 | `parseInt` gives a number exactly when a digit run follows the optional sign |
| JsString.Pad2 | server.js:121 | `padStart(2, '0')` keeps the text as a suffix, pads to length two with zeros and leaves longer text alone |
| JsString.JoinSplit | server.js:83 | joining the pieces of a split with the separator gives back the original text |
| JsString.SplitJoin | server.js:83 | splitting a join of separator-free pieces gives back the pieces |
| JsString.SplitWithoutSeparator | server.js:141 | text without the separator splits into a one-element list holding the text |
| JsString.SplitSecond | server.js:102 | for text that contains the separator, `split(c)[1]` exists and is the text after the first separator |
| JsString.JoinHead | server.js:159 | a join starts with the first character of its first piece |
| JsString.JoinLength | server.js:159 | a join of two or more pieces is at least as long as the first two pieces and the separator |
| JsString.ParseIntOfDigits | server.js:144 | `parseInt` reads any non-empty run of digits, leading zeros included, as its decimal value, whatever non-digit text follows it |
| JsString.ParseIntOfDecimal | server.js:144 | `parseInt` reads back a canonical numeral, signed or not, whatever non-digit text follows it |
| CronProperties.DescribeFields | server.js:83-94 | five space-free fields joined by spaces split back into the same fields, and the description is their idiom sentence or their fragments joined by spaces |
| CronProperties.DescribeHead | server.js:82-160 | the description is never empty and starts with the first letter of the invalid text, an idiom sentence, a minute fragment or the clock time |
| CronProperties.InvalidIffNotFiveFields | server.js:83-84 | the description is "Invalid expression" exactly when the text does not hold four spaces; empty fields count |
| CronProperties.IdiomSentence | server.js:83-94 | each idiom string splits into five fields and gets its canned sentence |
| CronProperties.IdiomFields | server.js:89-94 | five fields form an idiom only when they are exactly one of the six idiom field lists |
| CronProperties.FirstDayOnlyFromIdiom | server.js:93 | a description starting with "F" comes from `0 0 1 * *` and from nothing else |
| CronProperties.EveryMinuteOnlyFromIdiom | server.js:89-123 | "Every minute" describes `* * * * *` and nothing else |
| CronProperties.ClockOverride | server.js:120-122 | with a plain hour and the last three fields `*`, the description is the zero-padded clock time alone, whatever the minute field, except `0 0 * * *`, which is an idiom |
| CronProperties.MinuteFragmentKept | server.js:98-119 | with a non-plain hour and the last three fields `*` (the idioms `* * * * *` and `0 * * * *` aside), the description is the minute fragment followed by the hour fragment |
| CronProperties.ClockExample1 | server.js:121 | `30 14 * * *` is described as `at 14:30` |
| CronProperties.ClockExample2 | server.js:121 | `5 9 * * *` is described as `at 09:05` |
| CronProperties.ClockExample3 | server.js:120-122 | `*/15 9 * * *` is described as `at 09:*/15`: the step minute is swallowed |
| CronProperties.ClockExample4 | server.js:83-84 | `0  * * *` (double space, four fields) passes the five-part check and is described as `at 00:00` |
| CronProperties.EmptyFieldInvalid | server.js:83-84 | `0  0 * * *` (double space, five fields) is "Invalid expression" |
| CronProperties.ListStepOrder | server.js:101-130 | a field with both `,` and `/` is a step to the minute and hour branches and a list to the day-of-month branch |
| CronProperties.LookupNumeral | server.js:144 | looking up a numeral gives the table entry when the index is in range and the entry is not empty, and the raw text otherwise |
| CronProperties.MonthsNamed | server.js:137-144 | months 1 to 12 get their names |
| CronProperties.MonthsUnnamed | server.js:137-144 | months `0` and `13` stay numerals |
| CronProperties.ZeroPaddedMonth | server.js:144 | the zero-padded month `01` is named January |
| CronProperties.DayNames | server.js:149-155 | day `0` is Sunday and day `7` stays a numeral |
| CronProperties.LookupListOf | server.js:141 | a list of any number of comma-free elements, joined by `,`, is looked up element by element and the names are joined with ", " |
| CronProperties.LookupPair | server.js:141 | a two-element list is looked up element by element and joined with ", " |
| CronProperties.MonthListExample | server.js:139-142 | the month list `1-3,5` is described as "in January, May" |
| CronProperties.NoNameForStepOrRange | server.js:139-157 | a month or day-of-week field with a step or a range and no list gives no fragment |

## Left out

- The session check `requireAuth` (server.js:13-40) is not modelled. It is network I/O against an external validation service.
- The express set-up, routes and static files (server.js:1-10, 42-48, 162-164) are not modelled. They are web framework plumbing.
- The `/api/parse` handler (server.js:51-79) is not modelled. It calls the `cron-parser` library, whose source is not part of this model, to validate the expression and list the next five run times, then wraps `describeCron` in JSON.
- JsString.ParseInt: leading white space, which `parseInt` skips, is not modelled. The split removes only the space character, so a month or day field (or list element) that starts with a tab, a line break or another white-space character keeps its raw text in the model, where JavaScript would give the name; for example `\t1` stays `\t1` instead of becoming January.
- JsString.ParseInt: the `0x` prefix, which `parseInt` reads as hexadecimal, is not modelled. A month field starting with `0x` keeps its raw text in the model, because `Months[0]` is empty. A day-of-week field starting with `0x` is named Sunday in the model, because its leading `0` is read as 0. JavaScript gives the day of the hex value instead, or the raw text when no hex digits follow.
- JsString.Pad2: counts characters. JavaScript counts UTF-16 code units, which is the same for the ASCII text of cron fields.
- JsString.ParseInt: returns an unbounded integer. JavaScript uses a double, whose precision is lost only in numbers far past the length of either name table.
