# calendar-wizard in Dafny

calendar-wizard is a single Python script (`main.py`). It builds an `.ics`
calendar from short event lines such as `3:00pm 4:00pm Team Meeting`: a
start time, an end time, and a name. Lines come either from standard input,
typed until the first empty line, or from a file given with `-f <name>`.
Every line goes through `add_event`, which does the following:

- It splits the line on whitespace and rejects a line with fewer than three tokens.
- It names the event with the remaining tokens joined by single spaces.
- It writes today's date in front of each time token.
- It parses both results against the format `M-D-YYYY h:mmA`.
- It adds exactly one event when both parses succeed, and nothing otherwise.

The model has six modules:

- `Wrappers`: `Option` and `Result`.
- `Text`: Python's `str.split()`, `' '.join` and `str.strip()`, over Python's set of whitespace characters.
- `Numerals`: decimal digit strings and their values.
- `Timestamp`: dates, clock readings, the stamp `add_event` builds, and its parse.
- `Events`: the calendar, `add_event`, and the two line drivers, `fill_calendar_file` and `fill_calendar_user`.
- `Cli`: the argument dispatch of `main`, and a whole run.

The two kinds of code are modelled differently:

- The state-changing code is imperative. `Calendar` is a class whose `events` field `AddEvent` extends in place. The drivers are loops, proved against the specification functions `Collected` (the events added) and `Log` (the lines printed).
- The pure decisions are functions. These are the token split, the name join, the stamp parse and the dispatch.

Calendar events form a multiset. The script creates a new `Event` object for
every accepted line, so two equal lines give two events.

The current date is an input. The script reads the clock inside
`add_event`, once for every line it handles (main.py:44-45). So the drivers
take a sequence `dates` with one date per handled line, and the date may
change between lines.

The time-token grammar follows the format string:

- an hour of one or two ASCII digits, from 1 to 12;
- a colon;
- a two-digit minute below 60;
- `am` or `pm` in any letter case (see "## Left out" for mixed case).

The date part written by the script (`month-day-year` without padding) is
read back by the `M-D-YYYY` part. The year must be four digits long.

## Model

| member | source | states |
|---|---|---|
| Text.Split | main.py:46 | every token `split()` yields is non-empty and holds no whitespace |
| Text.SplitSpaces | main.py:46 | whitespace in front of a line adds no token, however long the run |
| Text.SplitWordRun | main.py:46 | a word followed by a whitespace run of any length and kind is exactly one token, and splitting goes on after the run |
| Text.SplitSpaced | main.py:46 | any line built from words separated by non-empty whitespace runs, with optional leading and trailing runs, splits into exactly those words |
| Text.LStrip | main.py:73 | `lstrip` removes exactly a leading run of whitespace and leaves a result that does not start with whitespace |
| Text.RStrip | main.py:73 | `rstrip` removes exactly a trailing run of whitespace and leaves a result that does not end with whitespace |
| Text.Strip | main.py:73 | `strip()` is `rstrip` after `lstrip`; its effect on the tokens is stated by Text.SplitStrip and on blank lines by Text.BlankLine |
| Text.SplitJoin | main.py:46-51 | splitting the single-space join of non-empty, whitespace-free tokens gives those tokens back |
| Text.Join | main.py:51 | `' '.join`; Text.SplitJoin states that splitting undoes it and Text.JoinCollapsed that it leaves single spaces only |
| Text.JoinCollapsed | main.py:51 | the join of such tokens has every whitespace character as a lone space between two non-space characters |
| Text.ConcatSplit | main.py:46 | the tokens of a line hold all of its non-whitespace characters, in order, and nothing else |
| Text.SplitStrip | main.py:73 | a stripped line has the same tokens as the raw line |
| Text.BlankLine | main.py:73 | a line of whitespace only strips to the empty line and has no tokens |
| Numerals.ValueOfDecimal | main.py:52-53 | the decimal text the f-string writes for a number reads back as that number |
| Numerals.DecimalLength | main.py:32 | a number's decimal text has at most `k` digits exactly when the number is below 10^k |
| Numerals.TwoDigits | main.py:32 | every minute below 100 has a two-digit text (the `mm` field) whose value is that minute |
| Timestamp.DaysInMonth | main.py:55-56 | every month of the Gregorian calendar has between 28 and 31 days |
| Timestamp.IndexOf | main.py:55-56 | the position returned is the first occurrence of the character, or the length when it does not occur |
| Timestamp.ParseMeridiem | main.py:32 | the model's reading of the `A` field: the four letter-case spellings of `am` are the morning, the four of `pm` the afternoon, and nothing else is a meridiem; arrow applies no meridiem to the mixed-case ones (see "## Left out") |
| Timestamp.ParseClock | main.py:32 | a time token that parses gives a reading on the 24-hour dial with a minute below 60 |
| Timestamp.ParseClockShape | main.py:32 | the `h:mmA` parse is strict: only a token of one or two digits, a colon, two digits and a meridiem can parse |
| Timestamp.ParseClockOf | main.py:32 | in the model, a token of the form hour, colon, two digits and two characters parses exactly when the meridiem is am/pm, the hour is 1 to 12 and the minute is below 60, and it gives that hour on the 24-hour dial (arrow's wider hour range is under "## Left out") |
| Timestamp.ParseClockText | main.py:9 | every clock reading, written as shorthand such as `3:00pm`, parses back to that reading |
| Timestamp.ParseDate | main.py:32 | the `M-D-YYYY` field: a date that parses is a real Gregorian day |
| Timestamp.ParseStamp | main.py:55-56 | a stamp that parses gives a real day and a valid time; Timestamp.ParseStampOf states exactly when it parses |
| Timestamp.DateText | main.py:52-53 | the `{month}-{day}-{year}` text; Timestamp.ParseDateText states that it reads back |
| Timestamp.Stamp | main.py:52-53 | the date text, one space, then the token; Timestamp.ParseStampOf states what it parses to |
| Timestamp.To24Of | main.py:32 | every hour of the 24-hour dial is an `h` from 1 to 12 with am or pm |
| Timestamp.DateFieldsOfText | main.py:52-53 | the date text splits at its first two dashes into month, day and year |
| Timestamp.ParseDateText | main.py:52-56 | the date text the script writes parses back to the same date exactly when the date is real and its year has four digits |
| Timestamp.ParseStampOf | main.py:52-56 | the stamp for a date and a token parses exactly when the date is stampable and the token alone parses as a time, and it then gives that date at that time |
| Events.Calendar.constructor | main.py:92 | a new calendar holds no events |
| Events.ParseLine | main.py:46-49 | a line with fewer than three tokens is rejected |
| Events.AcceptanceRule | main.py:47-60 | a line is accepted exactly when the date is stampable, there are at least three tokens, and the first and second tokens each parse as a time; no order between the two times is required; the event's name is the tokens from the third on joined by spaces; begin and end fall on the same date, at the first and second token's times |
| Events.AcceptedName | main.py:46-51 | an accepted event's name has exactly the line's tokens from the third on, with whitespace runs collapsed to one space |
| Events.SpacedLineName | main.py:46-51 | a line whose words are separated by whitespace runs of any length, once accepted, gets the name made of its words from the third on joined by single spaces |
| Events.ParseEventLine | main.py:47-60 | any two times followed by any name, typed as a line, give back that event; an end before the begin is accepted too |
| Events.TeamMeetingLine | main.py:9 | `3:00pm 4:00pm Team Meeting` on 7 March 2024 gives the event "Team Meeting" from 15:00 to 16:00 |
| Events.MissingEndTimeLine | main.py:54-59 | `3:00pm Team Meeting` is rejected, because its second token is not a time |
| Events.AddEvent | main.py:36-61 | the calendar gains the line's event and nothing else when the line is accepted, and stays the same when it is rejected; the message says which happened and echoes the line |
| Events.Message | main.py:48-61 | the text printed for a line: `Added event: <line>` when accepted, `Invalid input <line>. Event not added.` when rejected; Events.LogMessages states that each handled line prints it once |
| Events.OutcomesAt | main.py:72-74 | a run of lines has one verdict per line, and each verdict depends on that line and its date alone |
| Events.GatherMembers | main.py:60 | an event is collected exactly when some verdict adds it, and there are never more events than verdicts |
| Events.Collected | main.py:72-74 | the events a run of lines adds; Events.CollectedMembers states which they are |
| Events.Log | main.py:72-74 | the messages a run of lines prints; Events.LogMessages states them line by line |
| Events.CollectedMembers | main.py:72-74 | an event is in the calendar after a run exactly when some line of the run is accepted as that event; no run adds more events than it has lines |
| Events.LogMessages | main.py:49 | exactly one message is printed per handled line, and it is the message for that line's verdict |
| Events.CollectedStep | main.py:74 | handling one more line adds that line's events and that line's message, and nothing else |
| Events.StripKeepsOutcome | main.py:73 | a line and its stripped form get the same verdict |
| Events.StripAll | main.py:72-73 | every line of the file is stripped, in order, and none is dropped |
| Events.StrippingKeepsEvents | main.py:72-74 | stripping the lines of a file never changes which events they give |
| Events.BlankFileLineRejected | main.py:73-74 | a blank line of a file reaches `add_event` as the empty line and is rejected there by the token count |
| Events.EmptyLineRejected | main.py:47-49 | the empty line is rejected, and its message is `Invalid input . Event not added.` |
| Events.FillCalendarFile | main.py:64-74 | a missing file changes nothing; otherwise every line of the file, stripped, is handled in order, with blank lines included |
| Events.UntilSentinel | main.py:85-88 | the typed lines that are handled are a prefix of the input with no empty line in it, followed by the empty line or by the end of input |
| Events.UntilSentinelAt | main.py:85-88 | that prefix is the one that runs up to the first empty line |
| Events.LinesAfterSentinelIgnored | main.py:86-87 | nothing typed after the first empty line is ever handled |
| Events.FillCalendarUser | main.py:77-88 | the typed lines before the first empty line are handled in order; the loop stops exactly when an empty line occurs |
| Cli.Dispatch | main.py:93-102 | no arguments select typed input; `-f` and a name select that file; `-f` alone and any other first argument are errors |
| Cli.DispatchCommandLine | main.py:93-97 | every mode is selected by its own arguments, and a file mode is selected whatever arguments follow the name |
| Cli.Run | main.py:91-106 | a failed dispatch, a missing file, or an input that ends before the empty line gives no calendar; otherwise the calendar written holds exactly the events of the handled lines |

## Left out

- Reading the clock and the US/Eastern time zone. The date is a parameter with one entry per handled line. An `Instant` carries no offset.
- Timestamp.ParseClock, Timestamp.ParseClockOf, Events.ParseLine: arrow's own leniencies are not modelled. These include hour 0, hours 13 to 23 with a meridiem, text after the meridiem, and non-ASCII digits. The model uses the strict grammar of the format string, so it rejects tokens arrow accepts. A token such as `24:00pm`, which arrow may read as midnight of the next day and so move off the current date, is rejected too.
- Timestamp.ParseMeridiem, Events.ParseLine: a mixed-case meridiem such as `Pm` or `aM` is accepted, as arrow matches the field without regard to case, but arrow then applies no meridiem, so `3:00Pm` is 03:00 and `12:00Am` is 12:00; the model reads it as am or pm like `AM`/`PM`. Lines with an all-lower or all-upper meridiem are not affected.
- Events.AddEvent: exceptions other than `ParserMatchError` leave `add_event` in the script and end the run; the model rejects the line instead.
- Timestamp.Stampable: a current year below 1000 would make every line fail, because `YYYY` needs four digits. The model says so but does not tell the error apart.
- The `ics` object model. This covers `Event` ids, any checks the library makes, such as an end before the begin, and `serialize_iter`. Writing `my.ics` is not modelled either. `Cli.Run` returns the events the file would hold.
- Console I/O. Prompts and banners are left out. The `add_event` messages are modelled as the `log` output.
- Opening files. A file is given as its lines, already separated, with a missing file as a missing map entry.
- Reading `sys.argv`. The arguments `sys.argv[1:]` are a parameter.
- A failure of `input()` other than end of input is not modelled.

The date is read once for every handled line, not once for a whole run.
This model follows `main.py:44-45`, which does so.

A line such as `3:00pm Team Meeting`, with the end time missing, has three
tokens. It is rejected because its second token is not a time, not by the
token count (`Events.MissingEndTimeLine`).
