/**
 * The per-line event validator `add_event` and the two loops that feed it
 * lines: `fill_calendar_file` (every line of a file, stripped) and
 * `fill_calendar_user` (typed lines up to the first empty one).
 */
module Events {
  import opened Wrappers
  import opened Text
  import opened Timestamp

  /** The line that ends interactive entry (SENTINEL). */
  const Sentinel: string := ""

  /** A calendar event as the script fills it in: name, begin and end. */
  datatype Event = Event(name: string, begin: Instant, end: Instant)

  /** What `add_event` does with one line: add one event, or add nothing. */
  datatype Outcome = Added(event: Event) | Rejected

  /**
   * The calendar the script fills. Its events form a collection without order
   * in which every accepted line is a distinct object, so equal events are
   * all kept: a multiset.
   */
  class Calendar {
    var events: multiset<Event>

    constructor ()
      ensures events == multiset{}
    {
      events := multiset{};
    }
  }

  lemma AllWordsFrom(ts: seq<string>, k: nat)
    requires AllWords(ts) && k <= |ts|
    ensures AllWords(ts[k..])
  {
    forall i | 0 <= i < |ts[k..]| ensures IsWord(ts[k..][i]) {
      assert ts[k..][i] == ts[k + i];
    }
  }

  /**
   * The decision `add_event` makes on one line, with `today` the date the
   * clock gave: at least three tokens, a name from the third token on, and
   * both time tokens parsed on today's date.
   */
  function ParseLine(line: string, today: Date): (r: Outcome)
    ensures |Split(line)| < 3 ==> r == Rejected
  {
    var splits := Split(line);
    if |splits| < 3 then Rejected
    else
      var name := Join(splits[2..]);
      match (ParseStamp(Stamp(today, splits[0])), ParseStamp(Stamp(today, splits[1])))
      case (Some(begin), Some(end)) => Added(Event(name, begin, end))
      case _ => Rejected
  }

  /**
   * The name of an accepted event has exactly the line's tokens from the third
   * on, with every run of whitespace between them collapsed to one space.
   */
  lemma AcceptedName(line: string, today: Date)
    requires ParseLine(line, today).Added?
    ensures Split(ParseLine(line, today).event.name) == Split(line)[2..]
    ensures Collapsed(ParseLine(line, today).event.name)
  {
    var splits := Split(line);
    AllWordsFrom(splits, 2);
    SplitJoin(splits[2..]);
    JoinCollapsed(splits[2..]);
  }

  /** The line `add_event` prints for a line it accepted or rejected. */
  function Message(input: string, o: Outcome): string {
    if o.Added? then "Added event: " + input else "Invalid input " + input + ". Event not added."
  }

  function EventsOf(o: Outcome): multiset<Event> {
    if o.Added? then multiset{o.event} else multiset{}
  }

  /**
   * The acceptance rule of `add_event`. A line is accepted exactly when the
   * date is stampable, the line has at least three tokens and each of the
   * first two tokens parses on its own as a time; no relation between the two
   * times is checked. The accepted event is named by the remaining tokens
   * joined by single spaces, and begin and end fall on `today`, each at its
   * own token's time.
   */
  lemma AcceptanceRule(line: string, today: Date)
    ensures ParseLine(line, today).Added? <==>
      Stampable(today) && |Split(line)| >= 3
      && ParseClock(Split(line)[0]).Some? && ParseClock(Split(line)[1]).Some?
    ensures ParseLine(line, today).Added? ==>
      var toks := Split(line);
      ParseLine(line, today).event ==
        Event(Join(toks[2..]), Instant(today, ParseClock(toks[0]).value), Instant(today, ParseClock(toks[1]).value))
  {
    var toks := Split(line);
    if |toks| >= 3 {
      ParseStampOf(today, toks[0]);
      ParseStampOf(today, toks[1]);
    }
  }

  /** The line a user would type for an event: begin, end, then the name's words. */
  function EventLine(begin: Clock, end: Clock, words: seq<string>): string
    requires ValidClock(begin) && ValidClock(end)
  {
    Join([ClockText(begin), ClockText(end)] + words)
  }

  lemma ClockTextIsWord(c: Clock)
    requires ValidClock(c)
    ensures IsWord(ClockText(c))
  {
    ClockTextChars(c);
  }

  /**
   * Typing an event back as a line gives that event again, whichever of the
   * two times is the earlier: an end before its begin is accepted as it is.
   */
  lemma ParseEventLine(begin: Clock, end: Clock, words: seq<string>, today: Date)
    requires ValidClock(begin) && ValidClock(end)
    requires words != [] && AllWords(words)
    requires Stampable(today)
    ensures ParseLine(EventLine(begin, end, words), today) ==
      Added(Event(Join(words), Instant(today, begin), Instant(today, end)))
  {
    var toks := [ClockText(begin), ClockText(end)] + words;
    ClockTextIsWord(begin);
    ClockTextIsWord(end);
    assert AllWords(toks) by {
      forall i | 0 <= i < |toks| ensures IsWord(toks[i]) {
        if i >= 2 {
          assert toks[i] == words[i - 2];
        }
      }
    }
    SplitJoin(toks);
    assert toks[2..] == words;
    ParseClockText(begin);
    ParseClockText(end);
    AcceptanceRule(EventLine(begin, end, words), today);
  }

  lemma TeamMeetingJoin()
    ensures Join(["3:00pm", "4:00pm", "Team", "Meeting"]) == "3:00pm 4:00pm Team Meeting"
  {
    var toks := ["3:00pm", "4:00pm", "Team", "Meeting"];
    assert toks[1..] == ["4:00pm", "Team", "Meeting"];
    assert toks[1..][1..] == ["Team", "Meeting"];
    assert toks[1..][1..][1..] == ["Meeting"];
    assert Join(["Team", "Meeting"]) == "Team" + " " + "Meeting";
    assert Join(["4:00pm", "Team", "Meeting"]) == "4:00pm" + " " + "Team Meeting";
  }

  lemma TeamMeetingText()
    ensures EventLine(Clock(15, 0), Clock(16, 0), ["Team", "Meeting"]) == "3:00pm 4:00pm Team Meeting"
  {
    assert ClockText(Clock(15, 0)) == "3:00pm";
    assert ClockText(Clock(16, 0)) == "4:00pm";
    assert [ClockText(Clock(15, 0)), ClockText(Clock(16, 0))] + ["Team", "Meeting"] == ["3:00pm", "4:00pm", "Team", "Meeting"];
    TeamMeetingJoin();
  }

  /** The line "3:00pm 4:00pm Team Meeting" on 7 March 2024. */
  lemma TeamMeetingLine()
    ensures ParseLine("3:00pm 4:00pm Team Meeting", Date(3, 7, 2024)) ==
      Added(Event("Team Meeting", Instant(Date(3, 7, 2024), Clock(15, 0)), Instant(Date(3, 7, 2024), Clock(16, 0))))
  {
    var words := ["Team", "Meeting"];
    TeamMeetingText();
    assert AllWords(words);
    assert Join(words) == "Team Meeting";
    ParseEventLine(Clock(15, 0), Clock(16, 0), words, Date(3, 7, 2024));
  }

  /**
   * However long the whitespace runs between a line's tokens, the accepted
   * event's name has its words separated by single spaces.
   */
  lemma SpacedLineName(line: string, lead: string, ws: seq<string>, gaps: seq<string>, today: Date)
    requires AllSpace(lead) && AllWords(ws) && |gaps| == |ws| && Gaps(gaps)
    requires line == lead + Spaced(ws, gaps)
    requires ParseLine(line, today).Added?
    ensures |ws| >= 3 && ParseLine(line, today).event.name == Join(ws[2..])
  {
    assert Split(line) == ws by {
      SplitSpaced(lead, ws, gaps);
    }
    NameOfTokens(line, ws, today);
  }

  lemma NameOfTokens(line: string, toks: seq<string>, today: Date)
    requires Split(line) == toks
    requires ParseLine(line, today).Added?
    ensures |toks| >= 3 && ParseLine(line, today).event.name == Join(toks[2..])
  {
    AcceptanceRule(line, today);
  }

  /** The line "3:00pm Team Meeting" is rejected: its second token "Team" is not a time. */
  lemma MissingEndTimeLine(line: string, today: Date)
    requires line == "3:00pm Team Meeting"
    ensures ParseLine(line, today) == Rejected
  {
    MissingEndTimeTokens(line);
    assert ParseClock("Team") == None by {
      assert IndexOf("Team", ':') == 4;
    }
    AcceptanceRule(line, today);
  }

  lemma MissingEndTimeTokens(line: string)
    requires line == "3:00pm Team Meeting"
    ensures Split(line) == ["3:00pm", "Team", "Meeting"]
  {
    var toks := ["3:00pm", "Team", "Meeting"];
    assert AllWords(toks);
    MissingEndTimeJoin();
    SplitJoin(toks);
  }

  lemma MissingEndTimeJoin()
    ensures Join(["3:00pm", "Team", "Meeting"]) == "3:00pm Team Meeting"
  {
    var toks := ["3:00pm", "Team", "Meeting"];
    assert toks[1..] == ["Team", "Meeting"];
    assert toks[1..][1..] == ["Meeting"];
    assert Join(["Team", "Meeting"]) == "Team" + " " + "Meeting";
  }

  /**
   * `add_event`: split the line, give up on fewer than three tokens, build
   * the name and the two stamps, give up if either stamp fails to parse,
   * otherwise add the event.
   */
  method AddEvent(input: string, cal: Calendar, today: Date) returns (msg: string)
    modifies cal
    ensures cal.events == old(cal.events) + EventsOf(ParseLine(input, today))
    ensures msg == Message(input, ParseLine(input, today))
  {
    var splits := Split(input);
    if |splits| < 3 {
      msg := Message(input, Rejected);
      return;
    }
    var name := Join(splits[2..]);
    var beginText := Stamp(today, splits[0]);
    var endText := Stamp(today, splits[1]);
    var begin := ParseStamp(beginText);
    var end := ParseStamp(endText);
    if begin.None? || end.None? {
      msg := Message(input, Rejected);
      return;
    }
    var e := Event(name, begin.value, end.value);
    cal.events := cal.events + multiset{e};
    msg := Message(input, Added(e));
  }

  /** The verdicts of `judge` on `lines`, line `i` judged on `dates[i]`. */
  function Judged(judge: (string, Date) -> Outcome, lines: seq<string>, dates: seq<Date>): (os: seq<Outcome>)
    requires |lines| <= |dates|
    ensures |os| == |lines|
  {
    if lines == [] then []
    else Judged(judge, lines[..|lines| - 1], dates) + [judge(lines[|lines| - 1], dates[|lines| - 1])]
  }

  lemma {:induction false} JudgedAt(judge: (string, Date) -> Outcome, lines: seq<string>, dates: seq<Date>, i: nat)
    requires i < |lines| <= |dates|
    ensures Judged(judge, lines, dates)[i] == judge(lines[i], dates[i])
  {
    var n := |lines| - 1;
    if i < n {
      JudgedAt(judge, lines[..n], dates, i);
    }
  }

  lemma JudgedStep(judge: (string, Date) -> Outcome, lines: seq<string>, dates: seq<Date>, k: nat)
    requires k < |lines| <= |dates|
    ensures Judged(judge, lines[..k + 1], dates) == Judged(judge, lines[..k], dates) + [judge(lines[k], dates[k])]
  {
    assert lines[..k + 1][..k] == lines[..k];
  }

  /** Two runs of lines whose lines get equal verdicts one by one get equal verdicts. */
  lemma {:induction false} JudgedAgree(judge: (string, Date) -> Outcome, a: seq<string>, b: seq<string>, dates: seq<Date>)
    requires |a| == |b| <= |dates|
    requires forall i :: 0 <= i < |a| ==> judge(a[i], dates[i]) == judge(b[i], dates[i])
    ensures Judged(judge, a, dates) == Judged(judge, b, dates)
  {
    if a != [] {
      var n := |a| - 1;
      JudgedAgree(judge, a[..n], b[..n], dates);
    }
  }

  /** The verdict `add_event` reaches on each line, line `i` handled on `dates[i]`. */
  function Outcomes(lines: seq<string>, dates: seq<Date>): seq<Outcome>
    requires |lines| <= |dates|
  {
    Judged(ParseLine, lines, dates)
  }

  /** There is one verdict per line, and it is the verdict on that line alone. */
  lemma OutcomesAt(lines: seq<string>, dates: seq<Date>)
    requires |lines| <= |dates|
    ensures |Outcomes(lines, dates)| == |lines|
    ensures forall i :: 0 <= i < |lines| ==> Outcomes(lines, dates)[i] == ParseLine(lines[i], dates[i])
  {
    forall i | 0 <= i < |lines| ensures Outcomes(lines, dates)[i] == ParseLine(lines[i], dates[i]) {
      JudgedAt(ParseLine, lines, dates, i);
    }
  }

  /** The events a run of verdicts adds: one per accepted line. */
  function Gather(os: seq<Outcome>): multiset<Event> {
    if os == [] then multiset{} else Gather(os[..|os| - 1]) + EventsOf(os[|os| - 1])
  }

  /**
   * An event is gathered exactly when some verdict adds it, and there are
   * never more events than verdicts.
   */
  lemma {:induction false} GatherMembers(os: seq<Outcome>)
    ensures |Gather(os)| <= |os|
    ensures forall e :: e in Gather(os) <==> Added(e) in os
  {
    if os != [] {
      var n := |os| - 1;
      GatherMembers(os[..n]);
      assert os == os[..n] + [os[n]];
    }
  }

  lemma GatherStep(os: seq<Outcome>, o: Outcome)
    ensures Gather(os + [o]) == Gather(os) + EventsOf(o)
  {
    assert (os + [o])[..|os|] == os;
  }

  /** The lines printed for `lines` with verdicts `os`, one per line. */
  function Messages(lines: seq<string>, os: seq<Outcome>): (r: seq<string>)
    requires |lines| == |os|
    ensures |r| == |lines|
  {
    if lines == [] then []
    else Messages(lines[..|lines| - 1], os[..|os| - 1]) + [Message(lines[|lines| - 1], os[|os| - 1])]
  }

  lemma MessagesStep(lines: seq<string>, os: seq<Outcome>, line: string, o: Outcome)
    requires |lines| == |os|
    ensures Messages(lines + [line], os + [o]) == Messages(lines, os) + [Message(line, o)]
  {
    assert (lines + [line])[..|lines|] == lines;
    assert (os + [o])[..|os|] == os;
  }

  lemma {:induction false} MessagesAt(lines: seq<string>, os: seq<Outcome>, i: nat)
    requires i < |lines| == |os|
    ensures Messages(lines, os)[i] == Message(lines[i], os[i])
  {
    var n := |lines| - 1;
    assert Messages(lines, os) == Messages(lines[..n], os[..n]) + [Message(lines[n], os[n])];
    if i < n {
      assert lines[..n][i] == lines[i] && os[..n][i] == os[i];
      MessagesAt(lines[..n], os[..n], i);
    }
  }

  /** The events that `add_event` adds for `lines`, line `i` handled on `dates[i]`. */
  function Collected(lines: seq<string>, dates: seq<Date>): multiset<Event>
    requires |lines| <= |dates|
  {
    Gather(Outcomes(lines, dates))
  }

  /** The lines `add_event` prints for `lines`, line `i` handled on `dates[i]`. */
  function Log(lines: seq<string>, dates: seq<Date>): seq<string>
    requires |lines| <= |dates|
  {
    Messages(lines, Outcomes(lines, dates))
  }

  /**
   * An event is collected exactly when some line is accepted as that event,
   * and no run of lines yields more events than it has lines.
   */
  lemma CollectedMembers(lines: seq<string>, dates: seq<Date>)
    requires |lines| <= |dates|
    ensures |Collected(lines, dates)| <= |lines|
    ensures forall e :: e in Collected(lines, dates) <==>
      exists i :: 0 <= i < |lines| && ParseLine(lines[i], dates[i]) == Added(e)
  {
    var os := Outcomes(lines, dates);
    GatherMembers(os);
    OutcomesAt(lines, dates);
  }

  /** One printed line per handled line, saying whether that line was added. */
  lemma LogMessages(lines: seq<string>, dates: seq<Date>)
    requires |lines| <= |dates|
    ensures |Log(lines, dates)| == |lines|
    ensures forall i :: 0 <= i < |lines| ==> Log(lines, dates)[i] == Message(lines[i], ParseLine(lines[i], dates[i]))
  {
    OutcomesAt(lines, dates);
    forall i | 0 <= i < |lines| ensures Log(lines, dates)[i] == Message(lines[i], ParseLine(lines[i], dates[i])) {
      MessagesAt(lines, Outcomes(lines, dates), i);
    }
  }

  lemma CollectedStep(lines: seq<string>, dates: seq<Date>, k: nat)
    requires k < |lines| <= |dates|
    ensures Collected(lines[..k + 1], dates) == Collected(lines[..k], dates) + EventsOf(ParseLine(lines[k], dates[k]))
    ensures Log(lines[..k + 1], dates) == Log(lines[..k], dates) + [Message(lines[k], ParseLine(lines[k], dates[k]))]
  {
    JudgedGatherStep(ParseLine, lines, dates, k);
    JudgedMessagesStep(ParseLine, lines, dates, k);
  }

  /** Judging one more line adds that line's events. */
  lemma JudgedGatherStep(judge: (string, Date) -> Outcome, lines: seq<string>, dates: seq<Date>, k: nat)
    requires k < |lines| <= |dates|
    ensures Gather(Judged(judge, lines[..k + 1], dates)) == Gather(Judged(judge, lines[..k], dates)) + EventsOf(judge(lines[k], dates[k]))
  {
    JudgedStep(judge, lines, dates, k);
    GatherStep(Judged(judge, lines[..k], dates), judge(lines[k], dates[k]));
  }

  /** Judging one more line adds that line's printed line. */
  lemma JudgedMessagesStep(judge: (string, Date) -> Outcome, lines: seq<string>, dates: seq<Date>, k: nat)
    requires k < |lines| <= |dates|
    ensures Messages(lines[..k + 1], Judged(judge, lines[..k + 1], dates)) ==
      Messages(lines[..k], Judged(judge, lines[..k], dates)) + [Message(lines[k], judge(lines[k], dates[k]))]
  {
    assert lines[..k + 1] == lines[..k] + [lines[k]];
    JudgedStep(judge, lines, dates, k);
    MessagesStep(lines[..k], Judged(judge, lines[..k], dates), lines[k], judge(lines[k], dates[k]));
  }

  /** `[line.strip() for line in lines]`. */
  function StripAll(lines: seq<string>): (r: seq<string>)
    ensures |r| == |lines|
    ensures forall i :: 0 <= i < |lines| ==> r[i] == Strip(lines[i])
  {
    seq(|lines|, i requires 0 <= i < |lines| => Strip(lines[i]))
  }

  /** A line and its stripped form get the same verdict: stripping keeps the tokens. */
  lemma StripKeepsOutcome(line: string, today: Date)
    ensures ParseLine(Strip(line), today) == ParseLine(line, today)
  {
    SplitStrip(line);
  }

  /**
   * Stripping the file's lines changes the echoed text but never the events:
   * file mode adds the events the raw lines would add.
   */
  lemma StrippingKeepsEvents(lines: seq<string>, dates: seq<Date>)
    requires |lines| <= |dates|
    ensures Outcomes(StripAll(lines), dates) == Outcomes(lines, dates)
    ensures Collected(StripAll(lines), dates) == Collected(lines, dates)
  {
    var s := StripAll(lines);
    forall i | 0 <= i < |s| ensures ParseLine(s[i], dates[i]) == ParseLine(lines[i], dates[i]) {
      StripKeepsOutcome(lines[i], dates[i]);
    }
    JudgedAgree(ParseLine, s, lines, dates);
  }

  /** Handling the next line of a file extends the events and the printed lines by that one stripped line. */
  lemma FileStep(lines: seq<string>, dates: seq<Date>, k: nat)
    requires k < |lines| <= |dates|
    ensures Collected(StripAll(lines[..k + 1]), dates) ==
      Collected(StripAll(lines[..k]), dates) + EventsOf(ParseLine(Strip(lines[k]), dates[k]))
    ensures Log(StripAll(lines[..k + 1]), dates) ==
      Log(StripAll(lines[..k]), dates) + [Message(Strip(lines[k]), ParseLine(Strip(lines[k]), dates[k]))]
  {
    var s := StripAll(lines[..k + 1]);
    assert s[..k] == StripAll(lines[..k]);
    assert s[..k + 1] == s;
    assert s[k] == Strip(lines[k]);
    CollectedStep(s, dates, k);
  }

  /** A blank line of a file reaches `add_event` as "" and is rejected there. */
  lemma BlankFileLineRejected(line: string, today: Date)
    requires AllSpace(line)
    ensures Strip(line) == ""
    ensures ParseLine(Strip(line), today) == Rejected
  {
    BlankLine(line);
    EmptyLineRejected(today);
  }

  /** The empty line is rejected, and what is echoed for it names no input. */
  lemma EmptyLineRejected(today: Date)
    ensures ParseLine("", today) == Rejected
    ensures Message("", Rejected) == "Invalid input . Event not added."
  {
    assert Split("") == [];
  }

  /**
   * `fill_calendar_file`: open the file (here: look its lines up; `found` is
   * false when there is no such file, where `open` raises) and hand every
   * line, stripped, to `add_event`, blank lines included.
   */
  method FillCalendarFile(filename: string, files: map<string, seq<string>>, cal: Calendar, dates: seq<Date>)
    returns (found: bool, log: seq<string>)
    requires filename in files ==> |files[filename]| <= |dates|
    modifies cal
    ensures found <==> filename in files
    ensures !found ==> cal.events == old(cal.events) && log == []
    ensures found ==> cal.events == old(cal.events) + Collected(StripAll(files[filename]), dates)
    ensures found ==> log == Log(StripAll(files[filename]), dates)
  {
    log := [];
    found := filename in files;
    if !found {
      return;
    }
    var lines := files[filename];
    for k := 0 to |lines|
      invariant cal.events == old(cal.events) + Collected(StripAll(lines[..k]), dates)
      invariant log == Log(StripAll(lines[..k]), dates)
    {
      var line := Strip(lines[k]);
      FileStep(lines, dates, k);
      var msg := AddEvent(line, cal, dates[k]);
      log := log + [msg];
    }
    assert lines[..|lines|] == lines;
  }

  /** The typed lines `fill_calendar_user` handles: all of them before the first empty one. */
  function UntilSentinel(typed: seq<string>): (r: seq<string>)
    ensures |r| <= |typed| && r == typed[..|r|]
    ensures Sentinel !in r
    ensures |r| < |typed| ==> typed[|r|] == Sentinel
  {
    if typed == [] || typed[0] == Sentinel then [] else [typed[0]] + UntilSentinel(typed[1..])
  }

  /** The lines before the first empty one are those up to any `k` with no empty line before it and an empty line, or the end, at it. */
  lemma {:induction false} UntilSentinelAt(typed: seq<string>, k: nat)
    requires k <= |typed| && Sentinel !in typed[..k]
    requires k < |typed| ==> typed[k] == Sentinel
    ensures UntilSentinel(typed) == typed[..k]
  {
    if k > 0 {
      assert typed[0] == typed[..k][0];
      var tail := typed[1..];
      assert tail[..k - 1] == typed[1..k];
      forall j | 0 <= j < k ensures typed[j] != Sentinel {
        assert typed[..k][j] == typed[j];
      }
      assert Sentinel !in tail[..k - 1];
      UntilSentinelAt(tail, k - 1);
      assert typed[..k] == [typed[0]] + typed[1..k];
    }
  }

  /** Nothing typed after the first empty line is ever handled. */
  lemma LinesAfterSentinelIgnored(before: seq<string>, after: seq<string>)
    requires Sentinel !in before
    ensures UntilSentinel(before + [Sentinel] + after) == before
  {
    var typed := before + [Sentinel] + after;
    assert typed[..|before|] == before;
    UntilSentinelAt(typed, |before|);
  }

  /** Where the typed lines stop being handled: at the first empty line, or at the end of input. */
  lemma UserStop(typed: seq<string>, i: nat)
    requires i <= |typed| && Sentinel !in typed[..i]
    requires i == |typed| || typed[i] == Sentinel
    ensures UntilSentinel(typed) == typed[..i]
    ensures Sentinel in typed <==> i < |typed|
  {
    UntilSentinelAt(typed, i);
    if i == |typed| {
      assert typed[..i] == typed;
    }
  }

  /** Handling the next typed line, when it is not empty. */
  lemma UserStep(typed: seq<string>, dates: seq<Date>, i: nat)
    requires i < |typed| <= |dates| && Sentinel !in typed[..i] && typed[i] != Sentinel
    ensures Sentinel !in typed[..i + 1]
    ensures Collected(typed[..i + 1], dates) == Collected(typed[..i], dates) + EventsOf(ParseLine(typed[i], dates[i]))
    ensures Log(typed[..i + 1], dates) == Log(typed[..i], dates) + [Message(typed[i], ParseLine(typed[i], dates[i]))]
  {
    assert typed[..i + 1] == typed[..i] + [typed[i]];
    CollectedStep(typed, dates, i);
  }

  /**
   * `fill_calendar_user`: read lines and hand each to `add_event` until an
   * empty line is read. `stopped` is false when the input ends first, where
   * `input()` raises.
   */
  method FillCalendarUser(typed: seq<string>, cal: Calendar, dates: seq<Date>) returns (log: seq<string>, stopped: bool)
    requires |typed| <= |dates|
    modifies cal
    ensures stopped <==> Sentinel in typed
    ensures cal.events == old(cal.events) + Collected(UntilSentinel(typed), dates)
    ensures log == Log(UntilSentinel(typed), dates)
  {
    log := [];
    var i := 0;
    while true
      invariant i <= |typed|
      invariant Sentinel !in typed[..i]
      invariant cal.events == old(cal.events) + Collected(typed[..i], dates)
      invariant log == Log(typed[..i], dates)
      decreases |typed| - i
    {
      if i == |typed| {
        // the input ends before an empty line: `input()` raises
        UserStop(typed, i);
        stopped := false;
        return;
      }
      var inp := typed[i];
      if inp == Sentinel {
        UserStop(typed, i);
        stopped := true;
        return;
      }
      UserStep(typed, dates, i);
      var msg := AddEvent(inp, cal, dates[i]);
      log := log + [msg];
      i := i + 1;
    }
  }
}
