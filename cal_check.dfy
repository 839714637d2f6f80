/**
 * The calendar checker (calendar/cal-check.py): its own reading of the env
 * file, the simple iCalendar reader that pulls VEVENT blocks out of the
 * CalDAV answer after unfolding folded lines (section 3.1 of RFC 5545), and
 * the event records it prints, sorted by start. The CalDAV request, the XML
 * around the calendar data and the date parser are parameters or left out.
 */
module CalCheck {
  import opened Wrappers
  import opened PyStr
  import opened KeySort
  import EnvFile

  const Crlf := "\r\n"
  const Begin := "BEGIN:VEVENT"
  const End := "END:VEVENT"
  const NoTitle := "(kein Titel)"
  const DescriptionLimit := 500

  // ---------------------------------------------------------------------------
  // load_env
  // ---------------------------------------------------------------------------

  /**
   * One line of the env file as this script reads it: any line with an '='
   * is stripped and split at its first '='; key and value are kept as they
   * are, and comment lines are not skipped.
   */
  function EnvLine(line: string): (r: Option<(string, string)>)
    ensures r.Some? <==> '=' in line
    ensures r.Some? ==> '=' !in r.value.0 && Strip(line) == r.value.0 + "=" + r.value.1
  {
    if '=' in line then
      StripKeeps(line, '=');
      Some(PartitionAt(Strip(line), '='))
    else
      None
  }

  /** `load_env`, over the file's lines. */
  method LoadEnv(lines: seq<string>) returns (env: EnvFile.Env)
    ensures env == EnvFile.EnvOf(EnvLine, lines)
  {
    env := EnvFile.Load(EnvLine, lines);
  }

  /**
   * Unlike the dashboard's reader, this one keeps quotes and the text around
   * the '=' as written: a line `k=v` whose ends are not white space reads as
   * exactly `k` and `v`, even when `k` starts with '#'.
   */
  lemma EnvLineVerbatim(k: string, v: string)
    requires '=' !in k
    requires k == [] || !IsSpace(k[0])
    requires v == [] || !IsSpace(v[|v| - 1])
    ensures EnvLine(k + "=" + v) == Some((k, v))
  {
    var line := k + "=" + v;
    assert line == k + ['='] + v;
    assert line[|k|] == '=';
    assert line[0] == if k == [] then '=' else k[0];
    assert line[|line| - 1] == if v == [] then '=' else v[|v| - 1];
    TrimFixed(line, IsSpace);
    BeforeFirstOf(k, '=', v);
  }

  // ---------------------------------------------------------------------------
  // parse_ical_events
  // ---------------------------------------------------------------------------

  /**
   * Unfolding as the script does it: one left-to-right pass removes each
   * CRLF-space it meets, then a second pass removes each CRLF-tab. Text that
   * a removal brings together is not looked at again (`UnfoldSinglePass`).
   */
  function Unfold(data: string): (r: string)
    ensures |r| <= |data|
  {
    RemoveAll(RemoveAll(data, "\r\n "), "\r\n\t")
  }

  /** A line folded with CRLF-space at each fold unfolds to its pieces run together. */
  lemma UnfoldSpaceFolds(pieces: seq<string>)
    requires forall k :: 0 <= k < |pieces| ==> '\r' !in pieces[k]
    ensures Unfold(Join(pieces, "\r\n ")) == Concat(pieces)
  {
    RemoveJoined(pieces, "\r\n ");
    ConcatWithout(pieces, '\r');
    AbsentByChar(Concat(pieces), "\r\n\t", '\r');
    RemoveAbsent(Concat(pieces), "\r\n\t");
  }

  /** A line folded with CRLF-tab at each fold unfolds to its pieces run together. */
  lemma UnfoldTabFolds(pieces: seq<string>)
    requires forall k :: 0 <= k < |pieces| ==> '\r' !in pieces[k]
    ensures Unfold(Join(pieces, "\r\n\t")) == Concat(pieces)
  {
    assert "\r\n\t"[..3][2] != "\r\n "[2];
    RemoveOtherJoined(pieces, "\r\n\t", "\r\n ");
    RemoveJoined(pieces, "\r\n\t");
  }

  /** One fold between two pieces of a line: the CRLF-space goes, the pieces join. */
  lemma UnfoldOneFold(a: string, b: string)
    requires '\r' !in a && '\r' !in b
    ensures Unfold(a + "\r\n " + b) == a + b
  {
    var pieces := [a, b];
    assert pieces[1..] == [b];
    assert Join(pieces, "\r\n ") == a + "\r\n " + b;
    assert Concat([b]) == b;
    UnfoldSpaceFolds(pieces);
  }

  /** A fold right after a line break is removed once; the line break and the second space stay. */
  lemma UnfoldSinglePass()
    ensures Unfold("\r\n\r\n  ") == "\r\n "
  {
    var s := "\r\n\r\n  ";
    assert s[..3][2] != "\r\n "[2];
    assert RemoveAll(s, "\r\n ") == "\r" + RemoveAll(s[1..], "\r\n ");
    assert s[1..] == "\n" + ("\r\n " + " ");
    RemoveAllSkip("\n", "\r\n " + " ", "\r\n ");
    RemoveAllFold("", "\r\n ", " ");
    assert "" + "\r\n " + " " == "\r\n " + " ";
    assert RemoveAll(s, "\r\n ") == "\r\n ";
    assert "\r\n "[..3][2] != "\r\n\t"[2];
  }

  /** The unfolded text split at each CRLF. */
  function Lines(data: string): (r: seq<string>)
    ensures |r| >= 1
    ensures Join(r, Crlf) == Unfold(data)
    ensures forall k :: 0 <= k < |r| ==> !Contains(r[k], Crlf)
  {
    Split(Unfold(data), Crlf)
  }

  /** Text without a carriage return has nothing to unfold and is one line. */
  lemma NoCarriageReturn(data: string)
    requires '\r' !in data
    ensures Unfold(data) == data && Lines(data) == [data]
  {
    AbsentByChar(data, "\r\n ", '\r');
    RemoveAbsent(data, "\r\n ");
    AbsentByChar(data, "\r\n\t", '\r');
    RemoveAbsent(data, "\r\n\t");
    AbsentByChar(data, Crlf, '\r');
  }

  type VEvent = map<string, string>

  /** The property name of a content line: the text before the first ':', then before the first ';'. */
  function PropKey(line: string): (key: string)
    requires ':' in line
    ensures ':' !in key && ';' !in key && StartsWith(line, key)
  {
    var name := PartitionAt(line, ':').0;
    var key := BeforeFirst(name, ';');
    assert line[..|key|] == name[..|key|];
    key
  }

  /** The value of a content line: everything after the first ':'. */
  function PropValue(line: string): string
    requires ':' in line
  {
    PartitionAt(line, ':').1
  }

  /** A content line is its name, a ':' and its value; the name has no ':', and the key is the name up to any ';'. */
  lemma ContentLineShape(line: string)
    requires ':' in line
    ensures var name := PartitionAt(line, ':').0;
      && line == name + ":" + PropValue(line)
      && ':' !in name
      && PropKey(line) == BeforeFirst(name, ';')
  {
  }

  /** The reader's state between lines: inside a block or not, the event being filled, the events so far. */
  datatype Scan = Scan(inEvent: bool, current: VEvent, events: seq<VEvent>)

  const Start := Scan(false, map[], [])

  predicate IsBegin(line: string) { Strip(line) == Begin }
  predicate IsEnd(line: string) { Strip(line) == End }

  /**
   * The effect of one line: BEGIN opens an empty event and keeps the events so
   * far; END closes the block and appends the current event, open or not;
   * inside a block a content line sets its property; outside a block every
   * other line is ignored.
   */
  function ScanLine(st: Scan, line: string): (r: Scan)
    ensures IsBegin(line) ==> r == Scan(true, map[], st.events)
    ensures |r.events| == |st.events| + (if IsEnd(line) then 1 else 0)
    ensures r.events[..|st.events|] == st.events
    ensures IsEnd(line) ==> !r.inEvent && r.events[|st.events|] == st.current
    ensures st.inEvent && !IsBegin(line) && !IsEnd(line) && ':' in line ==>
      r.inEvent && r.current == st.current[PropKey(line) := PropValue(line)]
    ensures !st.inEvent && !IsBegin(line) && !IsEnd(line) ==> r == st
  {
    if IsBegin(line) then Scan(true, map[], st.events)
    else if IsEnd(line) then Scan(false, st.current, st.events + [st.current])
    else if st.inEvent && ':' in line then st.(current := st.current[PropKey(line) := PropValue(line)])
    else st
  }

  /** The state after the lines, read first to last from `st`. */
  function ScanFrom(st: Scan, lines: seq<string>): Scan
    decreases |lines|
  {
    if lines == [] then st else ScanLine(ScanFrom(st, lines[..|lines| - 1]), lines[|lines| - 1])
  }

  /** `parse_ical_events`. */
  method ParseIcalEvents(data: string) returns (events: seq<VEvent>)
    ensures events == ScanFrom(Start, Lines(data)).events
  {
    var lines := Lines(data);
    events := [];
    var inEvent := false;
    var event: VEvent := map[];
    for i := 0 to |lines|
      invariant Scan(inEvent, event, events) == ScanFrom(Start, lines[..i])
    {
      assert lines[..i + 1][..i] == lines[..i];
      var line := lines[i];
      if Strip(line) == Begin {
        inEvent := true;
        event := map[];
      } else if Strip(line) == End {
        inEvent := false;
        events := events + [event];
      } else if inEvent && ':' in line {
        var key := PropKey(line);
        event := event[key := PropValue(line)];
      }
    }
    assert lines[..|lines|] == lines;
  }

  lemma {:induction false} ScanAppend(st: Scan, a: seq<string>, b: seq<string>)
    ensures ScanFrom(st, a + b) == ScanFrom(ScanFrom(st, a), b)
    decreases |b|
  {
    if b == [] {
      assert a + b == a;
    } else {
      assert (a + b)[..|a + b| - 1] == a + b[..|b| - 1];
      ScanAppend(st, a, b[..|b| - 1]);
    }
  }

  /** The number of lines that end a block once stripped. */
  function CountEnds(lines: seq<string>): nat
    decreases |lines|
  {
    if lines == [] then 0 else CountEnds(lines[..|lines| - 1]) + (if IsEnd(lines[|lines| - 1]) then 1 else 0)
  }

  /** One event is returned for every END line, whether or not a block was open. */
  lemma {:induction false} OneEventPerEnd(st: Scan, lines: seq<string>)
    ensures |ScanFrom(st, lines).events| == |st.events| + CountEnds(lines)
    decreases |lines|
  {
    if lines != [] {
      OneEventPerEnd(st, lines[..|lines| - 1]);
    }
  }

  /** The key and value of a content line, for the rule that builds an event. */
  function Property(line: string): Option<(string, string)> {
    if ':' in line then Some((PropKey(line), PropValue(line))) else None
  }

  /** Lines inside a block, none of them BEGIN or END. */
  predicate Inner(lines: seq<string>) {
    forall i :: 0 <= i < |lines| ==> !IsBegin(lines[i]) && !IsEnd(lines[i])
  }

  lemma {:induction false} InnerLines(events: seq<VEvent>, lines: seq<string>)
    requires Inner(lines)
    ensures ScanFrom(Scan(true, map[], events), lines) == Scan(true, EnvFile.EnvOf(Property, lines), events)
    decreases |lines|
  {
    if lines != [] {
      InnerLines(events, lines[..|lines| - 1]);
    }
  }

  /**
   * A block yields one event holding its content lines' properties, a later
   * line overwriting an earlier one with the same key (EnvFile.LastLineWins
   * says which line each key comes from); lines without ':' are skipped.
   */
  lemma BlockIsOneEvent(st: Scan, lines: seq<string>)
    requires Inner(lines)
    ensures var ev := EnvFile.EnvOf(Property, lines);
      ScanFrom(st, [Begin] + lines + [End]) == Scan(false, ev, st.events + [ev])
  {
    var ev := EnvFile.EnvOf(Property, lines);
    MarkersAreMarkers();
    ScanSingle(st, Begin);
    ScanAppend(st, [Begin], lines);
    InnerLines(st.events, lines);
    var filled := ScanFrom(st, [Begin] + lines);
    assert filled == Scan(true, ev, st.events);
    ScanAppend(st, [Begin] + lines, [End]);
    ScanSingle(filled, End);
  }

  /** The two marker lines are recognised as what they are, and only as that. */
  lemma MarkersAreMarkers()
    ensures IsBegin(Begin) && !IsEnd(Begin)
    ensures IsEnd(End) && !IsBegin(End)
  {
    TrimFixed(Begin, IsSpace);
    TrimFixed(End, IsSpace);
  }

  lemma ScanSingle(st: Scan, line: string)
    ensures ScanFrom(st, [line]) == ScanLine(st, line)
  {
    assert [line][..0] == [];
  }

  // ---------------------------------------------------------------------------
  // The printed records
  // ---------------------------------------------------------------------------

  datatype EventRecord = EventRecord(calendar: string, summary: string, start: string, end: string,
                                     location: string, description: string, status: string)

  function Get(ev: VEvent, key: string, default: string): string {
    if key in ev then ev[key] else default
  }

  /** The printed start or end: the parsed date-time when the raw value parses, else the raw value or "?". */
  function DateField(ev: VEvent, key: string, parseDt: string -> Option<string>): string {
    var parsed := parseDt(Get(ev, key, ""));
    if parsed.Some? then parsed.value else Get(ev, key, "?")
  }

  /** The record for one event; `parseDt` is `parse_dt` followed by `isoformat`. */
  function MakeRecord(calendar: string, ev: VEvent, parseDt: string -> Option<string>): (r: EventRecord)
    ensures r.calendar == calendar
    ensures |r.description| <= DescriptionLimit && StartsWith(Get(ev, "DESCRIPTION", ""), r.description)
  {
    EventRecord(calendar, Get(ev, "SUMMARY", NoTitle), DateField(ev, "DTSTART", parseDt), DateField(ev, "DTEND", parseDt),
                Get(ev, "LOCATION", ""), Take(Get(ev, "DESCRIPTION", ""), DescriptionLimit), Get(ev, "STATUS", ""))
  }

  /**
   * The defaults: no SUMMARY reads "(kein Titel)", a missing LOCATION, STATUS
   * or DESCRIPTION reads "", an unparsable start is printed raw or as "?",
   * and a description of at most 500 characters is kept whole.
   */
  lemma RecordDefaults(calendar: string, ev: VEvent, parseDt: string -> Option<string>)
    ensures var r := MakeRecord(calendar, ev, parseDt);
      && ("SUMMARY" !in ev ==> r.summary == NoTitle)
      && ("SUMMARY" in ev ==> r.summary == ev["SUMMARY"])
      && ("LOCATION" !in ev ==> r.location == "") && ("STATUS" !in ev ==> r.status == "")
      && ("DESCRIPTION" !in ev ==> r.description == "")
      && ("DESCRIPTION" in ev && |ev["DESCRIPTION"]| <= DescriptionLimit ==> r.description == ev["DESCRIPTION"])
      && (parseDt(Get(ev, "DTSTART", "")).None? ==> r.start == if "DTSTART" in ev then ev["DTSTART"] else "?")
      && (parseDt(Get(ev, "DTSTART", "")).Some? ==> r.start == parseDt(Get(ev, "DTSTART", "")).value)
  {
  }

  function StartKey(r: EventRecord): string {
    r.start
  }

  /** The calendar data of one calendar's responses. */
  datatype Source = Source(calendar: string, data: string)

  /** The records of all sources, in the order read. */
  function RecordsOf(sources: seq<Source>, parseDt: string -> Option<string>): seq<EventRecord>
    decreases |sources|
  {
    if sources == [] then []
    else
      var last := sources[|sources| - 1];
      RecordsOf(sources[..|sources| - 1], parseDt) + RecordsFor(last.calendar, ScanFrom(Start, Lines(last.data)).events, parseDt)
  }

  function RecordsFor(calendar: string, events: seq<VEvent>, parseDt: string -> Option<string>): (r: seq<EventRecord>)
    ensures |r| == |events|
    ensures forall i :: 0 <= i < |r| ==> r[i] == MakeRecord(calendar, events[i], parseDt)
  {
    if events == [] then [] else [MakeRecord(calendar, events[0], parseDt)] + RecordsFor(calendar, events[1..], parseDt)
  }

  /**
   * The body of `main` after the CalDAV answers: every event of every source
   * becomes a record, and all of them are sorted by their start text.
   */
  method Collect(sources: seq<Source>, parseDt: string -> Option<string>) returns (all: seq<EventRecord>)
    ensures multiset(all) == multiset(RecordsOf(sources, parseDt))
    ensures Sorted(all, StartKey, false)
  {
    var records: seq<EventRecord> := [];
    for i := 0 to |sources|
      invariant records == RecordsOf(sources[..i], parseDt)
    {
      assert sources[..i + 1][..i] == sources[..i];
      var events := ParseIcalEvents(sources[i].data);
      records := AppendRecords(records, sources[i].calendar, events, parseDt);
    }
    assert sources[..|sources|] == sources;
    all := SortBy(records, StartKey, false);
  }

  /** `all_events.append` for each event of one calendar. */
  method AppendRecords(records: seq<EventRecord>, calendar: string, events: seq<VEvent>, parseDt: string -> Option<string>)
    returns (r: seq<EventRecord>)
    ensures r == records + RecordsFor(calendar, events, parseDt)
  {
    r := records;
    for j := 0 to |events|
      invariant r == records + RecordsFor(calendar, events[..j], parseDt)
    {
      assert events[..j + 1] == events[..j] + [events[j]];
      RecordsForAppend(calendar, events[..j], [events[j]], parseDt);
      r := r + [MakeRecord(calendar, events[j], parseDt)];
    }
    assert events[..|events|] == events;
  }

  lemma RecordsForAppend(calendar: string, a: seq<VEvent>, b: seq<VEvent>, parseDt: string -> Option<string>)
    ensures RecordsFor(calendar, a + b, parseDt) == RecordsFor(calendar, a, parseDt) + RecordsFor(calendar, b, parseDt)
  {
    var l, r := RecordsFor(calendar, a + b, parseDt), RecordsFor(calendar, a, parseDt) + RecordsFor(calendar, b, parseDt);
    assert |l| == |r|;
    forall i | 0 <= i < |l| ensures l[i] == r[i] {
      if i < |a| { assert (a + b)[i] == a[i]; } else { assert (a + b)[i] == b[i - |a|]; }
    }
  }
}
