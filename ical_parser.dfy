/**
 * The calendar feed reader: split the raw text into physical lines, unfold
 * continuation lines (those starting with a space or a tab), then walk the logical
 * lines collecting the properties of each `VEVENT` block and emitting an event at
 * its `END` line when the summary and both dates are present and parse.
 *
 * The system's date formatter and UUID generator are parameters.
 */
module ICal {
  import opened Common
  import Text

  // ---------------------------------------------------------------------------
  // Physical lines
  // ---------------------------------------------------------------------------

  /** The characters of Foundation's newline character set. */
  predicate IsNewline(c: char) {
    c == '\n' || c == '\U{000B}' || c == '\U{000C}' || c == '\r' ||
    c == '\U{0085}' || c == '\U{2028}' || c == '\U{2029}'
  }

  predicate NoNewline(s: string) {
    forall i :: 0 <= i < |s| ==> !IsNewline(s[i])
  }

  /** Every piece between newline characters, empty pieces included. */
  function SplitAtNewlines(s: string): (r: seq<string>)
    ensures |r| >= 1
  {
    if |s| == 0 then [""]
    else
      var rest := SplitAtNewlines(s[1..]);
      if IsNewline(s[0]) then [""] + rest
      else [[s[0]] + rest[0]] + rest[1..]
  }

  /** `split(whereSeparator:)` on the newline set: the non-empty physical lines. */
  function PhysicalLines(raw: string): seq<string> {
    Text.NonEmpty(SplitAtNewlines(raw))
  }

  lemma {:induction false} SplitAtNewlinesPlain(a: string)
    requires NoNewline(a)
    ensures SplitAtNewlines(a) == [a]
  {
    if |a| > 0 {
      SplitAtNewlinesPlain(a[1..]);
      assert [a[0]] + a[1..] == a;
    }
  }

  lemma {:induction false} SplitAtNewlinesAfter(a: string, nl: char, b: string)
    requires NoNewline(a) && IsNewline(nl)
    ensures SplitAtNewlines(a + [nl] + b) == [a] + SplitAtNewlines(b)
  {
    if |a| == 0 {
      assert a + [nl] + b == [nl] + b;
      assert ([nl] + b)[1..] == b;
    } else {
      var s := a + [nl] + b;
      assert s[0] == a[0];
      assert s[1..] == a[1..] + [nl] + b;
      SplitAtNewlinesAfter(a[1..], nl, b);
      assert [a[0]] + a[1..] == a;
    }
  }

  /** Non-empty lines without newlines, joined by line feeds, split back into themselves. */
  lemma {:induction false} PhysicalLinesOfJoin(lines: seq<string>)
    requires forall i :: 0 <= i < |lines| ==> lines[i] != "" && NoNewline(lines[i])
    ensures PhysicalLines(Join(lines, '\n')) == lines
  {
    if |lines| == 0 {
      assert SplitAtNewlines("") == [""];
    } else {
      SplitJoinLines(lines);
      Text.NonEmptyKeepsFull(lines);
    }
  }

  lemma {:induction false} SplitJoinLines(lines: seq<string>)
    requires |lines| >= 1
    requires forall i :: 0 <= i < |lines| ==> NoNewline(lines[i])
    ensures SplitAtNewlines(Join(lines, '\n')) == lines
  {
    if |lines| == 1 {
      SplitAtNewlinesPlain(lines[0]);
    } else {
      SplitJoinLines(lines[1..]);
      SplitAtNewlinesAfter(lines[0], '\n', Join(lines[1..], '\n'));
      assert [lines[0]] + lines[1..] == lines;
    }
  }

  // ---------------------------------------------------------------------------
  // Unfolding
  // ---------------------------------------------------------------------------

  predicate IsContinuation(line: string) {
    |line| > 0 && (line[0] == ' ' || line[0] == '\t')
  }

  /** The buffer as a finished logical line, unless it is empty. */
  function Flush(buffer: string): seq<string> {
    if buffer == "" then [] else [buffer]
  }

  /** The logical lines of `lines` when `buffer` holds the logical line read so far. */
  function UnfoldFrom(buffer: string, lines: seq<string>): seq<string>
    decreases |lines|
  {
    if |lines| == 0 then Flush(buffer)
    else if IsContinuation(lines[0]) then UnfoldFrom(buffer + lines[0][1..], lines[1..])
    else Flush(buffer) + UnfoldFrom(lines[0], lines[1..])
  }

  function Unfolded(lines: seq<string>): seq<string> {
    UnfoldFrom("", lines)
  }

  /** Unfolds physical lines, appending each continuation (without its first character) to the line before. */
  method UnfoldLines(raw: string) returns (result: seq<string>)
    ensures result == Unfolded(PhysicalLines(raw))
    ensures forall i :: 0 <= i < |result| ==> result[i] != ""
  {
    var lines := PhysicalLines(raw);
    result := [];
    var buffer := "";
    for i := 0 to |lines|
      invariant result + UnfoldFrom(buffer, lines[i..]) == Unfolded(lines)
      invariant forall k :: 0 <= k < |result| ==> result[k] != ""
    {
      var line := lines[i];
      assert lines[i..][0] == line && lines[i..][1..] == lines[i + 1..];
      if |line| > 0 && (line[0] == ' ' || line[0] == '\t') {
        buffer := buffer + line[1..];
      } else {
        if buffer != "" {
          result := result + [buffer];
        }
        buffer := line;
      }
    }
    assert lines[|lines|..] == [];
    if buffer != "" {
      result := result + [buffer];
    }
  }

  /** A logical line as written out folded: its head, then each continuation after a space. */
  datatype FoldedLine = FoldedLine(head: string, continuations: seq<string>)

  function Concat(parts: seq<string>): string {
    if |parts| == 0 then "" else parts[0] + Concat(parts[1..])
  }

  function ContinuationLines(parts: seq<string>): (r: seq<string>)
    ensures |r| == |parts|
    ensures forall i :: 0 <= i < |r| ==> r[i] == " " + parts[i]
  {
    if |parts| == 0 then [] else [" " + parts[0]] + ContinuationLines(parts[1..])
  }

  function FoldAll(ls: seq<FoldedLine>): seq<string> {
    if |ls| == 0 then [] else [ls[0].head] + ContinuationLines(ls[0].continuations) + FoldAll(ls[1..])
  }

  function Logical(ls: seq<FoldedLine>): (r: seq<string>)
    ensures |r| == |ls|
  {
    if |ls| == 0 then [] else [ls[0].head + Concat(ls[0].continuations)] + Logical(ls[1..])
  }

  /** A line that can start a folded line: non-empty, not itself a continuation. */
  predicate GoodHead(l: FoldedLine) {
    l.head != "" && !IsContinuation(l.head)
  }

  lemma {:induction false} UnfoldContinuations(buffer: string, parts: seq<string>, rest: seq<string>)
    ensures UnfoldFrom(buffer, ContinuationLines(parts) + rest) == UnfoldFrom(buffer + Concat(parts), rest)
    decreases |parts|
  {
    if |parts| == 0 {
      assert ContinuationLines(parts) + rest == rest;
      assert buffer + Concat(parts) == buffer;
    } else {
      var lines := ContinuationLines(parts) + rest;
      assert lines[0] == " " + parts[0];
      assert lines[1..] == ContinuationLines(parts[1..]) + rest;
      assert (" " + parts[0])[1..] == parts[0];
      UnfoldContinuations(buffer + parts[0], parts[1..], rest);
      assert buffer + parts[0] + Concat(parts[1..]) == buffer + Concat(parts);
    }
  }

  lemma {:induction false} UnfoldFoldFrom(buffer: string, ls: seq<FoldedLine>)
    requires forall i :: 0 <= i < |ls| ==> GoodHead(ls[i])
    ensures UnfoldFrom(buffer, FoldAll(ls)) == Flush(buffer) + Logical(ls)
    decreases |ls|
  {
    if |ls| > 0 {
      var l := ls[0];
      var lines := FoldAll(ls);
      assert lines == [l.head] + (ContinuationLines(l.continuations) + FoldAll(ls[1..]));
      assert lines[0] == l.head;
      assert lines[1..] == ContinuationLines(l.continuations) + FoldAll(ls[1..]);
      UnfoldContinuations(l.head, l.continuations, FoldAll(ls[1..]));
      UnfoldFoldFrom(l.head + Concat(l.continuations), ls[1..]);
      assert Flush(l.head + Concat(l.continuations)) == [l.head + Concat(l.continuations)];
    }
  }

  lemma {:induction false} FoldedLinesArePlain(ls: seq<FoldedLine>)
    requires forall i :: 0 <= i < |ls| ==> GoodHead(ls[i]) && NoNewline(ls[i].head)
    requires forall i, j :: 0 <= i < |ls| && 0 <= j < |ls[i].continuations| ==> NoNewline(ls[i].continuations[j])
    ensures forall k :: 0 <= k < |FoldAll(ls)| ==> FoldAll(ls)[k] != "" && NoNewline(FoldAll(ls)[k])
    decreases |ls|
  {
    if |ls| > 0 {
      FoldedLinesArePlain(ls[1..]);
      var cs := ContinuationLines(ls[0].continuations);
      forall k | 0 <= k < |cs|
        ensures cs[k] != "" && NoNewline(cs[k])
      {
        assert cs[k] == " " + ls[0].continuations[k];
        assert NoNewline(ls[0].continuations[k]);
      }
    }
  }

  /**
   * Folding logical lines, writing them out one per line feed, and reading them back
   * gives the logical lines again (unfolding in the manner of section 3.1 of RFC 5545).
   */
  lemma UnfoldRoundTrip(ls: seq<FoldedLine>)
    requires forall i :: 0 <= i < |ls| ==> GoodHead(ls[i]) && NoNewline(ls[i].head)
    requires forall i, j :: 0 <= i < |ls| && 0 <= j < |ls[i].continuations| ==> NoNewline(ls[i].continuations[j])
    ensures Unfolded(PhysicalLines(Join(FoldAll(ls), '\n'))) == Logical(ls)
  {
    FoldedLinesArePlain(ls);
    PhysicalLinesOfJoin(FoldAll(ls));
    UnfoldFoldFrom("", ls);
  }

  // ---------------------------------------------------------------------------
  // Properties and dates
  // ---------------------------------------------------------------------------

  /** Index of the first `sep` in `s`, or `|s|` when there is none. */
  function FirstIndexOf(s: string, sep: char): (k: nat)
    ensures k <= |s| && Avoids(s[..k], sep)
    ensures k < |s| ==> s[k] == sep
  {
    if |s| == 0 then 0
    else if s[0] == sep then 0
    else 1 + FirstIndexOf(s[1..], sep)
  }

  /**
   * `split(separator: sep, maxSplits: 1)` with empty pieces omitted: leading
   * separators are skipped, the first piece ends at the next separator, and the
   * remainder (if not empty) is the second piece.
   */
  function SplitOnce(s: string, sep: char): (r: seq<string>)
    ensures |r| <= 2
    ensures forall i :: 0 <= i < |r| ==> r[i] != ""
    ensures |r| >= 1 ==> Avoids(r[0], sep)
  {
    if |s| == 0 then []
    else if s[0] == sep then SplitOnce(s[1..], sep)
    else
      var k := FirstIndexOf(s, sep);
      if k == |s| then [s]
      else if k + 1 == |s| then [s[..k]]
      else [s[..k], s[k + 1..]]
  }

  /** The property name: the text before the first `;`, or the whole name when that is empty. */
  function PropertyKey(name: string): string {
    var pieces := Text.SplitOmittingEmpty(name, ';');
    if |pieces| > 0 then pieces[0] else name
  }

  /** The name and value of a content line, when it splits into exactly two pieces. */
  function Property(line: string): (r: Option<(string, string)>)
    ensures r.Some? ==> r.value.1 != ""
  {
    var parts := SplitOnce(line, ':');
    if |parts| == 2 then Some((PropertyKey(parts[0]), parts[1])) else None
  }

  /** A `NAME:value` line yields that name and value. */
  lemma PropertyOfSimpleLine(name: string, value: string)
    requires name != "" && value != "" && Avoids(name, ':') && Avoids(name, ';')
    ensures Property(name + ":" + value) == Some((name, value))
  {
    var s := name + ":" + value;
    assert s[0] == name[0];
    assert s[..|name|] == name;
    FirstIndexAt(s, name, ':');
    Text.SplitAllAvoiding(name, ';');
    Text.NonEmptyKeepsFull([name]);
    assert s[|name| + 1..] == value;
  }

  /** A `NAME;PARAMS:value` line yields the bare name and the value. */
  lemma PropertyOfParameterisedLine(name: string, params: string, value: string)
    requires name != "" && value != "" && Avoids(name, ':') && Avoids(name, ';') && Avoids(params, ':')
    ensures Property(name + ";" + params + ":" + value) == Some((name, value))
  {
    var head := name + ";" + params;
    var s := head + ":" + value;
    assert s[0] == name[0];
    assert Avoids(head, ':') by {
      forall i | 0 <= i < |head|
        ensures head[i] != ':'
      {
        if i < |name| { assert head[i] == name[i]; }
        else if i > |name| { assert head[i] == params[i - |name| - 1]; }
      }
    }
    assert s[..|head|] == head;
    FirstIndexAt(s, head, ':');
    assert s[|head| + 1..] == value;
    Text.SplitAllAfterPiece(name, ';', params);
    assert head == name + [';'] + params;
    assert Text.NonEmpty(Text.SplitAll(head, ';'))[0] == name by {
      var all := Text.SplitAll(head, ';');
      assert all == [name] + Text.SplitAll(params, ';');
      assert all[0] == name && all[1..] == Text.SplitAll(params, ';');
    }
  }

  lemma {:induction false} FirstIndexAt(s: string, a: string, sep: char)
    requires |a| < |s| && s[..|a|] == a && Avoids(a, sep) && s[|a|] == sep
    ensures FirstIndexOf(s, sep) == |a|
    decreases |a|
  {
    if |a| > 0 {
      assert s[0] == a[0];
      assert s[1..][..|a| - 1] == a[1..];
      FirstIndexAt(s[1..], a[1..], sep);
    }
  }

  /** `replacingOccurrences(of: "Z", with: "")`. */
  function RemoveZ(s: string): (r: string)
    ensures |r| <= |s| && Avoids(r, 'Z')
  {
    if |s| == 0 then ""
    else if s[0] == 'Z' then RemoveZ(s[1..])
    else [s[0]] + RemoveZ(s[1..])
  }

  lemma {:induction false} RemoveZConcat(a: string, b: string)
    ensures RemoveZ(a + b) == RemoveZ(a) + RemoveZ(b)
    decreases |a|
  {
    if |a| > 0 {
      assert (a + b)[0] == a[0] && (a + b)[1..] == a[1..] + b;
      RemoveZConcat(a[1..], b);
    } else {
      assert a + b == b;
    }
  }

  lemma {:induction false} RemoveZKeepsPlain(a: string)
    requires Avoids(a, 'Z')
    ensures RemoveZ(a) == a
  {
    if |a| > 0 {
      RemoveZKeepsPlain(a[1..]);
      assert [a[0]] + a[1..] == a;
    }
  }

  /** The two formatters: `yyyyMMdd` and `yyyyMMdd'T'HHmmss`, in the device's time zone. */
  datatype DateFormatters = DateFormatters(dateOnly: string -> Option<int>, dateTime: string -> Option<int>)

  /** Date values: with every `Z` removed, eight characters are a date, fifteen or more a date-time, anything else fails. */
  function ParseDate(f: DateFormatters, value: string): (r: Option<int>)
    ensures |RemoveZ(value)| == 8 ==> r == f.dateOnly(RemoveZ(value))
    ensures |RemoveZ(value)| >= 15 ==> r == f.dateTime(RemoveZ(value))
    ensures |RemoveZ(value)| != 8 && |RemoveZ(value)| < 15 ==> r == None
  {
    var cleaned := RemoveZ(value);
    if |cleaned| == 8 then f.dateOnly(cleaned)
    else if |cleaned| >= 15 then f.dateTime(cleaned)
    else None
  }

  /** A trailing UTC designator is ignored: the value is read as local time. */
  lemma UtcSuffixIgnored(f: DateFormatters, value: string)
    requires Avoids(value, 'Z')
    ensures ParseDate(f, value + "Z") == ParseDate(f, value)
  {
    RemoveZConcat(value, "Z");
    RemoveZKeepsPlain(value);
    assert RemoveZ("Z") == RemoveZ("") by { assert "Z"[1..] == ""; }
    assert value + "" == value;
  }

  // ---------------------------------------------------------------------------
  // Events
  // ---------------------------------------------------------------------------

  datatype ICalEvent = ICalEvent(id: string, summary: string, startDate: int, endDate: int, location: Option<string>)

  function Lookup(m: map<string, string>, key: string): Option<string> {
    if key in m then Some(m[key]) else None
  }

  /** The event an `END` line emits from the collected properties, if they are complete. */
  function EventOf(f: DateFormatters, current: map<string, string>, freshId: string): (r: Option<ICalEvent>)
    ensures r.Some? <==>
      "SUMMARY" in current && "DTSTART" in current && "DTEND" in current &&
      ParseDate(f, current["DTSTART"]).Some? && ParseDate(f, current["DTEND"]).Some?
    ensures r.Some? ==>
      r.value.summary == current["SUMMARY"] &&
      r.value.startDate == ParseDate(f, current["DTSTART"]).value &&
      r.value.endDate == ParseDate(f, current["DTEND"]).value &&
      r.value.id == Lookup(current, "UID").GetOr(freshId) &&
      r.value.location == Lookup(current, "LOCATION")
  {
    if "SUMMARY" in current && "DTSTART" in current && "DTEND" in current then
      match (ParseDate(f, current["DTSTART"]), ParseDate(f, current["DTEND"]))
      case (Some(start), Some(end)) =>
        Some(ICalEvent(Lookup(current, "UID").GetOr(freshId), current["SUMMARY"], start, end,
                       Lookup(current, "LOCATION")))
      case _ => None
    else None
  }

  datatype ParseState = ParseState(events: seq<ICalEvent>, current: map<string, string>, inEvent: bool)

  const BeginLine: string := "BEGIN:VEVENT"
  const EndLine: string := "END:VEVENT"

  /**
   * One logical line. `uuid(n)` is the identifier generated for the n-th emitted
   * event when it has no `UID`. An `END` line leaves the collected properties in place.
   */
  function Step(f: DateFormatters, uuid: nat -> string, st: ParseState, line: string): (r: ParseState)
    ensures line == BeginLine ==> r.inEvent && r.current == map[] && r.events == st.events
    ensures line == EndLine ==> !r.inEvent && r.current == st.current
    ensures line != EndLine ==> r.events == st.events
    ensures st.events <= r.events && |r.events| <= |st.events| + 1
    ensures !st.inEvent && line != BeginLine && line != EndLine ==> r == st
  {
    if line == BeginLine then
      st.(inEvent := true, current := map[])
    else if line == EndLine then
      match EventOf(f, st.current, uuid(|st.events|))
      case Some(e) => st.(events := st.events + [e], inEvent := false)
      case None => st.(inEvent := false)
    else if st.inEvent then
      match Property(line)
      case Some((key, value)) => st.(current := st.current[key := value])
      case None => st
    else st
  }

  function StepAll(f: DateFormatters, uuid: nat -> string, st: ParseState, lines: seq<string>): (r: ParseState)
    ensures st.events <= r.events
    decreases |lines|
  {
    if |lines| == 0 then st else StepAll(f, uuid, Step(f, uuid, st, lines[0]), lines[1..])
  }

  const Start: ParseState := ParseState([], map[], false)

  /** Parses a feed into events, in the order their `END` lines appear. */
  method Parse(raw: string, f: DateFormatters, uuid: nat -> string) returns (events: seq<ICalEvent>)
    ensures events == StepAll(f, uuid, Start, Unfolded(PhysicalLines(raw))).events
  {
    var lines := UnfoldLines(raw);
    events := [];
    var current: map<string, string> := map[];
    var inEvent := false;
    for i := 0 to |lines|
      invariant StepAll(f, uuid, ParseState(events, current, inEvent), lines[i..]) == StepAll(f, uuid, Start, lines)
    {
      var line := lines[i];
      assert lines[i..][0] == line && lines[i..][1..] == lines[i + 1..];
      if line == "BEGIN:VEVENT" {
        inEvent := true;
        current := map[];
        continue;
      }
      if line == "END:VEVENT" {
        if "SUMMARY" in current && "DTSTART" in current && "DTEND" in current {
          var startDate := ParseDate(f, current["DTSTART"]);
          var endDate := ParseDate(f, current["DTEND"]);
          if startDate.Some? && endDate.Some? {
            var uid := if "UID" in current then current["UID"] else uuid(|events|);
            var location := if "LOCATION" in current then Some(current["LOCATION"]) else None;
            events := events + [ICalEvent(uid, current["SUMMARY"], startDate.value, endDate.value, location)];
          }
        }
        inEvent := false;
        continue;
      }
      if inEvent {
        var parts := SplitOnce(line, ':');
        if |parts| == 2 {
          var key := PropertyKey(parts[0]);
          current := current[key := parts[1]];
        }
      }
    }
    assert lines[|lines|..] == [];
  }

  function CountEnds(lines: seq<string>): nat {
    if |lines| == 0 then 0 else (if lines[0] == EndLine then 1 else 0) + CountEnds(lines[1..])
  }

  /** Earlier events are never changed, and each `END` line adds at most one event. */
  lemma {:induction false} EventsPerEnd(f: DateFormatters, uuid: nat -> string, st: ParseState, lines: seq<string>)
    ensures st.events <= StepAll(f, uuid, st, lines).events
    ensures |StepAll(f, uuid, st, lines).events| <= |st.events| + CountEnds(lines)
    decreases |lines|
  {
    if |lines| > 0 {
      EventsPerEnd(f, uuid, Step(f, uuid, st, lines[0]), lines[1..]);
    }
  }

  /** Without a `BEGIN:VEVENT` line no event is emitted. */
  lemma {:induction false} NoBeginNoEvents(f: DateFormatters, uuid: nat -> string, st: ParseState, lines: seq<string>)
    requires !st.inEvent && st.current == map[]
    requires forall i :: 0 <= i < |lines| ==> lines[i] != BeginLine
    ensures StepAll(f, uuid, st, lines).events == st.events
    decreases |lines|
  {
    if |lines| > 0 {
      NoBeginNoEvents(f, uuid, Step(f, uuid, st, lines[0]), lines[1..]);
    }
  }

  /**
   * An `END` line does not clear the collected properties, so a second `END`
   * emits the same event again; with a `UID` the two are identical.
   */
  lemma RepeatedEndEmitsTwice(f: DateFormatters, uuid: nat -> string, st: ParseState)
    requires EventOf(f, st.current, uuid(|st.events|)).Some?
    requires "UID" in st.current
    ensures var e := EventOf(f, st.current, uuid(|st.events|)).value;
      StepAll(f, uuid, st, [EndLine, EndLine]).events == st.events + [e, e]
  {
    var e := EventOf(f, st.current, uuid(|st.events|)).value;
    var st1 := Step(f, uuid, st, EndLine);
    assert st1.current == st.current && st1.events == st.events + [e];
    assert EventOf(f, st1.current, uuid(|st1.events|)) == Some(e);
    var st2 := Step(f, uuid, st1, EndLine);
    assert st2.events == st.events + [e, e];
    assert [EndLine, EndLine][1..] == [EndLine];
    assert StepAll(f, uuid, st1, [EndLine]) == StepAll(f, uuid, st2, []);
  }

  /** Inside an event, a `NAME;PARAMS:value` line records `value` under `NAME`. */
  lemma PropertyLineRecords(f: DateFormatters, uuid: nat -> string, st: ParseState, name: string, params: string, value: string)
    requires st.inEvent
    requires name != "" && value != "" && Avoids(name, ':') && Avoids(name, ';') && Avoids(params, ':')
    requires name + ";" + params + ":" + value != BeginLine && name + ";" + params + ":" + value != EndLine
    ensures Step(f, uuid, st, name + ";" + params + ":" + value) == st.(current := st.current[name := value])
  {
    PropertyOfParameterisedLine(name, params, value);
  }

  /** The properties a run of content lines records on top of `current`, later lines overriding earlier ones. */
  function Collected(current: map<string, string>, lines: seq<string>): map<string, string>
    decreases |lines|
  {
    if |lines| == 0 then current
    else
      var next := match Property(lines[0]) case Some((key, value)) => current[key := value] case None => current;
      Collected(next, lines[1..])
  }

  /** None of the lines is one of the two event markers. */
  predicate Unmarked(lines: seq<string>) {
    forall i :: 0 <= i < |lines| ==> lines[i] != BeginLine && lines[i] != EndLine
  }

  lemma {:induction false} StepAllAppend(f: DateFormatters, uuid: nat -> string, st: ParseState,
                                        a: seq<string>, b: seq<string>)
    ensures StepAll(f, uuid, st, a + b) == StepAll(f, uuid, StepAll(f, uuid, st, a), b)
    decreases |a|
  {
    if |a| == 0 {
      assert a + b == b;
    } else {
      assert (a + b)[0] == a[0] && (a + b)[1..] == a[1..] + b;
      StepAllAppend(f, uuid, Step(f, uuid, st, a[0]), a[1..], b);
    }
  }

  /** Outside an event, every line but the two markers is ignored. */
  lemma {:induction false} OutsideLinesIgnored(f: DateFormatters, uuid: nat -> string, st: ParseState,
                                              lines: seq<string>)
    requires !st.inEvent && Unmarked(lines)
    ensures StepAll(f, uuid, st, lines) == st
    decreases |lines|
  {
    if |lines| > 0 {
      assert lines[0] != BeginLine && lines[0] != EndLine;
      assert Unmarked(lines[1..]) by {
        forall i | 0 <= i < |lines[1..]|
          ensures lines[1..][i] != BeginLine && lines[1..][i] != EndLine
        {
          assert lines[1..][i] == lines[i + 1];
        }
      }
      OutsideLinesIgnored(f, uuid, st, lines[1..]);
    }
  }

  /** Inside an event, every line but the two markers only records its property. */
  lemma {:induction false} InsideLinesCollect(f: DateFormatters, uuid: nat -> string, st: ParseState,
                                             lines: seq<string>)
    requires st.inEvent && Unmarked(lines)
    ensures StepAll(f, uuid, st, lines) == st.(current := Collected(st.current, lines))
    decreases |lines|
  {
    if |lines| > 0 {
      assert lines[0] != BeginLine && lines[0] != EndLine;
      assert Unmarked(lines[1..]) by {
        forall i | 0 <= i < |lines[1..]|
          ensures lines[1..][i] != BeginLine && lines[1..][i] != EndLine
        {
          assert lines[1..][i] == lines[i + 1];
        }
      }
      InsideLinesCollect(f, uuid, Step(f, uuid, st, lines[0]), lines[1..]);
    }
  }

  /** `BEGIN:VEVENT` starts an event with no properties, whatever was collected before. */
  lemma BeginResets(f: DateFormatters, uuid: nat -> string, st: ParseState, lines: seq<string>)
    ensures StepAll(f, uuid, st, [BeginLine] + lines) == StepAll(f, uuid, ParseState(st.events, map[], true), lines)
  {
    assert ([BeginLine] + lines)[0] == BeginLine && ([BeginLine] + lines)[1..] == lines;
  }

  /**
   * A complete `BEGIN:VEVENT` ... `END:VEVENT` block appends the event of the
   * properties its lines record, when they make one, and leaves the parser outside
   * an event with those properties still collected.
   */
  lemma CompleteEventEmitted(f: DateFormatters, uuid: nat -> string, st: ParseState, props: seq<string>)
    requires Unmarked(props)
    ensures var current := Collected(map[], props);
      var e := EventOf(f, current, uuid(|st.events|));
      StepAll(f, uuid, st, [BeginLine] + props + [EndLine]) ==
        ParseState(st.events + (if e.Some? then [e.value] else []), current, false)
  {
    var begun := ParseState(st.events, map[], true);
    assert [BeginLine] + props + [EndLine] == [BeginLine] + (props + [EndLine]);
    BeginResets(f, uuid, st, props + [EndLine]);
    StepAllAppend(f, uuid, begun, props, [EndLine]);
    InsideLinesCollect(f, uuid, begun, props);
    var filled := begun.(current := Collected(map[], props));
    assert StepAll(f, uuid, filled, [EndLine]) == StepAll(f, uuid, Step(f, uuid, filled, EndLine), []);
  }

  /**
   * A feed holding one complete event, surrounded by lines that are not event
   * markers (the calendar's own `BEGIN:VCALENDAR` and `END:VCALENDAR`), parses to
   * exactly that event.
   */
  lemma SingleEventFeed(f: DateFormatters, uuid: nat -> string, before: seq<string>, props: seq<string>,
                        after: seq<string>)
    requires Unmarked(before) && Unmarked(props) && Unmarked(after)
    requires EventOf(f, Collected(map[], props), uuid(0)).Some?
    ensures StepAll(f, uuid, Start, before + [BeginLine] + props + [EndLine] + after).events ==
      [EventOf(f, Collected(map[], props), uuid(0)).value]
  {
    var block := [BeginLine] + props + [EndLine];
    assert before + [BeginLine] + props + [EndLine] + after == before + (block + after);
    StepAllAppend(f, uuid, Start, before, block + after);
    OutsideLinesIgnored(f, uuid, Start, before);
    StepAllAppend(f, uuid, Start, block, after);
    CompleteEventEmitted(f, uuid, Start, props);
    OutsideLinesIgnored(f, uuid, StepAll(f, uuid, Start, block), after);
  }

  /** The property names an event of the client's test feed carries. */
  const EventNames: seq<string> := ["UID", "SUMMARY", "DTSTART", "DTEND", "LOCATION"]

  function ContentLine(name: string, value: string): string {
    name + ":" + value
  }

  /** Inside an event, a `NAME:value` line records `value` under `NAME` and nothing else. */
  lemma CollectLine(current: map<string, string>, lines: seq<string>, name: string, value: string)
    requires |lines| > 0 && lines[0] == ContentLine(name, value)
    requires name in EventNames && value != ""
    ensures Collected(current, lines) == Collected(current[name := value], lines[1..])
  {
    assert Avoids(name, ':') && Avoids(name, ';');
    PropertyOfSimpleLine(name, value);
  }

  /** The property lines of an event with a UID, a summary, both dates and a location. */
  function EventLines(uid: string, summary: string, start: string, end: string, location: string): seq<string> {
    [ContentLine("UID", uid), ContentLine("SUMMARY", summary), ContentLine("DTSTART", start),
     ContentLine("DTEND", end), ContentLine("LOCATION", location)]
  }

  lemma EventLinesCollect(uid: string, summary: string, start: string, end: string, location: string)
    requires uid != "" && summary != "" && start != "" && end != "" && location != ""
    ensures Collected(map[], EventLines(uid, summary, start, end, location)) ==
      map["UID" := uid, "SUMMARY" := summary, "DTSTART" := start, "DTEND" := end, "LOCATION" := location]
  {
    var props := EventLines(uid, summary, start, end, location);
    var m1 := map["UID" := uid];
    var m2 := m1["SUMMARY" := summary];
    var m3 := m2["DTSTART" := start];
    var m4 := m3["DTEND" := end];
    CollectLine(map[], props, "UID", uid);
    CollectLine(m1, props[1..], "SUMMARY", summary);
    assert props[1..][1..] == props[2..];
    CollectLine(m2, props[2..], "DTSTART", start);
    assert props[2..][1..] == props[3..];
    CollectLine(m3, props[3..], "DTEND", end);
    assert props[3..][1..] == props[4..];
    CollectLine(m4, props[4..], "LOCATION", location);
    assert props[4..][1..] == [];
  }

  lemma EventLinesUnmarked(uid: string, summary: string, start: string, end: string, location: string)
    ensures Unmarked(EventLines(uid, summary, start, end, location))
  {
    var props := EventLines(uid, summary, start, end, location);
    assert props[0][0] == 'U' && props[1][0] == 'S' && props[2][0] == 'D' && props[3][0] == 'D' && props[4][0] == 'L';
    assert BeginLine[0] == 'B' && EndLine[0] == 'E';
  }

  /**
   * A feed of the client's test shape (calendar lines around one event carrying a
   * UID, a summary, two readable dates and a location) parses to exactly that event.
   */
  lemma OneEventFeed(f: DateFormatters, uuid: nat -> string, before: seq<string>, after: seq<string>,
                     uid: string, summary: string, start: string, end: string, location: string)
    requires Unmarked(before) && Unmarked(after)
    requires uid != "" && summary != "" && location != ""
    requires ParseDate(f, start).Some? && ParseDate(f, end).Some?
    ensures StepAll(f, uuid, Start, before + [BeginLine] + EventLines(uid, summary, start, end, location) + [EndLine]
                                    + after).events ==
      [ICalEvent(uid, summary, ParseDate(f, start).value, ParseDate(f, end).value, Some(location))]
  {
    assert start != "" && end != "" by {
      assert RemoveZ("") == "";
    }
    EventLinesCollect(uid, summary, start, end, location);
    EventLinesUnmarked(uid, summary, start, end, location);
    SingleEventFeed(f, uuid, before, EventLines(uid, summary, start, end, location), after);
  }
}
