/**
  The menu conversation of backend/app/jobs/telegram_bot.py: `route_text` turns a
  text into an action whose arguments are packed into a string, and
  `_handle_message` unpacks them, asks the database and moves the chat's state.
 */
module Conversation {
  import opened Wrappers
  import opened Calendar
  import opened DateText

  // ---------------------------------------------------------------------------
  // Keyboard labels
  // ---------------------------------------------------------------------------

  const MEETINGS := "\U{1F4C5} Meetings"
  const DOCUMENTS := "\U{1F4C4} Documents"
  const DEPARTMENTS := "\U{1F3E2} Departments"
  const OFFICERS := "\U{1F464} Officers"
  const HELP := "\U{2139}\U{FE0F} Help"
  const BACK := "\U{2B05}\U{FE0F} Back"
  const TODAY := "\U{1F4C6} Today"
  const WEEK := "\U{1F5D3}\U{FE0F} This Week"
  const MONTH := "\U{1F4C5} This Month"
  const ALL := "\U{267E}\U{FE0F} All Time"
  const CUSTOM := "\U{1F4C5} Custom range"
  const INCOMING := "\U{1F4E5} Incoming"
  const OUTGOING := "\U{1F4E4} Outgoing"
  const MASTER_LIST := "\U{1F4CB} Master list"
  const ALL_DOCS := "\U{1F4C4} All documents"

  /** What a text is on the keyboard. */
  datatype Button =
    | Start
    | HelpCommand
    | HelpLabel
    | Back
    | Flow(flow: string)
    | Departments
    | Officers
    | Custom
    | DocType(code: string)
    | Period(period: string)
    | Typed

  function ButtonOf(text: string): Button {
    if text == "/start" || text == "/menu" then Start
    else if text == "/help" then HelpCommand
    else if text == HELP then HelpLabel
    else if text == BACK then Back
    else if text == MEETINGS then Flow("meetings")
    else if text == DOCUMENTS then Flow("documents")
    else if text == DEPARTMENTS then Departments
    else if text == OFFICERS then Officers
    else if text == CUSTOM then Custom
    else if text == INCOMING then DocType("incoming_document")
    else if text == OUTGOING then DocType("outgoing_document")
    else if text == MASTER_LIST then DocType("master_list_request")
    else if text == ALL_DOCS then DocType("all")
    else if text == TODAY then Period("today")
    else if text == WEEK then Period("week")
    else if text == MONTH then Period("month")
    else if text == ALL then Period("all")
    else Typed
  }

  /** No two labels of the keyboards are the same text: every one leads to its own action. */
  lemma SectionLabels()
    ensures ButtonOf(HELP) == HelpLabel && ButtonOf(BACK) == Back && ButtonOf(CUSTOM) == Custom
    ensures ButtonOf(MEETINGS) == Flow("meetings") && ButtonOf(DOCUMENTS) == Flow("documents")
    ensures ButtonOf(DEPARTMENTS) == Departments && ButtonOf(OFFICERS) == Officers
  {
  }

  lemma DocumentLabels()
    ensures ButtonOf(INCOMING) == DocType("incoming_document") && ButtonOf(OUTGOING) == DocType("outgoing_document")
    ensures ButtonOf(MASTER_LIST) == DocType("master_list_request") && ButtonOf(ALL_DOCS) == DocType("all")
  {
  }

  lemma PeriodLabels()
    ensures ButtonOf(TODAY) == Period("today") && ButtonOf(WEEK) == Period("week")
    ensures ButtonOf(MONTH) == Period("month") && ButtonOf(ALL) == Period("all")
  {
  }

  predicate IsSpace(c: char) {
    || '\t' <= c <= '\r' || '\U{1C}' <= c <= ' '
    || c in {'\U{85}', '\U{A0}', '\U{1680}', '\U{2028}', '\U{2029}', '\U{202F}', '\U{205F}', '\U{3000}'}
    || '\U{2000}' <= c <= '\U{200A}'
  }

  /** `strip` */
  function Strip(s: string): (stripped: string)
    ensures stripped != "" ==> !IsSpace(stripped[0]) && !IsSpace(stripped[|stripped| - 1])
    decreases |s|
  {
    if s == "" then ""
    else if IsSpace(s[0]) then Strip(s[1..])
    else if IsSpace(s[|s| - 1]) then Strip(s[..|s| - 1])
    else s
  }

  predicate AllSpaces(s: string) {
    forall i :: 0 <= i < |s| ==> IsSpace(s[i])
  }

  lemma {:induction false} StripAfter(s: string, after: string)
    requires AllSpaces(after)
    ensures Strip(s + after) == Strip(s)
    decreases |s| + |after|
  {
    if after == "" {
      assert s + after == s;
    } else if s == "" {
      assert (s + after)[1..] == s + after[1..];
      StripAfter(s, after[1..]);
    } else if IsSpace(s[0]) {
      assert (s + after)[1..] == s[1..] + after;
      StripAfter(s[1..], after);
    } else {
      assert (s + after)[..|s + after| - 1] == s + after[..|after| - 1];
      StripAfter(s, after[..|after| - 1]);
    }
  }

  lemma {:induction false} StripBefore(before: string, s: string)
    requires AllSpaces(before)
    ensures Strip(before + s) == Strip(s)
    decreases |before|
  {
    if before == "" {
      assert before + s == s;
    } else {
      assert (before + s)[1..] == before[1..] + s;
      StripBefore(before[1..], s);
    }
  }

  /** Exactly the spaces at both ends are removed: what has none there stays, whatever spaces are put around it. */
  lemma StripExactly(before: string, text: string, after: string)
    requires AllSpaces(before) && AllSpaces(after)
    requires text != "" ==> !IsSpace(text[0]) && !IsSpace(text[|text| - 1])
    ensures Strip(before + text + after) == text
  {
    StripAfter(before + text, after);
    StripBefore(before, text);
  }

  // ---------------------------------------------------------------------------
  // Packed strings
  // ---------------------------------------------------------------------------

  /** `partition`: the text before the first separator, and the text behind it. */
  function Partition(s: string, separator: char): (parts: (string, string))
  {
    if s == "" then ("", "")
    else if s[0] == separator then ("", s[1..])
    else
      var (before, after) := Partition(s[1..], separator);
      ([s[0]] + before, after)
  }

  lemma {:induction false} PartitionExact(before: string, separator: char, after: string)
    requires separator !in before
    ensures Partition(before + [separator] + after, separator) == (before, after)
    decreases |before|
  {
    var s := before + [separator] + after;
    if before == "" {
      assert s[1..] == after;
    } else {
      assert s[1..] == before[1..] + [separator] + after;
      PartitionExact(before[1..], separator, after);
      assert [before[0]] + before[1..] == before;
    }
  }

  function PackDocuments(code: string, period: string): string {
    code + [':'] + period
  }

  function PackRange(flow: string, code: string, start: Date, end: Date): string
    requires Valid(start) && InRange(start) && Valid(end) && InRange(end)
  {
    flow + ['|'] + (code + ['|'] + (IsoFormat(start) + ['|'] + IsoFormat(end)))
  }

  /** A range payload comes apart into exactly what was put in. */
  lemma RangeUnpacks(flow: string, code: string, start: Date, end: Date)
    requires '|' !in flow && '|' !in code
    requires Valid(start) && InRange(start) && Valid(end) && InRange(end)
    ensures
      var (gotFlow, remainder) := Partition(PackRange(flow, code, start, end), '|');
      var (gotCode, dates) := Partition(remainder, '|');
      var (gotStart, gotEnd) := Partition(dates, '|');
      && gotFlow == flow && gotCode == code
      && FromIsoFormat(gotStart) == Some(start) && FromIsoFormat(gotEnd) == Some(end)
  {
    hide IsoFormat, FromIsoFormat, Partition;
    IsoRoundTrip(start);
    IsoRoundTrip(end);
    var dates := IsoFormat(start) + ['|'] + IsoFormat(end);
    var remainder := code + ['|'] + dates;
    PartitionExact(flow, '|', remainder);
    PartitionExact(code, '|', dates);
    PartitionExact(IsoFormat(start), '|', IsoFormat(end));
  }

  // ---------------------------------------------------------------------------
  // Routing
  // ---------------------------------------------------------------------------

  /** The stored dictionary; nothing stored is a dictionary without keys. */
  datatype State = State(flow: Option<string>, doctype: Option<string>, awaiting: Option<string>)

  const NOTHING := State(None, None, None)

  /** `value or fallback` */
  function Or(value: Option<string>, fallback: string): string {
    if value.Some? && value.value != "" then value.value else fallback
  }

  datatype Action = Action(name: string, payload: Option<string>)

  predicate AwaitsRange(state: State, button: Button) {
    state.awaiting == Some("range") && (button == Typed || button == HelpCommand)
  }

  /** `route_text` */
  function RouteText(raw: string, state: State): (action: Result<Action, Overflow>) {
    var text := Strip(raw);
    var button := ButtonOf(text);
    if AwaitsRange(state, button) then
      match ParsedRange(text)
      case Err(e) => Err(e)
      case Ok(None) => Ok(Action("range_invalid", None))
      case Ok(Some(window)) =>
        ParsedNotEmpty(text);
        Ok(Action("result_range", Some(
          PackRange(Or(state.flow, "meetings"), Or(state.doctype, "all"), window.start.date, window.end.date))))
    else
      Ok(match button
         case Start => Action("welcome", None)
         case HelpCommand => Action("help", None)
         case HelpLabel => Action("help", None)
         case Back => Action("welcome", None)
         case Flow(flow) => Action("flow", Some(flow))
         case Departments => Action("departments", None)
         case Officers => Action("officers", None)
         case Custom => Action("await_range", None)
         case DocType(code) => Action("doctype", Some(code))
         case Period(period) =>
           if state.flow == Some("documents")
           then Action("result_docs", Some(PackDocuments(Or(state.doctype, "all"), period)))
           else Action("result_meetings", Some(period))
         case Typed => Action("welcome", None))
  }

  // ---------------------------------------------------------------------------
  // Handling
  // ---------------------------------------------------------------------------

  /** What the database is asked for. */
  datatype Query =
    | MeetingsIn(range: Option<Window>)
    | DocumentsIn(range: Option<Window>, code: Option<string>)
    | DepartmentList
    | OfficerList

  datatype Outcome = Outcome(state: State, asked: Option<Query>)

  function Selected(code: string): Option<string> {
    if code == "all" then None else Some(code)
  }

  /** The effect of one message of a permitted private chat; an error is the raised one. */
  function Handled(raw: string, state: State, now: Instant): (outcome: Result<Outcome, Overflow>)
    requires ValidInstant(now)
  {
    match RouteText(raw, state)
    case Err(e) => Err(e)
    case Ok(Action(name, payload)) =>
      var given := Or(payload, "");
      if name == "help" then Ok(Outcome(NOTHING, None))
      else if name == "flow" && given != "" then Ok(Outcome(State(Some(given), None, None), None))
      else if name == "doctype" && given != "" then Ok(Outcome(State(Some("documents"), Some(given), None), None))
      else if name == "await_range" then
        Ok(Outcome(state.(flow := Some(Or(state.flow, "meetings")), awaiting := Some("range")), None))
      else if name == "range_invalid" then Ok(Outcome(state, None))
      else if name == "result_meetings" && given != "" then
        match PeriodBounds(given, now)
        case Err(e) => Err(e)
        case Ok(range) => Ok(Outcome(NOTHING, Some(MeetingsIn(range))))
      else if name == "result_docs" && given != "" then
        var (code, period) := Partition(given, ':');
        match PeriodBounds(period, now)
        case Err(e) => Err(e)
        case Ok(range) => Ok(Outcome(NOTHING, Some(DocumentsIn(range, Selected(code)))))
      else if name == "result_range" && given != "" then
        Ok(Outcome(NOTHING, RangeQuery(given)))
      else if name == "departments" then Ok(Outcome(NOTHING, Some(DepartmentList)))
      else if name == "officers" then Ok(Outcome(NOTHING, Some(OfficerList)))
      else Ok(Outcome(NOTHING, None))
  }

  function RangeQuery(payload: string): Option<Query> {
    var (flow, remainder) := Partition(payload, '|');
    var (code, dates) := Partition(remainder, '|');
    var (startText, endText) := Partition(dates, '|');
    match (FromIsoFormat(startText), FromIsoFormat(endText))
    case (Some(start), Some(end)) =>
      var range := Some(Window(Instant(start, 0), Instant(end, 0)));
      Some(if flow == "documents" then DocumentsIn(range, Selected(code)) else MeetingsIn(range))
    case _ => None
  }

  /** The stored state of one chat, as the message handler reads and rewrites it. */
  class Chat {
    var state: State

    constructor ()
      ensures state == NOTHING
    {
      state := NOTHING;
    }

    /** `_handle_message`; an error leaves the state as it was. */
    method HandleMessage(raw: string, now: Instant) returns (asked: Result<Option<Query>, Overflow>)
      requires ValidInstant(now)
      modifies this
      ensures match Handled(raw, old(state), now)
              case Ok(outcome) => state == outcome.state && asked == Ok(outcome.asked)
              case Err(e) => state == old(state) && asked == Err(e)
    {
      var routed := RouteText(raw, state);
      if routed.Err? {
        return Err(routed.error);
      }
      var name, payload := routed.value.name, Or(routed.value.payload, "");
      if name == "help" {
        state := NOTHING;
        return Ok(None);
      }
      if name == "flow" && payload != "" {
        state := State(Some(payload), None, None);
        return Ok(None);
      }
      if name == "doctype" && payload != "" {
        state := State(Some("documents"), Some(payload), None);
        return Ok(None);
      }
      if name == "await_range" {
        state := state.(flow := Some(Or(state.flow, "meetings")), awaiting := Some("range"));
        return Ok(None);
      }
      if name == "range_invalid" {
        return Ok(None);
      }
      if name == "result_meetings" && payload != "" {
        var bounds := PeriodBounds(payload, now);
        if bounds.Err? {
          return Err(bounds.error);
        }
        state := NOTHING;
        return Ok(Some(MeetingsIn(bounds.value)));
      }
      if name == "result_docs" && payload != "" {
        var (code, period) := Partition(payload, ':');
        var bounds := PeriodBounds(period, now);
        if bounds.Err? {
          return Err(bounds.error);
        }
        state := NOTHING;
        return Ok(Some(DocumentsIn(bounds.value, Selected(code))));
      }
      state := NOTHING;
      if name == "result_range" && payload != "" {
        return Ok(RangeQuery(payload));
      }
      if name == "departments" {
        return Ok(Some(DepartmentList));
      }
      if name == "officers" {
        return Ok(Some(OfficerList));
      }
      return Ok(None);
    }
  }

  // ---------------------------------------------------------------------------
  // What a message does, without the packing
  // ---------------------------------------------------------------------------

  predicate Tappable(code: string) {
    code in {"incoming_document", "outgoing_document", "master_list_request", "all"}
  }

  /** A type goes with documents, and waiting goes with a section. */
  predicate Shaped(state: State) {
    && (state.flow.Some? ==> state.flow.value == "meetings" || state.flow.value == "documents")
    && (state.doctype.Some? ==> state.flow == Some("documents") && Tappable(state.doctype.value))
    && (state.awaiting.Some? ==> state.flow.Some? && state.awaiting.value == "range")
  }

  function Lookup(state: State, range: Option<Window>): Query {
    if state.flow == Some("documents") then DocumentsIn(range, Selected(state.doctype.GetOr("all")))
    else MeetingsIn(range)
  }

  function Direct(raw: string, state: State, now: Instant): (outcome: Result<Outcome, Overflow>)
    requires ValidInstant(now)
  {
    var text := Strip(raw);
    var button := ButtonOf(text);
    if AwaitsRange(state, button) then
      match ParsedRange(text)
      case Err(e) => Err(e)
      case Ok(None) => Ok(Outcome(state, None))
      case Ok(Some(window)) => Ok(Outcome(NOTHING, Some(Lookup(state, Some(window)))))
    else
      match button
      case Flow(flow) => Ok(Outcome(State(Some(flow), None, None), None))
      case DocType(code) => Ok(Outcome(State(Some("documents"), Some(code), None), None))
      case Custom =>
        Ok(Outcome(state.(flow := Some(state.flow.GetOr("meetings")), awaiting := Some("range")), None))
      case Period(period) =>
        (match PeriodBounds(period, now)
         case Err(e) => Err(e)
         case Ok(range) => Ok(Outcome(NOTHING, Some(Lookup(state, range)))))
      case Departments => Ok(Outcome(NOTHING, Some(DepartmentList)))
      case Officers => Ok(Outcome(NOTHING, Some(OfficerList)))
      case _ => Ok(Outcome(NOTHING, None))
  }

  /** Packing an action into strings and unpacking it again loses nothing. */
  lemma HandledDirectly(raw: string, state: State, now: Instant)
    requires ValidInstant(now) && Shaped(state)
    ensures Handled(raw, state, now) == Direct(raw, state, now)
  {
    hide Strip, ButtonOf, ParsedRange, PeriodBounds, Partition, PackRange, PackDocuments, RangeQuery;
    var text := Strip(raw);
    var button := ButtonOf(text);
    ButtonsKnown(text);
    if AwaitsRange(state, button) {
      match ParsedRange(text)
      case Err(_) =>
      case Ok(None) =>
      case Ok(Some(window)) =>
        ParsedNotEmpty(text);
        RangeAsked(state, window);
    } else if button.Period? && state.flow == Some("documents") {
      DocumentsAskedFor(state.doctype.GetOr("all"), button.period);
    }
  }

  lemma LabelsHaveNoMargin(text: string)
    requires ButtonOf(text) != Typed
    ensures text != "" && !IsSpace(text[0]) && !IsSpace(text[|text| - 1])
  {
  }

  /**
    What a tap does in every state, waiting for a range or not, and with any
    spaces around the label: sections, types and lists by name, and the period of
    the section the chat is in.
   */
  lemma TapEffect(before: string, text: string, after: string, state: State, now: Instant)
    requires ValidInstant(now) && Shaped(state) && AllSpaces(before) && AllSpaces(after)
    requires ButtonOf(text) != Typed && (ButtonOf(text) == HelpCommand ==> state.awaiting.None?)
    ensures
      var effect, button := Handled(before + text + after, state, now), ButtonOf(text);
      && (button.Flow? ==> effect == Ok(Outcome(State(Some(button.flow), None, None), None)))
      && (button.DocType? ==> effect == Ok(Outcome(State(Some("documents"), Some(button.code), None), None)))
      && (button.Custom? ==>
            effect == Ok(Outcome(State(Some(state.flow.GetOr("meetings")), state.doctype, Some("range")), None)))
      && (button.Period? ==> effect == PeriodAsked(state, PeriodBounds(button.period, now)))
      && (button.Departments? ==> effect == Ok(Outcome(NOTHING, Some(DepartmentList))))
      && (button.Officers? ==> effect == Ok(Outcome(NOTHING, Some(OfficerList))))
      && (button.Start? || button.Back? || button.HelpLabel? || button.HelpCommand? ==> effect == Ok(Outcome(NOTHING, None)))
  {
    LabelsHaveNoMargin(text);
    StripExactly(before, text, after);
    HandledDirectly(before + text + after, state, now);
    hide Handled, Strip, ButtonOf, ParsedRange, PeriodBounds;
  }

  /** The documents or the meetings of a period are asked for and the state is cleared, unless there is no such period. */
  function PeriodAsked(state: State, range: Result<Option<Window>, Overflow>): Result<Outcome, Overflow> {
    match range
    case Err(e) => Err(e)
    case Ok(bounds) =>
      Ok(Outcome(NOTHING, Some(
        if state.flow == Some("documents") && state.doctype.Some? && state.doctype.value != "all"
        then DocumentsIn(bounds, state.doctype)
        else if state.flow == Some("documents") then DocumentsIn(bounds, None)
        else MeetingsIn(bounds))))
  }

  lemma ButtonsKnown(text: string)
    ensures var button := ButtonOf(text);
            && (button.Flow? ==> button.flow == "meetings" || button.flow == "documents")
            && (button.DocType? ==> Tappable(button.code))
            && (button.Period? ==> button.period in {"today", "week", "month", "all"})
  {
  }

  lemma DocumentsAskedFor(code: string, period: string)
    requires Tappable(code)
    ensures Partition(PackDocuments(code, period), ':') == (code, period)
    ensures PackDocuments(code, period) != ""
  {
    PartitionExact(code, ':', period);
  }

  lemma RangeAsked(state: State, window: Window)
    requires Shaped(state) && state.flow.Some?
    requires ValidInstant(window.start) && ValidInstant(window.end)
    requires window.start.micros == 0 && window.end.micros == 0
    ensures
      var payload := PackRange(state.flow.value, state.doctype.GetOr("all"), window.start.date, window.end.date);
      payload != "" && RangeQuery(payload) == Some(Lookup(state, Some(window)))
  {
    hide Partition, IsoFormat, FromIsoFormat;
    RangeUnpacks(state.flow.value, state.doctype.GetOr("all"), window.start.date, window.end.date);
  }

  lemma ShapeKept(raw: string, state: State, now: Instant)
    requires ValidInstant(now) && Shaped(state)
    requires Handled(raw, state, now).Ok?
    ensures Shaped(Handled(raw, state, now).value.state)
  {
    hide Strip, ButtonOf, ParsedRange, PeriodBounds;
    HandledDirectly(raw, state, now);
    ButtonsKnown(Strip(raw));
  }

  // ---------------------------------------------------------------------------
  // Whole conversations
  // ---------------------------------------------------------------------------

  datatype Step = Message(raw: string, now: Instant) | Expire

  predicate ValidStep(step: Step) {
    step.Message? ==> ValidInstant(step.now)
  }

  predicate ValidSteps(steps: seq<Step>) {
    forall i :: 0 <= i < |steps| ==> ValidStep(steps[i])
  }

  function After(state: State, step: Step): State
    requires ValidStep(step)
  {
    match step
    case Expire => NOTHING
    case Message(raw, now) =>
      match Handled(raw, state, now)
      case Ok(outcome) => outcome.state
      case Err(_) => state
  }

  function StateAfter(steps: seq<Step>): State
    requires ValidSteps(steps)
    decreases |steps|
  {
    if steps == [] then NOTHING
    else After(StateAfter(steps[..|steps| - 1]), steps[|steps| - 1])
  }

  /** In every run, with the state expiring at any point, the stored keys fit together. */
  lemma {:induction false} AlwaysShaped(steps: seq<Step>)
    requires ValidSteps(steps)
    ensures Shaped(StateAfter(steps))
    decreases |steps|
  {
    if steps != [] {
      var last := |steps| - 1;
      AlwaysShaped(steps[..last]);
      var state := StateAfter(steps[..last]);
      if steps[last].Message? && Handled(steps[last].raw, state, steps[last].now).Ok? {
        ShapeKept(steps[last].raw, state, steps[last].now);
      }
    }
  }

  predicate Taps(step: Step, button: Button) {
    step.Message? && ButtonOf(Strip(step.raw)) == button
  }

  ghost predicate CustomSince(steps: seq<Step>, k: nat) {
    exists j :: k < j < |steps| && Taps(steps[j], Custom)
  }

  /**
    The step leaves a chosen document type standing: it asks for a custom range,
    fails to give one, or names a period that cannot be computed.
   */
  predicate Neutral(step: Step, waiting: bool)
    requires ValidStep(step)
  {
    step.Message? &&
    var text := Strip(step.raw);
    var button := ButtonOf(text);
    || button == Custom
    || (waiting && (button == Typed || button == HelpCommand) && !Parses(text))
    || (button.Period? && PeriodBounds(button.period, step.now).Err?)
  }

  predicate Parses(text: string) {
    ParsedRange(text).Ok? && ParsedRange(text).value.Some?
  }

  /** Since step `k`, only neutral steps have been made. */
  ghost predicate QuietSince(steps: seq<Step>, k: nat)
    requires ValidSteps(steps)
  {
    forall j :: k < j < |steps| ==> Neutral(steps[j], CustomSince(steps[..j], k))
  }

  /** Step `k` chose the document type, and it still stands. */
  ghost predicate Chosen(steps: seq<Step>, k: nat, code: string)
    requires ValidSteps(steps)
  {
    k < |steps| && Taps(steps[k], DocType(code)) && QuietSince(steps, k)
  }

  lemma NeutralStep(state: State, step: Step)
    requires Shaped(state) && state.doctype.Some? && ValidStep(step)
    requires Neutral(step, state.awaiting.Some?)
    ensures After(state, step).doctype == state.doctype
    ensures After(state, step).awaiting.Some? <==> state.awaiting.Some? || Taps(step, Custom)
  {
    hide Strip, ButtonOf, ParsedRange, PeriodBounds, Handled;
    HandledDirectly(step.raw, state, step.now);
  }

  lemma ChoosingStep(state: State, step: Step, code: string)
    requires Shaped(state) && ValidStep(step)
    ensures Taps(step, DocType(code)) ==>
              After(state, step).doctype == Some(code) && After(state, step).awaiting.None?
    ensures After(state, step).doctype == Some(code) ==>
              || Taps(step, DocType(code))
              || (state.doctype == Some(code) && Neutral(step, state.awaiting.Some?))
  {
    hide Strip, ButtonOf, ParsedRange, PeriodBounds, Handled;
    if step.Message? {
      HandledDirectly(step.raw, state, step.now);
    }
  }

  lemma CustomGrows(steps: seq<Step>, k: nat)
    requires k < |steps| - 1
    ensures CustomSince(steps, k) <==> CustomSince(steps[..|steps| - 1], k) || Taps(steps[|steps| - 1], Custom)
  {
    hide Taps;
    var earlier := steps[..|steps| - 1];
    if CustomSince(earlier, k) {
      var j :| k < j < |earlier| && Taps(earlier[j], Custom);
      assert Taps(steps[j], Custom);
    }
    if CustomSince(steps, k) && !Taps(steps[|steps| - 1], Custom) {
      var j :| k < j < |steps| && Taps(steps[j], Custom);
      assert Taps(earlier[j], Custom);
    }
  }

  lemma ChosenGrows(steps: seq<Step>, k: nat, code: string)
    requires ValidSteps(steps) && k < |steps| - 1
    ensures Chosen(steps, k, code) <==>
              && Chosen(steps[..|steps| - 1], k, code)
              && Neutral(steps[|steps| - 1], CustomSince(steps[..|steps| - 1], k))
  {
    hide Taps, Neutral, CustomSince;
    var earlier := steps[..|steps| - 1];
    forall j | k < j < |earlier|
      ensures Neutral(steps[j], CustomSince(steps[..j], k)) == Neutral(earlier[j], CustomSince(earlier[..j], k))
    {
      assert earlier[..j] == steps[..j];
    }
  }

  lemma {:induction false} ChosenStands(steps: seq<Step>, k: nat, code: string)
    requires ValidSteps(steps) && Chosen(steps, k, code)
    ensures StateAfter(steps).doctype == Some(code)
    ensures StateAfter(steps).awaiting.Some? <==> CustomSince(steps, k)
    decreases |steps|
  {
    var last := |steps| - 1;
    var state := StateAfter(steps[..last]);
    AlwaysShaped(steps[..last]);
    if k == last {
      ChoosingStep(state, steps[last], code);
    } else {
      ChosenGrows(steps, k, code);
      CustomGrows(steps, k);
      ChosenStands(steps[..last], k, code);
      NeutralStep(state, steps[last]);
    }
  }

  lemma {:induction false} StandingWasChosen(steps: seq<Step>, code: string) returns (k: nat)
    requires ValidSteps(steps) && StateAfter(steps).doctype == Some(code)
    ensures Chosen(steps, k, code)
    decreases |steps|
  {
    var last := |steps| - 1;
    var state := StateAfter(steps[..last]);
    AlwaysShaped(steps[..last]);
    ChoosingStep(state, steps[last], code);
    if Taps(steps[last], DocType(code)) {
      k := last;
    } else {
      k := StandingWasChosen(steps[..last], code);
      ChosenStands(steps[..last], k, code);
      ChosenGrows(steps, k, code);
    }
  }

  /** The stored type is the one chosen in the conversation that is still going on. */
  lemma TypeMeaning(steps: seq<Step>, code: string)
    requires ValidSteps(steps)
    ensures StateAfter(steps).doctype == Some(code) <==> exists k :: Chosen(steps, k, code)
  {
    if StateAfter(steps).doctype == Some(code) {
      var k := StandingWasChosen(steps, code);
    }
    forall k | Chosen(steps, k, code) ensures StateAfter(steps).doctype == Some(code) {
      ChosenStands(steps, k, code);
    }
  }

  /**
    Whatever has been said before, a query for documents is narrowed to a type
    exactly when that type was the last one chosen and still stands; the button
    for all documents, or none, leaves it open.
   */
  lemma DocumentsAsked(steps: seq<Step>, raw: string, now: Instant, code: string)
    requires ValidSteps(steps) && ValidInstant(now)
    ensures
      var outcome := Handled(raw, StateAfter(steps), now);
      outcome.Ok? && outcome.value.asked.Some? && outcome.value.asked.value.DocumentsIn? ==>
        (outcome.value.asked.value.code == Some(code) <==> code != "all" && exists k :: Chosen(steps, k, code))
  {
    hide Strip, ButtonOf, ParsedRange, PeriodBounds, Handled, Chosen, StateAfter;
    AlwaysShaped(steps);
    HandledDirectly(raw, StateAfter(steps), now);
    TypeMeaning(steps, code);
  }
}
