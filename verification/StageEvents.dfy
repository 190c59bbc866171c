/** Stage lifecycle events: log rows opened and closed around chats, turns and tool calls, and streamed tool output. */
module StageEvents {
  import opened Prelude

  // ---------------------------------------------------------------- streamed output

  const Marker := "\n...[truncated]"
  const SummaryLimit := 50_000

  datatype Summary = Summary(text: string, truncated: bool)

  /** `_append_output_summary`: the flag tells whether this chunk had to be cut. */
  function AppendOutputSummary(existing: string, chunk: string): Summary {
    if chunk == "" then Summary(existing, false)
    else if EndsWith(existing, Marker) && |existing| >= SummaryLimit then Summary(existing, true)
    else
      var merged := existing + chunk;
      if |merged| <= SummaryLimit then Summary(merged, false)
      else Summary(merged[..SummaryLimit - |Marker|] + Marker, true)
  }

  /** What the tracker does with each chunk: append it and remember whether any chunk was cut. */
  function AddChunk(s: Summary, chunk: string): Summary {
    var next := AppendOutputSummary(s.text, chunk);
    Summary(next.text, s.truncated || next.truncated)
  }

  /** Truncating the whole output once. */
  function Truncate(whole: string): Summary {
    if |whole| <= SummaryLimit then Summary(whole, false)
    else Summary(whole[..SummaryLimit - |Marker|] + Marker, true)
  }

  /** At most 50,000 characters are kept; a longer output keeps its beginning, and its end says that it was cut. */
  lemma TruncationKeepsBeginning(whole: string)
    ensures var t := Truncate(whole);
            && (t.truncated <==> |whole| > 50_000)
            && (|whole| <= 50_000 ==> t.text == whole)
            && (|whole| > 50_000 ==> |t.text| == 50_000 && t.text[..49_985] == whole[..49_985] && t.text[49_985..] == "\n...[truncated]")
  {
    assert |Marker| == 15;
  }

  lemma AppendFollowsTruncation(whole: string, chunk: string)
    ensures AddChunk(Truncate(whole), chunk) == Truncate(whole + chunk)
  {
    var keep := SummaryLimit - |Marker|;
    assert |Marker| == 15;
    if chunk == "" {
      assert whole + chunk == whole;
    } else if |whole| > SummaryLimit {
      assert (whole + chunk)[..keep] == whole[..keep];
    } else if EndsWith(whole, Marker) && |whole| >= SummaryLimit {
      assert (whole + chunk)[..keep] == whole[..keep];
      assert whole == whole[..keep] + whole[keep..];
    }
  }

  function Concat(chunks: seq<string>): string {
    if chunks == [] then "" else Concat(chunks[..|chunks| - 1]) + Last(chunks)
  }

  function Stream(chunks: seq<string>): Summary {
    if chunks == [] then Summary("", false) else AddChunk(Stream(chunks[..|chunks| - 1]), Last(chunks))
  }

  /** However the output is cut into chunks, streaming it gives what truncating it once gives, flag included. */
  lemma {:induction false} StreamingIsTruncation(chunks: seq<string>)
    ensures Stream(chunks) == Truncate(Concat(chunks))
  {
    if chunks != [] {
      StreamingIsTruncation(chunks[..|chunks| - 1]);
      AppendFollowsTruncation(Concat(chunks[..|chunks| - 1]), Last(chunks));
    }
  }

  // ---------------------------------------------------------------- log rows

  /** What the tracker sends to the log pipeline. Recorded rows are created in their final state. */
  datatype Emission =
    | Opened(id: string)
    | Closed(id: string, status: string, output: Option<Summary>)
    | Recorded

  datatype ToolRun = ToolRun(logId: string, summary: Summary, command: string)

  datatype CompletedRun = CompletedRun(status: string, command: string, preview: string)

  /** Runner callbacks and emit calls; `logId` is the fresh id the pipeline hands out for the row. */
  datatype Event =
    | ChatSent(correlation: string, logId: string)
    | ChatReceived(correlation: string, status: string)
    | TurnStart(turn: string, logId: string)
    | TurnEnd(turn: string)
    | BeforeTool(call: string, command: string, logId: string)
    | ToolOutput(call: string, chunk: string)
    | AfterTool(call: string, command: string, output: string)
    | Finalize(status: string)

  const FailurePrefixes := ["Error:", "Error (exit", "Error reading file:", "Error writing file:", "Exit code:"]

  function InferToolStatus(output: string): string {
    if exists p :: p in FailurePrefixes && p <= output then "failed" else "success"
  }

  function TurnKey(chat: string, turn: string): string {
    chat + ":turn:" + turn
  }

  function LastTwenty<T>(s: seq<T>): seq<T> {
    if |s| > 20 then s[|s| - 20..] else s
  }

  datatype Tracking = Tracking(
    chats: Dict<string>,
    turns: Dict<string>,
    tools: Dict<ToolRun>,
    active: Option<string>,
    completed: seq<CompletedRun>,
    emitted: seq<Emission>)
  {
    ghost predicate Valid() {
      chats.Valid() && turns.Valid() && tools.Valid()
    }

    function Emit(e: Emission): Tracking {
      this.(emitted := emitted + [e])
    }
  }

  function CloseTool(run: ToolRun, status: string, output: string): Emission {
    Closed(run.logId, status, Some(run.summary.(text := output)))
  }

  /** A place in one of the three maps. */
  datatype Slot = ChatSlot(key: string) | TurnSlot(key: string) | ToolSlot(key: string)

  /** The log row that an occupied slot will close. */
  function RowAt(s: Tracking, slot: Slot): Option<string> {
    match slot
    case ChatSlot(k) => if k in s.chats.at then Some(s.chats.at[k]) else None
    case TurnSlot(k) => if k in s.turns.at then Some(s.turns.at[k]) else None
    case ToolSlot(k) => if k in s.tools.at then Some(s.tools.at[k].logId) else None
  }

  /** The slot is vacated and the row that it held is closed. */
  function CloseSlot(s: Tracking, slot: Slot, status: string): Tracking {
    if RowAt(s, slot).None? then s else
      match slot
      case ChatSlot(k) => s.Emit(Closed(s.chats.at[k], status, None)).(chats := s.chats.Remove(k))
      case TurnSlot(k) => s.Emit(Closed(s.turns.at[k], status, None)).(turns := s.turns.Remove(k))
      case ToolSlot(k) => s.Emit(CloseTool(s.tools.at[k], status, s.tools.at[k].summary.text)).(tools := s.tools.Remove(k))
  }

  function CloseSlots(s: Tracking, slots: seq<Slot>, status: string): Tracking {
    if slots == [] then s else CloseSlot(CloseSlots(s, slots[..|slots| - 1], status), Last(slots), status)
  }

  function ChatSlots(s: Tracking): seq<Slot> {
    seq(|s.chats.keys|, i requires 0 <= i < |s.chats.keys| => ChatSlot(s.chats.keys[i]))
  }

  function TurnSlots(s: Tracking): seq<Slot> {
    seq(|s.turns.keys|, i requires 0 <= i < |s.turns.keys| => TurnSlot(s.turns.keys[i]))
  }

  function ToolSlots(s: Tracking): seq<Slot> {
    seq(|s.tools.keys|, i requires 0 <= i < |s.tools.keys| => ToolSlot(s.tools.keys[i]))
  }

  function Step(s: Tracking, e: Event): Tracking {
    match e
    case ChatSent(c, id) =>
      s.Emit(Opened(id)).(active := Some(c), chats := s.chats.Put(c, id))
    case ChatReceived(c, status) =>
      CloseSlot(s, ChatSlot(c), status).Emit(Recorded).(active := if s.active == Some(c) then None else s.active)
    case TurnStart(turn, id) =>
      if s.active.None? then s else
        s.Emit(Opened(id)).(turns := s.turns.Put(TurnKey(s.active.value, turn), id))
    case TurnEnd(turn) =>
      if s.active.None? then s else
        CloseSlot(s, TurnSlot(TurnKey(s.active.value, turn)), "success").Emit(Recorded)
    case BeforeTool(call, command, id) =>
      if call == "" then s else
        s.Emit(Opened(id)).(tools := s.tools.Put(call, ToolRun(id, Summary("", false), command)))
    case ToolOutput(call, chunk) =>
      if call == "" || call !in s.tools.at then s else
        var run := s.tools.at[call];
        s.(tools := s.tools.Put(call, run.(summary := AddChunk(run.summary, chunk))))
    case AfterTool(call, command, output) =>
      var status := InferToolStatus(output);
      if call in s.tools.at then
        var run := s.tools.at[call];
        var preview := if run.summary.text != "" then run.summary.text else output;
        var done := CompletedRun(status, if run.command != "" then run.command else command, preview);
        s.Emit(CloseTool(run, status, preview)).(
          completed := LastTwenty(s.completed + [done]), tools := s.tools.Remove(call))
      else
        s.Emit(Recorded).(completed := LastTwenty(s.completed + [CompletedRun(status, command, output)]))
    case Finalize(status) =>
      var noTurns := CloseSlots(s, TurnSlots(s), status).(active := None);
      var noChats := CloseSlots(noTurns, ChatSlots(noTurns), status);
      CloseSlots(noChats, ToolSlots(noChats), status)
  }

  function Run(s: Tracking, events: seq<Event>): Tracking {
    if events == [] then s else Step(Run(s, events[..|events| - 1]), Last(events))
  }

  const Fresh := Tracking(Dict([], map[]), Dict([], map[]), Dict([], map[]), None, [], [])

  // ---------------------------------------------------------------- the tracker object

  class StageEventTracker {
    var chatRuns: Dict<string>
    var turnRuns: Dict<string>
    var toolRuns: Dict<ToolRun>
    var activeChat: Option<string>
    var completedToolRuns: seq<CompletedRun>
    var emitted: seq<Emission>

    constructor ()
      ensures State() == Fresh
    {
      chatRuns, turnRuns, toolRuns := Dict([], map[]), Dict([], map[]), Dict([], map[]);
      activeChat, completedToolRuns, emitted := None, [], [];
    }

    function State(): Tracking
      reads this
    {
      Tracking(chatRuns, turnRuns, toolRuns, activeChat, completedToolRuns, emitted)
    }

    method Emit(e: Emission)
      modifies `emitted
      ensures emitted == old(emitted) + [e]
    {
      emitted := emitted + [e];
    }

    method EmitChatSent(correlation: string, logId: string)
      modifies this
      ensures State() == Step(old(State()), ChatSent(correlation, logId))
    {
      activeChat := Some(correlation);
      Emit(Opened(logId));
      chatRuns := chatRuns.Put(correlation, logId);
    }

    method EmitChatReceived(correlation: string, status: string)
      modifies this
      ensures State() == Step(old(State()), ChatReceived(correlation, status))
    {
      if correlation in chatRuns.at {
        Emit(Closed(chatRuns.at[correlation], status, None));
        chatRuns := chatRuns.Remove(correlation);
      }
      Emit(Recorded);
      if activeChat == Some(correlation) {
        activeChat := None;
      }
    }

    method OnTurnStart(turn: string, logId: string)
      modifies this
      ensures State() == Step(old(State()), TurnStart(turn, logId))
    {
      if activeChat.None? {
        return;
      }
      var correlation := TurnKey(activeChat.value, turn);
      Emit(Opened(logId));
      turnRuns := turnRuns.Put(correlation, logId);
    }

    method OnTurnEnd(turn: string)
      modifies this
      ensures State() == Step(old(State()), TurnEnd(turn))
    {
      if activeChat.None? {
        return;
      }
      var correlation := TurnKey(activeChat.value, turn);
      if correlation in turnRuns.at {
        Emit(Closed(turnRuns.at[correlation], "success", None));
        turnRuns := turnRuns.Remove(correlation);
      }
      Emit(Recorded);
    }

    method OnBeforeToolCall(call: string, command: string, logId: string)
      modifies this
      ensures State() == Step(old(State()), BeforeTool(call, command, logId))
    {
      if call == "" {
        return;
      }
      Emit(Opened(logId));
      toolRuns := toolRuns.Put(call, ToolRun(logId, Summary("", false), command));
    }

    method OnToolExecutionUpdate(call: string, chunk: string)
      modifies this
      ensures State() == Step(old(State()), ToolOutput(call, chunk))
    {
      if call == "" {
        return;
      }
      if call in toolRuns.at {
        var run := toolRuns.at[call];
        var next := AppendOutputSummary(run.summary.text, chunk);
        toolRuns := toolRuns.Put(call, run.(summary := Summary(next.text, run.summary.truncated || next.truncated)));
      }
    }

    method OnAfterToolResult(call: string, command: string, output: string)
      modifies this
      ensures State() == Step(old(State()), AfterTool(call, command, output))
    {
      var status := InferToolStatus(output);
      if call in toolRuns.at {
        var run := toolRuns.at[call];
        var outputSummary := if run.summary.text != "" then run.summary.text else output;
        Emit(Closed(run.logId, status, Some(Summary(outputSummary, run.summary.truncated))));
        Remember(CompletedRun(status, if run.command != "" then run.command else command, outputSummary));
        toolRuns := toolRuns.Remove(call);
        return;
      }
      Emit(Recorded);
      Remember(CompletedRun(status, command, output));
    }

    method Remember(done: CompletedRun)
      modifies `completedToolRuns
      ensures completedToolRuns == LastTwenty(old(completedToolRuns) + [done])
    {
      completedToolRuns := completedToolRuns + [done];
      if |completedToolRuns| > 20 {
        completedToolRuns := completedToolRuns[|completedToolRuns| - 20..];
      }
    }

    method FinalizeUnfinished(status: string)
      requires State().Valid()
      modifies this
      ensures State() == Step(old(State()), Finalize(status))
    {
      hide CloseSlots, TurnSlots, ChatSlots, ToolSlots;
      ClosingKeepsValid(State(), TurnSlots(State()), status);
      CloseTurnRuns(status);
      activeChat := None;
      ClosingKeepsValid(State(), ChatSlots(State()), status);
      CloseChatRuns(status);
      CloseToolRuns(status);
    }

    method CloseTurnRuns(status: string)
      requires State().Valid()
      modifies `turnRuns, `emitted
      ensures State() == CloseSlots(old(State()), TurnSlots(old(State())), status)
    {
      var unfinished := turnRuns;
      ghost var slots := TurnSlots(State());
      var i := 0;
      while i < |unfinished.keys|
        invariant 0 <= i <= |unfinished.keys|
        invariant State() == CloseSlots(old(State()), slots[..i], status)
        invariant forall j :: i <= j < |unfinished.keys| ==>
                    unfinished.keys[j] in turnRuns.at && turnRuns.at[unfinished.keys[j]] == unfinished.at[unfinished.keys[j]]
      {
        CloseOneMore(old(State()), slots, i, status);
        var k := unfinished.keys[i];
        Emit(Closed(unfinished.at[k], status, None));
        turnRuns := turnRuns.Remove(k);
        i := i + 1;
      }
      assert slots[..i] == slots;
    }

    method CloseChatRuns(status: string)
      requires State().Valid()
      modifies `chatRuns, `emitted
      ensures State() == CloseSlots(old(State()), ChatSlots(old(State())), status)
    {
      var unfinished := chatRuns;
      ghost var slots := ChatSlots(State());
      var i := 0;
      while i < |unfinished.keys|
        invariant 0 <= i <= |unfinished.keys|
        invariant State() == CloseSlots(old(State()), slots[..i], status)
        invariant forall j :: i <= j < |unfinished.keys| ==>
                    unfinished.keys[j] in chatRuns.at && chatRuns.at[unfinished.keys[j]] == unfinished.at[unfinished.keys[j]]
      {
        CloseOneMore(old(State()), slots, i, status);
        var k := unfinished.keys[i];
        Emit(Closed(unfinished.at[k], status, None));
        chatRuns := chatRuns.Remove(k);
        i := i + 1;
      }
      assert slots[..i] == slots;
    }

    method CloseToolRuns(status: string)
      requires State().Valid()
      modifies `toolRuns, `emitted
      ensures State() == CloseSlots(old(State()), ToolSlots(old(State())), status)
    {
      var unfinished := toolRuns;
      ghost var slots := ToolSlots(State());
      var i := 0;
      while i < |unfinished.keys|
        invariant 0 <= i <= |unfinished.keys|
        invariant State() == CloseSlots(old(State()), slots[..i], status)
        invariant forall j :: i <= j < |unfinished.keys| ==>
                    unfinished.keys[j] in toolRuns.at && toolRuns.at[unfinished.keys[j]] == unfinished.at[unfinished.keys[j]]
      {
        CloseOneMore(old(State()), slots, i, status);
        var k := unfinished.keys[i];
        var run := unfinished.at[k];
        Emit(Closed(run.logId, status, Some(Summary(run.summary.text, run.summary.truncated))));
        toolRuns := toolRuns.Remove(k);
        i := i + 1;
      }
      assert slots[..i] == slots;
    }
  }

  lemma CloseOneMore(s: Tracking, slots: seq<Slot>, i: nat, status: string)
    requires i < |slots|
    ensures CloseSlots(s, slots[..i + 1], status) == CloseSlot(CloseSlots(s, slots[..i], status), slots[i], status)
  {
    assert slots[..i + 1][..i] == slots[..i];
  }

  lemma RemoveKeepsValid<V>(d: Dict<V>, k: string)
    requires d.Valid()
    ensures d.Remove(k).Valid()
  {
  }

  /** Closing slots vacates them, leaves the others alone, and only adds to what was sent. */
  lemma {:induction false} ClosingVacates(s: Tracking, slots: seq<Slot>, status: string)
    ensures var t := CloseSlots(s, slots, status);
            && (forall x :: RowAt(t, x) == if x in slots then None else RowAt(s, x))
            && (forall e :: e in s.emitted ==> e in t.emitted)
  {
    if slots != [] {
      var init, last := slots[..|slots| - 1], Last(slots);
      ClosingVacates(s, init, status);
      assert slots == init + [last];
      OneSlotVacates(CloseSlots(s, init, status), last, status);
      hide CloseSlot, RowAt;
    }
  }

  lemma OneSlotVacates(s: Tracking, slot: Slot, status: string)
    ensures var t := CloseSlot(s, slot, status);
            && (forall x :: RowAt(t, x) == if x == slot then None else RowAt(s, x))
            && (forall e :: e in s.emitted ==> e in t.emitted)
  {
  }

  lemma {:induction false} ClosingKeepsTools(s: Tracking, slots: seq<Slot>, status: string)
    ensures var t := CloseSlots(s, slots, status);
            forall k :: k in t.tools.at ==> k in s.tools.at && t.tools.at[k] == s.tools.at[k]
  {
    if slots != [] {
      ClosingKeepsTools(s, slots[..|slots| - 1], status);
    }
  }

  lemma {:induction false} ClosingKeepsValid(s: Tracking, slots: seq<Slot>, status: string)
    requires s.Valid()
    ensures CloseSlots(s, slots, status).Valid()
  {
    if slots != [] {
      ClosingKeepsValid(s, slots[..|slots| - 1], status);
      OneSlotKeepsValid(CloseSlots(s, slots[..|slots| - 1], status), Last(slots), status);
      hide CloseSlot;
    }
  }

  lemma OneSlotKeepsValid(s: Tracking, slot: Slot, status: string)
    requires s.Valid()
    ensures CloseSlot(s, slot, status).Valid()
  {
    RemoveKeepsValid(s.chats, slot.key);
    RemoveKeepsValid(s.turns, slot.key);
    RemoveKeepsValid(s.tools, slot.key);
  }

  // ---------------------------------------------------------------- every opened row is closed exactly once

  ghost predicate InSomeSlot(s: Tracking, id: string) {
    exists slot :: RowAt(s, slot) == Some(id)
  }

  ghost function OpenedRows(log: seq<Emission>): set<string> {
    set e | e in log && e.Opened? :: e.id
  }

  /** How many closing updates the row got. */
  function Closings(log: seq<Emission>, id: string): nat {
    if log == [] then 0 else
      Closings(log[..|log| - 1], id) + if Last(log).Closed? && Last(log).id == id then 1 else 0
  }

  /**
   * The opened rows are those in a slot (one slot each, not closed yet), those closed once, and those
   * that lost their slot before they were closed.
   */
  ghost predicate Balanced(s: Tracking, lost: set<string>) {
    && (forall a, b :: RowAt(s, a).Some? && RowAt(s, a) == RowAt(s, b) ==> a == b)
    && (forall a :: RowAt(s, a).Some? ==> IsOpen(s.emitted, RowAt(s, a).value) && RowAt(s, a).value !in lost)
    && (forall id :: id in lost ==> IsOpen(s.emitted, id))
    && (forall id :: Closings(s.emitted, id) > 0 ==> Closings(s.emitted, id) == 1 && id in OpenedRows(s.emitted))
    && (forall id :: IsOpen(s.emitted, id) ==> id in lost || InSomeSlot(s, id))
  }

  /** The row was opened and has not been closed. */
  ghost predicate IsOpen(log: seq<Emission>, id: string) {
    id in OpenedRows(log) && Closings(log, id) == 0
  }

  lemma LogGrows(log: seq<Emission>, e: Emission)
    ensures OpenedRows(log + [e]) == OpenedRows(log) + if e.Opened? then {e.id} else {}
    ensures forall id :: Closings(log + [e], id) == Closings(log, id) + if e.Closed? && e.id == id then 1 else 0
  {
    assert (log + [e])[..|log|] == log;
    assert forall x :: x in log + [e] <==> x in log || x == e;
  }

  /** `t` differs from `s` at most in what `slot` holds. */
  ghost predicate SameSlotsBut(s: Tracking, t: Tracking, slot: Slot) {
    forall a :: a != slot ==> RowAt(t, a) == RowAt(s, a)
  }

  lemma OpeningBalances(s: Tracking, t: Tracking, lost: set<string>, slot: Slot, id: string)
    requires Balanced(s, lost) && id !in OpenedRows(s.emitted)
    requires SameSlotsBut(s, t, slot) && RowAt(t, slot) == Some(id) && t.emitted == s.emitted + [Opened(id)]
    ensures Balanced(t, lost + if RowAt(s, slot).Some? then {RowAt(s, slot).value} else {})
  {
    LogGrows(s.emitted, Opened(id));
    hide OpenedRows, Closings, RowAt;
    forall x | IsOpen(t.emitted, x) && x != id && x !in lost && RowAt(s, slot) != Some(x) ensures InSomeSlot(t, x) {
      assert IsOpen(s.emitted, x);
      var a :| RowAt(s, a) == Some(x);
      assert RowAt(t, a) == Some(x);
    }
  }

  lemma ClosingBalances(s: Tracking, t: Tracking, lost: set<string>, slot: Slot, id: string, e: Emission)
    requires Balanced(s, lost) && RowAt(s, slot) == Some(id) && e.Closed? && e.id == id
    requires SameSlotsBut(s, t, slot) && RowAt(t, slot) == None && t.emitted == s.emitted + [e]
    ensures Balanced(t, lost)
  {
    LogGrows(s.emitted, e);
    hide OpenedRows, Closings, RowAt;
    forall x | IsOpen(t.emitted, x) && x !in lost ensures InSomeSlot(t, x) {
      assert IsOpen(s.emitted, x);
      var a :| RowAt(s, a) == Some(x);
      assert RowAt(t, a) == Some(x);
    }
  }

  lemma RecordingBalances(s: Tracking, t: Tracking, lost: set<string>)
    requires Balanced(s, lost)
    requires (forall a :: RowAt(t, a) == RowAt(s, a)) && (t.emitted == s.emitted || t.emitted == s.emitted + [Recorded])
    ensures Balanced(t, lost)
  {
    LogGrows(s.emitted, Recorded);
    hide OpenedRows, Closings, RowAt;
    forall x | IsOpen(t.emitted, x) && x !in lost ensures InSomeSlot(t, x) {
      assert IsOpen(s.emitted, x);
      var a :| RowAt(s, a) == Some(x);
      assert RowAt(t, a) == Some(x);
    }
  }

  /** The slot an event opens a row in. */
  function OpensSlot(s: Tracking, e: Event): Option<Slot> {
    match e
    case ChatSent(c, _) => Some(ChatSlot(c))
    case TurnStart(turn, _) => if s.active.Some? then Some(TurnSlot(TurnKey(s.active.value, turn))) else None
    case BeforeTool(call, _, _) => if call != "" then Some(ToolSlot(call)) else None
    case _ => None
  }

  /** An event reuses an id when it opens a row under a key whose row is still open. */
  predicate Reuses(s: Tracking, e: Event) {
    OpensSlot(s, e).Some? && RowAt(s, OpensSlot(s, e).value).Some?
  }

  ghost predicate OpensFreshRow(s: Tracking, e: Event) {
    OpensSlot(s, e).Some? ==> e.logId !in OpenedRows(s.emitted)
  }

  function NewlyLost(s: Tracking, e: Event): set<string> {
    if Reuses(s, e) then {RowAt(s, OpensSlot(s, e).value).value} else {}
  }

  ghost predicate Tidy(s: Tracking, lost: set<string>) {
    s.Valid() && Balanced(s, lost)
  }

  lemma CloseSlotKeepsTidy(s: Tracking, slot: Slot, status: string, lost: set<string>)
    requires Tidy(s, lost)
    ensures Tidy(CloseSlot(s, slot, status), lost)
  {
    hide Balanced;
    OneSlotKeepsValid(s, slot, status);
    OneSlotVacates(s, slot, status);
    if RowAt(s, slot).Some? {
      var t := CloseSlot(s, slot, status);
      ClosingBalances(s, t, lost, slot, RowAt(s, slot).value, Last(t.emitted));
    }
  }

  lemma {:induction false} CloseSlotsKeepTidy(s: Tracking, slots: seq<Slot>, status: string, lost: set<string>)
    requires Tidy(s, lost)
    ensures Tidy(CloseSlots(s, slots, status), lost)
  {
    if slots != [] {
      CloseSlotsKeepTidy(s, slots[..|slots| - 1], status, lost);
      CloseSlotKeepsTidy(CloseSlots(s, slots[..|slots| - 1], status), Last(slots), status, lost);
      hide Tidy, CloseSlot;
    }
  }

  lemma CloseOneTool(s: Tracking, t: Tracking, k: string, status: string, output: string, lost: set<string>)
    requires Tidy(s, lost) && k in s.tools.at
    requires t == s.(tools := s.tools.Remove(k), emitted := s.emitted + [CloseTool(s.tools.at[k], status, output)])
    ensures Tidy(t, lost)
  {
    hide Balanced;
    RemoveKeepsValid(s.tools, k);
    ClosingBalances(s, t, lost, ToolSlot(k), s.tools.at[k].logId, CloseTool(s.tools.at[k], status, output));
  }

  /** Neither a row recorded in its final state nor a change outside the maps touches the bookkeeping. */
  lemma RecordOne(s: Tracking, t: Tracking, lost: set<string>)
    requires Tidy(s, lost) && t.chats == s.chats && t.turns == s.turns && t.tools == s.tools
    requires t.emitted == s.emitted || t.emitted == s.emitted + [Recorded]
    ensures Tidy(t, lost)
  {
    hide Balanced;
    RecordingBalances(s, t, lost);
  }

  lemma FinalizeKeepsTidy(s: Tracking, lost: set<string>, status: string)
    requires Tidy(s, lost)
    ensures Tidy(Step(s, Finalize(status)), lost)
  {
    hide Tidy, CloseSlots, TurnSlots, ChatSlots, ToolSlots;
    var closed := CloseSlots(s, TurnSlots(s), status);
    var noTurns := closed.(active := None);
    var noChats := CloseSlots(noTurns, ChatSlots(noTurns), status);
    CloseSlotsKeepTidy(s, TurnSlots(s), status, lost);
    RecordOne(closed, noTurns, lost);
    CloseSlotsKeepTidy(noTurns, ChatSlots(noTurns), status, lost);
    CloseSlotsKeepTidy(noChats, ToolSlots(noChats), status, lost);
  }

  lemma OpenKeepsTidy(s: Tracking, e: Event, lost: set<string>)
    requires Tidy(s, lost) && OpensFreshRow(s, e) && OpensSlot(s, e).Some?
    ensures Tidy(Step(s, e), lost + NewlyLost(s, e))
  {
    hide Balanced;
    var slot, t := OpensSlot(s, e).value, Step(s, e);
    OpeningBalances(s, t, lost, slot, e.logId);
    PutKeepsValid(s.chats, slot.key, e.logId);
    PutKeepsValid(s.turns, slot.key, e.logId);
    PutKeepsValid(s.tools, slot.key, ToolRun(e.logId, Summary("", false), if e.BeforeTool? then e.command else ""));
  }

  lemma CloseKeepsTidy(s: Tracking, e: Event, lost: set<string>)
    requires Tidy(s, lost) && OpensSlot(s, e).None?
    ensures Tidy(Step(s, e), lost)
  {
    hide Tidy, AddChunk, LastTwenty;
    var t := Step(s, e);
    match e
    case ChatReceived(c, status) =>
      CloseSlotKeepsTidy(s, ChatSlot(c), status, lost);
      RecordOne(CloseSlot(s, ChatSlot(c), status), t, lost);
    case TurnEnd(turn) =>
      if s.active.Some? {
        var slot := TurnSlot(TurnKey(s.active.value, turn));
        CloseSlotKeepsTidy(s, slot, "success", lost);
        RecordOne(CloseSlot(s, slot, "success"), t, lost);
      }
    case ToolOutput(call, chunk) =>
      if call != "" && call in s.tools.at {
        OutputKeepsTidy(s, call, chunk, lost);
      }
    case AfterTool(call, command, output) =>
      if call in s.tools.at {
        var run := s.tools.at[call];
        var preview := if run.summary.text != "" then run.summary.text else output;
        var closed := s.Emit(CloseTool(run, InferToolStatus(output), preview)).(tools := s.tools.Remove(call));
        CloseOneTool(s, closed, call, InferToolStatus(output), preview, lost);
        RecordOne(closed, t, lost);
      } else {
        RecordOne(s, t, lost);
      }
    case Finalize(status) =>
      FinalizeKeepsTidy(s, lost, status);
    case _ =>
  }

  lemma OutputKeepsTidy(s: Tracking, call: string, chunk: string, lost: set<string>)
    requires Tidy(s, lost) && call != "" && call in s.tools.at
    ensures Tidy(Step(s, ToolOutput(call, chunk)), lost)
  {
    hide Balanced, AddChunk;
    var run := s.tools.at[call];
    PutKeepsValid(s.tools, call, run.(summary := AddChunk(run.summary, chunk)));
    RecordingBalances(s, Step(s, ToolOutput(call, chunk)), lost);
  }

  // ---------------------------------------------------------------- whole runs

  ghost predicate RowsAreFresh(events: seq<Event>) {
    events != [] ==>
      RowsAreFresh(events[..|events| - 1]) && OpensFreshRow(Run(Fresh, events[..|events| - 1]), Last(events))
  }

  /** No event of the run opens a row under a key whose row is still open. */
  predicate ReuseFree(events: seq<Event>) {
    events != [] ==>
      ReuseFree(events[..|events| - 1]) && !Reuses(Run(Fresh, events[..|events| - 1]), Last(events))
  }

  ghost function LostIn(events: seq<Event>): set<string> {
    if events == [] then {} else
      LostIn(events[..|events| - 1]) + NewlyLost(Run(Fresh, events[..|events| - 1]), Last(events))
  }

  /** At every point of every run the opened rows split into open, closed once, and lost. */
  lemma {:induction false} RunBalances(events: seq<Event>)
    requires RowsAreFresh(events)
    ensures Tidy(Run(Fresh, events), LostIn(events))
    ensures LostIn(events) == {} <==> ReuseFree(events)
  {
    if events != [] {
      hide Step, Tidy, OpensFreshRow, RowAt, OpensSlot;
      var s, e, lost := Run(Fresh, events[..|events| - 1]), Last(events), LostIn(events[..|events| - 1]);
      RunBalances(events[..|events| - 1]);
      if OpensSlot(s, e).Some? {
        OpenKeepsTidy(s, e, lost);
      } else {
        assert lost + NewlyLost(s, e) == lost;
        CloseKeepsTidy(s, e, lost);
      }
    }
  }

  /**
   * After the stage is finalized all maps are empty, no row was closed twice, and every opened row was
   * closed exactly once if and only if no id was reused while its row was open.
   */
  lemma FinalizedExactlyOnce(events: seq<Event>, status: string)
    requires RowsAreFresh(events)
    ensures var t := Step(Run(Fresh, events), Finalize(status));
            && t.chats.keys == [] && t.turns.keys == [] && t.tools.keys == []
            && OpenedRows(t.emitted) >= OpenedRows(Run(Fresh, events).emitted)
            && (forall id :: Closings(t.emitted, id) <= 1)
            && (ReuseFree(events) <==> forall id :: id in OpenedRows(t.emitted) ==> Closings(t.emitted, id) == 1)
  {
    RunBalances(events);
    assert Run(Fresh, events).Valid();
    FinalizeKeepsTidy(Run(Fresh, events), LostIn(events), status);
    FinalizeEmpties(Run(Fresh, events), status);
    NothingOpenButLost(Step(Run(Fresh, events), Finalize(status)), LostIn(events));
    hide *;
  }

  lemma FinalizeEmpties(s: Tracking, status: string)
    requires s.Valid()
    ensures var t := Step(s, Finalize(status));
            && t.chats.keys == [] && t.turns.keys == [] && t.tools.keys == []
            && OpenedRows(t.emitted) >= OpenedRows(s.emitted)
            && forall slot :: RowAt(t, slot) == None
  {
    var noTurns := CloseSlots(s, TurnSlots(s), status).(active := None);
    var noChats := CloseSlots(noTurns, ChatSlots(noTurns), status);
    var t := CloseSlots(noChats, ToolSlots(noChats), status);
    hide CloseSlots, TurnSlots, ChatSlots, ToolSlots;
    ClosingVacates(s, TurnSlots(s), status);
    ClosingKeepsValid(s, TurnSlots(s), status);
    ClosingVacates(noTurns, ChatSlots(noTurns), status);
    ClosingKeepsValid(noTurns, ChatSlots(noTurns), status);
    ClosingVacates(noChats, ToolSlots(noChats), status);
    ClosingKeepsValid(noChats, ToolSlots(noChats), status);
    forall slot ensures RowAt(t, slot) == None {
      SlotsAreListed(s, slot);
      SlotsAreListed(noTurns, slot);
      SlotsAreListed(noChats, slot);
    }
    hide RowAt, OpenedRows;
    VacantIsEmpty(t);
    OpenedRowsStay(s.emitted, t.emitted);
  }

  lemma OpenedRowsStay(before: seq<Emission>, now: seq<Emission>)
    requires forall e :: e in before ==> e in now
    ensures OpenedRows(before) <= OpenedRows(now)
  {
  }

  lemma SlotsAreListed(s: Tracking, slot: Slot)
    requires s.Valid()
    ensures RowAt(s, slot).Some? ==> slot in TurnSlots(s) || slot in ChatSlots(s) || slot in ToolSlots(s)
    ensures slot in TurnSlots(s) ==> slot.TurnSlot?
    ensures slot in ChatSlots(s) ==> slot.ChatSlot?
    ensures slot in ToolSlots(s) ==> slot.ToolSlot?
  {
    if RowAt(s, slot).Some? {
      match slot
      case ChatSlot(k) => var i :| 0 <= i < |s.chats.keys| && s.chats.keys[i] == k; assert ChatSlots(s)[i] == slot;
      case TurnSlot(k) => var i :| 0 <= i < |s.turns.keys| && s.turns.keys[i] == k; assert TurnSlots(s)[i] == slot;
      case ToolSlot(k) => var i :| 0 <= i < |s.tools.keys| && s.tools.keys[i] == k; assert ToolSlots(s)[i] == slot;
    }
  }

  lemma VacantIsEmpty(t: Tracking)
    requires t.Valid() && forall slot :: RowAt(t, slot) == None
    ensures t.chats.keys == [] && t.turns.keys == [] && t.tools.keys == []
  {
    forall k ensures k !in t.chats.at && k !in t.turns.at && k !in t.tools.at {
      assert RowAt(t, ChatSlot(k)) == RowAt(t, TurnSlot(k)) == RowAt(t, ToolSlot(k)) == None;
    }
    KeysHaveValues(t.chats);
    KeysHaveValues(t.turns);
    KeysHaveValues(t.tools);
  }

  lemma KeysHaveValues<V>(d: Dict<V>)
    requires d.Valid()
    ensures d.keys != [] ==> exists k :: k in d.at
  {
    if d.keys != [] {
      assert d.keys[0] in d.keys;
    }
  }

  lemma NothingOpenButLost(t: Tracking, lost: set<string>)
    requires Tidy(t, lost) && forall slot :: RowAt(t, slot) == None
    ensures forall id :: Closings(t.emitted, id) <= 1
    ensures lost == {} <==> forall id :: id in OpenedRows(t.emitted) ==> Closings(t.emitted, id) == 1
  {
    hide Closings, OpenedRows;
    if lost != {} {
      var id :| id in lost;
      assert IsOpen(t.emitted, id);
    } else {
      forall id | id in OpenedRows(t.emitted) ensures Closings(t.emitted, id) == 1 {
        assert !InSomeSlot(t, id);
        assert !IsOpen(t.emitted, id);
      }
    }
  }

  /** The chunks a tool call streamed since its row was opened. */
  function ChunksOf(events: seq<Event>, call: string): seq<string> {
    if events == [] then [] else
      match Last(events)
      case BeforeTool(c, _, _) => if c == call then [] else ChunksOf(events[..|events| - 1], call)
      case ToolOutput(c, chunk) => ChunksOf(events[..|events| - 1], call) + if c == call then [chunk] else []
      case _ => ChunksOf(events[..|events| - 1], call)
  }

  /** In every run the summary of an open tool call is the truncation of all it streamed. */
  lemma {:induction false} OpenSummaryIsTruncatedOutput(events: seq<Event>, call: string)
    requires call in Run(Fresh, events).tools.at
    ensures call != ""
    ensures Run(Fresh, events).tools.at[call].summary == Truncate(Concat(ChunksOf(events, call)))
  {
    var before := events[..|events| - 1];
    var s, t := Run(Fresh, before), Run(Fresh, events);
    assert t == Step(s, Last(events));
    hide Run, Truncate, LastTwenty, InferToolStatus, TurnKey;
    if call in s.tools.at {
      OpenSummaryIsTruncatedOutput(before, call);
    }
    match Last(events)
    case ToolOutput(c, chunk) =>
      if c == call {
        AppendFollowsTruncation(Concat(ChunksOf(before, call)), chunk);
        assert (ChunksOf(before, call) + [chunk])[..|ChunksOf(before, call)|] == ChunksOf(before, call);
      } else {
        assert ChunksOf(before, call) + [] == ChunksOf(before, call);
      }
    case BeforeTool(c, _, _) =>
      StreamingIsTruncation([]);
    case Finalize(status) =>
      hide CloseSlots, CloseSlot;
      var noTurns := CloseSlots(s, TurnSlots(s), status).(active := None);
      var noChats := CloseSlots(noTurns, ChatSlots(noTurns), status);
      ClosingKeepsTools(s, TurnSlots(s), status);
      ClosingKeepsTools(noTurns, ChatSlots(noTurns), status);
      ClosingKeepsTools(noChats, ToolSlots(noChats), status);
    case _ =>
  }
}
