/**
 * What the tracker sends, told from the history of callbacks alone: which row stands open under which key, how each
 * row is closed, and what is remembered of finished tool calls.
 */
module StageHistory {
  import opened Prelude
  import opened StageEvents

  // ---------------------------------------------------------------- what the history says

  function NextChat(before: Option<string>, e: Event): Option<string> {
    match e
    case ChatSent(c, _) => Some(c)
    case ChatReceived(c, _) => if before == Some(c) then None else before
    case Finalize(_) => None
    case _ => before
  }

  /** The chat under way: the last one sent, unless it was answered or the stage was finalized since. */
  function ActiveChat(events: seq<Event>): Option<string> {
    if events == [] then None else NextChat(ActiveChat(events[..|events| - 1]), Last(events))
  }

  predicate IsTurnOf(slot: Slot, chat: Option<string>, turn: string) {
    chat.Some? && slot == TurnSlot(chat.value + ":turn:" + turn)
  }

  function NextRow(before: Option<string>, active: Option<string>, slot: Slot, e: Event): Option<string> {
    match e
    case ChatSent(c, id) => if slot == ChatSlot(c) then Some(id) else before
    case ChatReceived(c, _) => if slot == ChatSlot(c) then None else before
    case TurnStart(turn, id) => if IsTurnOf(slot, active, turn) then Some(id) else before
    case TurnEnd(turn) => if IsTurnOf(slot, active, turn) then None else before
    case BeforeTool(call, _, id) => if call != "" && slot == ToolSlot(call) then Some(id) else before
    case AfterTool(call, _, _) => if slot == ToolSlot(call) then None else before
    case Finalize(_) => None
    case ToolOutput(_, _) => before
  }

  /** The row that was opened under the key and not closed since. */
  function OpenRow(events: seq<Event>, slot: Slot): Option<string> {
    if events == [] then None else
      NextRow(OpenRow(events[..|events| - 1], slot), ActiveChat(events[..|events| - 1]), slot, Last(events))
  }

  lemma {:induction false} RunIsValid(events: seq<Event>)
    ensures Run(Fresh, events).Valid()
  {
    if events != [] {
      RunIsValid(events[..|events| - 1]);
      StepKeepsValid(Run(Fresh, events[..|events| - 1]), Last(events));
      hide Step;
    }
  }

  lemma StepKeepsValid(s: Tracking, e: Event)
    requires s.Valid()
    ensures Step(s, e).Valid()
  {
    hide CloseSlot, CloseSlots, AddChunk, LastTwenty, TurnSlots, ChatSlots, ToolSlots, Dict.Valid;
    match e
    case ChatSent(c, id) => PutKeepsValid(s.chats, c, id);
    case ChatReceived(c, status) => OneSlotKeepsValid(s, ChatSlot(c), status);
    case TurnStart(turn, id) => if s.active.Some? { PutKeepsValid(s.turns, TurnKey(s.active.value, turn), id); }
    case TurnEnd(turn) => if s.active.Some? { OneSlotKeepsValid(s, TurnSlot(TurnKey(s.active.value, turn)), "success"); }
    case BeforeTool(call, command, id) => PutKeepsValid(s.tools, call, ToolRun(id, Summary("", false), command));
    case ToolOutput(call, chunk) =>
      if call in s.tools.at { PutKeepsValid(s.tools, call, s.tools.at[call].(summary := AddChunk(s.tools.at[call].summary, chunk))); }
    case AfterTool(call, _, _) => RemoveKeepsValid(s.tools, call);
    case Finalize(status) =>
      var noTurns := CloseSlots(s, TurnSlots(s), status).(active := None);
      var noChats := CloseSlots(noTurns, ChatSlots(noTurns), status);
      ClosingKeepsValid(s, TurnSlots(s), status);
      ClosingKeepsValid(noTurns, ChatSlots(noTurns), status);
      ClosingKeepsValid(noChats, ToolSlots(noChats), status);
  }

  lemma {:induction false} ClosingKeepsActive(s: Tracking, slots: seq<Slot>, status: string)
    ensures CloseSlots(s, slots, status).active == s.active && CloseSlots(s, slots, status).completed == s.completed
  {
    if slots != [] {
      ClosingKeepsActive(s, slots[..|slots| - 1], status);
    }
  }

  /** The tracker's maps and its active chat are what the history says. */
  lemma {:induction false} MapsFollowHistory(events: seq<Event>)
    ensures Run(Fresh, events).active == ActiveChat(events)
    ensures forall slot :: RowAt(Run(Fresh, events), slot) == OpenRow(events, slot)
  {
    if events != [] {
      var init, e := events[..|events| - 1], Last(events);
      MapsFollowHistory(init);
      RunIsValid(init);
      StepMoves(Run(Fresh, init), e);
      hide Step, RowAt, NextRow, NextChat;
      forall slot ensures RowAt(Run(Fresh, events), slot) == OpenRow(events, slot) {
        assert RowAt(Run(Fresh, init), slot) == OpenRow(init, slot);
      }
    }
  }

  ghost predicate Moves(s: Tracking, t: Tracking, e: Event) {
    t.active == NextChat(s.active, e) && forall slot :: RowAt(t, slot) == NextRow(RowAt(s, slot), s.active, slot, e)
  }

  lemma StepMoves(s: Tracking, e: Event)
    requires s.Valid()
    ensures Moves(s, Step(s, e), e)
  {
    match e
    case ChatReceived(c, status) => ChatMoves(s, c, status);
    case TurnEnd(turn) => TurnMoves(s, turn);
    case Finalize(status) =>
      FinalizeEmpties(s, status);
      FinalizeEndsChat(s, status);
      hide Step;
    case _ =>
      hide AddChunk, LastTwenty, CloseTool, InferToolStatus;
  }

  lemma ChatMoves(s: Tracking, c: string, status: string)
    ensures Moves(s, Step(s, ChatReceived(c, status)), ChatReceived(c, status))
  {
    OneSlotVacates(s, ChatSlot(c), status);
    assert CloseSlot(s, ChatSlot(c), status).active == s.active;
    hide CloseSlot;
    assert forall x :: RowAt(Step(s, ChatReceived(c, status)), x) == RowAt(CloseSlot(s, ChatSlot(c), status), x);
    hide RowAt;
  }

  lemma TurnMoves(s: Tracking, turn: string)
    ensures Moves(s, Step(s, TurnEnd(turn)), TurnEnd(turn))
  {
    if s.active.Some? {
      var slot := TurnSlot(TurnKey(s.active.value, turn));
      OneSlotVacates(s, slot, "success");
      assert CloseSlot(s, slot, "success").active == s.active;
      hide CloseSlot;
      assert forall x :: RowAt(Step(s, TurnEnd(turn)), x) == RowAt(CloseSlot(s, slot, "success"), x);
      hide RowAt;
    }
  }

  lemma FinalizeEndsChat(s: Tracking, status: string)
    ensures Step(s, Finalize(status)).active == None && Step(s, Finalize(status)).completed == s.completed
  {
    hide CloseSlots, TurnSlots, ChatSlots, ToolSlots;
    var noTurns := CloseSlots(s, TurnSlots(s), status).(active := None);
    var noChats := CloseSlots(noTurns, ChatSlots(noTurns), status);
    ClosingKeepsActive(s, TurnSlots(s), status);
    ClosingKeepsActive(noTurns, ChatSlots(noTurns), status);
    ClosingKeepsActive(noChats, ToolSlots(noChats), status);
  }

  // ---------------------------------------------------------------- what is sent

  /** The output a stage reports of a tool call: what it streamed, truncated. */
  function Streamed(events: seq<Event>, call: string): Summary {
    Truncate(Concat(ChunksOf(events, call)))
  }

  predicate Fails(output: string) {
    || "Error:" <= output || "Error (exit" <= output || "Error reading file:" <= output
    || "Error writing file:" <= output || "Exit code:" <= output
  }

  lemma StatusOfOutput(output: string)
    ensures InferToolStatus(output) == if Fails(output) then "failed" else "success"
  {
    var p := FailurePrefixes;
    assert p[0] in p && p[1] in p && p[2] in p && p[3] in p && p[4] in p;
    assert forall x :: x in p <==> x == p[0] || x == p[1] || x == p[2] || x == p[3] || x == p[4];
  }

  /** How a row is closed: chats and turns without an output, a tool call with what it streamed. */
  function ClosingOf(events: seq<Event>, slot: Slot, id: string, status: string): Emission {
    Closed(id, status, if slot.ToolSlot? then Some(Streamed(events, slot.key)) else None)
  }

  /** Every callback but the finalization sends at most an opening or closing and a record; here is which. */
  function Sent(events: seq<Event>, e: Event): seq<Emission>
    requires !e.Finalize?
  {
    match e
    case ChatSent(_, id) => [Opened(id)]
    case ChatReceived(c, status) => ClosingIfOpen(events, ChatSlot(c), status) + [Recorded]
    case TurnStart(_, id) => if ActiveChat(events).Some? then [Opened(id)] else []
    case TurnEnd(turn) =>
      if ActiveChat(events).None? then [] else
        ClosingIfOpen(events, TurnSlot(ActiveChat(events).value + ":turn:" + turn), "success") + [Recorded]
    case BeforeTool(call, _, id) => if call != "" then [Opened(id)] else []
    case ToolOutput(_, _) => []
    case AfterTool(call, _, output) =>
      if OpenRow(events, ToolSlot(call)).None? then [Recorded] else
        var streamed := Streamed(events, call);
        [Closed(OpenRow(events, ToolSlot(call)).value, if Fails(output) then "failed" else "success",
                Some(Summary(if streamed.text != "" then streamed.text else output, streamed.truncated)))]
  }

  function ClosingIfOpen(events: seq<Event>, slot: Slot, status: string): seq<Emission> {
    if OpenRow(events, slot).Some? then [ClosingOf(events, slot, OpenRow(events, slot).value, status)] else []
  }

  lemma RunAdd(events: seq<Event>, e: Event)
    ensures Run(Fresh, events + [e]) == Step(Run(Fresh, events), e)
  {
    assert (events + [e])[..|events|] == events;
    hide Step;
  }

  /** Each callback sends exactly what the history says, with that status and that output. */
  lemma CallbacksSendExactly(events: seq<Event>, e: Event)
    requires !e.Finalize?
    ensures Run(Fresh, events + [e]).emitted == Run(Fresh, events).emitted + Sent(events, e)
  {
    var s := Run(Fresh, events);
    MapsFollowHistory(events);
    RunAdd(events, e);
    hide Run, Concat, Truncate, LastTwenty, AddChunk;
    match e
    case ChatReceived(c, status) =>
      assert RowAt(s, ChatSlot(c)) == OpenRow(events, ChatSlot(c));
    case TurnEnd(turn) =>
      if s.active.Some? {
        var slot := TurnSlot(TurnKey(s.active.value, turn));
        assert RowAt(s, slot) == OpenRow(events, slot);
      }
    case AfterTool(call, command, output) =>
      StatusOfOutput(output);
      assert RowAt(s, ToolSlot(call)) == OpenRow(events, ToolSlot(call));
      if call in s.tools.at {
        OpenSummaryIsTruncatedOutput(events, call);
      }
    case _ =>
  }

  // ---------------------------------------------------------------- what finalizing sends

  /** The closing of an occupied slot, as seen in the state. */
  function ClosingFrom(s: Tracking, slot: Slot, status: string): Emission
    requires RowAt(s, slot).Some?
  {
    Closed(RowAt(s, slot).value, status, if slot.ToolSlot? then Some(s.tools.at[slot.key].summary) else None)
  }

  ghost predicate AllOccupied(s: Tracking, slots: seq<Slot>) {
    Distinct(slots) && forall i :: 0 <= i < |slots| ==> RowAt(s, slots[i]).Some?
  }

  /** `more` closes the slots one by one, in this order. */
  ghost predicate Closes(s: Tracking, slots: seq<Slot>, status: string, more: seq<Emission>)
    requires AllOccupied(s, slots)
  {
    |more| == |slots| && forall i :: 0 <= i < |slots| ==> more[i] == ClosingFrom(s, slots[i], status)
  }

  /** The slot holds the same row, and will close it alike. */
  ghost predicate SameSlot(s: Tracking, t: Tracking, slot: Slot, status: string) {
    RowAt(s, slot).Some? ==> RowAt(t, slot) == RowAt(s, slot) && ClosingFrom(t, slot, status) == ClosingFrom(s, slot, status)
  }

  lemma OneClosing(s: Tracking, slot: Slot, status: string)
    ensures var t := CloseSlot(s, slot, status);
            && t.emitted == s.emitted + (if RowAt(s, slot).Some? then [ClosingFrom(s, slot, status)] else [])
            && forall x :: x != slot ==> SameSlot(s, t, x, status)
  {
  }

  lemma {:induction false} SlotsAreClosed(s: Tracking, slots: seq<Slot>, status: string) returns (more: seq<Emission>)
    requires AllOccupied(s, slots)
    ensures CloseSlots(s, slots, status).emitted == s.emitted + more && Closes(s, slots, status, more)
    ensures forall x :: x !in slots ==> SameSlot(s, CloseSlots(s, slots, status), x, status)
  {
    more := [];
    if slots != [] {
      var init, last := slots[..|slots| - 1], Last(slots);
      var mid := CloseSlots(s, init, status);
      assert slots == init + [last] && AllOccupied(s, init);
      var early := SlotsAreClosed(s, init, status);
      OneClosing(mid, last, status);
      assert last !in init && RowAt(s, last).Some?;
      assert SameSlot(s, mid, last, status);
      hide CloseSlot, RowAt, ClosingFrom;
      more := early + [ClosingFrom(s, last, status)];
      forall x | x !in slots ensures SameSlot(s, CloseSlots(s, slots, status), x, status) {
        assert x !in init && x != last;
        assert SameSlot(s, mid, x, status);
      }
    }
  }

  lemma SlotsAreOccupied(s: Tracking)
    requires s.Valid()
    ensures AllOccupied(s, TurnSlots(s)) && AllOccupied(s, ChatSlots(s)) && AllOccupied(s, ToolSlots(s))
  {
    assert forall i :: 0 <= i < |s.turns.keys| ==> s.turns.keys[i] in s.turns.keys;
    assert forall i :: 0 <= i < |s.chats.keys| ==> s.chats.keys[i] in s.chats.keys;
    assert forall i :: 0 <= i < |s.tools.keys| ==> s.tools.keys[i] in s.tools.keys;
  }

  /** Closing turns leaves the other maps alone, and so on. */
  lemma {:induction false} OtherMapsStay(s: Tracking, slots: seq<Slot>, status: string)
    ensures var t := CloseSlots(s, slots, status);
            && ((forall x :: x in slots ==> !x.ChatSlot?) ==> t.chats == s.chats)
            && ((forall x :: x in slots ==> !x.ToolSlot?) ==> t.tools == s.tools)
  {
    if slots != [] {
      var init := slots[..|slots| - 1];
      assert slots == init + [Last(slots)];
      OtherMapsStay(s, init, status);
    }
  }

  function Rank(slot: Slot): nat {
    match slot case TurnSlot(_) => 0 case ChatSlot(_) => 1 case ToolSlot(_) => 2
  }

  /** The open rows of the history, turns first, then chats, then tool calls, each once. */
  ghost predicate ListsOpenRows(events: seq<Event>, slots: seq<Slot>) {
    && Distinct(slots)
    && (forall slot :: slot in slots <==> OpenRow(events, slot).Some?)
    && (forall i, j :: 0 <= i < j < |slots| ==> Rank(slots[i]) <= Rank(slots[j]))
  }

  lemma AllSlotsListed(s: Tracking)
    requires s.Valid()
    ensures var slots := TurnSlots(s) + ChatSlots(s) + ToolSlots(s);
            && AllOccupied(s, TurnSlots(s) + ChatSlots(s)) && AllOccupied(s, slots) && (forall slot :: slot in slots <==> RowAt(s, slot).Some?)
            && (forall i, j :: 0 <= i < j < |slots| ==> Rank(slots[i]) <= Rank(slots[j]))
  {
    var slots := TurnSlots(s) + ChatSlots(s) + ToolSlots(s);
    SlotsAreOccupied(s);
    forall slot ensures slot in slots <==> RowAt(s, slot).Some? {
      SlotsAreListed(s, slot);
      if slot in slots { assert slot in TurnSlots(s) || slot in ChatSlots(s) || slot in ToolSlots(s); }
    }
    forall i | 0 <= i < |slots| ensures slots[i] in slots && Rank(slots[i]) == PartOf(s, i) {
    }
    DistinctParts(TurnSlots(s), ChatSlots(s));
    DistinctParts(TurnSlots(s) + ChatSlots(s), ToolSlots(s));
  }

  function PartOf(s: Tracking, i: int): nat {
    if i < |s.turns.keys| then 0 else if i < |s.turns.keys| + |s.chats.keys| then 1 else 2
  }

  lemma DistinctParts(a: seq<Slot>, b: seq<Slot>)
    requires Distinct(a) && Distinct(b) && forall i, j :: 0 <= i < |a| && 0 <= j < |b| ==> a[i] != b[j]
    ensures Distinct(a + b)
  {
  }

  /** Closings from a later state that holds the same rows in the slots. */
  lemma ClosesAlike(s: Tracking, t: Tracking, slots: seq<Slot>, status: string, more: seq<Emission>)
    requires AllOccupied(s, slots) && (forall i :: 0 <= i < |slots| ==> SameSlot(s, t, slots[i], status))
    requires AllOccupied(t, slots) && Closes(t, slots, status, more)
    ensures Closes(s, slots, status, more)
  {
    hide ClosingFrom, RowAt;
    forall i | 0 <= i < |slots| ensures more[i] == ClosingFrom(s, slots[i], status) {
      assert SameSlot(s, t, slots[i], status);
    }
  }

  lemma OccupiedStays(s: Tracking, t: Tracking, slots: seq<Slot>, status: string)
    requires AllOccupied(s, slots) && forall i :: 0 <= i < |slots| ==> SameSlot(s, t, slots[i], status)
    ensures AllOccupied(t, slots)
  {
    hide ClosingFrom, RowAt;
    forall i | 0 <= i < |slots| ensures RowAt(t, slots[i]).Some? {
      assert SameSlot(s, t, slots[i], status);
    }
  }

  lemma ClosesTogether(s: Tracking, a: seq<Slot>, b: seq<Slot>, status: string, x: seq<Emission>, y: seq<Emission>)
    requires AllOccupied(s, a) && AllOccupied(s, b) && AllOccupied(s, a + b)
    requires Closes(s, a, status, x) && Closes(s, b, status, y)
    ensures Closes(s, a + b, status, x + y)
  {
    hide ClosingFrom, RowAt;
  }

  lemma SameSlotTwice(s: Tracking, t: Tracking, u: Tracking, slot: Slot, status: string)
    requires SameSlot(s, t, slot, status) && SameSlot(t, u, slot, status)
    ensures SameSlot(s, u, slot, status)
  {
    hide ClosingFrom;
  }

  lemma MapsApart(s: Tracking)
    ensures forall x :: x in TurnSlots(s) ==> x.TurnSlot?
    ensures forall x :: x in ChatSlots(s) ==> x.ChatSlot?
    ensures forall x :: x in ToolSlots(s) ==> x.ToolSlot?
    ensures forall i :: 0 <= i < |ChatSlots(s)| ==> ChatSlots(s)[i] !in TurnSlots(s)
    ensures forall i :: 0 <= i < |ToolSlots(s)| ==> ToolSlots(s)[i] !in TurnSlots(s) && ToolSlots(s)[i] !in ChatSlots(s)
  {
  }

  lemma ListsStay(s: Tracking, t: Tracking)
    ensures t.chats == s.chats ==> ChatSlots(t) == ChatSlots(s)
    ensures t.tools == s.tools ==> ToolSlots(t) == ToolSlots(s)
  {
  }

  lemma WithoutChat(s: Tracking, slot: Slot, status: string)
    ensures SameSlot(s, s.(active := None), slot, status)
  {
  }

  /** Closing slots in a later state that holds the same rows in them sends what the earlier state says. */
  lemma SlotsAreClosedLater(s: Tracking, t: Tracking, slots: seq<Slot>, status: string) returns (more: seq<Emission>)
    requires AllOccupied(s, slots) && forall i :: 0 <= i < |slots| ==> SameSlot(s, t, slots[i], status)
    ensures CloseSlots(t, slots, status).emitted == t.emitted + more && Closes(s, slots, status, more)
    ensures forall x :: x !in slots && SameSlot(s, t, x, status) ==> SameSlot(s, CloseSlots(t, slots, status), x, status)
  {
    OccupiedStays(s, t, slots, status);
    more := SlotsAreClosed(t, slots, status);
    ClosesAlike(s, t, slots, status, more);
    hide CloseSlots, AllOccupied, Closes, SameSlot;
    forall x | x !in slots && SameSlot(s, t, x, status) ensures SameSlot(s, CloseSlots(t, slots, status), x, status) {
      SameSlotTwice(s, t, CloseSlots(t, slots, status), x, status);
    }
  }

  lemma SameSlotItself(s: Tracking, slots: seq<Slot>, status: string)
    ensures forall x :: SameSlot(s, s, x, status)
  {
  }

  lemma ThenWithoutChat(s: Tracking, t: Tracking, slot: Slot, status: string)
    requires SameSlot(s, t, slot, status)
    ensures SameSlot(s, t.(active := None), slot, status)
  {
    WithoutChat(t, slot, status);
    hide SameSlot;
    SameSlotTwice(s, t, t.(active := None), slot, status);
  }

  lemma FinalizeSends(s: Tracking, status: string) returns (more: seq<Emission>)
    requires s.Valid() && AllOccupied(s, TurnSlots(s) + ChatSlots(s)) && AllOccupied(s, TurnSlots(s) + ChatSlots(s) + ToolSlots(s))
    ensures Step(s, Finalize(status)).emitted == s.emitted + more
    ensures Closes(s, TurnSlots(s) + ChatSlots(s) + ToolSlots(s), status, more)
  {
    hide *;
    var turns, chats, tools := TurnSlots(s), ChatSlots(s), ToolSlots(s);
    var closed := CloseSlots(s, turns, status);
    var noTurns := closed.(active := None);
    var noChats := CloseSlots(noTurns, chats, status);
    SlotsAreOccupied(s);
    MapsApart(s);
    SameSlotItself(s, turns, status);
    var a := SlotsAreClosedLater(s, s, turns, status);
    forall x | x !in turns ensures SameSlot(s, noTurns, x, status) {
      ThenWithoutChat(s, closed, x, status);
    }
    var b := SlotsAreClosedLater(s, noTurns, chats, status);
    var c := SlotsAreClosedLater(s, noChats, tools, status);
    ClosesTogether(s, turns, chats, status, a, b);
    ClosesTogether(s, turns + chats, tools, status, a + b, c);
    OtherLists(s, status);
    FinalizeIsFold(s, noChats, status);
    more := a + b + c;
    assert s.emitted + a + b + c == s.emitted + more;
  }

  lemma OtherLists(s: Tracking, status: string)
    ensures var noTurns := CloseSlots(s, TurnSlots(s), status).(active := None);
            && ChatSlots(noTurns) == ChatSlots(s)
            && ToolSlots(CloseSlots(noTurns, ChatSlots(s), status)) == ToolSlots(s)
  {
    var noTurns := CloseSlots(s, TurnSlots(s), status).(active := None);
    MapsApart(s);
    OtherMapsStay(s, TurnSlots(s), status);
    ListsStay(s, noTurns);
    OtherMapsStay(noTurns, ChatSlots(s), status);
    ListsStay(s, CloseSlots(noTurns, ChatSlots(s), status));
    hide CloseSlots, TurnSlots, ChatSlots, ToolSlots;
  }

  lemma FinalizeIsFold(s: Tracking, noChats: Tracking, status: string)
    requires var noTurns := CloseSlots(s, TurnSlots(s), status).(active := None);
             noChats == CloseSlots(noTurns, ChatSlots(noTurns), status)
    ensures Step(s, Finalize(status)) == CloseSlots(noChats, ToolSlots(noChats), status)
  {
    hide CloseSlots, TurnSlots, ChatSlots, ToolSlots;
  }

  /** A slot's closing in the state is the one the history tells. */
  lemma ClosingFromHistory(events: seq<Event>, slot: Slot, status: string)
    requires OpenRow(events, slot).Some?
    ensures RowAt(Run(Fresh, events), slot) == OpenRow(events, slot)
    ensures ClosingFrom(Run(Fresh, events), slot, status) == ClosingOf(events, slot, OpenRow(events, slot).value, status)
  {
    MapsFollowHistory(events);
    if slot.ToolSlot? {
      OpenSummaryIsTruncatedOutput(events, slot.key);
    }
  }

  /**
   * Finalizing sends one closing with the given status for each open row, turns first, then chats, then tool calls
   * with what they streamed, and nothing else.
   */
  lemma FinalizeSendsExactly(events: seq<Event>, status: string) returns (slots: seq<Slot>, more: seq<Emission>)
    ensures ListsOpenRows(events, slots) && |more| == |slots|
    ensures Run(Fresh, events + [Finalize(status)]).emitted == Run(Fresh, events).emitted + more
    ensures forall i :: 0 <= i < |slots| ==>
              OpenRow(events, slots[i]).Some? && more[i] == ClosingOf(events, slots[i], OpenRow(events, slots[i]).value, status)
  {
    var s := Run(Fresh, events);
    RunIsValid(events);
    MapsFollowHistory(events);
    RunAdd(events, Finalize(status));
    hide Run, Step, TurnSlots, ChatSlots, ToolSlots, OpenRow, RowAt, ClosingFrom, ClosingOf;
    AllSlotsListed(s);
    slots := TurnSlots(s) + ChatSlots(s) + ToolSlots(s);
    more := FinalizeSends(s, status);
    forall i | 0 <= i < |slots|
      ensures OpenRow(events, slots[i]).Some? && more[i] == ClosingOf(events, slots[i], OpenRow(events, slots[i]).value, status)
    {
      assert slots[i] in slots;
      ClosingFromHistory(events, slots[i], status);
    }
  }

  // ---------------------------------------------------------------- what is remembered of finished tool calls

  /** The command a call was announced with last. */
  function Announced(events: seq<Event>, call: string): string {
    if events == [] then "" else
      match Last(events)
      case BeforeTool(c, command, _) => if c == call then command else Announced(events[..|events| - 1], call)
      case _ => Announced(events[..|events| - 1], call)
  }

  /** All finished calls, with status, command and the preview of their output. */
  function Finished(events: seq<Event>): seq<CompletedRun> {
    if events == [] then [] else
      var init := events[..|events| - 1];
      match Last(events)
      case AfterTool(call, command, output) =>
        var status := if Fails(output) then "failed" else "success";
        Finished(init) +
        if OpenRow(init, ToolSlot(call)).None? then [CompletedRun(status, command, output)] else
          [CompletedRun(status, if Announced(init, call) != "" then Announced(init, call) else command,
                        if Streamed(init, call).text != "" then Streamed(init, call).text else output)]
      case _ => Finished(init)
  }

  ghost predicate IsLastTwenty<T(!new)>(part: seq<T>, all: seq<T>) {
    |part| == (if |all| <= 20 then |all| else 20) && forall i :: 0 <= i < |part| ==> part[i] == all[|all| - |part| + i]
  }

  lemma LastTwentyAdd<T(!new)>(part: seq<T>, all: seq<T>, x: T)
    requires IsLastTwenty(part, all)
    ensures IsLastTwenty(LastTwenty(part + [x]), all + [x])
  {
  }

  lemma {:induction false} CommandIsAnnounced(events: seq<Event>, call: string)
    requires call in Run(Fresh, events).tools.at
    ensures Run(Fresh, events).tools.at[call].command == Announced(events, call)
  {
    var init := events[..|events| - 1];
    var s := Run(Fresh, init);
    assert Run(Fresh, events) == Step(s, Last(events));
    hide Run, AddChunk, LastTwenty, InferToolStatus, TurnKey;
    OpenSummaryIsTruncatedOutput(events, call);
    if call in s.tools.at {
      CommandIsAnnounced(init, call);
    }
    match Last(events)
    case Finalize(status) =>
      hide CloseSlots, CloseSlot;
      var noTurns := CloseSlots(s, TurnSlots(s), status).(active := None);
      var noChats := CloseSlots(noTurns, ChatSlots(noTurns), status);
      ClosingKeepsTools(s, TurnSlots(s), status);
      ClosingKeepsTools(noTurns, ChatSlots(noTurns), status);
      ClosingKeepsTools(noChats, ToolSlots(noChats), status);
    case _ =>
  }

  /** The tracker remembers exactly the last twenty finished calls. */
  lemma {:induction false} RemembersLastTwenty(events: seq<Event>)
    ensures IsLastTwenty(Run(Fresh, events).completed, Finished(events))
  {
    if events != [] {
      var init, e := events[..|events| - 1], Last(events);
      RemembersLastTwenty(init);
      FinishedStep(init, e);
      assert events == init + [e];
      RunAdd(init, e);
    }
    hide Step;
  }

  lemma FinishedStep(init: seq<Event>, e: Event)
    requires IsLastTwenty(Run(Fresh, init).completed, Finished(init))
    ensures IsLastTwenty(Step(Run(Fresh, init), e).completed, Finished(init + [e]))
  {
    var s := Run(Fresh, init);
    assert (init + [e])[..|init|] == init;
    MapsFollowHistory(init);
    hide Run, LastTwenty, AddChunk, IsLastTwenty, CloseSlots, Truncate, Concat;
    match e
    case AfterTool(call, command, output) =>
      StatusOfOutput(output);
      assert RowAt(s, ToolSlot(call)) == OpenRow(init, ToolSlot(call));
      if call in s.tools.at {
        OpenSummaryIsTruncatedOutput(init, call);
        CommandIsAnnounced(init, call);
        var run := s.tools.at[call];
        LastTwentyAdd(s.completed, Finished(init), CompletedRun(InferToolStatus(output),
          if run.command != "" then run.command else command, if run.summary.text != "" then run.summary.text else output));
      } else {
        LastTwentyAdd(s.completed, Finished(init), CompletedRun(InferToolStatus(output), command, output));
      }
    case Finalize(status) => FinalizeEndsChat(s, status);
    case _ =>
  }

  /** Correlation ids of chats have one length, so turns of different chats, and different turns, have different keys. */
  lemma TurnKeysDiffer(chat: string, turn: string, other: string, next: string)
    requires |chat| == |other|
    ensures TurnKey(chat, turn) == TurnKey(other, next) <==> chat == other && turn == next
  {
    var a, b := TurnKey(chat, turn), TurnKey(other, next);
    assert a[..|chat|] == chat && b[..|other|] == other;
    assert a[|chat| + 6..] == turn && b[|other| + 6..] == next;
  }
}
