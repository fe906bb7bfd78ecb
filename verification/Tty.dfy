/**
 * The terminal that holds back what is written while an execution runs, and the executions that are logged
 * through it. Executions nest and overlap freely: what happens between two awaits is one event.
 */
module Tty {
  import opened Common
  import opened Text

  /** A message of a log, and whether it was held back. */
  datatype Entry = Entry(message: string, held: bool)

  datatype State = State(
    capture: nat,
    buffer: seq<string>,
    lines: nat,
    /** The raw writes. */
    output: seq<string>,
    /** Every message written, in the order of the writes, and every message emitted, in the order they came out. */
    written: seq<Entry>,
    emitted: seq<Entry>)

  const START := State(0, [], 0, [], [], [])

  function Newlines(s: string): nat {
    if s == "" then 0 else Newlines(s[..|s| - 1]) + if s[|s| - 1] == '\n' then 1 else 0
  }

  function Concat(messages: seq<string>): string {
    if messages == [] then "" else Concat(messages[..|messages| - 1]) + messages[|messages| - 1]
  }

  function Messages(entries: seq<Entry>): seq<string> {
    seq(|entries|, i requires 0 <= i < |entries| => entries[i].message)
  }

  function AllHeld(messages: seq<string>): seq<Entry> {
    seq(|messages|, i requires 0 <= i < |messages| => Entry(messages[i], true))
  }

  // ---------------------------------------------------------------------------------
  // Events

  function Emit(s: State, text: string, entries: seq<Entry>): State {
    s.(lines := s.lines + Newlines(text), output := s.output + [text], emitted := s.emitted + entries)
  }

  /** One write to the standard output or error. */
  function Write(s: State, m: string): State {
    var e := Entry(m, s.capture > 0);
    var t := s.(written := s.written + [e]);
    if s.capture > 0 then t.(buffer := s.buffer + [m]) else Emit(t, m, [e])
  }

  function WriteAll(s: State, ms: seq<string>): State {
    if ms == [] then s else Write(WriteAll(s, ms[..|ms| - 1]), ms[|ms| - 1])
  }

  function LineWrites(lines: seq<string>): seq<string> {
    seq(|lines|, i requires 0 <= i < |lines| => lines[i] + "\n")
  }

  /** The writes of `Logger.log`: each line, ended. */
  function LogWrites(message: string): seq<string> {
    LineWrites(Split(message, '\n'))
  }

  /** The writes of a line's update: over the line on a terminal, after it elsewhere. */
  function UpdateWrites(message: string, isTty: bool): seq<string> {
    if isTty then ["\r" + message + "\r"]
    else if message != "" && message[|message| - 1] == '\n' then [message]
    else [message, "\n"]
  }

  /** Gives out the buffer when nothing captures. */
  function Flush(s: State): State {
    if s.capture == 0 && s.buffer != []
    then Emit(s.(buffer := []), Concat(s.buffer), AllHeld(s.buffer))
    else s
  }

  /** An execution up to its callback. */
  function Begin(s: State, message: string): State {
    var t := WriteAll(s, LogWrites(message + " ..."));
    t.(capture := t.capture + 1)
  }

  /** An execution from the end of its callback, failed or not. */
  function End(s: State, message: string, isTty: bool): State {
    var t := s.(capture := if s.capture > 0 then s.capture - 1 else 0);
    Flush(WriteAll(t, UpdateWrites(message, isTty)))
  }

  datatype Event = Writes(message: string) | Begins(message: string) | Ends(message: string, isTty: bool)

  function Step(s: State, e: Event): State {
    match e
    case Writes(m) => Write(s, m)
    case Begins(m) => Begin(s, m)
    case Ends(m, isTty) => End(s, m, isTty)
  }

  function Run(s: State, events: seq<Event>): State
    decreases events
  {
    if events == [] then s else Run(Step(s, events[0]), events[1..])
  }

  // ---------------------------------------------------------------------------------
  // The terminal itself

  class Terminal {
    var capture: nat
    var buffer: seq<string>
    var lines: nat
    var output: seq<string>
    ghost var written: seq<Entry>
    ghost var emitted: seq<Entry>

    constructor ()
      ensures Now() == START
    {
      capture, buffer, lines, output, written, emitted := 0, [], 0, [], [], [];
    }

    ghost function Now(): State
      reads this
    {
      State(capture, buffer, lines, output, written, emitted)
    }

    method CountLines(message: string) returns (n: nat)
      ensures n == Newlines(message)
    {
      n := 0;
      for i := 0 to |message|
        invariant n == Newlines(message[..i])
      {
        assert message[..i + 1][..i] == message[..i];
        if message[i] == '\n' {
          n := n + 1;
        }
      }
      assert message[..|message|] == message;
    }

    /** A write that nothing captures. */
    method RawWrite(message: string, ghost entries: seq<Entry>)
      modifies this`lines, this`output, this`emitted
      ensures Now() == Emit(old(Now()), message, entries)
    {
      var matches := CountLines(message);
      lines := lines + matches;
      output := output + [message];
      emitted := emitted + entries;
    }

    /** The message is held while something captures, and otherwise comes out at once, with its newlines counted. */
    method SafeWrite(message: string)
      modifies this
      ensures Now() == Write(old(Now()), message)
      ensures capture == old(capture) && written == old(written) + [Entry(message, capture > 0)]
      ensures if capture > 0 then
                buffer == old(buffer) + [message] && output == old(output) && lines == old(lines)
              else
                && buffer == old(buffer) && output == old(output) + [message]
                && lines == old(lines) + multiset(message)['\n']
    {
      NewlinesAre(message);
      written := written + [Entry(message, capture > 0)];
      if capture > 0 {
        buffer := buffer + [message];
      } else {
        RawWrite(message, [Entry(message, false)]);
      }
    }

    method SafeWrites(messages: seq<string>)
      modifies this
      ensures Now() == WriteAll(old(Now()), messages)
    {
      for i := 0 to |messages|
        invariant Now() == WriteAll(old(Now()), messages[..i])
      {
        assert messages[..i + 1][..i] == messages[..i];
        SafeWrite(messages[i]);
      }
      assert messages[..|messages|] == messages;
    }

    method StartBuffer()
      modifies this`capture
      ensures Now() == old(Now()).(capture := old(capture) + 1)
    {
      capture := capture + 1;
    }

    method StopBuffer()
      modifies this`capture
      ensures Now() == old(Now()).(capture := if old(capture) > 0 then old(capture) - 1 else 0)
    {
      if capture > 0 {
        capture := capture - 1;
      }
    }

    method GetBuffer() returns (messages: seq<string>)
      modifies this`buffer
      ensures messages == old(buffer) && Now() == old(Now()).(buffer := [])
    {
      messages := buffer;
      buffer := [];
    }

    method BeginExecution(message: string)
      modifies this
      ensures Now() == Begin(old(Now()), message)
    {
      SafeWrites(LogWrites(message + " ..."));
      StartBuffer();
    }

    method EndExecution(message: string, isTty: bool)
      modifies this
      ensures Now() == End(old(Now()), message, isTty)
    {
      StopBuffer();
      SafeWrites(UpdateWrites(message, isTty));
      if capture == 0 && buffer != [] {
        var messages := GetBuffer();
        RawWrite(Concat(messages), AllHeld(messages));
      }
    }
  }

  // ---------------------------------------------------------------------------------
  // Conservation

  function Held(entries: seq<Entry>): seq<string> {
    if entries == [] then []
    else
      var last := entries[|entries| - 1];
      Held(entries[..|entries| - 1]) + if last.held then [last.message] else []
  }

  function Direct(entries: seq<Entry>): seq<string> {
    if entries == [] then []
    else
      var last := entries[|entries| - 1];
      Direct(entries[..|entries| - 1]) + if last.held then [] else [last.message]
  }

  lemma {:induction false} NewlinesAre(s: string)
    ensures Newlines(s) == multiset(s)['\n']
  {
    if s != "" {
      NewlinesAre(s[..|s| - 1]);
      assert s == s[..|s| - 1] + [s[|s| - 1]];
    }
  }

  /** What every step keeps, even inside the end of an execution. */
  ghost predicate Conserved(s: State) {
    && Direct(s.written) == Direct(s.emitted)
    && Held(s.written) == Held(s.emitted) + s.buffer
    && Concat(s.output) == Concat(Messages(s.emitted))
    && s.lines == Newlines(Concat(s.output))
  }

  /** What holds at every await. */
  ghost predicate Inv(s: State) {
    Conserved(s) && (s.capture == 0 ==> s.buffer == [])
  }

  lemma {:induction false} NewlinesOf(a: string, b: string)
    ensures Newlines(a + b) == Newlines(a) + Newlines(b)
  {
    if b == "" {
      assert a + b == a;
    } else {
      NewlinesOf(a, b[..|b| - 1]);
      assert (a + b)[..|a + b| - 1] == a + b[..|b| - 1];
    }
  }

  lemma {:induction false} ConcatOf(a: seq<string>, b: seq<string>)
    ensures Concat(a + b) == Concat(a) + Concat(b)
  {
    if b == [] {
      assert a + b == a;
    } else {
      var init, last := b[..|b| - 1], b[|b| - 1];
      ConcatOf(a, init);
      LastOf(a, b);
      hide Concat;
      ConcatNext(a + init, last);
      ConcatNext(init, last);
      Associates(Concat(a), Concat(init), last);
    }
  }

  lemma {:induction false} HeldOf(a: seq<Entry>, b: seq<Entry>)
    ensures Held(a + b) == Held(a) + Held(b)
  {
    if b == [] {
      assert a + b == a;
    } else {
      var init, last := b[..|b| - 1], b[|b| - 1];
      HeldOf(a, init);
      LastOf(a, b);
      hide Held;
      EntryNext(a + init, last);
      EntryNext(init, last);
      Associates(Held(a), Held(init), if last.held then [last.message] else []);
    }
  }

  lemma {:induction false} DirectOf(a: seq<Entry>, b: seq<Entry>)
    ensures Direct(a + b) == Direct(a) + Direct(b)
  {
    if b == [] {
      assert a + b == a;
    } else {
      var init, last := b[..|b| - 1], b[|b| - 1];
      DirectOf(a, init);
      LastOf(a, b);
      hide Direct;
      EntryNext(a + init, last);
      EntryNext(init, last);
      Associates(Direct(a), Direct(init), if last.held then [] else [last.message]);
    }
  }

  lemma {:induction false} HeldAllHeld(messages: seq<string>)
    ensures Held(AllHeld(messages)) == messages && Direct(AllHeld(messages)) == []
    ensures Messages(AllHeld(messages)) == messages
  {
    if messages != [] {
      HeldAllHeld(messages[..|messages| - 1]);
      assert AllHeld(messages)[..|messages| - 1] == AllHeld(messages[..|messages| - 1]);
    }
  }

  lemma ConcatNext(texts: seq<string>, text: string)
    ensures Concat(texts + [text]) == Concat(texts) + text
  {
    var all := texts + [text];
    assert all[..|all| - 1] == texts && all[|all| - 1] == text;
  }

  lemma EntryNext(entries: seq<Entry>, e: Entry)
    ensures Held(entries + [e]) == Held(entries) + if e.held then [e.message] else []
    ensures Direct(entries + [e]) == Direct(entries) + if e.held then [] else [e.message]
  {
    var all := entries + [e];
    assert all[..|all| - 1] == entries && all[|all| - 1] == e;
  }

  lemma MessagesOf(a: seq<Entry>, b: seq<Entry>)
    ensures Messages(a + b) == Messages(a) + Messages(b)
  {
  }

  lemma EmitConserves(s: State, text: string, entries: seq<Entry>)
    requires Concat(s.output) == Concat(Messages(s.emitted)) && s.lines == Newlines(Concat(s.output))
    requires text == Concat(Messages(entries))
    ensures var t := Emit(s, text, entries);
      && Concat(t.output) == Concat(Messages(t.emitted)) && t.lines == Newlines(Concat(t.output))
      && Held(t.emitted) == Held(s.emitted) + Held(entries)
      && Direct(t.emitted) == Direct(s.emitted) + Direct(entries)
  {
    hide Concat, Messages, Newlines, Held, Direct;
    ConcatNext(s.output, text);
    ConcatOf(Messages(s.emitted), Messages(entries));
    MessagesOf(s.emitted, entries);
    NewlinesOf(Concat(s.output), text);
    HeldOf(s.emitted, entries);
    DirectOf(s.emitted, entries);
  }

  /** The texts of one entry. */
  lemma OneEntry(e: Entry)
    ensures Concat(Messages([e])) == e.message
    ensures Held([e]) == if e.held then [e.message] else []
    ensures Direct([e]) == if e.held then [] else [e.message]
  {
    assert Messages([e]) == [] + [e.message];
    ConcatNext([], e.message);
    EntryNext([], e);
    assert [] + [e] == [e];
  }

  lemma WriteConserves(s: State, m: string)
    requires Conserved(s)
    ensures Conserved(Write(s, m))
  {
    hide Concat, Messages, Newlines, Held, Direct;
    var e := Entry(m, s.capture > 0);
    EntryNext(s.written, e);
    if s.capture == 0 {
      OneEntry(e);
      EmitConserves(s.(written := s.written + [e]), m, [e]);
    } else {
      HeldOneMore(s, m);
    }
  }

  lemma HeldOneMore(s: State, m: string)
    requires Held(s.written) == Held(s.emitted) + s.buffer
    ensures Held(s.written) + [m] == Held(s.emitted) + (s.buffer + [m])
  {
  }

  lemma {:induction false} WriteAllConserves(s: State, ms: seq<string>)
    requires Conserved(s)
    ensures Conserved(WriteAll(s, ms)) && WriteAll(s, ms).capture == s.capture
    ensures s.capture == 0 ==> WriteAll(s, ms).buffer == s.buffer
  {
    if ms != [] {
      WriteAllConserves(s, ms[..|ms| - 1]);
      WriteConserves(WriteAll(s, ms[..|ms| - 1]), ms[|ms| - 1]);
    }
  }

  lemma FlushConserves(s: State)
    requires Conserved(s)
    ensures Inv(Flush(s))
  {
    if s.capture == 0 && s.buffer != [] {
      HeldAllHeld(s.buffer);
      EmitConserves(s.(buffer := []), Concat(s.buffer), AllHeld(s.buffer));
    }
  }

  lemma StepKeepsInv(s: State, e: Event)
    requires Inv(s)
    ensures Inv(Step(s, e))
  {
    match e
    case Writes(m) =>
      WriteConserves(s, m);
    case Begins(m) =>
      WriteAllConserves(s, LogWrites(m + " ..."));
    case Ends(m, isTty) =>
      var t := s.(capture := if s.capture > 0 then s.capture - 1 else 0);
      WriteAllConserves(t, UpdateWrites(m, isTty));
      FlushConserves(WriteAll(t, UpdateWrites(m, isTty)));
  }

  lemma {:induction false} RunKeepsInv(s: State, events: seq<Event>)
    requires Inv(s)
    ensures Inv(Run(s, events))
    decreases events
  {
    if events != [] {
      StepKeepsInv(s, events[0]);
      RunKeepsInv(Step(s, events[0]), events[1..]);
    }
  }

  lemma {:induction false} HeldAndDirect(entries: seq<Entry>)
    ensures multiset(Messages(entries)) == multiset(Held(entries)) + multiset(Direct(entries))
  {
    if entries != [] {
      var init, last := entries[..|entries| - 1], entries[|entries| - 1];
      HeldAndDirect(init);
      assert Messages(entries) == Messages(init) + [last.message];
    }
  }

  // ---------------------------------------------------------------------------------
  // What the events say

  /** The lines of the message, each ended by its newline. */
  ghost predicate AreLines(texts: seq<string>, message: string) {
    && Concat(texts) == message + "\n"
    && forall i :: 0 <= i < |texts| ==> IsLine(texts[i])
  }

  predicate IsLine(text: string) {
    text != "" && text[|text| - 1] == '\n' && '\n' !in text[..|text| - 1]
  }

  /** The texts that one event has written: the log line of an execution that begins, its update when it ends. */
  ghost predicate IsSaid(e: Event, texts: seq<string>) {
    match e
    case Writes(m) => texts == [m]
    case Begins(m) => AreLines(texts, m + " ...")
    case Ends(m, isTty) =>
      if isTty then texts == ["\r" + m + "\r"]
      else if m != "" && m[|m| - 1] == '\n' then texts == [m]
      else texts == [m, "\n"]
  }

  /** The executions running after the events. */
  function Running(events: seq<Event>): nat {
    if events == [] then 0
    else
      var before, last := Running(events[..|events| - 1]), events[|events| - 1];
      if last.Begins? then before + 1 else if last.Ends? && before > 0 then before - 1 else before
  }

  /** What the last event says is held: an execution runs that did not begin or end with it. */
  predicate IsHeldLast(events: seq<Event>)
    requires events != []
  {
    if events[|events| - 1].Ends? then Running(events) > 0 else Running(events[..|events| - 1]) > 0
  }

  /** The entries are what the events say, in their order, and which of it is held. */
  ghost predicate IsSaidBy(events: seq<Event>, entries: seq<Entry>) {
    if events == [] then entries == []
    else exists k :: 0 <= k <= |entries| && IsSaidLast(events, entries, k)
  }

  ghost predicate IsSaidLast(events: seq<Event>, entries: seq<Entry>, k: int)
    requires events != [] && 0 <= k <= |entries|
  {
    && IsSaidBy(events[..|events| - 1], entries[..k])
    && IsSaid(events[|events| - 1], Messages(entries[k..]))
    && forall i :: k <= i < |entries| ==> entries[i].held == IsHeldLast(events)
  }

  lemma {:induction false} RunLast(s: State, events: seq<Event>)
    requires events != []
    ensures Run(s, events) == Step(Run(s, events[..|events| - 1]), events[|events| - 1])
    decreases events
  {
    var init := events[..|events| - 1];
    if init != [] {
      assert init[0] == events[0] && init[1..] == events[1..][..|events[1..]| - 1];
      RunLast(Step(s, events[0]), events[1..]);
    }
  }

  /** The entries that a write of each text adds. */
  function Added(texts: seq<string>, held: bool): seq<Entry> {
    seq(|texts|, i requires 0 <= i < |texts| => Entry(texts[i], held))
  }

  lemma {:induction false} WriteAllAdds(s: State, texts: seq<string>)
    ensures WriteAll(s, texts).written == s.written + Added(texts, s.capture > 0)
  {
    if texts != [] {
      var init, last := texts[..|texts| - 1], texts[|texts| - 1];
      WriteAllAdds(s, init);
      WriteAllCaptures(s, init);
      assert Added(texts, s.capture > 0) == Added(init, s.capture > 0) + [Entry(last, s.capture > 0)];
    }
  }

  /** A step adds what its event says. */
  lemma StepAdds(s: State, e: Event) returns (texts: seq<string>)
    ensures IsSaid(e, texts)
    ensures
      var running := if e.Ends? && s.capture > 0 then s.capture - 1 else s.capture;
      && Step(s, e).written == s.written + Added(texts, running > 0)
      && Step(s, e).capture == if e.Begins? then running + 1 else running
  {
    match e
    case Writes(m) =>
      texts := [m];
      assert Added(texts, s.capture > 0) == [Entry(m, s.capture > 0)];
    case Begins(m) =>
      texts := BeginAdds(s, m);
    case Ends(m, isTty) =>
      texts := UpdateWrites(m, isTty);
      hide Added, WriteAll;
      EndAdds(s, m, isTty);
  }

  lemma BeginAdds(s: State, m: string) returns (texts: seq<string>)
    ensures AreLines(texts, m + " ...")
    ensures Begin(s, m).written == s.written + Added(texts, s.capture > 0) && Begin(s, m).capture == s.capture + 1
  {
    hide AreLines, Added, WriteAll, LogWrites;
    texts := LogWrites(m + " ...");
    LogWritesLines(m + " ...");
    WriteAllAdds(s, texts);
    WriteAllCaptures(s, texts);
  }

  lemma EndAdds(s: State, m: string, isTty: bool)
    ensures
      var running := if s.capture > 0 then s.capture - 1 else s.capture;
      && End(s, m, isTty).written == s.written + Added(UpdateWrites(m, isTty), running > 0)
      && End(s, m, isTty).capture == running
  {
    hide Added, WriteAll, UpdateWrites;
    var t := s.(capture := if s.capture > 0 then s.capture - 1 else 0);
    WriteAllAdds(t, UpdateWrites(m, isTty));
    WriteAllCaptures(t, UpdateWrites(m, isTty));
  }

  lemma LogWritesLines(message: string)
    ensures AreLines(LogWrites(message), message)
  {
    LinesJoin(Split(message, '\n'));
  }

  lemma {:induction false} LinesJoin(lines: seq<string>)
    requires lines != []
    ensures Concat(LineWrites(lines)) == Join(lines, "\n") + "\n"
  {
    var texts := LineWrites(lines);
    if |lines| == 1 {
      assert texts == [lines[0] + "\n"];
      ConcatOne(lines[0] + "\n");
    } else {
      LinesJoin(lines[1..]);
      assert texts == [lines[0] + "\n"] + LineWrites(lines[1..]);
      hide Concat, Join;
      ConcatOf([lines[0] + "\n"], LineWrites(lines[1..]));
      FirstJoined(lines);
    }
  }

  lemma ConcatOne(text: string)
    ensures Concat([text]) == text
  {
    ConcatNext([], text);
    assert [] + [text] == [text];
  }

  lemma FirstJoined(lines: seq<string>)
    requires |lines| > 1
    ensures Concat([lines[0] + "\n"]) + (Join(lines[1..], "\n") + "\n") == Join(lines, "\n") + "\n"
  {
    ConcatOne(lines[0] + "\n");
    assert Join(lines, "\n") == lines[0] + "\n" + Join(lines[1..], "\n");
    hide Concat, Join;
    Associates(lines[0] + "\n", Join(lines[1..], "\n"), "\n");
  }

  lemma AddedMessages(texts: seq<string>, held: bool)
    ensures Messages(Added(texts, held)) == texts
  {
  }

  /** After every run, what was written is what the events said. */
  lemma {:induction false} WrittenIsSaid(events: seq<Event>)
    ensures IsSaidBy(events, Run(START, events).written)
    ensures Run(START, events).capture == Running(events)
  {
    if events != [] {
      var init, e := events[..|events| - 1], events[|events| - 1];
      WrittenIsSaid(init);
      RunLast(START, events);
      var s := Run(START, init);
      hide Run, Step, IsSaid;
      var texts := StepAdds(s, e);
      SaidNext(events, s.written, texts);
    }
  }

  lemma SaidNext(events: seq<Event>, before: seq<Entry>, texts: seq<string>)
    requires events != [] && IsSaidBy(events[..|events| - 1], before) && IsSaid(events[|events| - 1], texts)
    ensures IsSaidBy(events, before + Added(texts, IsHeldLast(events)))
  {
    var added := Added(texts, IsHeldLast(events));
    var all := before + added;
    AddedMessages(texts, IsHeldLast(events));
    assert all[..|before|] == before && all[|before|..] == added;
    hide IsSaid;
    assert IsSaidLast(events, all, |before|);
  }

  /**
   * For every sequence of writes, beginnings and ends of executions: what is written is what the events say, nothing
   * of it is lost or repeated, held messages keep their order and so do the others, the counter counts the newlines
   * that came out, and once nothing captures everything is out.
   */
  lemma OutputIsConserved(events: seq<Event>)
    ensures var s := Run(START, events);
      && multiset(Messages(s.written)) == multiset(Messages(s.emitted)) + multiset(s.buffer)
      && Direct(s.written) == Direct(s.emitted)
      && Held(s.written) == Held(s.emitted) + s.buffer
      && Concat(s.output) == Concat(Messages(s.emitted))
      && s.lines == multiset(Concat(s.output))['\n']
      && (s.capture == 0 ==> s.buffer == [])
      && IsSaidBy(events, s.written)
  {
    var s := Run(START, events);
    RunKeepsInv(START, events);
    NewlinesAre(Concat(s.output));
    WrittenIsSaid(events);
    HeldAndDirect(s.written);
    HeldAndDirect(s.emitted);
  }

  /** The executions begun and not ended. */
  function Open(events: seq<Event>): int {
    if events == [] then 0
    else Open(events[1..]) + if events[0].Begins? then 1 else if events[0].Ends? then -1 else 0
  }

  /** No execution ends that has not begun. */
  ghost predicate Matched(open: int, events: seq<Event>)
    decreases events
  {
    open >= 0 && (events != [] ==> Matched(open + Open(events[..1]), events[1..]))
  }

  lemma {:induction false} CaptureCountsExecutions(s: State, events: seq<Event>)
    requires Matched(s.capture, events)
    ensures Run(s, events).capture == s.capture + Open(events)
    decreases events
  {
    if events != [] {
      var e := events[0];
      assert events[..1][1..] == [];
      assert Open(events[..1]) == if e.Begins? then 1 else if e.Ends? then -1 else 0;
      StepCaptures(s, e);
      CaptureCountsExecutions(Step(s, e), events[1..]);
    }
  }

  lemma {:induction false} WriteAllCaptures(s: State, ms: seq<string>)
    ensures WriteAll(s, ms).capture == s.capture
  {
    if ms != [] {
      WriteAllCaptures(s, ms[..|ms| - 1]);
    }
  }

  lemma StepCaptures(s: State, e: Event)
    requires e.Ends? ==> s.capture > 0
    ensures Step(s, e).capture == s.capture + if e.Begins? then 1 else if e.Ends? then -1 else 0
  {
    match e
    case Writes(m) =>
    case Begins(m) =>
      WriteAllCaptures(s, LogWrites(m + " ..."));
    case Ends(m, isTty) =>
      WriteAllCaptures(s.(capture := s.capture - 1), UpdateWrites(m, isTty));
  }

  /**
   * When every execution has ended, in whatever order they did, every message is out, once: the output is what the
   * events said, rearranged, with the held messages in their order and the others in theirs.
   */
  lemma NothingIsLeftBehind(events: seq<Event>)
    requires Running(events) == 0
    ensures var s := Run(START, events);
      && s.buffer == [] && IsSaidBy(events, s.written)
      && Concat(s.output) == Concat(Messages(s.emitted))
      && multiset(Messages(s.written)) == multiset(Messages(s.emitted))
      && Held(s.written) == Held(s.emitted) && Direct(s.written) == Direct(s.emitted)
  {
    OutputIsConserved(events);
    WrittenIsSaid(events);
    var s := Run(START, events);
    assert Held(s.emitted) + [] == Held(s.emitted);
  }
}
