/** main.py, the text tests of the loop: the exit command (line 12) and the
    normalisation of the classifier's label (line 20). */
module Commands {
  import opened PyStrings

  /** The loop ends when the line, trimmed and lower-cased, is "exit". */
  predicate IsExit(line: string) {
    Lower(Trim(line)) == "exit"
  }

  /** Surrounding whitespace and letter case do not matter; other words do. */
  lemma ExitExamples()
    ensures IsExit("  EXIT\n") && IsExit("Exit")
    ensures !IsExit("exit now")
  {
    ExitIgnoresSpaceAndCase();
    ExitCapitalised();
    ExitNeedsWholeLine();
  }

  lemma ExitIgnoresSpaceAndCase()
    ensures IsExit("  EXIT\n")
  {
    assert "  " + "EXIT" + "\n" == "  EXIT\n";
    StripAround("  ", "EXIT", "\n", IsSpace);
    LowerExit("EXIT");
  }

  lemma ExitCapitalised()
    ensures IsExit("Exit")
  {
    StripFixed("Exit", IsSpace);
    LowerExit("Exit");
  }

  lemma ExitNeedsWholeLine()
    ensures !IsExit("exit now")
  {
    StripFixed("exit now", IsSpace);
  }

  /** Any whitespace around any spelling of "exit" that lower-cases to it is an exit. */
  lemma ExitGeneral(ws1: string, w: string, ws2: string)
    requires All(ws1, IsSpace) && All(ws2, IsSpace) && Lower(w) == "exit"
    ensures IsExit(ws1 + w + ws2)
  {
    assert |w| == 4;
    assert LowerChar(w[0]) == 'e' && LowerChar(w[3]) == 't';
    StripAround(ws1, w, ws2, IsSpace);
  }

  /** The converse of ExitGeneral: every exit line is some spelling of "exit"
      with only whitespace around it. */
  lemma ExitOnlyAroundWord(line: string)
    requires IsExit(line)
    ensures exists a, w, b :: line == a + w + b && All(a, IsSpace) && All(b, IsSpace) && Lower(w) == "exit"
  {
    var a, b := TrimSplit(line);
    assert line == a + Trim(line) + b;
  }

  /** A line is its leading whitespace, its trimmed text and its trailing
      whitespace, in that order. */
  lemma TrimSplit(s: string) returns (a: string, b: string)
    ensures s == a + Trim(s) + b && All(a, IsSpace) && All(b, IsSpace)
  {
    TrimRemovesOnlySpace(s);
    a, b := StrippedSplit(s, Trim(s), IsSpace);
  }

  lemma LowerExit(s: string)
    requires s == "EXIT" || s == "Exit"
    ensures Lower(s) == "exit"
  {
  }

  predicate IsDoubleQuote(c: char) { c == '"' }
  predicate IsSingleQuote(c: char) { c == '\'' }
  predicate IsPeriod(c: char) { c == '.' }

  /** The normalisation of the classifier's reply: strip whitespace, then every
      leading and trailing double quote, then every leading and trailing single
      quote, then every trailing period, then lower-case. */
  function NormalizeIntent(raw: string): (r: string)
    ensures r == [] || r[|r| - 1] != '.'
    ensures forall i :: 0 <= i < |r| ==> !IsUpper(r[i])
    ensures |r| <= |raw|
  {
    Lower(Unquote(raw))
  }

  /** The normalisation before lower-casing. */
  function Unquote(raw: string): (r: string)
    ensures |r| <= |raw|
  {
    RStrip(Strip(Strip(Trim(raw), IsDoubleQuote), IsSingleQuote), IsPeriod)
  }

  predicate All(s: string, p: char -> bool) {
    forall i :: 0 <= i < |s| ==> p(s[i])
  }

  /** The forms of a label that normalise to it: surrounded by whitespace, then
      by double quotes, then by single quotes, with any number of periods after
      the label inside the quotes, in any letter case. */
  lemma NormalizeWrapped(ws1: string, dq1: string, sq1: string, name: string,
                         dots: string, sq2: string, dq2: string, ws2: string)
    requires All(ws1, IsSpace) && All(ws2, IsSpace)
    requires All(dq1, IsDoubleQuote) && All(dq2, IsDoubleQuote)
    requires All(sq1, IsSingleQuote) && All(sq2, IsSingleQuote)
    requires All(dots, IsPeriod)
    requires name != []
    requires var c := name[0]; !IsSpace(c) && !IsDoubleQuote(c) && !IsSingleQuote(c)
    requires var c := name[|name| - 1]; !IsSpace(c) && !IsDoubleQuote(c) && !IsSingleQuote(c) && !IsPeriod(c)
    ensures Unquote(ws1 + dq1 + sq1 + name + dots + sq2 + dq2 + ws2) == name
  {
    var quoted := dq1 + (sq1 + name + dots + sq2) + dq2;
    assert ws1 + dq1 + sq1 + name + dots + sq2 + dq2 + ws2 == ws1 + quoted + ws2;
    Ends(dq1, sq1 + name + dots + sq2, dq2);
    Ends(sq1, name + dots, sq2);
    Ends([], name, dots);
    assert !IsSpace(quoted[0]) && !IsSpace(quoted[|quoted| - 1]);
    StripAround(ws1, quoted, ws2, IsSpace);
    NormalizeQuoted(dq1, sq1, name, dots, sq2, dq2);
  }

  /** The double-quote layer, then the rest. */
  lemma NormalizeQuoted(dq1: string, sq1: string, name: string, dots: string, sq2: string, dq2: string)
    requires All(dq1, IsDoubleQuote) && All(dq2, IsDoubleQuote)
    requires All(sq1, IsSingleQuote) && All(sq2, IsSingleQuote)
    requires All(dots, IsPeriod)
    requires name != []
    requires var c := name[0]; !IsDoubleQuote(c) && !IsSingleQuote(c)
    requires var c := name[|name| - 1]; !IsDoubleQuote(c) && !IsSingleQuote(c) && !IsPeriod(c)
    ensures RStrip(Strip(Strip(dq1 + (sq1 + name + dots + sq2) + dq2, IsDoubleQuote), IsSingleQuote), IsPeriod)
            == name
  {
    var inner := sq1 + name + dots + sq2;
    Ends(sq1, name + dots, sq2);
    Ends([], name, dots);
    assert sq1 + name + dots + sq2 == sq1 + (name + dots) + sq2;
    assert !IsDoubleQuote(inner[0]) && !IsDoubleQuote(inner[|inner| - 1]);
    StripAround(dq1, inner, dq2, IsDoubleQuote);
    NormalizeInnerLayers(sq1, name, dots, sq2);
  }

  /** The single-quote layer and the periods. */
  lemma NormalizeInnerLayers(sq1: string, name: string, dots: string, sq2: string)
    requires All(sq1, IsSingleQuote) && All(sq2, IsSingleQuote)
    requires All(dots, IsPeriod)
    requires name != []
    requires !IsSingleQuote(name[0])
    requires var c := name[|name| - 1]; !IsSingleQuote(c) && !IsPeriod(c)
    ensures RStrip(Strip(sq1 + name + dots + sq2, IsSingleQuote), IsPeriod) == name
  {
    Ends([], name, dots);
    assert sq1 + name + dots + sq2 == sq1 + (name + dots) + sq2;
    assert !IsSingleQuote((name + dots)[0]) && !IsSingleQuote((name + dots)[|name + dots| - 1]);
    StripAround(sq1, name + dots, sq2, IsSingleQuote);
    RStripSuffix(name, dots, IsPeriod);
  }

  /** The first and last characters of a concatenation around a non-empty middle. */
  lemma Ends(a: string, b: string, c: string)
    requires b != []
    ensures var s := a + b + c;
            && s[0] == (if a != [] then a[0] else b[0])
            && s[|s| - 1] == (if c != [] then c[|c| - 1] else b[|b| - 1])
  {
  }

  /** Quoted, capitalised and period-terminated spellings of a label all map to
      the label; every trailing period goes, not only one. */
  lemma NormalizeExamples()
    ensures NormalizeIntent("\"Add_Memory.\"") == "add_memory"
    ensures NormalizeIntent("'add_memory'") == "add_memory"
    ensures NormalizeIntent("ADD_MEMORY") == "add_memory"
    ensures NormalizeIntent(" delete_memory..\n") == "delete_memory"
  {
    NormalizeDoubleQuoted();
    NormalizeSingleQuotes();
    NormalizeUpperCase();
    NormalizeManyPeriods();
  }

  lemma NormalizeDoubleQuoted()
    ensures NormalizeIntent("\"Add_Memory.\"") == "add_memory"
  {
    assert "" + "\"" + "" + "Add_Memory" + "." + "" + "\"" + "" == "\"Add_Memory.\"";
    NormalizeWrapped("", "\"", "", "Add_Memory", ".", "", "\"", "");
    LowerAddMemory("Add_Memory");
  }

  lemma NormalizeSingleQuotes()
    ensures NormalizeIntent("'add_memory'") == "add_memory"
  {
    assert "" + "" + "'" + "add_memory" + "" + "'" + "" + "" == "'add_memory'";
    NormalizeWrapped("", "", "'", "add_memory", "", "'", "", "");
    LowerAddMemory("add_memory");
  }

  lemma NormalizeUpperCase()
    ensures NormalizeIntent("ADD_MEMORY") == "add_memory"
  {
    NormalizeWrapped("", "", "", "ADD_MEMORY", "", "", "", "");
    LowerAddMemory("ADD_MEMORY");
  }

  lemma NormalizeManyPeriods()
    ensures NormalizeIntent(" delete_memory..\n") == "delete_memory"
  {
    assert " " + "" + "" + "delete_memory" + ".." + "" + "" + "\n" == " delete_memory..\n";
    NormalizeWrapped(" ", "", "", "delete_memory", "..", "", "", "\n");
    LowerDeleteMemory("delete_memory");
  }

  lemma LowerAddMemory(s: string)
    requires s == "Add_Memory" || s == "add_memory" || s == "ADD_MEMORY"
    ensures Lower(s) == "add_memory"
  {
  }

  lemma LowerDeleteMemory(s: string)
    requires s == "delete_memory"
    ensures Lower(s) == "delete_memory"
  {
  }

  /** The quote strips run before the period strip, so a period after a closing
      quote keeps that quote and the label is not recognised. */
  lemma QuoteBeforePeriodSurvives()
    ensures NormalizeIntent("'add_memory'.") == "add_memory'"
  {
    UnquoteKeepsQuote("'add_memory'.");
    LowerKeepsQuotedLabel("add_memory'");
  }

  lemma UnquoteKeepsQuote(raw: string)
    requires raw == "'add_memory'."
    ensures Unquote(raw) == "add_memory'"
  {
    StripFixed(raw, IsSpace);
    StripFixed(raw, IsDoubleQuote);
    QuoteStripStopsAtPeriod(raw);
    PeriodStripKeepsQuote("add_memory'.");
  }

  lemma QuoteStripStopsAtPeriod(raw: string)
    requires raw == "'add_memory'."
    ensures Strip(raw, IsSingleQuote) == "add_memory'."
  {
    assert raw == "'" + "add_memory'." + "";
    StripAround("'", "add_memory'.", "", IsSingleQuote);
  }

  lemma PeriodStripKeepsQuote(s: string)
    requires s == "add_memory'."
    ensures RStrip(s, IsPeriod) == "add_memory'"
  {
    assert s == "add_memory'" + ".";
    RStripSuffix("add_memory'", ".", IsPeriod);
  }

  lemma LowerKeepsQuotedLabel(s: string)
    requires s == "add_memory'"
    ensures Lower(s) == "add_memory'"
  {
  }
}

/** main.py: the conversation loop. Each turn reads a line, stops on "exit",
    saves the message, classifies it, dispatches on the normalised intent and
    saves the reply. */
module Agent {
  import opened PyStrings
  import opened Commands
  import opened Host
  import opened Utils
  import opened VectorStoreUtils

  const Updated := "Updated the memory accordingly."
  const Completed := "Task completed as per your request."
  const NoDeletion := "No deletion detected."
  const NotUnderstood := "Sorry, I couldn't understand your intent."

  /** Are all extracted values strings? */
  predicate AllText(values: seq<PyValue>) {
    forall i :: 0 <= i < |values| ==> values[i].PyStr?
  }

  /** The strings before the first value that is not one: the facts handed to
      the index before it is given a non-string and raises. */
  function TextPrefix(values: seq<PyValue>): (r: seq<string>)
    ensures |r| <= |values|
    ensures forall i :: 0 <= i < |r| ==> values[i] == PyStr(r[i])
    ensures AllText(values) ==> |r| == |values|
    ensures !AllText(values) ==> |r| < |values| && !values[|r|].PyStr?
  {
    if values == [] || !values[0].PyStr? then []
    else [values[0].s] + TextPrefix(values[1..])
  }

  /** What the dispatch leaves: the store, the unread input, and the reply
      (None where the turn raised). */
  datatype Dispatched = Dispatched(entries: map<Id, string>, input: seq<string>, reply: Option<string>)

  /** The if-chain on the normalised intent. */
  function Dispatch(o: Oracles, entries: map<Id, string>, input: seq<string>, intent: string, message: string): Dispatched {
    if intent == "add_memory" then
      var facts := ExtractFacts(o, message);
      var after := AddAll(o, entries, TextPrefix(facts), DefaultThreshold);
      Dispatched(after, input, if AllText(facts) then Some(Updated) else None)
    else if intent == "delete_memory" then
      var facts := ExtractFacts(o, message);
      if facts == [] then Dispatched(entries, input, Some(NoDeletion))
      else
        var d := DeleteAll(o, entries, input, TextPrefix(facts));
        Dispatched(d.entries, d.input, if d.eof || !AllText(facts) then None else Some(Completed))
    else if intent == "retrieve_memory" then
      Dispatched(entries, input, Some(RetrieveMemory(o, entries, message)))
    else
      Dispatched(entries, input, Some(NotUnderstood))
  }

  /** The reply table. Adding always answers the same, however many facts were
      extracted; deleting with nothing extracted deletes nothing; retrieval
      answers with RetrieveMemory; any other label changes nothing. */
  lemma DispatchTable(o: Oracles, entries: map<Id, string>, input: seq<string>, intent: string, message: string)
    ensures var d := Dispatch(o, entries, input, intent, message);
            var facts := ExtractFacts(o, message);
            && (intent == "add_memory" ==>
                  d.entries == AddAll(o, entries, TextPrefix(facts), DefaultThreshold) && d.input == input)
            && (intent == "add_memory" && AllText(facts) ==>
                  d.reply == Some(Updated) && d.input == input && entries.Keys <= d.entries.Keys)
            && (intent == "add_memory" && facts == [] ==> d == Dispatched(entries, input, Some(Updated)))
            && (intent == "delete_memory" && facts == [] ==> d == Dispatched(entries, input, Some(NoDeletion)))
            && (intent == "delete_memory" && facts != [] && AllText(facts) ==>
                  var r := DeleteAll(o, entries, input, TextPrefix(facts));
                  d.entries == r.entries && d.input == r.input && (d.reply == Some(Completed) <==> !r.eof))
            && (intent == "delete_memory" ==> d.entries.Keys <= entries.Keys)
            && (intent == "retrieve_memory" ==>
                  d == Dispatched(entries, input, Some(RetrieveMemory(o, entries, message))))
            && (intent !in {"add_memory", "delete_memory", "retrieve_memory"} ==>
                  d == Dispatched(entries, input, Some(NotUnderstood)))
  {
    var facts := ExtractFacts(o, message);
    if intent == "add_memory" {
      AddAllOnlyInserts(o, entries, TextPrefix(facts), DefaultThreshold);
    } else if intent == "delete_memory" && facts != [] {
      DeleteAllOnlyRemoves(o, entries, input, TextPrefix(facts));
    }
  }

  /** The state the loop carries: the store, the conversation buffer and the
      unread lines of standard input. */
  datatype World = World(entries: map<Id, string>, messages: seq<Message>, input: seq<string>)

  datatype TurnResult = TurnResult(world: World, reply: Option<string>)

  /** The buffer after the first `save_context` of a turn: the message and an
      empty output. */
  function Saved(messages: seq<Message>, message: string): seq<Message> {
    messages + [Human(message), Ai("")]
  }

  /** The normalised label the classifier gives `message` over the rendered history. */
  function Intent(o: Oracles, messages: seq<Message>, message: string): string {
    NormalizeIntent(ClassifyIntent(o, message, GetChatHistory(Messages(messages))))
  }

  /** The buffer after the turn: the reply is saved when the turn did not raise. */
  function Record(messages: seq<Message>, reply: Option<string>): seq<Message> {
    if reply.Some? then messages + [Human(""), Ai(reply.value)] else messages
  }

  /** One non-exit turn on `message`; `w.input` is what follows it. */
  function TurnSpec(o: Oracles, w: World, message: string): TurnResult {
    var saved := Saved(w.messages, message);
    var d := Dispatch(o, w.entries, w.input, Intent(o, saved, message), message);
    TurnResult(World(d.entries, Record(saved, d.reply), d.input), d.reply)
  }

  /** A turn saves exactly two contexts: the message before classification and
      the reply after dispatch. */
  lemma TurnSavesTwoContexts(o: Oracles, w: World, message: string)
    ensures var t := TurnSpec(o, w, message);
            t.reply.Some? ==> t.world.messages == w.messages + [Human(message), Ai(""), Human(""), Ai(t.reply.value)]
  {
    var t := TurnSpec(o, w, message);
    if t.reply.Some? {
      AppendPairs(w.messages, Human(message), Ai(""), Human(""), Ai(t.reply.value));
    }
  }

  lemma AppendPairs<T>(s: seq<T>, a: T, b: T, c: T, d: T)
    ensures s + [a, b] + [c, d] == s + [a, b, c, d]
  {
  }

  /** The classifier sees the history with the message already in it, as a
      "Human:" line followed by an empty "Ai:" line. */
  lemma ClassifierSeesMessage(messages: seq<Message>, message: string)
    ensures GetChatHistory(Messages(messages + [Human(message), Ai("")]))
            == (if messages == [] then "" else GetChatHistory(Messages(messages)) + "\n")
               + "Human: " + message + "\nAi: "
  {
    if messages == [] {
      assert messages + [Human(message), Ai("")] == [Human(message), Ai("")];
      FirstTurnHistory(message);
      assert "" + "Human: " + message + "\nAi: " == "Human: " + message + "\nAi: ";
    } else {
      LaterTurnHistory(messages, message);
    }
  }

  lemma FirstTurnHistory(message: string)
    ensures GetChatHistory(Messages([Human(message), Ai("")])) == "Human: " + message + "\nAi: "
  {
    assert [Human(message), Ai("")] == [Human(message)] + [Ai("")];
    RenderAppend([Human(message)], Ai(""));
    RenderKinds(message);
    RenderKinds("");
    Regroup([], [], "Human: ", message, "\nAi: ");
  }

  lemma LaterTurnHistory(messages: seq<Message>, message: string)
    requires messages != []
    ensures GetChatHistory(Messages(messages + [Human(message), Ai("")]))
            == GetChatHistory(Messages(messages)) + "\n" + "Human: " + message + "\nAi: "
  {
    HistoryGrowsByTwoLines(messages, Human(message), Ai(""));
    RenderKinds(message);
    RenderKinds("");
    Regroup(GetChatHistory(Messages(messages)), "\n", "Human: ", message, "Ai: ");
    LineBreaks();
  }

  lemma HistoryGrowsByTwoLines(messages: seq<Message>, a: Message, b: Message)
    requires messages != []
    ensures GetChatHistory(Messages(messages + [a, b]))
            == GetChatHistory(Messages(messages)) + "\n" + Line(a) + "\n" + Line(b)
  {
    RenderAppend(messages, a);
    RenderAppend(messages + [a], b);
    assert messages + [a] + [b] == messages + [a, b];
  }

  lemma LineBreaks()
    ensures "\n" + "Human: " == "\nHuman: " && "\n" + "Ai: " == "\nAi: "
  {
  }

  lemma Regroup(h: string, nl: string, human: string, m: string, ai: string)
    ensures h + nl + (human + m) + nl + (ai + "") == h + (nl + human) + m + (nl + ai)
  {
  }

  /** A dispatch reads no more input than it was given. */
  lemma DispatchInputShrinks(o: Oracles, entries: map<Id, string>, input: seq<string>, intent: string, message: string)
    ensures |Dispatch(o, entries, input, intent, message).input| <= |input|
  {
    var facts := ExtractFacts(o, message);
    if intent == "delete_memory" && facts != [] {
      DeleteAllReadsInOrder(o, entries, input, TextPrefix(facts));
    }
  }

  /** A turn reads no more input than it was given. */
  lemma TurnInputShrinks(o: Oracles, w: World, message: string)
    ensures |TurnSpec(o, w, message).world.input| <= |w.input|
  {
    DispatchInputShrinks(o, w.entries, w.input, Intent(o, Saved(w.messages, message), message), message);
  }

  /** How the loop ends: on "exit", on end of input (`EOFError`), or on an
      exception raised inside a turn. */
  datatype Ending = Exited | InputClosed | TurnRaised

  datatype Session = Session(ending: Ending, world: World)

  /** The whole loop, turn after turn, until it ends. */
  function Run(o: Oracles, w: World): Session
    decreases |w.input|
  {
    if w.input == [] then Session(InputClosed, w)
    else
      var line, rest := w.input[0], w.(input := w.input[1..]);
      if IsExit(line) then Session(Exited, rest)
      else
        var t := TurnSpec(o, rest, line);
        TurnInputShrinks(o, rest, line);
        if t.reply.None? then Session(TurnRaised, t.world) else Run(o, t.world)
  }

  /** A turn only appends to the conversation buffer. */
  lemma TurnKeepsHistory(o: Oracles, w: World, message: string)
    ensures w.messages <= TurnSpec(o, w, message).world.messages
  {
    var saved := Saved(w.messages, message);
    assert w.messages <= saved;
    var t := TurnSpec(o, w, message);
    if t.reply.Some? {
      assert saved <= saved + [Human(""), Ai(t.reply.value)];
    }
  }

  /** Over a whole session the history is only appended to. */
  lemma {:induction false} RunOnlyAppends(o: Oracles, w: World)
    ensures w.messages <= Run(o, w).world.messages
    decreases |w.input|
  {
    if w.input != [] && !IsExit(w.input[0]) {
      var rest := w.(input := w.input[1..]);
      var t := TurnSpec(o, rest, w.input[0]);
      RunUnfold(o, w);
      TurnKeepsHistory(o, rest, w.input[0]);
      if t.reply.Some? {
        TurnInputShrinks(o, rest, w.input[0]);
        RunOnlyAppends(o, t.world);
        PrefixTransitive(w.messages, t.world.messages, Run(o, t.world).world.messages);
      }
    }
  }

  lemma PrefixTransitive<T>(a: seq<T>, b: seq<T>, c: seq<T>)
    requires a <= b && b <= c
    ensures a <= c
  {
    assert a == b[..|a|] && b == c[..|b|];
    assert c[..|b|][..|a|] == c[..|a|];
  }

  /** A session ends for lack of input only once every line has been read. */
  lemma {:induction false} RunClosesOnEmptyInput(o: Oracles, w: World)
    ensures Run(o, w).ending == InputClosed ==> Run(o, w).world.input == []
    decreases |w.input|
  {
    if w.input != [] && !IsExit(w.input[0]) {
      var t := TurnSpec(o, w.(input := w.input[1..]), w.input[0]);
      RunUnfold(o, w);
      if t.reply.Some? {
        TurnInputShrinks(o, w.(input := w.input[1..]), w.input[0]);
        RunClosesOnEmptyInput(o, t.world);
      }
    }
  }

  /** One turn of the loop. */
  lemma RunUnfold(o: Oracles, w: World)
    requires w.input != [] && !IsExit(w.input[0])
    ensures var t := TurnSpec(o, w.(input := w.input[1..]), w.input[0]);
            Run(o, w) == if t.reply.None? then Session(TurnRaised, t.world) else Run(o, t.world)
  {
  }

  /** An exit line ends the session with the store and the history untouched. */
  lemma ExitChangesNothing(o: Oracles, w: World)
    requires w.input != [] && IsExit(w.input[0])
    ensures Run(o, w) == Session(Exited, World(w.entries, w.messages, w.input[1..]))
  {
  }

  /** The if-chain of `main` on the normalised intent, acting on the store and
      standard input; None where the turn raised. */
  method DispatchIntent(vs: VectorStore, console: Console, o: Oracles, intent: string, userMessage: string)
    returns (reply: Option<string>)
    modifies vs, console
    ensures Dispatched(vs.entries, console.lines, reply)
            == Dispatch(o, old(vs.entries), old(console.lines), intent, userMessage)
  {
    if intent == "add_memory" {
      var facts := ExtractFacts(o, userMessage);
      AddMemory(vs, o, TextPrefix(facts), DefaultThreshold);
      if !AllText(facts) {
        return None;
      }
      reply := Some(Updated);
    } else if intent == "delete_memory" {
      var facts := ExtractFacts(o, userMessage);
      if facts != [] {
        var ok := DeleteMemory(vs, console, o, TextPrefix(facts));
        if !ok || !AllText(facts) {
          return None;
        }
        reply := Some(Completed);
      } else {
        reply := Some(NoDeletion);
      }
    } else if intent == "retrieve_memory" {
      reply := Some(RetrieveMemory(o, vs.entries, userMessage));
    } else {
      reply := Some(NotUnderstood);
    }
  }

  /** The per-turn body of `main`. */
  method Turn(vs: VectorStore, memory: ConversationBuffer, console: Console, o: Oracles, userMessage: string)
    returns (reply: Option<string>)
    modifies vs, memory, console
    ensures var t := TurnSpec(o, World(old(vs.entries), old(memory.messages), old(console.lines)), userMessage);
            World(vs.entries, memory.messages, console.lines) == t.world && reply == t.reply
  {
    memory.SaveContext(userMessage, "");
    var chatHistory := GetChatHistory(Messages(memory.messages));
    var intent := ClassifyIntent(o, userMessage, chatHistory);
    intent := NormalizeIntent(intent);
    reply := DispatchIntent(vs, console, o, intent, userMessage);
    if reply.Some? {
      memory.SaveContext("", reply.value);
    }
  }

  /** `main` after start-up: the loop over standard input. */
  method RunAgent(vs: VectorStore, memory: ConversationBuffer, console: Console, o: Oracles)
    returns (ending: Ending)
    modifies vs, memory, console
    ensures Run(o, World(old(vs.entries), old(memory.messages), old(console.lines)))
            == Session(ending, World(vs.entries, memory.messages, console.lines))
  {
    while true
      invariant Run(o, World(vs.entries, memory.messages, console.lines))
                == Run(o, World(old(vs.entries), old(memory.messages), old(console.lines)))
      decreases |console.lines|
    {
      var line := console.Input();
      if line.None? {
        return InputClosed;
      }
      if IsExit(line.value) {
        return Exited;
      }
      ghost var before := World(vs.entries, memory.messages, console.lines);
      TurnInputShrinks(o, before, line.value);
      var reply := Turn(vs, memory, console, o, line.value);
      if reply.None? {
        return TurnRaised;
      }
    }
  }
}
