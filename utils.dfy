/** utils.py: the result handling around the two language-model calls, and the
    rendering of the chat history that the intent classifier is shown. */
module Utils {
  import opened PyStrings
  import opened Host

  /** `classify_intent`: the model's reply with outer whitespace removed. The
      label is a slice of the reply, everything around that slice is
      whitespace, and the label neither starts nor ends with any. */
  function ClassifyIntent(o: Oracles, message: string, chatHistory: string): (r: string)
    ensures StrippedFrom(o.classify(message, chatHistory), r, IsSpace)
    ensures r != [] ==> !IsSpace(r[0]) && !IsSpace(r[|r| - 1])
  {
    TrimRemovesOnlySpace(o.classify(message, chatHistory));
    Trim(o.classify(message, chatHistory))
  }

  /** The outcome of `eval` on the trimmed reply, as `extract_facts` handles it:
      a list is returned as it is (its elements are not checked), anything
      else, and an exception, give the empty list. */
  function FactsFromEval(e: EvalResult): (r: seq<PyValue>)
    ensures e.Evaluated? && e.value.PyList? ==> r == e.value.items
    ensures !(e.Evaluated? && e.value.PyList?) ==> r == []
  {
    match e
    case Evaluated(PyList(items)) => items
    case _ => []
  }

  /** `extract_facts`: the model's reply is trimmed, evaluated and filtered. */
  function ExtractFacts(o: Oracles, message: string): (r: seq<PyValue>)
    ensures var e := o.evaluate(Trim(o.extract(message)));
            && (e.Evaluated? && e.value.PyList? ==> r == e.value.items)
            && (!(e.Evaluated? && e.value.PyList?) ==> r == [])
  {
    FactsFromEval(o.evaluate(Trim(o.extract(message))))
  }

  /** What `memory.load_memory_variables({})["chat_history"]` holds: the message
      list, or (for a buffer configured to return text) a string. */
  datatype History = Messages(msgs: seq<Message>) | Text(s: string)

  /** One rendered line: `Type: content`, the type capitalised. */
  function Line(m: Message): string {
    Capitalize(m.kind) + ": " + m.content
  }

  function Lines(msgs: seq<Message>): (r: seq<string>)
    ensures |r| == |msgs|
    ensures forall i :: 0 <= i < |msgs| ==> r[i] == Line(msgs[i])
  {
    seq(|msgs|, i requires 0 <= i < |msgs| => Line(msgs[i]))
  }

  /** `get_chat_history`: one line per message, joined by newlines; a history
      that is not a list is returned as it is. */
  function GetChatHistory(h: History): (r: string)
    ensures h.Text? ==> r == h.s
    ensures h.Messages? && h.msgs == [] ==> r == ""
    ensures h.Messages? && |h.msgs| == 1 ==> r == Line(h.msgs[0])
  {
    match h
    case Messages(msgs) => Join(Lines(msgs), "\n")
    case Text(s) => s
  }

  /** Rendering is incremental: one more message adds a newline and its line,
      so no newline ever trails and earlier lines are never rewritten. */
  lemma RenderAppend(msgs: seq<Message>, m: Message)
    requires msgs != []
    ensures GetChatHistory(Messages(msgs + [m])) == GetChatHistory(Messages(msgs)) + "\n" + Line(m)
  {
    assert Lines(msgs + [m]) == Lines(msgs) + [Line(m)];
    JoinSnoc(Lines(msgs), "\n", Line(m));
  }

  /** The two kinds of message the buffer holds render as "Human: " and "Ai: ". */
  lemma RenderKinds(content: string)
    ensures Line(Human(content)) == "Human: " + content
    ensures Line(Ai(content)) == "Ai: " + content
  {
    assert Capitalize("human") == "Human";
    assert Capitalize("ai") == "Ai";
  }
}
