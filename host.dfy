/** What the agent uses but does not implement: the vector index, the
    embedding model, the language model, Python's `hash` and `eval`, standard
    input and the conversation buffer. The models and the index's ranking are
    oracles (function values supplied from outside); the objects the agent
    mutates are classes with exactly the operations it calls. */
module Host {

  datatype Option<T> = None | Some(value: T)

  /** Index ids are strings (`str(hash(fact))` on insertion). */
  type Id = string

  /** A search hit: the stored text (`page_content`) and, when the index reports
      it, the stored id. */
  datatype Doc = Doc(id: Option<Id>, pageContent: string)

  /** Outcome of Python's `eval` on the model's reply: it raised, or it produced
      a value; only strings and lists are told apart. */
  datatype PyValue = PyStr(s: string) | PyList(items: seq<PyValue>) | PyOther
  datatype EvalResult = Raised | Evaluated(value: PyValue)

  /** The external capabilities, each as a function of what it is given.
      - rank: the index's candidates for a query over the current entries, nearest first;
      - sim: cosine similarity of the embeddings of two texts;
      - hash: `str(hash(text))`;
      - classify: the language model's reply to the intent prompt for (message, history);
      - extract: the language model's reply to the fact-extraction prompt for a message;
      - evaluate: Python's `eval` of a text;
      - answer: the language model's reply to the answering prompt for (facts text, query). */
  datatype Oracles = Oracles(
    rank: (map<Id, string>, string) -> seq<Doc>,
    sim: (string, string) -> real,
    hash: string -> Id,
    classify: (string, string) -> string,
    extract: string -> string,
    evaluate: string -> EvalResult,
    answer: (string, string) -> string)

  /** Does the hit describe an entry of the index? Its text is stored, and a
      non-empty id it reports is the id of that text. */
  predicate InStore(d: Doc, entries: map<Id, string>) {
    && d.pageContent in entries.Values
    && (d.id.Some? && d.id.value != "" ==> d.id.value in entries && entries[d.id.value] == d.pageContent)
  }

  /** The hits among `docs` that describe entries, in their order. */
  function StoredHits(docs: seq<Doc>, entries: map<Id, string>): (r: seq<Doc>)
    ensures |r| <= |docs|
    ensures forall d :: d in r ==> d in docs && InStore(d, entries)
    ensures forall d :: d in docs && InStore(d, entries) ==> d in r
    ensures entries == map[] ==> r == []
  {
    if docs == [] then []
    else if InStore(docs[0], entries) then [docs[0]] + StoredHits(docs[1..], entries)
    else StoredHits(docs[1..], entries)
  }

  /** `vectorstore.similarity_search(query, k=k)`: at most k hits, each an entry
      of the index, in the index's order. */
  function SimilaritySearch(o: Oracles, entries: map<Id, string>, query: string, k: nat): (r: seq<Doc>)
    ensures |r| <= k
    ensures forall d :: d in r ==> InStore(d, entries) && d in o.rank(entries, query)
    ensures entries == map[] ==> r == []
  {
    var hits := StoredHits(o.rank(entries, query), entries);
    if |hits| <= k then hits else hits[..k]
  }

  /** The user's persistent memory collection (a Chroma collection): id to text. */
  class VectorStore {
    var entries: map<Id, string>

    constructor (initial: map<Id, string>)
      ensures entries == initial
    {
      entries := initial;
    }

    /** `add_texts([text], ids=[id])`: the entry under `id` becomes `text`. */
    method AddTexts(text: string, id: Id)
      modifies this
      ensures entries == old(entries)[id := text]
    {
      entries := entries[id := text];
    }

    /** `delete(id)`: removes the entry under `id`, if any. */
    method Delete(id: Id)
      modifies this
      ensures entries == old(entries) - {id}
    {
      entries := entries - {id};
    }
  }

  /** Standard input: the lines still to be read, in order. */
  class Console {
    var lines: seq<string>

    constructor (pending: seq<string>)
      ensures lines == pending
    {
      lines := pending;
    }

    /** `input()`: the next line, or None where Python raises `EOFError`. */
    method Input() returns (line: Option<string>)
      modifies this
      ensures old(lines) == [] ==> line == None && lines == []
      ensures old(lines) != [] ==> line == Some(old(lines)[0]) && lines == old(lines)[1..]
    {
      if lines == [] {
        line := None;
      } else {
        line := Some(lines[0]);
        lines := lines[1..];
      }
    }
  }

  /** A chat message: its `type` ("human" or "ai") and its content. */
  datatype Message = Message(kind: string, content: string)

  function Human(content: string): Message { Message("human", content) }
  function Ai(content: string): Message { Message("ai", content) }

  /** A `ConversationBufferMemory` created with `return_messages=True`. */
  class ConversationBuffer {
    var messages: seq<Message>

    constructor ()
      ensures messages == []
    {
      messages := [];
    }

    /** `save_context({"input": i}, {"output": o})`: one human and one ai message. */
    method SaveContext(input: string, output: string)
      modifies this
      ensures messages == old(messages) + [Human(input), Ai(output)]
    {
      messages := messages + [Human(input), Ai(output)];
    }
  }
}
