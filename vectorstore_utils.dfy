/** vectorstore_utils.py: insertion with deduplication by similarity, deletion
    with a confirmation per fact, and top-3 retrieval. */
module VectorStoreUtils {
  import opened PyStrings
  import opened Host

  /** The default `similarity_threshold` of `add_memory_to_vectorstore`. */
  const DefaultThreshold: real := 0.9

  /** What `retrieve_memory` answers when the search finds nothing. */
  const NoMemories := "No relevant memories found."

  // ---------------------------------------------------------------------------
  // Insertion

  /** Is `fact` a near-duplicate of the entry the index ranks nearest to it? */
  predicate IsDuplicate(o: Oracles, entries: map<Id, string>, fact: string, threshold: real) {
    var docs := SimilaritySearch(o, entries, fact, 1);
    docs != [] && o.sim(fact, docs[0].pageContent) >= threshold
  }

  /** One iteration of the insertion loop. */
  function AddStep(o: Oracles, entries: map<Id, string>, fact: string, threshold: real): map<Id, string> {
    if IsDuplicate(o, entries, fact, threshold) then entries else entries[o.hash(fact) := fact]
  }

  /** The store after inserting `facts` in order, each against the store as the
      earlier ones left it. */
  function AddAll(o: Oracles, entries: map<Id, string>, facts: seq<string>, threshold: real): map<Id, string>
    decreases |facts|
  {
    if facts == [] then entries
    else AddAll(o, AddStep(o, entries, facts[0], threshold), facts[1..], threshold)
  }

  /** Insertion never removes an id, adds at most one per fact, and every entry
      afterwards is either an untouched old one or a fact of the list stored
      under its own hash. */
  lemma {:induction false} AddAllOnlyInserts(o: Oracles, entries: map<Id, string>, facts: seq<string>, threshold: real)
    ensures var r := AddAll(o, entries, facts, threshold);
            && entries.Keys <= r.Keys
            && |r| <= |entries| + |facts|
            && forall id :: id in r ==>
                 (id in entries && r[id] == entries[id]) || (exists f :: f in facts && id == o.hash(f) && r[id] == f)
    decreases |facts|
  {
    if facts != [] {
      var s := AddStep(o, entries, facts[0], threshold);
      AddAllOnlyInserts(o, s, facts[1..], threshold);
      var r := AddAll(o, s, facts[1..], threshold);
      forall id | id in r
        ensures (id in entries && r[id] == entries[id]) || (exists f :: f in facts && id == o.hash(f) && r[id] == f)
      {
        if exists f :: f in facts[1..] && id == o.hash(f) && r[id] == f {
          var f :| f in facts[1..] && id == o.hash(f) && r[id] == f;
          assert f in facts;
        } else if id != o.hash(facts[0]) || s == entries {
          assert id in s && r[id] == s[id];
        } else {
          assert facts[0] in facts;
        }
      }
    }
  }

  /** A fact is skipped exactly when the search finds an entry whose similarity
      to it reaches the threshold; equality counts as a duplicate. Otherwise it
      is stored under its hash, and nothing else changes either way. */
  lemma AddStepSkipsExactlyDuplicates(o: Oracles, entries: map<Id, string>, fact: string, threshold: real)
    ensures var docs := SimilaritySearch(o, entries, fact, 1);
            if docs != [] && o.sim(fact, docs[0].pageContent) >= threshold
            then AddStep(o, entries, fact, threshold) == entries
            else AddStep(o, entries, fact, threshold) == entries[o.hash(fact) := fact]
  {
  }

  /** Into an empty store a fact is always inserted. */
  lemma AddToEmptyStore(o: Oracles, fact: string, threshold: real)
    ensures AddStep(o, map[], fact, threshold) == map[o.hash(fact) := fact]
  {
  }

  /** Processing one more fact is one more step on the store the earlier facts
      produced: order matters, and later facts see earlier insertions. */
  lemma {:induction false} AddAllSnoc(o: Oracles, entries: map<Id, string>, facts: seq<string>, fact: string, threshold: real)
    ensures AddAll(o, entries, facts + [fact], threshold) == AddStep(o, AddAll(o, entries, facts, threshold), fact, threshold)
    decreases |facts|
  {
    if facts == [] {
      assert [fact][1..] == [];
    } else {
      assert (facts + [fact])[1..] == facts[1..] + [fact];
      AddAllSnoc(o, AddStep(o, entries, facts[0], threshold), facts[1..], fact, threshold);
    }
  }

  /** Inserting the same text twice in a row leaves the store as inserting it once. */
  lemma AddStepIdempotent(o: Oracles, entries: map<Id, string>, fact: string, threshold: real)
    ensures var once := AddStep(o, entries, fact, threshold);
            AddStep(o, once, fact, threshold) == once
  {
    var once := AddStep(o, entries, fact, threshold);
    if !IsDuplicate(o, entries, fact, threshold) {
      assert once[o.hash(fact) := fact] == once;
    }
  }

  /** A later fact that the index ranks nearest to an earlier, inserted one and
      that is similar enough to it is skipped. */
  lemma LaterFactSeesEarlier(o: Oracles, entries: map<Id, string>, first: string, second: string, threshold: real)
    requires !IsDuplicate(o, entries, first, threshold)
    requires var after := entries[o.hash(first) := first];
             o.rank(after, second) == [Doc(Some(o.hash(first)), first)]
    requires o.sim(second, first) >= threshold
    ensures AddAll(o, entries, [first, second], threshold) == entries[o.hash(first) := first]
  {
    var after := entries[o.hash(first) := first];
    assert [first, second][1..] == [second];
    assert [second][1..] == [];
    assert first in after.Values by { assert after[o.hash(first)] == first; }
    assert SimilaritySearch(o, after, second, 1) == [Doc(Some(o.hash(first)), first)];
    assert AddStep(o, entries, first, threshold) == after;
    assert AddStep(o, after, second, threshold) == after;
    assert AddAll(o, after, [second], threshold) == AddAll(o, after, [], threshold);
  }

  /** `add_memory_to_vectorstore(vectorstore, facts_list, similarity_threshold)`. */
  method AddMemory(vs: VectorStore, o: Oracles, facts: seq<string>, threshold: real)
    modifies vs
    ensures vs.entries == AddAll(o, old(vs.entries), facts, threshold)
  {
    if facts == [] {
      // "No facts found to add."
      return;
    }
    for i := 0 to |facts|
      invariant vs.entries == AddAll(o, old(vs.entries), facts[..i], threshold)
    {
      ghost var before := vs.entries;
      var fact := facts[i];
      var docs := SimilaritySearch(o, vs.entries, fact, 1);
      if docs != [] {
        var existing := docs[0].pageContent;
        var sim := o.sim(fact, existing);
        if sim >= threshold {
          // "Fact ... is too similar to existing fact ... Skipping."
          AddStepped(o, old(vs.entries), facts, i, threshold, before);
          continue;
        }
      }
      vs.AddTexts(fact, o.hash(fact));
      AddStepped(o, old(vs.entries), facts, i, threshold, before);
    }
    assert facts[..|facts|] == facts;
  }

  /** The loop step of AddMemory: after fact i, the store is AddAll over facts[..i+1]. */
  lemma AddStepped(o: Oracles, entries: map<Id, string>, facts: seq<string>, i: nat, threshold: real, before: map<Id, string>)
    requires i < |facts| && before == AddAll(o, entries, facts[..i], threshold)
    ensures AddAll(o, entries, facts[..i + 1], threshold) == AddStep(o, before, facts[i], threshold)
  {
    AddAllSnoc(o, entries, facts[..i], facts[i], threshold);
    assert facts[..i + 1] == facts[..i] + [facts[i]];
  }

  // ---------------------------------------------------------------------------
  // Deletion

  /** The state deletion works on: the store, the unread input lines, and
      whether `input()` ran out (Python raises `EOFError`, which ends the call). */
  datatype Deletion = Deletion(entries: map<Id, string>, input: seq<string>, eof: bool)

  /** The confirmation test: the answer, trimmed and lower-cased, is "y". */
  predicate IsYes(answer: string) {
    Lower(Trim(answer)) == "y"
  }

  /** The id to delete for a hit: its own id when present and non-empty, else
      the hash of its text. */
  function ResolveId(o: Oracles, d: Doc): (r: Id)
    ensures d.id.Some? && d.id.value != "" ==> r == d.id.value
    ensures d.id.None? || d.id.value == "" ==> r == o.hash(d.pageContent)
  {
    if d.id.Some? && d.id.value != "" then d.id.value else o.hash(d.pageContent)
  }

  /** One iteration of the deletion loop: search with k = 1; with a hit, read one
      answer and delete the hit's id only on "y". */
  function DeleteStep(o: Oracles, entries: map<Id, string>, input: seq<string>, fact: string): Deletion {
    var docs := SimilaritySearch(o, entries, fact, 1);
    if docs == [] then Deletion(entries, input, false)
    else if input == [] then Deletion(entries, input, true)
    else if IsYes(input[0]) then Deletion(entries - {ResolveId(o, docs[0])}, input[1..], false)
    else Deletion(entries, input[1..], false)
  }

  /** The state after deleting `facts` in order, each against the store as the
      earlier ones left it, stopping where input runs out. */
  function DeleteAll(o: Oracles, entries: map<Id, string>, input: seq<string>, facts: seq<string>): Deletion
    decreases |facts|
  {
    if facts == [] then Deletion(entries, input, false)
    else
      var s := DeleteStep(o, entries, input, facts[0]);
      if s.eof then s else DeleteAll(o, s.entries, s.input, facts[1..])
  }

  /** Deletion never adds or alters an entry. */
  lemma {:induction false} DeleteAllOnlyRemoves(o: Oracles, entries: map<Id, string>, input: seq<string>, facts: seq<string>)
    ensures var r := DeleteAll(o, entries, input, facts);
            && r.entries.Keys <= entries.Keys
            && (forall id :: id in r.entries ==> r.entries[id] == entries[id])
    decreases |facts|
  {
    if facts != [] {
      var s := DeleteStep(o, entries, input, facts[0]);
      DeleteStepAtMostOne(o, entries, input, facts[0]);
      if !s.eof {
        DeleteAllOnlyRemoves(o, s.entries, s.input, facts[1..]);
      }
    }
  }

  /** Deletion reads its answers from the front of the input, at most one per fact. */
  lemma {:induction false} DeleteAllReadsInOrder(o: Oracles, entries: map<Id, string>, input: seq<string>, facts: seq<string>)
    ensures var r := DeleteAll(o, entries, input, facts);
            && |r.input| <= |input| && r.input == input[|input| - |r.input|..]
            && |input| - |r.input| <= |facts|
    decreases |facts|
  {
    if facts != [] {
      var s := DeleteStep(o, entries, input, facts[0]);
      DeleteStepReadsOne(o, entries, input, facts[0]);
      if !s.eof {
        DeleteAllReadsInOrder(o, s.entries, s.input, facts[1..]);
        var r := DeleteAll(o, s.entries, s.input, facts[1..]);
        var j, m := |input| - |s.input|, |s.input| - |r.input|;
        assert s.input == input[j..] && r.input == s.input[m..];
        assert input[j..][m..] == input[j + m..];
      }
    }
  }

  /** A single fact reads at most one answer, from the front of the input. */
  lemma DeleteStepReadsOne(o: Oracles, entries: map<Id, string>, input: seq<string>, fact: string)
    ensures var s := DeleteStep(o, entries, input, fact);
            s.input == input || (input != [] && s.input == input[1..])
  {
  }

  /** The accepted answers are exactly "y" and "Y", surrounded by any whitespace;
      "yes", "n" and the empty answer are refusals. */
  lemma IsYesExactly(answer: string)
    ensures IsYes(answer) <==> Trim(answer) == "y" || Trim(answer) == "Y"
    ensures !IsYes("yes") && !IsYes("n") && !IsYes("")
  {
    LowerIsY(Trim(answer));
    LongerAnswerRefused("yes");
    OtherLetterRefused("n");
  }

  lemma LowerIsY(t: string)
    ensures Lower(t) == "y" <==> t == "y" || t == "Y"
  {
    if Lower(t) == "y" {
      assert |t| == 1 && LowerChar(t[0]) == 'y';
      assert t == [t[0]];
    }
    if t == "y" || t == "Y" {
      assert t == [t[0]] && LowerChar(t[0]) == 'y';
      assert Lower(t) == [LowerChar(t[0])] + Lower([]);
    }
  }

  lemma LongerAnswerRefused(answer: string)
    requires answer == "yes"
    ensures !IsYes(answer)
  {
    StripFixed(answer, IsSpace);
  }

  lemma OtherLetterRefused(answer: string)
    requires answer == "n"
    ensures !IsYes(answer)
  {
    StripFixed(answer, IsSpace);
    assert Lower(answer)[0] == 'n';
  }

  /** Each fact deletes at most the one id it resolves to, and only after an
      affirmative answer; a fact without a hit reads no answer and changes
      nothing, a fact with a hit reads exactly one. */
  lemma DeleteStepAtMostOne(o: Oracles, entries: map<Id, string>, input: seq<string>, fact: string)
    ensures var s := DeleteStep(o, entries, input, fact);
            var docs := SimilaritySearch(o, entries, fact, 1);
            && (docs == [] ==> s == Deletion(entries, input, false))
            && (docs != [] && input != [] ==> s.input == input[1..] && !s.eof)
            && (docs != [] && input != [] && IsYes(input[0]) ==> s.entries == entries - {ResolveId(o, docs[0])})
            && (docs != [] && input != [] && !IsYes(input[0]) ==> s.entries == entries)
            && |entries.Keys - s.entries.Keys| <= 1
  {
    var s := DeleteStep(o, entries, input, fact);
    var docs := SimilaritySearch(o, entries, fact, 1);
    if docs != [] && input != [] && IsYes(input[0]) {
      var id := ResolveId(o, docs[0]);
      assert entries.Keys - s.entries.Keys <= {id};
    } else {
      assert entries.Keys - s.entries.Keys == {};
    }
  }

  /** Processing one more fact is one more step, unless input already ran out. */
  lemma {:induction false} DeleteAllSnoc(o: Oracles, entries: map<Id, string>, input: seq<string>, facts: seq<string>, fact: string)
    ensures var d := DeleteAll(o, entries, input, facts);
            DeleteAll(o, entries, input, facts + [fact])
            == if d.eof then d else DeleteStep(o, d.entries, d.input, fact)
    decreases |facts|
  {
    if facts == [] {
      assert [fact][1..] == [];
    } else {
      assert (facts + [fact])[1..] == facts[1..] + [fact];
      var s := DeleteStep(o, entries, input, facts[0]);
      if !s.eof {
        DeleteAllSnoc(o, s.entries, s.input, facts[1..], fact);
      }
    }
  }

  /** At most one removal per fact over the whole call. */
  lemma {:induction false} DeleteAllRemovesAtMostOnePerFact(o: Oracles, entries: map<Id, string>, input: seq<string>, facts: seq<string>)
    ensures |DeleteAll(o, entries, input, facts).entries| + |facts| >= |entries|
    decreases |facts|
  {
    if facts != [] {
      var s := DeleteStep(o, entries, input, facts[0]);
      var docs := SimilaritySearch(o, entries, facts[0], 1);
      if docs != [] && input != [] && IsYes(input[0]) {
        var id := ResolveId(o, docs[0]);
        assert s.entries.Keys == entries.Keys - {id};
        assert |s.entries| >= |entries| - 1;
      }
      if !s.eof {
        DeleteAllRemovesAtMostOnePerFact(o, s.entries, s.input, facts[1..]);
      }
    }
  }

  /** If no answer is affirmative, deletion leaves the store as it was. */
  lemma {:induction false} DeleteAllDeclined(o: Oracles, entries: map<Id, string>, input: seq<string>, facts: seq<string>)
    requires forall answer :: answer in input ==> !IsYes(answer)
    ensures DeleteAll(o, entries, input, facts).entries == entries
    decreases |facts|
  {
    if facts != [] {
      var s := DeleteStep(o, entries, input, facts[0]);
      DeleteStepAtMostOne(o, entries, input, facts[0]);
      if !s.eof {
        DeleteAllDeclined(o, s.entries, s.input, facts[1..]);
      }
    }
  }

  /** `delete_memory_from_vectorstore(vectorstore, facts_list)`; the answers are
      read from `console`. Returns false where `input()` raised `EOFError`. */
  method DeleteMemory(vs: VectorStore, console: Console, o: Oracles, facts: seq<string>) returns (ok: bool)
    modifies vs, console
    ensures var d := DeleteAll(o, old(vs.entries), old(console.lines), facts);
            vs.entries == d.entries && console.lines == d.input && ok == !d.eof
  {
    for i := 0 to |facts|
      invariant var d := DeleteAll(o, old(vs.entries), old(console.lines), facts[..i]);
                vs.entries == d.entries && console.lines == d.input && !d.eof
    {
      ghost var before := Deletion(vs.entries, console.lines, false);
      DeleteStepped(o, old(vs.entries), old(console.lines), facts, i, before);
      var fact := facts[i];
      var docs := SimilaritySearch(o, vs.entries, fact, 1);
      // With k = 1 the loop over the hits runs at most once.
      if docs != [] {
        var doc := docs[0];
        var docId := ResolveId(o, doc);
        var answer := console.Input();
        if answer.None? {
          DeleteAllStopsAtEof(o, old(vs.entries), old(console.lines), facts, i + 1);
          return false;
        }
        if IsYes(answer.value) {
          vs.Delete(docId);
        }
      }
    }
    assert facts[..|facts|] == facts;
    return true;
  }

  /** Once input has run out, the remaining facts are not looked at. */
  lemma {:induction false} DeleteAllStopsAtEof(o: Oracles, entries: map<Id, string>, input: seq<string>, facts: seq<string>, n: nat)
    requires n <= |facts| && DeleteAll(o, entries, input, facts[..n]).eof
    ensures DeleteAll(o, entries, input, facts) == DeleteAll(o, entries, input, facts[..n])
    decreases |facts| - n
  {
    if n == |facts| {
      assert facts[..n] == facts;
    } else {
      DeleteAllSnoc(o, entries, input, facts[..n], facts[n]);
      assert facts[..n + 1] == facts[..n] + [facts[n]];
      DeleteAllStopsAtEof(o, entries, input, facts, n + 1);
    }
  }

  /** The loop step of DeleteMemory: after fact i, the state is DeleteAll over facts[..i+1]. */
  lemma DeleteStepped(o: Oracles, entries: map<Id, string>, input: seq<string>, facts: seq<string>, i: nat, before: Deletion)
    requires i < |facts| && before == DeleteAll(o, entries, input, facts[..i]) && !before.eof
    ensures DeleteAll(o, entries, input, facts[..i + 1]) == DeleteStep(o, before.entries, before.input, facts[i])
  {
    DeleteAllSnoc(o, entries, input, facts[..i], facts[i]);
    assert facts[..i + 1] == facts[..i] + [facts[i]];
  }

  // ---------------------------------------------------------------------------
  // Retrieval

  /** The texts of the hits, in search order. */
  function Texts(docs: seq<Doc>): (r: seq<string>)
    ensures |r| == |docs|
    ensures forall i :: 0 <= i < |docs| ==> r[i] == docs[i].pageContent
  {
    seq(|docs|, i requires 0 <= i < |docs| => docs[i].pageContent)
  }

  /** `retrieve_memory(vectorstore, query)`: a function of the store, so it
      changes nothing. */
  function RetrieveMemory(o: Oracles, entries: map<Id, string>, query: string): (r: string)
    ensures SimilaritySearch(o, entries, query, 3) == [] ==> r == NoMemories
    ensures r != [] ==> !IsSpace(r[0]) && !IsSpace(r[|r| - 1])
  {
    var facts := Texts(SimilaritySearch(o, entries, query, 3));
    if facts == [] then NoMemories else Trim(o.answer(Join(facts, "; "), query))
  }

  /** With no hit the answer is the fixed message whatever the language model
      would say: the model is not consulted. */
  lemma RetrieveWithoutHits(o: Oracles, entries: map<Id, string>, query: string, model: (string, string) -> string)
    requires SimilaritySearch(o, entries, query, 3) == []
    ensures RetrieveMemory(o, entries, query) == NoMemories
    ensures RetrieveMemory(o.(answer := model), entries, query) == NoMemories
  {
    assert o.(answer := model).rank == o.rank;
  }

  /** An empty store has no memories to offer. */
  lemma RetrieveFromEmptyStore(o: Oracles, query: string)
    ensures RetrieveMemory(o, map[], query) == NoMemories
  {
  }

  /** With hits, the model is shown at most three stored texts, in search
      order, joined by "; ", and its trimmed reply is returned. */
  lemma RetrieveWithHits(o: Oracles, entries: map<Id, string>, query: string)
    requires SimilaritySearch(o, entries, query, 3) != []
    ensures var facts := Texts(SimilaritySearch(o, entries, query, 3));
            && 1 <= |facts| <= 3
            && (forall i :: 0 <= i < |facts| ==> facts[i] in entries.Values)
            && RetrieveMemory(o, entries, query) == Trim(o.answer(Join(facts, "; "), query))
  {
    var docs := SimilaritySearch(o, entries, query, 3);
    forall i | 0 <= i < |docs| ensures docs[i].pageContent in entries.Values {
      assert docs[i] in docs;
    }
  }
}
