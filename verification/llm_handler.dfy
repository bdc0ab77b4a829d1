/**
  The generation fallback: the knowledge base is flattened once more (this
  time descending into lists), put in front of the user's query as a prompt,
  and sent to the language-model endpoint; when the endpoint gives nothing
  usable, a case-insensitive substring search over the same lines answers.

  The HTTP request is not modelled: the caller supplies `post`, the endpoint's
  reply to a given prompt.
*/
module LlmHandler {
  import opened Wrappers
  import opened Values
  import opened Strings
  import KbManager

  /** Returned when the first candidate carries no `content`. */
  const CouldNotGenerate: string := "Sorry, I could not generate an answer."

  /** Returned by the substring search when no line matches. */
  const NotFoundInKb: string := "Sorry, I could not find an answer in the knowledge base."

  /** Separates the knowledge-base lines from the query in the prompt. */
  const QueryLabel: string := "\n\nUser Query: "

  /** One element of the reply's `candidates` list: an object with or without `content`, or something else. */
  datatype Candidate = Candidate(content: Option<string>) | NotAnObject

  /**
    What `requests.post(...)` followed by `raise_for_status()` and `json()`
    produced: an exception (network error, timeout, error status, unreadable
    body), or a body with or without a `candidates` list.
  */
  datatype ApiResponse = Failed | Received(candidates: Option<seq<Candidate>>)

  /**
    `flatten_for_prompt(v, prefix)`: dictionaries recurse by key, lists by
    position, `None` gives nothing and any other value gives the one line
    `prefix[:-1] + ": " + str(v)`.
  */
  function FlattenForPrompt(render: Renderer, v: Value, prefix: string): (lines: seq<string>)
    ensures v.Null? ==> lines == []
    decreases Size(v), 1
  {
    match v
    case Dict(es) => PromptEntries(render, es, prefix)
    case List(items) => PromptItems(render, items, prefix, 0)
    case Null => []
    case _ => [DropLast(prefix) + ": " + render(v)]
  }

  /** The `for k, v in kb_dict.items()` loop of `flatten_for_prompt`. */
  function PromptEntries(render: Renderer, es: seq<Entry>, prefix: string): seq<string>
    decreases EntriesSize(es), 0
  {
    if |es| == 0 then []
    else FlattenForPrompt(render, es[0].val, prefix + es[0].key + ".") + PromptEntries(render, es[1..], prefix)
  }

  /** The `for i, v in enumerate(kb_dict)` loop of `flatten_for_prompt`, from position `start` on. */
  function PromptItems(render: Renderer, items: seq<Value>, prefix: string, start: nat): seq<string>
    decreases ItemsSize(items), 0
  {
    if |items| == 0 then []
    else FlattenForPrompt(render, items[0], prefix + NatToString(start) + ".") + PromptItems(render, items[1..], prefix, start + 1)
  }

  /** The values that become prompt lines: every leaf that is neither `None`, a list nor a dictionary, depth first. */
  function PromptLeaves(v: Value): seq<Value>
    decreases Size(v), 1
  {
    match v
    case Dict(es) => EntriesLeaves(es)
    case List(items) => ItemsLeaves(items)
    case Null => []
    case _ => [v]
  }

  function EntriesLeaves(es: seq<Entry>): seq<Value>
    decreases EntriesSize(es), 0
  {
    if |es| == 0 then [] else PromptLeaves(es[0].val) + EntriesLeaves(es[1..])
  }

  function ItemsLeaves(items: seq<Value>): seq<Value>
    decreases ItemsSize(items), 0
  {
    if |items| == 0 then [] else PromptLeaves(items[0]) + ItemsLeaves(items[1..])
  }

  /** The statement of `PromptLinesRenderLeaves`: one line per leaf, ending in that leaf's rendering. */
  ghost predicate RendersLeaves(render: Renderer, lines: seq<string>, leaves: seq<Value>) {
    |lines| == |leaves| &&
    forall i :: 0 <= i < |lines| ==> EndsWith(lines[i], ": " + render(leaves[i]))
  }

  lemma RendersLeavesConcat(render: Renderer, l1: seq<string>, v1: seq<Value>, l2: seq<string>, v2: seq<Value>)
    requires RendersLeaves(render, l1, v1) && RendersLeaves(render, l2, v2)
    ensures RendersLeaves(render, l1 + l2, v1 + v2)
  {
    forall i | |l1| <= i < |l1| + |l2|
      ensures EndsWith((l1 + l2)[i], ": " + render((v1 + v2)[i]))
    {
      assert (l1 + l2)[i] == l2[i - |l1|] && (v1 + v2)[i] == v2[i - |l1|];
    }
  }

  /**
    The prompt has exactly one line per non-`None` scalar leaf of the knowledge
    base, in depth-first order, and line `i` ends with `": "` and leaf `i` rendered.
  */
  lemma {:induction false} PromptLinesRenderLeaves(render: Renderer, v: Value, prefix: string)
    ensures RendersLeaves(render, FlattenForPrompt(render, v, prefix), PromptLeaves(v))
    decreases Size(v), 1
  {
    match v
    case Dict(es) => EntriesRenderLeaves(render, es, prefix);
    case List(items) => ItemsRenderLeaves(render, items, prefix, 0);
    case Null =>
    case _ =>
      ConcatAssoc(DropLast(prefix), ": ", render(v));
      EndsWithAppend(DropLast(prefix), ": " + render(v));
  }

  lemma {:induction false} EntriesRenderLeaves(render: Renderer, es: seq<Entry>, prefix: string)
    ensures RendersLeaves(render, PromptEntries(render, es, prefix), EntriesLeaves(es))
    decreases EntriesSize(es), 0
  {
    if |es| > 0 {
      PromptLinesRenderLeaves(render, es[0].val, prefix + es[0].key + ".");
      EntriesRenderLeaves(render, es[1..], prefix);
      RendersLeavesConcat(render,
        FlattenForPrompt(render, es[0].val, prefix + es[0].key + "."), PromptLeaves(es[0].val),
        PromptEntries(render, es[1..], prefix), EntriesLeaves(es[1..]));
    }
  }

  lemma {:induction false} ItemsRenderLeaves(render: Renderer, items: seq<Value>, prefix: string, start: nat)
    ensures RendersLeaves(render, PromptItems(render, items, prefix, start), ItemsLeaves(items))
    decreases ItemsSize(items), 0
  {
    if |items| > 0 {
      PromptLinesRenderLeaves(render, items[0], prefix + NatToString(start) + ".");
      ItemsRenderLeaves(render, items[1..], prefix, start + 1);
      RendersLeavesConcat(render,
        FlattenForPrompt(render, items[0], prefix + NatToString(start) + "."), PromptLeaves(items[0]),
        PromptItems(render, items[1..], prefix, start + 1), ItemsLeaves(items[1..]));
    }
  }

  /**
    A list is flattened element after element, the positions continuing across
    a split: the elements of `b` are numbered from `start + |a|`.
  */
  lemma {:induction false} PromptItemsAppend(render: Renderer, a: seq<Value>, b: seq<Value>, prefix: string, start: nat)
    ensures PromptItems(render, a + b, prefix, start)
            == PromptItems(render, a, prefix, start) + PromptItems(render, b, prefix, start + |a|)
    decreases |a|
  {
    if |a| == 0 {
      assert a + b == b;
    } else {
      PromptItemsAppend(render, a[1..], b, prefix, start + 1);
      assert (a + b)[1..] == a[1..] + b;
      assert (a + b)[0] == a[0];
    }
  }

  /** A dictionary whose values, at every level, are neither lists nor `None`. */
  predicate ListFree(es: seq<Entry>)
    decreases EntriesSize(es)
  {
    if |es| == 0 then true
    else
      && (match es[0].val
          case Dict(sub) => assert Size(es[0].val) == 1 + EntriesSize(sub); ListFree(sub)
          case List(_) => false
          case Null => false
          case _ => true)
      && ListFree(es[1..])
  }

  /**
    On a dictionary without lists or `None`, the prompt lines are exactly the
    search corpus lines: dropping the trailing dot of `prefix + key + "."`
    gives back the `prefix + key` the corpus flattener writes.
  */
  lemma {:induction false} PromptMatchesCorpus(render: Renderer, es: seq<Entry>, prefix: string)
    requires ListFree(es)
    ensures PromptEntries(render, es, prefix) == KbManager.FlattenEntries(render, es, prefix).lines
    decreases EntriesSize(es)
  {
    if |es| > 0 {
      PromptMatchesCorpus(render, es[1..], prefix);
      var path := prefix + es[0].key;
      match es[0].val
      case Dict(sub) =>
        assert Size(es[0].val) == 1 + EntriesSize(sub);
        PromptMatchesCorpus(render, sub, prefix + es[0].key + ".");
      case Str(_) | Int(_) | Float(_) =>
        assert DropLast(path + ".") == path;
      case List(_) | Null =>
    }
  }

  /**
    `"\n".join(kb_lines) + "\n\nUser Query: " + query`: the joined lines come
    first and the labelled query last, for any lines, none included.
  */
  function Prompt(kbLines: seq<string>, query: string): (p: string)
    ensures EndsWith(p, QueryLabel + query)
    ensures p[..|p| - |QueryLabel + query|] == Join(kbLines, "\n")
  {
    var body, tail := Join(kbLines, "\n"), QueryLabel + query;
    ConcatAssoc(body, QueryLabel, query);
    EndsWithAppend(body, tail);
    assert (body + tail)[..|body|] == body;
    body + QueryLabel + query
  }

  /**
    Cutting the labelled query off the prompt and splitting at newlines gives
    the knowledge-base lines back when none holds a newline: the prompt
    carries the knowledge base unaltered. Without lines, Python's
    `"".split("\n")` gives one empty line.
  */
  lemma PromptRecoversLines(kbLines: seq<string>, query: string)
    requires forall i :: 0 <= i < |kbLines| ==> '\n' !in kbLines[i]
    ensures var p := Prompt(kbLines, query);
            Split(p[..|p| - |QueryLabel + query|], '\n') == if |kbLines| == 0 then [[]] else kbLines
  {
    if |kbLines| > 0 {
      SplitJoin(kbLines, '\n');
    }
  }

  /** `kb_lines`: the flattened `kb_dict`, or no lines when no knowledge base is given. */
  function KbLines(render: Renderer, kbDict: Option<Value>): (lines: seq<string>)
    ensures kbDict.None? ==> lines == []
  {
    match kbDict
    case None => []
    case Some(v) => FlattenForPrompt(render, v, "")
  }

  /** The case-insensitive test of `fallback_kb_response`: `query.lower() in line.lower()`. */
  predicate MatchesQuery(query: string, line: string) {
    Contains(Lower(line), Lower(query))
  }

  /** `i` is the first line that matches the query. */
  predicate FirstMatchAt(query: string, lines: seq<string>, i: int) {
    && 0 <= i < |lines|
    && MatchesQuery(query, lines[i])
    && forall j :: 0 <= j < i ==> !MatchesQuery(query, lines[j])
  }

  predicate NoMatch(query: string, lines: seq<string>) {
    forall j :: 0 <= j < |lines| ==> !MatchesQuery(query, lines[j])
  }

  /** `[line for line in kb_lines if query_lower in line.lower()]` */
  function MatchingLines(query: string, lines: seq<string>): (m: seq<string>)
    ensures forall l :: l in m <==> l in lines && MatchesQuery(query, l)
    ensures |m| == 0 <==> NoMatch(query, lines)
    ensures forall i :: FirstMatchAt(query, lines, i) ==> m[0] == lines[i]
  {
    if |lines| == 0 then []
    else
      var rest := MatchingLines(query, lines[1..]);
      assert forall i :: 1 <= i < |lines| && FirstMatchAt(query, lines, i) ==> FirstMatchAt(query, lines[1..], i - 1);
      if MatchesQuery(query, lines[0]) then [lines[0]] + rest else rest
  }

  /**
    `fallback_kb_response`: the first line that contains the query, ignoring
    case, or the not-found sentence when none does.
  */
  function FallbackKbResponse(query: string, lines: seq<string>): (r: string)
    ensures NoMatch(query, lines) ==> r == NotFoundInKb
    ensures forall i :: FirstMatchAt(query, lines, i) ==> r == lines[i]
  {
    var m := MatchingLines(query, lines);
    if |m| > 0 then m[0] else NotFoundInKb
  }

  /** When some line contains the query, there is a first such line. */
  lemma {:induction false} FirstMatchExists(query: string, lines: seq<string>)
    requires !NoMatch(query, lines)
    ensures exists i :: FirstMatchAt(query, lines, i)
  {
    var j :| 0 <= j < |lines| && MatchesQuery(query, lines[j]);
    if MatchesQuery(query, lines[0]) {
      assert FirstMatchAt(query, lines, 0);
    } else {
      assert j != 0 && lines[1..][j - 1] == lines[j];
      FirstMatchExists(query, lines[1..]);
      var i :| FirstMatchAt(query, lines[1..], i);
      assert FirstMatchAt(query, lines, i + 1);
    }
  }

  /**
    The fallback answer is the not-found sentence when no line contains the
    query, and otherwise the first line that does: never anything else.
  */
  lemma FallbackIsLineOrSentinel(query: string, lines: seq<string>)
    ensures var r := FallbackKbResponse(query, lines);
            || (NoMatch(query, lines) && r == NotFoundInKb)
            || (exists i :: FirstMatchAt(query, lines, i) && r == lines[i])
  {
    if !NoMatch(query, lines) {
      FirstMatchExists(query, lines);
    }
  }

  /** The reply has a first candidate that is an object. */
  predicate HasFirstCandidate(resp: ApiResponse) {
    && resp.Received?
    && resp.candidates.Some?
    && |resp.candidates.value| > 0
    && resp.candidates.value[0].Candidate?
  }

  /**
    `generate_llm_response`: send the prompt; answer with the first candidate's
    `content` (or the could-not-generate sentence when it has none); in every
    other case, exceptions included, answer with the substring fallback.
  */
  function GenerateLlmResponse(render: Renderer, query: string, kbDict: Option<Value>, post: string -> ApiResponse): (r: string)
    ensures var lines := KbLines(render, kbDict);
            var resp := post(Prompt(lines, query));
            && (HasFirstCandidate(resp) ==> r == resp.candidates.value[0].content.GetOr(CouldNotGenerate))
            && (!HasFirstCandidate(resp) && NoMatch(query, lines) ==> r == NotFoundInKb)
            && (forall i :: !HasFirstCandidate(resp) && FirstMatchAt(query, lines, i) ==> r == lines[i])
  {
    var kbLines := KbLines(render, kbDict);
    match post(Prompt(kbLines, query))
    case Failed => FallbackKbResponse(query, kbLines)
    case Received(candidates) =>
      if candidates.Some? && |candidates.value| > 0 then
        match candidates.value[0]
        case Candidate(content) => content.GetOr(CouldNotGenerate)
        case NotAnObject => FallbackKbResponse(query, kbLines)   // `.get` raises AttributeError
      else FallbackKbResponse(query, kbLines)
  }

  /**
    Without a usable first candidate the answer is never made up: it is the
    first line of the flattened knowledge base containing the query, or the
    not-found sentence when there is none.
  */
  lemma FailureFallsBackToKb(render: Renderer, query: string, kbDict: Option<Value>, post: string -> ApiResponse)
    requires !HasFirstCandidate(post(Prompt(KbLines(render, kbDict), query)))
    ensures var r := GenerateLlmResponse(render, query, kbDict, post);
            var lines := KbLines(render, kbDict);
            || (NoMatch(query, lines) && r == NotFoundInKb)
            || (exists i :: FirstMatchAt(query, lines, i) && r == lines[i])
  {
    FallbackIsLineOrSentinel(query, KbLines(render, kbDict));
  }
}
