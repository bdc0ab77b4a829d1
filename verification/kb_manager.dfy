/**
  The knowledge-base side of the helpdesk: flattening the nested dictionary
  into a text corpus with a parallel list of the original values, and the
  rule that turns similarity scores into an answer.

  The TF-IDF vectoriser and cosine similarity are not modelled: a search
  receives one similarity score per corpus line as input.
*/
module KbManager {
  import opened Wrappers
  import opened Values
  import opened Strings

  /** The `corpus` (text lines) and `mapping` (original values) lists of `load_knowledge_base`. */
  datatype Corpus = Corpus(lines: seq<string>, values: seq<Value>)

  /** What `load_knowledge_base` returns once the vectoriser has been fitted. */
  datatype KbData = KbData(kb: seq<Entry>, corpus: Corpus)

  /** Fitting the vectoriser on an empty corpus raises. */
  datatype LoadError = EmptyCorpus

  /** Similarity a best match must strictly exceed to be answered directly. */
  const Threshold: real := 0.3

  /** Returned when no corpus line is similar enough. */
  const StillLearning: string := "I'm still learning about the college."

  function Concat(a: Corpus, b: Corpus): Corpus {
    Corpus(a.lines + b.lines, a.values + b.values)
  }

  /**
    One step of the inner `flatten(d, prefix)`: a dictionary value is
    flattened under `prefix + key + "."`; any other value (lists included)
    yields the line `prefix + key + ": " + str(value)` and is kept, as is,
    beside it.
  */
  function FlattenEntry(render: Renderer, e: Entry, prefix: string): (c: Corpus)
    ensures |c.lines| == |c.values|
    decreases Size(e.val)
  {
    match e.val
    case Dict(sub) => FlattenEntries(render, sub, prefix + e.key + ".")
    case v => Corpus([prefix + e.key + ": " + render(v)], [v])
  }

  /** `flatten(d, prefix)`: the entries of `d` flattened one after another, in insertion order. */
  function FlattenEntries(render: Renderer, es: seq<Entry>, prefix: string): (c: Corpus)
    ensures |c.lines| == |c.values|
    decreases EntriesSize(es)
  {
    if |es| == 0 then Corpus([], [])
    else Concat(FlattenEntry(render, es[0], prefix), FlattenEntries(render, es[1..], prefix))
  }

  /** `flatten(KB_DICT)`, started with the empty prefix. */
  function Flatten(render: Renderer, kb: seq<Entry>): Corpus {
    FlattenEntries(render, kb, "")
  }

  /** Number of non-dictionary values an entry holds, through nested dictionaries (a list counts once). */
  function EntryLeafCount(e: Entry): nat
    decreases Size(e.val)
  {
    match e.val
    case Dict(sub) => LeafCount(sub)
    case _ => 1
  }

  function LeafCount(es: seq<Entry>): nat
    decreases EntriesSize(es)
  {
    if |es| == 0 then 0 else EntryLeafCount(es[0]) + LeafCount(es[1..])
  }

  /** `path` joined with dots, as the accumulated prefixes spell it. */
  function Dotted(path: seq<string>): string {
    Join(path, ".")
  }

  /** `d[k1][k2]...[kn]`, or nothing when a key is missing or a step is not a dictionary. */
  function Lookup(es: seq<Entry>, path: seq<string>): Option<Value>
    decreases |path|
  {
    if |path| == 0 then None
    else
      match Get(es, path[0])
      case None => None
      case Some(v) =>
        if |path| == 1 then Some(v)
        else if v.Dict? then Lookup(v.entries, path[1..])
        else None
  }

  function PrependAll(k: string, ps: seq<seq<string>>): (r: seq<seq<string>>)
    ensures |r| == |ps|
    ensures forall i :: 0 <= i < |ps| ==> r[i] == [k] + ps[i]
  {
    if |ps| == 0 then [] else [[k] + ps[0]] + PrependAll(k, ps[1..])
  }

  /** The key path of every non-dictionary value of an entry, depth first in insertion order. */
  function EntryPaths(e: Entry): (ps: seq<seq<string>>)
    ensures forall i :: 0 <= i < |ps| ==> |ps[i]| >= 1
    decreases Size(e.val)
  {
    match e.val
    case Dict(sub) => PrependAll(e.key, LeafPaths(sub))
    case _ => [[e.key]]
  }

  function LeafPaths(es: seq<Entry>): (ps: seq<seq<string>>)
    ensures forall i :: 0 <= i < |ps| ==> |ps[i]| >= 1
    decreases EntriesSize(es)
  {
    if |es| == 0 then [] else EntryPaths(es[0]) + LeafPaths(es[1..])
  }

  /** Every dictionary entry is flattened to exactly one line per non-dictionary leaf. */
  lemma {:induction false} FlattenCount(render: Renderer, es: seq<Entry>, prefix: string)
    ensures |FlattenEntries(render, es, prefix).lines| == LeafCount(es)
    ensures |LeafPaths(es)| == LeafCount(es)
    decreases EntriesSize(es)
  {
    if |es| > 0 {
      FlattenCount(render, es[1..], prefix);
      match es[0].val
      case Dict(sub) =>
        assert Size(es[0].val) == 1 + EntriesSize(sub);
        FlattenCount(render, sub, prefix + es[0].key + ".");
      case _ =>
    }
  }

  /** With unique keys, a path found after the first entry does not start with the first key. */
  lemma TailLookup(es: seq<Entry>, p: seq<string>)
    requires WellFormed(es) && |es| > 0
    requires Lookup(es[1..], p).Some?
    ensures Lookup(es, p) == Lookup(es[1..], p)
  {
    assert Get(es[1..], p[0]).Some?;
    assert Get(es, p[0]) == Get(es[1..], p[0]);
  }

  /** Looking up `[k] + p` where `k` is the first key continues with `p` inside its dictionary. */
  lemma HeadLookup(es: seq<Entry>, p: seq<string>)
    requires |es| > 0 && es[0].val.Dict? && |p| >= 1
    ensures Lookup(es, [es[0].key] + p) == Lookup(es[0].val.entries, p)
  {
    assert ([es[0].key] + p)[1..] == p;
  }

  lemma DottedCons(k: string, p: seq<string>)
    requires |p| >= 1
    ensures Dotted([k] + p) == k + "." + Dotted(p)
  {
    assert ([k] + p)[1..] == p;
  }

  /**
    Line `i` of `c` is `prefix`, the dotted path `ps[i]`, `": "` and value `i`
    rendered, and `ps[i]` leads from `es` to value `i`.
  */
  ghost predicate PathsMatch(render: Renderer, es: seq<Entry>, prefix: string, c: Corpus, ps: seq<seq<string>>) {
    |ps| == |c.lines| == |c.values| &&
    forall i :: 0 <= i < |c.lines| ==>
      && Lookup(es, ps[i]) == Some(c.values[i])
      && c.lines[i] == prefix + Dotted(ps[i]) + ": " + render(c.values[i])
  }

  /** The statement of `FlattenLinesMatchValues` for one dictionary. */
  ghost predicate LinesMatchValues(render: Renderer, es: seq<Entry>, prefix: string) {
    PathsMatch(render, es, prefix, FlattenEntries(render, es, prefix), LeafPaths(es))
  }

  lemma PathsMatchConcat(render: Renderer, es: seq<Entry>, prefix: string,
                         a: Corpus, pa: seq<seq<string>>, b: Corpus, pb: seq<seq<string>>)
    requires PathsMatch(render, es, prefix, a, pa) && PathsMatch(render, es, prefix, b, pb)
    ensures PathsMatch(render, es, prefix, Concat(a, b), pa + pb)
  {
    var c := Concat(a, b);
    var ps := pa + pb;
    forall i | 0 <= i < |c.lines|
      ensures Lookup(es, ps[i]) == Some(c.values[i])
      ensures c.lines[i] == prefix + Dotted(ps[i]) + ": " + render(c.values[i])
    {
      if i < |a.lines| {
        assert ps[i] == pa[i] && c.values[i] == a.values[i] && c.lines[i] == a.lines[i];
      } else {
        var j := i - |a.lines|;
        assert ps[i] == pb[j] && c.values[i] == b.values[j] && c.lines[i] == b.lines[j];
      }
    }
  }

  /** Lines of the first entry of a dictionary, in the terms of the whole dictionary. */
  lemma {:induction false} HeadLinesMatch(render: Renderer, es: seq<Entry>, prefix: string)
    requires |es| > 0 && WellFormed(es)
    ensures PathsMatch(render, es, prefix, FlattenEntry(render, es[0], prefix), EntryPaths(es[0]))
    decreases EntriesSize(es), 0
  {
    if es[0].val.Dict? {
      var sub := es[0].val.entries;
      assert Size(es[0].val) == 1 + EntriesSize(sub);
      FlattenLinesMatchValues(render, sub, prefix + es[0].key + ".");
      NestedLinesMatch(render, es, prefix);
    }
  }

  /** The lines of a nested dictionary, seen from the dictionary that holds it. */
  lemma NestedLinesMatch(render: Renderer, es: seq<Entry>, prefix: string)
    requires |es| > 0 && es[0].val.Dict?
    requires LinesMatchValues(render, es[0].val.entries, prefix + es[0].key + ".")
    ensures PathsMatch(render, es, prefix, FlattenEntry(render, es[0], prefix), EntryPaths(es[0]))
  {
    var k := es[0].key;
    var sub := es[0].val.entries;
    var inner := prefix + k + ".";
    var sc := FlattenEntries(render, sub, inner);
    var sps := LeafPaths(sub);
    var ps := EntryPaths(es[0]);
    assert FlattenEntry(render, es[0], prefix) == sc;
    assert ps == PrependAll(k, sps);
    forall i | 0 <= i < |sc.lines|
      ensures Lookup(es, ps[i]) == Some(sc.values[i])
      ensures sc.lines[i] == prefix + Dotted(ps[i]) + ": " + render(sc.values[i])
    {
      NestedLine(render, es, prefix, sps[i], sc.values[i], sc.lines[i]);
    }
  }

  /** One line of a nested dictionary, seen from the dictionary that holds it. */
  lemma NestedLine(render: Renderer, es: seq<Entry>, prefix: string, q: seq<string>, v: Value, line: string)
    requires |es| > 0 && es[0].val.Dict? && |q| >= 1
    requires Lookup(es[0].val.entries, q) == Some(v)
    requires line == prefix + es[0].key + "." + Dotted(q) + ": " + render(v)
    ensures Lookup(es, [es[0].key] + q) == Some(v)
    ensures line == prefix + Dotted([es[0].key] + q) + ": " + render(v)
  {
    var k, d := es[0].key, Dotted(q);
    HeadLookup(es, q);
    DottedCons(k, q);
    ConcatAssoc(prefix, k + ".", d);
    ConcatAssoc(prefix, k, ".");
  }

  /**
    Line `i` of the corpus is the dotted key path of value `i` followed by
    `": "` and the rendered value, and following that path in the dictionary
    leads to exactly that (unstringified) value.
  */
  lemma {:induction false} FlattenLinesMatchValues(render: Renderer, es: seq<Entry>, prefix: string)
    requires WellFormed(es)
    ensures LinesMatchValues(render, es, prefix)
    decreases EntriesSize(es), 1
  {
    if |es| > 0 {
      HeadLinesMatch(render, es, prefix);
      FlattenLinesMatchValues(render, es[1..], prefix);
      TailLinesMatch(render, es, prefix);
      PathsMatchConcat(render, es, prefix,
                       FlattenEntry(render, es[0], prefix), EntryPaths(es[0]),
                       FlattenEntries(render, es[1..], prefix), LeafPaths(es[1..]));
    }
  }

  /** The lines of the entries after the first, in the terms of the whole dictionary. */
  lemma TailLinesMatch(render: Renderer, es: seq<Entry>, prefix: string)
    requires |es| > 0 && WellFormed(es)
    requires LinesMatchValues(render, es[1..], prefix)
    ensures PathsMatch(render, es, prefix, FlattenEntries(render, es[1..], prefix), LeafPaths(es[1..]))
  {
    var c := FlattenEntries(render, es[1..], prefix);
    var ps := LeafPaths(es[1..]);
    forall i | 0 <= i < |c.lines|
      ensures Lookup(es, ps[i]) == Some(c.values[i])
    {
      TailLookup(es, ps[i]);
    }
  }

  /** Conversely, every non-dictionary value reachable by a key path has that path in the corpus. */
  lemma {:induction false} EveryLeafIsFlattened(es: seq<Entry>, path: seq<string>)
    requires Lookup(es, path).Some? && !Lookup(es, path).value.Dict?
    ensures path in LeafPaths(es)
    decreases EntriesSize(es)
  {
    var k := es[0].key;
    if k == path[0] {
      if |path| == 1 {
        assert path == [k];
      } else {
        var sub := es[0].val.entries;
        assert Size(es[0].val) == 1 + EntriesSize(sub);
        EveryLeafIsFlattened(sub, path[1..]);
        var j :| 0 <= j < |LeafPaths(sub)| && LeafPaths(sub)[j] == path[1..];
        assert EntryPaths(es[0]) == PrependAll(k, LeafPaths(sub));
        assert path == [k] + path[1..];
        assert EntryPaths(es[0])[j] == path;
        assert LeafPaths(es)[j] == path;
      }
    } else {
      EveryLeafIsFlattened(es[1..], path);
    }
  }

  /** Flattening a dictionary is flattening its entries one after another, in order. */
  lemma {:induction false} FlattenAppend(render: Renderer, a: seq<Entry>, b: seq<Entry>, prefix: string)
    ensures FlattenEntries(render, a + b, prefix)
            == Concat(FlattenEntries(render, a, prefix), FlattenEntries(render, b, prefix))
    decreases |a|
  {
    if |a| == 0 {
      assert a + b == b;
    } else {
      FlattenAppend(render, a[1..], b, prefix);
      assert (a + b)[1..] == a[1..] + b;
      assert (a + b)[0] == a[0];
      var h := FlattenEntry(render, a[0], prefix);
      var ta := FlattenEntries(render, a[1..], prefix);
      var fb := FlattenEntries(render, b, prefix);
      assert FlattenEntries(render, a + b, prefix) == Concat(h, Concat(ta, fb));
      assert FlattenEntries(render, a, prefix) == Concat(h, ta);
      ConcatAssoc(h.lines, ta.lines, fb.lines);
      ConcatAssoc(h.values, ta.values, fb.values);
    }
  }

  lemma {:induction false} EntrySizeBound(es: seq<Entry>, i: nat)
    requires i < |es|
    ensures Size(es[i].val) < EntriesSize(es)
  {
    if i > 0 {
      EntrySizeBound(es[1..], i - 1);
    }
  }

  /**
    The closure as the source writes it: a loop over the entries that appends
    to `corpus` and `mapping`, recursing into dictionaries.
  */
  method FlattenInto(render: Renderer, d: seq<Entry>, prefix: string, corpus: seq<string>, mapping: seq<Value>)
    returns (corpus': seq<string>, mapping': seq<Value>)
    ensures corpus' == corpus + FlattenEntries(render, d, prefix).lines
    ensures mapping' == mapping + FlattenEntries(render, d, prefix).values
    decreases EntriesSize(d), 1
  {
    corpus', mapping' := corpus, mapping;
    var i := 0;
    while i < |d|
      invariant 0 <= i <= |d|
      invariant corpus' == corpus + FlattenEntries(render, d[..i], prefix).lines
      invariant mapping' == mapping + FlattenEntries(render, d[..i], prefix).values
    {
      EntrySizeBound(d, i);
      ghost var done := FlattenEntries(render, d[..i], prefix);
      ghost var next := FlattenEntry(render, d[i], prefix);
      corpus', mapping' := FlattenItemInto(render, d[i], prefix, corpus', mapping');
      FlattenSnoc(render, d, i, prefix);
      ConcatAssoc(corpus, done.lines, next.lines);
      ConcatAssoc(mapping, done.values, next.values);
      i := i + 1;
    }
    assert d[..i] == d;
  }

  /** Flattening one more entry appends that entry's lines and values. */
  lemma FlattenSnoc(render: Renderer, d: seq<Entry>, i: nat, prefix: string)
    requires i < |d|
    ensures FlattenEntries(render, d[..i + 1], prefix)
            == Concat(FlattenEntries(render, d[..i], prefix), FlattenEntry(render, d[i], prefix))
  {
    FlattenAppend(render, d[..i], [d[i]], prefix);
    assert d[..i] + [d[i]] == d[..i + 1];
    assert [d[i]][1..] == [];
  }

  /** The body of the loop in `FlattenInto` for one key and value. */
  method FlattenItemInto(render: Renderer, e: Entry, prefix: string, corpus: seq<string>, mapping: seq<Value>)
    returns (corpus': seq<string>, mapping': seq<Value>)
    ensures corpus' == corpus + FlattenEntry(render, e, prefix).lines
    ensures mapping' == mapping + FlattenEntry(render, e, prefix).values
    decreases Size(e.val), 0
  {
    if e.val.Dict? {
      corpus', mapping' := FlattenInto(render, e.val.entries, prefix + e.key + ".", corpus, mapping);
    } else {
      corpus' := corpus + [prefix + e.key + ": " + render(e.val)];
      mapping' := mapping + [e.val];
    }
  }

  /** `load_knowledge_base`: flatten, then fit the vectoriser, which fails on an empty corpus. */
  method LoadKnowledgeBase(render: Renderer, kb: seq<Entry>) returns (r: Result<KbData, LoadError>)
    ensures r.Failure? <==> LeafCount(kb) == 0
    ensures r.Success? ==> r.value.kb == kb && r.value.corpus == Flatten(render, kb)
  {
    var corpus, mapping := FlattenInto(render, kb, "", [], []);
    FlattenCount(render, kb, "");
    if |corpus| == 0 {
      return Failure(EmptyCorpus);
    }
    return Success(KbData(kb, Corpus(corpus, mapping)));
  }

  /** `k` is the first position holding the largest score. */
  predicate IsFirstMax(scores: seq<real>, k: int) {
    && 0 <= k < |scores|
    && (forall j :: 0 <= j < |scores| ==> scores[j] <= scores[k])
    && (forall j :: 0 <= j < k ==> scores[j] < scores[k])
  }

  /** `similarities.argmax()`: ties go to the earliest position. */
  function ArgMax(scores: seq<real>): (k: nat)
    requires |scores| > 0
    ensures IsFirstMax(scores, k)
  {
    if |scores| == 1 then 0
    else
      var k := ArgMax(scores[..|scores| - 1]);
      if scores[|scores| - 1] > scores[k] then |scores| - 1 else k
  }

  /**
    `search_knowledge_base` given one similarity score per corpus line: the
    value behind the best-scoring line when its score is above the threshold,
    and the still-learning sentence otherwise.
  */
  function SearchKnowledgeBase(data: KbData, scores: seq<real>): (r: Value)
    requires |data.corpus.values| > 0
    requires |scores| == |data.corpus.values|
    ensures (exists j :: 0 <= j < |scores| && scores[j] > Threshold) ==>
              exists k :: IsFirstMax(scores, k) && r == data.corpus.values[k]
    ensures (forall j :: 0 <= j < |scores| ==> scores[j] <= Threshold) ==> r == Str(StillLearning)
  {
    var best := ArgMax(scores);
    if scores[best] > Threshold then data.corpus.values[best] else Str(StillLearning)
  }

  /** A sample of the knowledge base: the fee structure. */
  function FeeSample(): seq<Entry> {
    [Entry("FEE_STRUCTURE", Dict([
      Entry("Management_Quota", Int(200000)),
      Entry("Counseling_Quota", Int(77000)),
      Entry("Exam_Fee_Sem", Int(1200))]))]
  }

  function FeeLine(key: string, rendered: string): string {
    "FEE_STRUCTURE." + key + ": " + rendered
  }

  /** The fee structure is flattened to one line per fee, in insertion order, each beside its amount. */
  lemma FeeSampleFlattened(render: Renderer)
    ensures Flatten(render, FeeSample()) == Corpus(
              [ FeeLine("Management_Quota", render(Int(200000))),
                FeeLine("Counseling_Quota", render(Int(77000))),
                FeeLine("Exam_Fee_Sem", render(Int(1200))) ],
              [Int(200000), Int(77000), Int(1200)])
  {
    var fees := FeeSample()[0].val.entries;
    var p := "" + "FEE_STRUCTURE" + ".";
    assert p == "FEE_STRUCTURE.";
    var empty := Corpus([], []);
    assert FlattenEntries(render, [], p) == empty;
    assert FlattenEntries(render, [], "") == empty;
    var c2 := Corpus([FeeLine("Exam_Fee_Sem", render(Int(1200)))], [Int(1200)]);
    assert fees[2..][1..] == [] && fees[2..][0] == fees[2];
    assert FlattenEntries(render, fees[2..], p) == Concat(c2, empty) == c2;
    var c1 := Corpus([FeeLine("Counseling_Quota", render(Int(77000)))], [Int(77000)]);
    assert fees[1..][1..] == fees[2..] && fees[1..][0] == fees[1];
    assert FlattenEntries(render, fees[1..], p) == Concat(c1, c2);
    var c0 := Corpus([FeeLine("Management_Quota", render(Int(200000)))], [Int(200000)]);
    assert FlattenEntries(render, fees, p) == Concat(c0, Concat(c1, c2));
    assert FeeSample()[1..] == [];
  }

  /** With Python's `str(1200) == "1200"`, the exam fee's line reads `FEE_STRUCTURE.Exam_Fee_Sem: 1200`. */
  lemma ExamFeeLine(render: Renderer)
    requires render(Int(1200)) == "1200"
    ensures Flatten(render, FeeSample()).lines[2] == "FEE_STRUCTURE.Exam_Fee_Sem: 1200"
    ensures Flatten(render, FeeSample()).values[2] == Int(1200)
  {
    FeeSampleFlattened(render);
  }

  /** A score of exactly 0.3 is not enough: the search answers with the still-learning sentence. */
  lemma ThresholdIsStrict(render: Renderer)
    ensures var data := KbData(FeeSample(), Flatten(render, FeeSample()));
            |data.corpus.values| == 3 &&
            SearchKnowledgeBase(data, [0.0, 0.1, 0.3]) == Str(StillLearning) &&
            SearchKnowledgeBase(data, [0.0, 0.1, 0.31]) == Int(1200)
  {
    FeeSampleFlattened(render);
    assert ArgMax([0.0, 0.1, 0.31]) == 2;
  }
}
