/**
 * The body of `text_analyze_eng` / `text_analyze_chn` (the two differ only in
 * the NLP model they load and the template file they read): the walk over the
 * annotated document, the frequency tables, the clause counts, the three
 * variance summaries and the values handed to the prompt template.
 */
module Reduction {
  import opened Prelude
  import opened Annotation
  import Variance
  import Frequency

  /** The lists the sentence-by-token walk fills. */
  datatype Walk = Walk(
    tokens: seq<Token>,
    lemmas: seq<string>,
    sentLengths: seq<nat>,
    tokenLengths: seq<nat>,
    morphs: seq<seq<seq<string>>>)

  /** `token_lengths` and `lemmas` agree with the tokens walked so far. */
  predicate TokenListsAgree(w: Walk)
  {
    w.tokenLengths == TokenLengths(w.tokens) && w.lemmas == ContentLemmas(w.tokens)
  }

  /**
   * One pass of the outer `for sent in doc.sents` loop: appends the sentence's
   * length and a fresh morph sublist, then, in the inner `for token in sent`
   * loop, for each token its non-empty features (to the last sublist), the
   * token itself, its length unless it is punctuation, and its lemma when its
   * part of speech is a content one.
   */
  method WalkSentence(w: Walk, sent: Sentence) returns (w': Walk)
    requires TokenListsAgree(w)
    ensures TokenListsAgree(w')
    ensures w'.tokens == w.tokens + sent
    ensures w'.sentLengths == w.sentLengths + [|sent|]
    ensures w'.morphs == w.morphs + [SentenceMorphs(sent)]
  {
    var tokens, lemmas, tokenLengths := w.tokens, w.lemmas, w.tokenLengths;
    var sentLengths := w.sentLengths + [|sent|];
    var morphs := w.morphs + [[]];
    for j := 0 to |sent|
      invariant tokens == w.tokens + sent[..j]
      invariant tokenLengths == TokenLengths(tokens)
      invariant lemmas == ContentLemmas(tokens)
      invariant morphs == w.morphs + [SentenceMorphs(sent[..j])]
    {
      var token := sent[j];
      assert sent[..j + 1] == sent[..j] + [token];
      TokenListsAppend(tokens, token);
      TokenListsAppend(sent[..j], token);
      assert morphs[..|morphs| - 1] == w.morphs;
      assert morphs[|morphs| - 1] == SentenceMorphs(sent[..j]);
      assert SentenceMorphs(sent[..j + 1])
        == SentenceMorphs(sent[..j]) + (if |token.morph| != 0 then [token.morph] else []);
      if |token.morph| != 0 {
        morphs := morphs[..|morphs| - 1] + [morphs[|morphs| - 1] + [token.morph]];
        assert morphs == w.morphs + [SentenceMorphs(sent[..j]) + [token.morph]];
      } else {
        assert SentenceMorphs(sent[..j + 1]) == SentenceMorphs(sent[..j]);
      }
      tokens := tokens + [token];
      if token.pos != Punct {
        tokenLengths := tokenLengths + [|token.text|];
      }
      if token.pos in ContentPos {
        lemmas := lemmas + [token.baseForm];
      }
    }
    assert sent[..|sent|] == sent;
    w' := Walk(tokens, lemmas, sentLengths, tokenLengths, morphs);
  }

  /** The whole walk over `doc.sents`, from empty lists. */
  method WalkDocument(sents: seq<Sentence>) returns (w: Walk)
    ensures w.tokens == AllTokens(sents)
    ensures w.sentLengths == SentenceLengths(sents)
    ensures w.tokenLengths == TokenLengths(AllTokens(sents))
    ensures w.lemmas == ContentLemmas(AllTokens(sents))
    ensures w.morphs == Morphs(sents)
  {
    w := Walk([], [], [], [], []);
    for i := 0 to |sents|
      invariant w.tokens == AllTokens(sents[..i])
      invariant w.sentLengths == SentenceLengths(sents[..i])
      invariant TokenListsAgree(w)
      invariant w.morphs == Morphs(sents[..i])
    {
      assert sents[..i + 1] == sents[..i] + [sents[i]];
      SentenceLengthsAppend(sents[..i], sents[i]);
      AllTokensAppend(sents[..i], sents[i]);
      MorphsAppend(sents[..i], sents[i]);
      w := WalkSentence(w, sents[i]);
    }
    assert sents[..|sents|] == sents;
  }

  /** The second `for sent in doc.sents` loop, filling `clauses_per_sent`. */
  method CountClauses(sents: seq<Sentence>) returns (counts: seq<nat>)
    ensures counts == ClauseCounts(sents)
  {
    counts := [];
    for i := 0 to |sents|
      invariant counts == ClauseCounts(sents[..i])
    {
      assert sents[..i + 1] == sents[..i] + [sents[i]];
      ClauseCountsAppend(sents[..i], sents[i]);
      counts := counts + [ClauseCount(sents[i])];
    }
    assert sents[..|sents|] == sents;
  }

  /** The values `prompt_template.format` receives, before rounding. */
  datatype PromptFields = PromptFields(
    textExcerpt: string,
    sentenceLength: Variance.Summary,
    tokenLength: Variance.Summary,
    clausesPerSentence: Variance.Summary,
    posFreq: map<string, nat>,
    depFreq: map<string, nat>,
    verbTenseFreq: map<string, nat>,
    lemmaFreq: seq<Frequency.Entry>,
    morphsSample: seq<seq<seq<string>>>)

  /** The number of characters of the input quoted in the prompt. */
  const ExcerptLength: nat := 500

  /** The number of most frequent lemmas quoted in the prompt. */
  const TopLemmas: nat := 5

  /** The number of sentences whose morph features are quoted in the prompt. */
  const MorphSentences: nat := 2

  /**
   * What the analysis yields for a document: the prompt fields, or the error
   * `variance_measures` raises on the first empty list it is given (sentence
   * lengths first, then token lengths; the clause counts, one per sentence,
   * are never empty once the sentence lengths are not). It fails exactly when
   * the document has no sentence or only punctuation tokens.
   */
  function Analysis(doc: Document): (r: Result<PromptFields, Variance.VarianceError>)
    ensures r.Err? <==> doc.sentences == [] || TokenLengths(AllTokens(doc.sentences)) == []
  {
    var tokens := AllTokens(doc.sentences);
    var sentences := Variance.VarianceMeasures(SentenceLengths(doc.sentences));
    var tokenLengths := Variance.VarianceMeasures(TokenLengths(tokens));
    var clauses := Variance.VarianceMeasures(ClauseCounts(doc.sentences));
    if sentences.Err? then Err(sentences.error)
    else if tokenLengths.Err? then Err(tokenLengths.error)
    else Ok(PromptFields(
      Take(doc.text, ExcerptLength),
      sentences.value,
      tokenLengths.value,
      clauses.value,
      Frequency.Tabulate(PosLabels(tokens)),
      Frequency.Tabulate(DepLabels(tokens)),
      Frequency.Tabulate(VerbTenseLabels(tokens)),
      Frequency.MostCommon(ContentLemmas(tokens), TopLemmas),
      Take(Morphs(doc.sentences), MorphSentences)))
  }

  /** `text_analyze_eng(input_text)` once the document is parsed, up to the template. */
  method Analyze(doc: Document) returns (r: Result<PromptFields, Variance.VarianceError>)
    ensures r == Analysis(doc)
  {
    var w := WalkDocument(doc.sentences);
    var posList, depList := [], [];
    var verbTenseList: seq<string> := [];
    posList := PosLabels(w.tokens);
    depList := DepLabels(w.tokens);
    verbTenseList := VerbTenseLabels(w.tokens);
    var posFreq := Frequency.Tabulate(posList);
    var depFreq := Frequency.Tabulate(depList);
    var verbTenseFreq := Frequency.Tabulate(verbTenseList);
    var sentences := Variance.VarianceMeasures(w.sentLengths);
    if sentences.Err? {
      return Err(sentences.error);
    }
    var tokenLengths := Variance.VarianceMeasures(w.tokenLengths);
    if tokenLengths.Err? {
      return Err(tokenLengths.error);
    }
    var clauseCounts := CountClauses(doc.sentences);
    var clauses := Variance.VarianceMeasures(clauseCounts);
    r := Ok(PromptFields(
      Take(doc.text, ExcerptLength),
      sentences.value,
      tokenLengths.value,
      clauses.value,
      posFreq,
      depFreq,
      verbTenseFreq,
      Frequency.MostCommon(w.lemmas, TopLemmas),
      Take(w.morphs, MorphSentences)));
  }

  /** The prompt quotes the first 500 characters of the input, all of it when it is shorter. */
  lemma AnalysisExcerpt(doc: Document)
    ensures Analysis(doc).Ok? ==>
      var excerpt := Analysis(doc).value.textExcerpt;
      && |excerpt| == (if |doc.text| < ExcerptLength then |doc.text| else ExcerptLength)
      && excerpt <= doc.text
  {
    var r := Analysis(doc);
    if r.Ok? {
      assert r.value.textExcerpt == Take(doc.text, ExcerptLength);
    }
  }

  /**
   * The prompt quotes the five most frequent content lemmas (all of them when
   * there are fewer distinct ones) with their counts, ranked as `most_common`
   * ranks them: any lemma left out ranks after the fifth one listed.
   */
  lemma AnalysisTopLemmas(doc: Document)
    ensures Analysis(doc).Ok? ==>
      var top, lemmas := Analysis(doc).value.lemmaFreq, ContentLemmas(AllTokens(doc.sentences));
      && |top| == (if |Frequency.Keys(lemmas)| < TopLemmas then |Frequency.Keys(lemmas)| else TopLemmas)
      && Frequency.Ranked(lemmas, top)
      && (forall i :: 0 <= i < |top| ==> top[i].key in lemmas && top[i].count == multiset(lemmas)[top[i].key])
      && (forall x :: x in lemmas && (forall i :: 0 <= i < |top| ==> top[i].key != x) ==>
            |top| == TopLemmas
            && Frequency.Precedes(lemmas, top[TopLemmas - 1], Frequency.Entry(x, multiset(lemmas)[x])))
  {
    var r := Analysis(doc);
    if r.Ok? {
      var lemmas := ContentLemmas(AllTokens(doc.sentences));
      var top := r.value.lemmaFreq;
      assert top == Frequency.MostCommon(lemmas, TopLemmas);
      Frequency.MostCommonRanked(lemmas, TopLemmas);
      forall x | x in lemmas && (forall i :: 0 <= i < |top| ==> top[i].key != x)
        ensures |top| == TopLemmas
        ensures Frequency.Precedes(lemmas, top[TopLemmas - 1], Frequency.Entry(x, multiset(lemmas)[x]))
      {
        Frequency.MostCommonComplete(lemmas, TopLemmas, x);
      }
    }
  }

  /** The prompt quotes the morph lists of the first two sentences, of every sentence when there are fewer. */
  lemma AnalysisMorphSample(doc: Document)
    ensures Analysis(doc).Ok? ==>
      var sample := Analysis(doc).value.morphsSample;
      && |sample| == (if |doc.sentences| < MorphSentences then |doc.sentences| else MorphSentences)
      && (forall i :: 0 <= i < |sample| ==> sample[i] == SentenceMorphs(doc.sentences[i]))
  {
    var r := Analysis(doc);
    if r.Ok? {
      assert r.value.morphsSample == Take(Morphs(doc.sentences), MorphSentences);
      MorphsAt(doc.sentences);
    }
  }

  /**
   * The part-of-speech and dependency tables each count every token once, and
   * the verb-tense table holds only tags that start with 'V', with their counts
   * among the tokens' tags.
   */
  lemma AnalysisTables(doc: Document)
    ensures Analysis(doc).Ok? ==>
      var p, tokens := Analysis(doc).value, AllTokens(doc.sentences);
      && Frequency.SumCounts(p.posFreq, Frequency.Keys(PosLabels(tokens))) == |tokens|
      && Frequency.SumCounts(p.depFreq, Frequency.Keys(DepLabels(tokens))) == |tokens|
      && (forall tag :: tag in p.verbTenseFreq ==>
            IsVerbTag(tag) && p.verbTenseFreq[tag] == multiset(VerbTenseLabels(tokens))[tag])
  {
    var tokens := AllTokens(doc.sentences);
    Frequency.TabulateTotal(PosLabels(tokens));
    Frequency.TabulateTotal(DepLabels(tokens));
    forall tag | tag in VerbTenseLabels(tokens) ensures IsVerbTag(tag) {
      VerbTenseLabelsMembers(tokens, tag);
    }
  }

  /** Every sentence has a main clause, so the average clause count is at least 1. */
  lemma ClausesAtLeastOne(doc: Document)
    ensures Analysis(doc).Ok? ==> Analysis(doc).value.clausesPerSentence.average >= 1.0
    ensures Analysis(doc).Ok? ==>
      Analysis(doc).value.clausesPerSentence.range <= Variance.Max(ClauseCounts(doc.sentences)) - 1
  {
    if doc.sentences != [] {
      var cs := ClauseCounts(doc.sentences);
      ClauseCountsAt(doc.sentences);
      Variance.AverageWithin(cs, 1, Variance.Max(cs));
    }
  }
}
