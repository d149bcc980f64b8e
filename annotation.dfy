/**
 * The annotated document the analyser walks, as the NLP pipeline hands it
 * over, and the per-element meaning of each list the reduction builds.
 */
module Annotation {
  import Variance

  /**
   * One token with the attributes the analyser reads: `text` (whose length is
   * `len(token)`), `pos_`, `dep_`, `tag_`, `lemma_` (the base form), and the morphological
   * features, already split at '|' (empty when the token has none).
   */
  datatype Token = Token(text: string, pos: string, dep: string, tag: string, baseForm: string, morph: seq<string>)

  type Sentence = seq<Token>

  /** The raw input text and its sentences (`doc.sents`). */
  datatype Document = Document(text: string, sentences: seq<Sentence>)

  const Punct: string := "PUNCT"

  /** The parts of speech whose lemmas are collected. */
  const ContentPos: set<string> := {"ADJ", "ADV", "INTJ", "NOUN", "SCONJ", "VERB", "PROPN"}

  /** The dependency labels that open a clause of their own. */
  const ClauseDeps: set<string> := {"ccomp", "xcomp", "advcl", "relcl", "conj"}

  /** `tag.startswith('V')`. */
  predicate IsVerbTag(tag: string)
  {
    |tag| > 0 && tag[0] == 'V'
  }

  /** Every token of the document, sentence after sentence. */
  function AllTokens(sents: seq<Sentence>): (ts: seq<Token>)
    ensures |ts| == Variance.Sum(SentenceLengths(sents))
  {
    if sents == [] then []
    else
      var n := |sents| - 1;
      Variance.SumAppend(SentenceLengths(sents[..n]), |sents[n]|);
      AllTokens(sents[..n]) + sents[n]
  }

  /** `sent_lengths`: the token count of each sentence, punctuation included. */
  function SentenceLengths(sents: seq<Sentence>): (ls: seq<nat>)
    ensures |ls| == |sents|
  {
    if sents == [] then [] else SentenceLengths(sents[..|sents| - 1]) + [|sents[|sents| - 1]|]
  }

  /** `token_lengths`: the length of each token that is not punctuation, in order. */
  function TokenLengths(ts: seq<Token>): (ls: seq<nat>)
    ensures |ls| <= |ts|
  {
    if ts == [] then []
    else
      var t := ts[|ts| - 1];
      TokenLengths(ts[..|ts| - 1]) + (if t.pos != Punct then [|t.text|] else [])
  }

  /** `lemmas`: the lemma of each token whose part of speech is a content one, in order. */
  function ContentLemmas(ts: seq<Token>): (ls: seq<string>)
    ensures |ls| <= |ts|
  {
    if ts == [] then []
    else
      var t := ts[|ts| - 1];
      ContentLemmas(ts[..|ts| - 1]) + (if t.pos in ContentPos then [t.baseForm] else [])
  }

  /** One sublist of `morphs`: the feature lists of a sentence's tokens, empty ones dropped. */
  function SentenceMorphs(sent: Sentence): (ms: seq<seq<string>>)
    ensures |ms| <= |sent|
    ensures forall i :: 0 <= i < |ms| ==> ms[i] != []
  {
    if sent == [] then []
    else
      var t := sent[|sent| - 1];
      SentenceMorphs(sent[..|sent| - 1]) + (if |t.morph| != 0 then [t.morph] else [])
  }

  /** `morphs`: one sublist per sentence. */
  function Morphs(sents: seq<Sentence>): (ms: seq<seq<seq<string>>>)
    ensures |ms| == |sents|
  {
    if sents == [] then [] else Morphs(sents[..|sents| - 1]) + [SentenceMorphs(sents[|sents| - 1])]
  }

  /** `sum(1 for token in sent if token.dep_ in clause_deps) + 1`. */
  function ClauseCount(sent: Sentence): (c: nat)
    ensures 1 <= c <= |sent| + 1
  {
    if sent == [] then 1
    else ClauseCount(sent[..|sent| - 1]) + (if sent[|sent| - 1].dep in ClauseDeps then 1 else 0)
  }

  /** `clauses_per_sent`: one clause count per sentence. */
  function ClauseCounts(sents: seq<Sentence>): (cs: seq<nat>)
    ensures |cs| == |sents|
  {
    if sents == [] then [] else ClauseCounts(sents[..|sents| - 1]) + [ClauseCount(sents[|sents| - 1])]
  }

  /** `pos_list`. */
  function PosLabels(ts: seq<Token>): (ls: seq<string>)
    ensures |ls| == |ts|
  {
    if ts == [] then [] else PosLabels(ts[..|ts| - 1]) + [ts[|ts| - 1].pos]
  }

  /** `dep_list`. */
  function DepLabels(ts: seq<Token>): (ls: seq<string>)
    ensures |ls| == |ts|
  {
    if ts == [] then [] else DepLabels(ts[..|ts| - 1]) + [ts[|ts| - 1].dep]
  }

  /** `verb_tense_list`: the fine-grained tags that start with 'V', in order. */
  function VerbTenseLabels(ts: seq<Token>): (ls: seq<string>)
    ensures |ls| <= |ts|
    ensures forall i :: 0 <= i < |ls| ==> IsVerbTag(ls[i])
  {
    if ts == [] then []
    else
      var t := ts[|ts| - 1];
      VerbTenseLabels(ts[..|ts| - 1]) + (if IsVerbTag(t.tag) then [t.tag] else [])
  }

  // ---------------------------------------------------------------------------
  // What each list means, element by element.

  /** `sent_lengths` has one entry per sentence: its full token count. */
  lemma {:induction false} SentenceLengthsAt(sents: seq<Sentence>)
    ensures forall i :: 0 <= i < |sents| ==> SentenceLengths(sents)[i] == |sents[i]|
  {
    if sents != [] {
      SentenceLengthsAt(sents[..|sents| - 1]);
    }
  }

  /** `morphs` has one sublist per sentence, holding that sentence's feature lists. */
  lemma {:induction false} MorphsAt(sents: seq<Sentence>)
    ensures forall i :: 0 <= i < |sents| ==> Morphs(sents)[i] == SentenceMorphs(sents[i])
  {
    if sents != [] {
      MorphsAt(sents[..|sents| - 1]);
    }
  }

  /** `clauses_per_sent` has one entry per sentence, its clause count, never below 1. */
  lemma {:induction false} ClauseCountsAt(sents: seq<Sentence>)
    ensures forall i :: 0 <= i < |sents| ==> ClauseCounts(sents)[i] == ClauseCount(sents[i]) >= 1
  {
    if sents != [] {
      ClauseCountsAt(sents[..|sents| - 1]);
    }
  }

  /** `pos_list` and `dep_list` hold each token's part of speech and dependency label. */
  lemma {:induction false} LabelsAt(ts: seq<Token>)
    ensures forall i :: 0 <= i < |ts| ==> PosLabels(ts)[i] == ts[i].pos && DepLabels(ts)[i] == ts[i].dep
  {
    if ts != [] {
      LabelsAt(ts[..|ts| - 1]);
    }
  }

  /**
   * Every token is either punctuation or has its length in `token_lengths`:
   * the punctuation count of `pos_list` and the length of `token_lengths` add
   * up to the token count.
   */
  lemma {:induction false} TokenLengthsCount(ts: seq<Token>)
    ensures |TokenLengths(ts)| + multiset(PosLabels(ts))[Punct] == |ts|
  {
    if ts != [] {
      var n := |ts| - 1;
      TokenLengthsCount(ts[..n]);
      assert PosLabels(ts) == PosLabels(ts[..n]) + [ts[n].pos];
    }
  }

  /** `token_lengths` holds the length of a non-punctuation token, and nothing else. */
  lemma {:induction false} TokenLengthsMembers(ts: seq<Token>, len: nat)
    ensures len in TokenLengths(ts) <==> exists t :: t in ts && t.pos != Punct && |t.text| == len
  {
    if ts != [] {
      var n := |ts| - 1;
      TokenLengthsMembers(ts[..n], len);
      assert ts == ts[..n] + [ts[n]];
      assert forall t :: t in ts <==> t in ts[..n] || t == ts[n];
    }
  }

  /**
   * `token_lengths` keeps document order: the tokens of a later stretch of
   * text contribute after those of an earlier one.
   */
  lemma {:induction false} TokenLengthsKeepOrder(a: seq<Token>, b: seq<Token>)
    ensures TokenLengths(a + b) == TokenLengths(a) + TokenLengths(b)
  {
    if b == [] {
      assert a + b == a;
    } else {
      var n := |b| - 1;
      TokenLengthsKeepOrder(a, b[..n]);
      assert (a + b)[..|a + b| - 1] == a + b[..n];
      assert (a + b)[|a + b| - 1] == b[n];
    }
  }

  /** A sentence's morph sublist keeps token order, one feature list per token that has features. */
  lemma {:induction false} SentenceMorphsKeepOrder(a: seq<Token>, b: seq<Token>)
    ensures SentenceMorphs(a + b) == SentenceMorphs(a) + SentenceMorphs(b)
  {
    if b == [] {
      assert a + b == a;
    } else {
      var n := |b| - 1;
      SentenceMorphsKeepOrder(a, b[..n]);
      assert (a + b)[..|a + b| - 1] == a + b[..n];
      assert (a + b)[|a + b| - 1] == b[n];
    }
  }

  /** `lemmas` keeps document order. */
  lemma {:induction false} ContentLemmasKeepOrder(a: seq<Token>, b: seq<Token>)
    ensures ContentLemmas(a + b) == ContentLemmas(a) + ContentLemmas(b)
  {
    if b == [] {
      assert a + b == a;
    } else {
      var n := |b| - 1;
      ContentLemmasKeepOrder(a, b[..n]);
      assert (a + b)[..|a + b| - 1] == a + b[..n];
      assert (a + b)[|a + b| - 1] == b[n];
    }
  }

  /** `verb_tense_list` keeps document order. */
  lemma {:induction false} VerbTenseLabelsKeepOrder(a: seq<Token>, b: seq<Token>)
    ensures VerbTenseLabels(a + b) == VerbTenseLabels(a) + VerbTenseLabels(b)
  {
    if b == [] {
      assert a + b == a;
    } else {
      var n := |b| - 1;
      VerbTenseLabelsKeepOrder(a, b[..n]);
      assert (a + b)[..|a + b| - 1] == a + b[..n];
      assert (a + b)[|a + b| - 1] == b[n];
    }
  }

  /** `lemmas` holds the lemma of a content-word token, and nothing else. */
  lemma {:induction false} ContentLemmasMembers(ts: seq<Token>, base: string)
    ensures base in ContentLemmas(ts) <==> exists t :: t in ts && t.pos in ContentPos && t.baseForm == base
  {
    if ts != [] {
      var n := |ts| - 1;
      ContentLemmasMembers(ts[..n], base);
      assert ts == ts[..n] + [ts[n]];
      assert forall t :: t in ts <==> t in ts[..n] || t == ts[n];
    }
  }

  /** A sentence's morph sublist holds exactly its tokens' non-empty feature lists. */
  lemma {:induction false} SentenceMorphsMembers(sent: Sentence, m: seq<string>)
    ensures m in SentenceMorphs(sent) <==> m != [] && exists t :: t in sent && t.morph == m
  {
    if sent != [] {
      var n := |sent| - 1;
      SentenceMorphsMembers(sent[..n], m);
      assert sent == sent[..n] + [sent[n]];
      assert forall t :: t in sent <==> t in sent[..n] || t == sent[n];
    }
  }

  /** `verb_tense_list` holds the verb tags of the tokens, and nothing else. */
  lemma {:induction false} VerbTenseLabelsMembers(ts: seq<Token>, tag: string)
    ensures tag in VerbTenseLabels(ts) <==> IsVerbTag(tag) && exists t :: t in ts && t.tag == tag
  {
    if ts != [] {
      var n := |ts| - 1;
      VerbTenseLabelsMembers(ts[..n], tag);
      assert ts == ts[..n] + [ts[n]];
      assert forall t :: t in ts <==> t in ts[..n] || t == ts[n];
    }
  }

  /** The positions of a sentence's clause-opening tokens. */
  function ClauseTokenIndices(sent: Sentence): set<nat>
  {
    set i: nat | i < |sent| && sent[i].dep in ClauseDeps
  }

  /** A sentence has one main clause plus one per clause-opening token. */
  lemma {:induction false} ClauseCountIsOnePlusClauseTokens(sent: Sentence)
    ensures ClauseCount(sent) == 1 + |ClauseTokenIndices(sent)|
  {
    if sent == [] {
      assert ClauseTokenIndices(sent) == {};
    } else {
      var n := |sent| - 1;
      ClauseCountIsOnePlusClauseTokens(sent[..n]);
      var last := if sent[n].dep in ClauseDeps then {n} else {};
      assert ClauseTokenIndices(sent) == ClauseTokenIndices(sent[..n]) + last;
      assert n !in ClauseTokenIndices(sent[..n]);
    }
  }

  // ---------------------------------------------------------------------------
  // Appending a sentence or a token extends each list by that element's share;
  // the loops of the reduction rely on these.

  lemma AllTokensAppend(sents: seq<Sentence>, s: Sentence)
    ensures AllTokens(sents + [s]) == AllTokens(sents) + s
  {
  }

  lemma SentenceLengthsAppend(sents: seq<Sentence>, s: Sentence)
    ensures SentenceLengths(sents + [s]) == SentenceLengths(sents) + [|s|]
  {
  }

  lemma MorphsAppend(sents: seq<Sentence>, s: Sentence)
    ensures Morphs(sents + [s]) == Morphs(sents) + [SentenceMorphs(s)]
  {
  }

  lemma ClauseCountsAppend(sents: seq<Sentence>, s: Sentence)
    ensures ClauseCounts(sents + [s]) == ClauseCounts(sents) + [ClauseCount(s)]
  {
  }

  lemma TokenListsAppend(ts: seq<Token>, t: Token)
    ensures TokenLengths(ts + [t]) == TokenLengths(ts) + (if t.pos != Punct then [|t.text|] else [])
    ensures ContentLemmas(ts + [t]) == ContentLemmas(ts) + (if t.pos in ContentPos then [t.baseForm] else [])
    ensures SentenceMorphs(ts + [t]) == SentenceMorphs(ts) + (if |t.morph| != 0 then [t.morph] else [])
  {
  }
}
