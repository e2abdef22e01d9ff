/**
 The RDF side of the converter: terms, triples and the fixed vocabulary
 every emitted triple is built from.
 */
module Rdf {

  /** The model namespace under which the converter's own vocabulary lives. */
  const X2R: string := "https://decisym.ai/xml2rdf/model#"

  const XmlNode: string := X2R + "XmlNode"
  const XmlAttribute: string := X2R + "XmlAttribute"
  const HasChild: string := X2R + "hasChild"
  const HasAttribute: string := X2R + "hasAttribute"
  const HasName: string := X2R + "hasName"
  const HasValue: string := X2R + "hasValue"

  /** rdf:type and rdfs:subClassOf, reused from the standard vocabularies. */
  const RdfType: string := "http://www.w3.org/1999/02/22-rdf-syntax-ns#type"
  const SubClassOf: string := "http://www.w3.org/2000/01/rdf-schema#subClassOf"

  /** The object of a triple: a named node or a plain (simple) literal. */
  datatype Term = Iri(iri: string) | Literal(lexical: string)

  /** Subjects and predicates are always named nodes in this converter. */
  datatype Triple = Triple(subj: string, pred: string, obj: Term)

  /** Appending to a sequence of triples is associative. */
  lemma AppendAssoc(a: seq<Triple>, b: seq<Triple>, c: seq<Triple>)
    ensures a + b + c == a + (b + c)
  {
  }

  /** Three single appends are one append of three. */
  lemma AppendThree(a: seq<Triple>, t1: Triple, t2: Triple, t3: Triple)
    ensures a + [t1] + [t2] + [t3] == a + [t1, t2, t3]
  {
  }

  /** The in-memory graph sink keeps a set of triples: duplicates collapse. */
  function GraphOf(out: seq<Triple>): (g: set<Triple>)
    ensures forall t :: t in g <==> t in out
    ensures |g| <= |out|
  {
    if out == [] then {} else
      var rest := GraphOf(out[..|out| - 1]);
      assert out == out[..|out| - 1] + [out[|out| - 1]];
      rest + {out[|out| - 1]}
  }

  /** No triple occurs twice in the emitted sequence. */
  predicate Distinct(out: seq<Triple>) {
    forall i, j :: 0 <= i < j < |out| ==> out[i] != out[j]
  }

  /** Appending a triple not yet present grows the graph by one. */
  lemma GraphOfSnoc(init: seq<Triple>, last: Triple)
    ensures GraphOf(init + [last]) == GraphOf(init) + {last}
    ensures last !in init ==> |GraphOf(init + [last])| == |GraphOf(init)| + 1
  {
    assert (init + [last])[..|init|] == init;
  }

  /** A sequence grown by one triple has no repeats exactly when its prefix has none and the triple is new. */
  lemma DistinctSnoc(init: seq<Triple>, last: Triple)
    ensures Distinct(init + [last]) <==> Distinct(init) && last !in init
  {
    var out := init + [last];
    if last in init {
      var k :| 0 <= k < |init| && init[k] == last;
      assert out[k] == out[|init|];
    }
    if Distinct(out) {
      forall i, j | 0 <= i < j < |init| ensures init[i] != init[j] {
        assert out[i] == init[i] && out[j] == init[j];
      }
    }
    if Distinct(init) && last !in init {
      forall i, j | 0 <= i < j < |out| ensures out[i] != out[j] {
        assert out[i] == init[i];
        if j < |init| { assert out[j] == init[j]; }
      }
    }
  }

  /**
   The graph sink holds exactly as many triples as the textual sink holds
   lines if, and only if, no triple was emitted twice.
   */
  lemma {:induction false} GraphSizeMatchesIffDistinct(out: seq<Triple>)
    ensures |GraphOf(out)| == |out| <==> Distinct(out)
  {
    if out != [] {
      var init, last := out[..|out| - 1], out[|out| - 1];
      assert out == init + [last];
      GraphSizeMatchesIffDistinct(init);
      GraphOfSnoc(init, last);
      DistinctSnoc(init, last);
      assert |GraphOf(init)| <= |init|;
    }
  }
}
