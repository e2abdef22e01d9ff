/**
 What each kind of parser event writes to the sink, and what it does to the
 stack and the subject.
 */
module Emission {
  import opened Rdf
  import opened Text
  import opened Walk
  import opened Structure

  /**
   A start tag pushes exactly one element and makes it the subject, keeps
   what the sink held and adds three triples for the element, one more when
   it has an enclosing element, and four per attribute (three for an empty
   value). It draws one token for the element and one per attribute.
   */
  lemma StartStep(w: WalkState, local: string, attrs: seq<Attribute>, ids: Ids)
    ensures var r := Step(w, Start(local, attrs), ids);
            var n := Node(ElementPath(w.stack, local), ids.Mint(w.drawn));
            && r.stack == w.stack + [n]
            && r.subject == Some(n)
            && r.drawn == w.drawn + 1 + |attrs|
            && |r.out| == |w.out| + (if w.stack == [] then 3 else 4) + 4 * |attrs| - EmptyValues(attrs)
            && r.out[..|w.out|] == w.out
  {
    var n := Node(ElementPath(w.stack, local), ids.Mint(w.drawn));
    var head := ElementTriples(w.stack, n, local);
    var tail := AttrsTriples(n, attrs, ids, w.drawn + 1);
    assert Step(w, Start(local, attrs), ids).out == w.out + head + tail;
    Layout(w.out, head, tail);
  }

  /**
   The triples of a start tag, in order: `hasChild` from the enclosing
   element when there is one, then the element's `type` (its path as a
   literal), `hasName` and `subClassOf XmlNode`, then its attributes'.
   */
  lemma StartTriples(w: WalkState, local: string, attrs: seq<Attribute>, ids: Ids)
    ensures var r := Step(w, Start(local, attrs), ids);
            var n := Node(ElementPath(w.stack, local), ids.Mint(w.drawn));
            var h := if w.stack == [] then 0 else 1;
            && |w.out| + h + 3 <= |r.out|
            && (w.stack != [] ==> r.out[|w.out|] == Triple(w.stack[|w.stack| - 1].id, HasChild, Iri(n.id)))
            && r.out[|w.out| + h] == Triple(n.id, RdfType, Literal(n.path))
            && r.out[|w.out| + h + 1] == Triple(n.id, HasName, Literal(local))
            && r.out[|w.out| + h + 2] == Triple(n.id, SubClassOf, Iri(XmlNode))
            && r.out[|w.out| + h + 3..] == AttrsTriples(n, attrs, ids, w.drawn + 1)
  {
    var n := Node(ElementPath(w.stack, local), ids.Mint(w.drawn));
    var head := ElementTriples(w.stack, n, local);
    var tail := AttrsTriples(n, attrs, ids, w.drawn + 1);
    assert Step(w, Start(local, attrs), ids).out == w.out + head + tail;
    Layout(w.out, head, tail);
  }

  /** Positions in `out + head + tail`: `out` first, then `head`, then `tail`. */
  lemma Layout(out: seq<Triple>, head: seq<Triple>, tail: seq<Triple>)
    ensures (out + head + tail)[..|out|] == out
    ensures forall i :: 0 <= i < |head| ==> (out + head + tail)[|out| + i] == head[i]
    ensures (out + head + tail)[|out| + |head|..] == tail
  {
  }

  /** Where the triples of the k-th attribute begin among those of all attributes. */
  function AttrsOffset(attrs: seq<Attribute>, k: nat): nat
    requires k <= |attrs|
  {
    4 * k - EmptyValues(attrs[..k])
  }

  /**
   The attributes are written in source order, each as one block: the k-th
   attribute's block is `AttributeTriples` for it with the node minted from
   token `first + k`.
   */
  lemma {:induction false} AttrsInSourceOrder(owner: Node, attrs: seq<Attribute>, ids: Ids, first: nat, k: nat)
    requires k < |attrs|
    ensures var ts := AttrsTriples(owner, attrs, ids, first);
            && AttrsOffset(attrs, k) <= AttrsOffset(attrs, k + 1) <= |ts|
            && ts[AttrsOffset(attrs, k)..AttrsOffset(attrs, k + 1)]
               == AttributeTriples(owner, ids.Mint(first + k), attrs[k])
    decreases |attrs|
  {
    var n := |attrs| - 1;
    var init := attrs[..n];
    var ts := AttrsTriples(owner, attrs, ids, first);
    var front := AttrsTriples(owner, init, ids, first);
    assert ts == front + AttributeTriples(owner, ids.Mint(first + n), attrs[n]);
    var last := AttributeTriples(owner, ids.Mint(first + n), attrs[n]);
    if k == n {
      assert attrs[..k] == init;
      assert attrs[..k + 1] == attrs;
      assert AttrsOffset(attrs, k) == |front|;
      assert AttrsOffset(attrs, k + 1) == |ts|;
      SliceOfAppend(front, last, |front|, |ts|);
    } else {
      AttrsInSourceOrder(owner, init, ids, first, k);
      assert attrs[..k] == init[..k];
      assert attrs[..k + 1] == init[..k + 1];
      assert AttrsOffset(attrs, k) == AttrsOffset(init, k);
      assert AttrsOffset(attrs, k + 1) == AttrsOffset(init, k + 1);
      SliceOfAppend(front, last, AttrsOffset(attrs, k), AttrsOffset(attrs, k + 1));
    }
  }

  /** A slice of `a + b` that lies within `a`, or that is all of `b`. */
  lemma SliceOfAppend(a: seq<Triple>, b: seq<Triple>, i: nat, j: nat)
    requires i <= j <= |a| || (i == |a| && j == |a| + |b|)
    ensures j <= |a| ==> (a + b)[i..j] == a[i..j]
    ensures i == |a| && j == |a| + |b| ==> (a + b)[i..j] == b
  {
  }

  /**
   One attribute writes `hasAttribute` from its element, `type` to the
   path-shaped IRI (element path, ".-", attribute name), `subClassOf
   XmlAttribute` with that IRI as subject, and `hasValue` exactly when its
   value is not empty.
   */
  lemma AttributeShape(owner: Node, attrId: string, a: Attribute)
    ensures var ts := AttributeTriples(owner, attrId, a);
            var typeIri := owner.path + ".-" + a.name;
            && ts[..3] == [ Triple(owner.id, HasAttribute, Iri(attrId)),
                            Triple(attrId, RdfType, Iri(typeIri)),
                            Triple(typeIri, SubClassOf, Iri(XmlAttribute)) ]
            && (|ts| == 4 <==> a.value != "")
            && (a.value != "" ==> ts[3] == Triple(attrId, HasValue, Literal(a.value)))
  {
  }

  /**
   Character data writes one `hasValue` triple, carrying the trimmed text, on
   the subject exactly when there is a subject and the text is not all
   whitespace; otherwise nothing. Stack, subject and supply are untouched.
   */
  lemma CharsStep(w: WalkState, text: string, ids: Ids)
    ensures var r := Step(w, Chars(text), ids);
            && r.stack == w.stack && r.subject == w.subject && r.drawn == w.drawn
            && r.out[..|w.out|] == w.out
            && (|r.out| == |w.out| + 1 <==> w.subject.Some? && !Blank(text))
            && (|r.out| == |w.out| + 1 || |r.out| == |w.out|)
            && (|r.out| == |w.out| + 1 ==> r.out[|w.out|] == Triple(w.subject.value.id, HasValue, Literal(Trim(text))))
  {
    TrimEmptyIffBlank(text);
  }

  /**
   An end tag pops the innermost element (nothing, on an empty stack) and
   clears the subject; it writes nothing.
   */
  lemma EndStep(w: WalkState, ids: Ids)
    ensures var r := Step(w, End, ids);
            && r.out == w.out && r.drawn == w.drawn && r.subject == None
            && (w.stack == [] ==> r.stack == [])
            && (w.stack != [] ==> r.stack + [w.stack[|w.stack| - 1]] == w.stack)
  {
  }

  /** Every other event (parse errors included) changes nothing. */
  lemma OtherStep(w: WalkState, ids: Ids)
    ensures Step(w, Other, ids) == w
  {
  }

  /** Events that neither open nor close an element. */
  predicate NoTags(es: seq<Event>) {
    forall i :: 0 <= i < |es| ==> !es[i].Start? && !es[i].End?
  }

  /**
   Text that follows an end tag, up to the next tag, is dropped: after the
   end tag there is no subject, so no number of text (or other) events
   writes anything, even while the parent element is still open.
   */
  lemma {:induction false} TextAfterEndIsDropped(w: WalkState, es: seq<Event>, ids: Ids)
    requires NoTags(es)
    ensures var r := Run(Step(w, End, ids), es, ids);
            r.out == w.out && r.subject == None && r.stack == Pop(w.stack)
    decreases |es|
  {
    if es != [] {
      TextAfterEndIsDropped(w, es[..|es| - 1], ids);
    }
  }

  /**
   A document that is one root element with no attributes, children or text
   yields exactly three triples: its `type`, `hasName` and `subClassOf`,
   whatever other events (document start and end, comments) surround it.
   */
  lemma LoneRoot(out: seq<Triple>, drawn: nat, local: string, es: seq<Event>, ids: Ids)
    requires DropOther(es) == [Start(local, []), End]
    ensures Run(Fresh(out, drawn), es, ids) == LoneRootState(out, drawn, local, ids)
    ensures var id := ids.Mint(drawn);
            LoneRootState(out, drawn, local, ids).out
            == out + [ Triple(id, RdfType, Literal(X2R + local)),
                       Triple(id, HasName, Literal(local)),
                       Triple(id, SubClassOf, Iri(XmlNode)) ]
  {
    RunDropOther(Fresh(out, drawn), es, ids);
    LoneRootTags(out, drawn, local, ids);
  }

  /** The state after a lone root element: empty stack, no subject, one token drawn. */
  function LoneRootState(out: seq<Triple>, drawn: nat, local: string, ids: Ids): WalkState {
    var id := ids.Mint(drawn);
    WalkState([], None,
              out + [ Triple(id, RdfType, Literal(X2R + local)),
                      Triple(id, HasName, Literal(local)),
                      Triple(id, SubClassOf, Iri(XmlNode)) ],
              drawn + 1)
  }

  /** `LoneRoot` for the stream of its two tags alone. */
  lemma LoneRootTags(out: seq<Triple>, drawn: nat, local: string, ids: Ids)
    ensures Run(Fresh(out, drawn), [Start(local, []), End], ids) == LoneRootState(out, drawn, local, ids)
  {
    var tags := [Start(local, []), End];
    var w0 := Fresh(out, drawn);
    assert tags[..1] == [Start(local, [])];
    assert tags[..1][..0] == [];
    var n := Node(X2R + local, ids.Mint(drawn));
    assert ElementPath([], local) == n.path;
    var w1 := Step(w0, Start(local, []), ids);
    assert w1 == WalkState([n], Some(n), out + ElementTriples([], n, local), drawn + 1);
    assert Run(w0, tags[..1], ids) == w1;
  }

  /** The two states agree on everything that decides how many triples are written. */
  predicate SameShape(w1: WalkState, w2: WalkState) {
    |w1.stack| == |w2.stack| && w1.subject.Some? == w2.subject.Some?
  }

  /**
   How many triples a run writes is decided by the events alone: the
   identifier supply (the random tokens of the program) and the contents
   already in the sink make no difference.
   */
  lemma {:induction false} CountIgnoresIdentifiers(w1: WalkState, w2: WalkState, es: seq<Event>, ids1: Ids, ids2: Ids)
    requires SameShape(w1, w2)
    ensures var r1, r2 := Run(w1, es, ids1), Run(w2, es, ids2);
            SameShape(r1, r2) && |r1.out| - |w1.out| == |r2.out| - |w2.out|
    decreases |es|
  {
    if es != [] {
      var init := es[..|es| - 1];
      CountIgnoresIdentifiers(w1, w2, init, ids1, ids2);
      var m1, m2 := Run(w1, init, ids1), Run(w2, init, ids2);
      match es[|es| - 1]
      case Start(local, attrs) =>
        StartStep(m1, local, attrs, ids1);
        StartStep(m2, local, attrs, ids2);
      case Chars(text) =>
        CharsStep(m1, text, ids1);
        CharsStep(m2, text, ids2);
      case End =>
      case Other =>
    }
  }

  /**
   A start tag with one attribute writes, as the third triple of that
   attribute, `subClassOf XmlAttribute` on the attribute's path-shaped IRI,
   which depends only on the enclosing path and the two names.
   */
  lemma AttributeClassAt(w: WalkState, local: string, a: Attribute, ids: Ids)
    ensures var r := Step(w, Start(local, [a]), ids);
            var k := if w.stack == [] then 3 else 4;
            && |w.out| + k + 3 <= |r.out| && r.out[..|w.out|] == w.out
            && r.out[|w.out| + k + 2]
               == Triple(ElementPath(w.stack, local) + ".-" + a.name, SubClassOf, Iri(XmlAttribute))
  {
    var n := Node(ElementPath(w.stack, local), ids.Mint(w.drawn));
    var head := ElementTriples(w.stack, n, local);
    var tail := AttrsTriples(n, [a], ids, w.drawn + 1);
    assert [a][..0] == [];
    assert tail == AttributeTriples(n, ids.Mint(w.drawn + 1), a);
    assert Step(w, Start(local, [a]), ids).out == w.out + head + tail;
    Layout(w.out, head, tail);
  }

  /** Three events in a row are three steps. */
  lemma RunThree(w: WalkState, e1: Event, e2: Event, e3: Event, ids: Ids)
    ensures Run(w, [e1, e2, e3], ids) == Step(Step(Step(w, e1, ids), e2, ids), e3, ids)
  {
    var es := [e1, e2, e3];
    RunOne(w, e1, ids);
    assert [e1, e2][..1] == [e1];
    assert Run(w, [e1, e2], ids) == Step(Step(w, e1, ids), e2, ids);
    assert es[..2] == [e1, e2];
  }

  /**
   Two sibling elements in a row with the same name and an attribute of the
   same name write the same `subClassOf` triple twice. The file sink then
   holds a repeated line, and the graph sink, a set, fewer triples than the
   file sink has lines.
   */
  lemma SiblingsRepeatAttributeClass(w: WalkState, local: string, a: Attribute, ids: Ids)
    ensures var r := Run(w, [Start(local, [a]), End, Start(local, [a])], ids);
            !Distinct(r.out) && |GraphOf(r.out)| < |r.out|
  {
    var w1 := Step(w, Start(local, [a]), ids);
    var w2 := Step(w1, End, ids);
    var w3 := Step(w2, Start(local, [a]), ids);
    RunThree(w, Start(local, [a]), End, Start(local, [a]), ids);
    AttributeClassAt(w, local, a, ids);
    AttributeClassAt(w2, local, a, ids);
    assert w2.stack == w.stack && w2.out == w1.out;
    var i := |w.out| + (if w.stack == [] then 3 else 4) + 2;
    var j := |w2.out| + (if w.stack == [] then 3 else 4) + 2;
    assert w3.out[i] == w3.out[..|w2.out|][i] == w1.out[i];
    assert i < j && w3.out[i] == w3.out[j];
    GraphSizeMatchesIffDistinct(w3.out);
  }
}
