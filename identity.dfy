/**
 Identifiers: every element and attribute node is `namespace/token` with a
 fresh token. The program takes its tokens from UUID v4 and never checks
 them; here they come from an injected supply, and distinctness is proved
 under the one assumption that the supply never repeats a token.
 */
module Identity {
  import opened Rdf
  import opened Walk

  /** The supply never hands out the same token twice. */
  ghost predicate Injective(ids: Ids) {
    forall j: nat, k: nat :: j != k ==> ids.token(j) != ids.token(k)
  }

  /** Different tokens give different identifiers, whatever the namespace. */
  lemma MintSeparates(ids: Ids, j: nat, k: nat)
    requires ids.token(j) != ids.token(k)
    ensures ids.Mint(j) != ids.Mint(k)
  {
    var cut := |ids.namespace| + 1;
    assert ids.Mint(j)[cut..] == ids.token(j);
    assert ids.Mint(k)[cut..] == ids.token(k);
  }

  /** The identifiers minted from tokens `lo` up to (not including) `hi`. */
  ghost function Minted(ids: Ids, lo: nat, hi: nat): set<string> {
    set k: nat | lo <= k < hi :: ids.Mint(k)
  }

  lemma MintedGrows(ids: Ids, lo: nat, hi: nat, hi': nat)
    requires hi <= hi'
    ensures Minted(ids, lo, hi) <= Minted(ids, lo, hi')
  {
  }

  /** With an injective supply, token `hi` gives an identifier not minted before it. */
  lemma NextIsNew(ids: Ids, lo: nat, hi: nat)
    requires Injective(ids)
    ensures ids.Mint(hi) !in Minted(ids, lo, hi)
  {
    forall k: nat | lo <= k < hi
      ensures ids.Mint(k) != ids.Mint(hi)
    {
      MintSeparates(ids, k, hi);
    }
  }

  /**
   With an injective supply, consecutive token ranges mint disjoint sets of
   identifiers: the elements of one document, whose tokens run from `a` to
   `b`, share no identifier with those of the next, whose tokens run from `b`
   to `c`. With `DocumentLinksStayInside`, no parent link joins two documents.
   */
  lemma RangesDisjoint(ids: Ids, a: nat, b: nat, c: nat)
    requires Injective(ids) && a <= b <= c
    ensures Minted(ids, a, b) !! Minted(ids, b, c)
  {
    forall j: nat, k: nat | a <= j < b <= k < c
      ensures ids.Mint(j) != ids.Mint(k)
    {
      MintSeparates(ids, j, k);
    }
  }

  /** Every open element was minted from a token in `lo .. hi`. */
  ghost predicate StackMinted(stack: seq<Node>, ids: Ids, lo: nat, hi: nat) {
    forall i :: 0 <= i < |stack| ==> stack[i].id in Minted(ids, lo, hi)
  }

  /** No two open elements share an identifier. */
  predicate UniqueIds(stack: seq<Node>) {
    forall i, j :: 0 <= i < j < |stack| ==> stack[i].id != stack[j].id
  }

  /** One event keeps every open element minted since `lo` and, with an injective supply, distinct. */
  lemma StepStackIds(m: WalkState, e: Event, ids: Ids, lo: nat)
    requires lo <= m.drawn && StackMinted(m.stack, ids, lo, m.drawn)
    ensures var r := Step(m, e, ids);
            lo <= r.drawn && StackMinted(r.stack, ids, lo, r.drawn)
    ensures Injective(ids) && UniqueIds(m.stack) ==> UniqueIds(Step(m, e, ids).stack)
  {
    var r := Step(m, e, ids);
    MintedGrows(ids, lo, m.drawn, r.drawn);
    match e
    case Start(local, attrs) =>
      var top := ids.Mint(m.drawn);
      assert |r.stack| == |m.stack| + 1 && r.stack[|m.stack|].id == top;
      assert top in Minted(ids, lo, r.drawn);
      forall i | 0 <= i < |m.stack| ensures r.stack[i] == m.stack[i] {
      }
      if Injective(ids) && UniqueIds(m.stack) {
        NextIsNew(ids, lo, m.drawn);
      }
    case Chars(_) =>
    case End =>
      forall i | 0 <= i < |r.stack| ensures r.stack[i] == m.stack[i] {
      }
    case Other =>
  }

  /**
   Every element on the stack was minted from a token drawn since `lo`, and
   with an injective supply the open elements have pairwise distinct
   identifiers.
   */
  lemma {:induction false} RunStackIds(w: WalkState, es: seq<Event>, ids: Ids, lo: nat)
    requires lo <= w.drawn && StackMinted(w.stack, ids, lo, w.drawn)
    ensures var r := Run(w, es, ids);
            lo <= r.drawn && StackMinted(r.stack, ids, lo, r.drawn)
    ensures Injective(ids) && UniqueIds(w.stack) ==> UniqueIds(Run(w, es, ids).stack)
    decreases |es|
  {
    if es != [] {
      var init := es[..|es| - 1];
      RunStackIds(w, init, ids, lo);
      StepStackIds(Run(w, init, ids), es[|es| - 1], ids, lo);
    }
  }

  /** A document's open elements all come from tokens drawn during that document. */
  lemma DocumentStackIds(out: seq<Triple>, drawn: nat, es: seq<Event>, ids: Ids)
    ensures var r := Run(Fresh(out, drawn), es, ids);
            StackMinted(r.stack, ids, drawn, r.drawn)
            && (Injective(ids) ==> UniqueIds(r.stack))
  {
    RunStackIds(Fresh(out, drawn), es, ids, drawn);
  }

  /** Every parent link among `ts` joins two identifiers minted from tokens in `lo .. hi`. */
  ghost predicate LinksWithin(ts: seq<Triple>, ids: Ids, lo: nat, hi: nat) {
    forall t :: t in ts && t.pred == HasChild ==>
      t.subj in Minted(ids, lo, hi) && t.obj.Iri? && t.obj.iri in Minted(ids, lo, hi)
  }

  lemma LinksWithinGrows(ts: seq<Triple>, ids: Ids, lo: nat, hi: nat, hi': nat)
    requires hi <= hi' && LinksWithin(ts, ids, lo, hi)
    ensures LinksWithin(ts, ids, lo, hi')
  {
    MintedGrows(ids, lo, hi, hi');
  }

  /** Attributes never write a parent link. */
  lemma {:induction false} AttrsHaveNoLinks(owner: Node, attrs: seq<Attribute>, ids: Ids, first: nat)
    ensures forall t :: t in AttrsTriples(owner, attrs, ids, first) ==> t.pred != HasChild
    decreases |attrs|
  {
    assert HasValue[|X2R| + 3] != HasChild[|X2R| + 3];
    if attrs != [] {
      AttrsHaveNoLinks(owner, attrs[..|attrs| - 1], ids, first);
    }
  }

  lemma LinksWithinConcat(a: seq<Triple>, b: seq<Triple>, ids: Ids, lo: nat, hi: nat)
    requires LinksWithin(a, ids, lo, hi) && LinksWithin(b, ids, lo, hi)
    ensures LinksWithin(a + b, ids, lo, hi)
  {
  }

  /**
   A new element's only parent link joins the innermost open element to the
   new one, and there is none at the root; so when both were minted in
   `lo .. hi`, so were the ends of every parent link it writes.
   */
  lemma ElementLinksWithin(stack: seq<Node>, n: Node, local: string, ids: Ids, lo: nat, hi: nat)
    requires stack != [] ==> stack[|stack| - 1].id in Minted(ids, lo, hi)
    requires n.id in Minted(ids, lo, hi)
    ensures forall t :: t in ElementTriples(stack, n, local) && t.pred == HasChild ==>
              stack != [] && t == Triple(stack[|stack| - 1].id, HasChild, Iri(n.id))
    ensures LinksWithin(ElementTriples(stack, n, local), ids, lo, hi)
  {
    assert HasName[|X2R| + 3] != HasChild[|X2R| + 3];
    assert RdfType[4] != HasChild[4];
    assert SubClassOf[4] != HasChild[4];
  }

  /** A start tag writes parent links only between elements minted since `lo`. */
  lemma StartLinksWithin(m: WalkState, local: string, attrs: seq<Attribute>, ids: Ids, lo: nat)
    requires lo <= m.drawn && StackMinted(m.stack, ids, lo, m.drawn)
    ensures var r := Step(m, Start(local, attrs), ids);
            r.out[..|m.out|] == m.out && LinksWithin(r.out[|m.out|..], ids, lo, r.drawn)
  {
    var r := Step(m, Start(local, attrs), ids);
    var n := Node(ElementPath(m.stack, local), ids.Mint(m.drawn));
    var own := ElementTriples(m.stack, n, local);
    var rest := AttrsTriples(n, attrs, ids, m.drawn + 1);
    assert r.out == m.out + own + rest;
    SplitAfter(m.out, own, rest);
    MintedGrows(ids, lo, m.drawn, r.drawn);
    assert n.id in Minted(ids, lo, r.drawn);
    if m.stack != [] {
      assert m.stack[|m.stack| - 1].id in Minted(ids, lo, m.drawn);
    }
    ElementLinksWithin(m.stack, n, local, ids, lo, r.drawn);
    AttrsHaveNoLinks(n, attrs, ids, m.drawn + 1);
    LinksWithinConcat(own, rest, ids, lo, r.drawn);
  }

  /** What comes before and after the end of `a` in `a + b + c`. */
  lemma SplitAfter(a: seq<Triple>, b: seq<Triple>, c: seq<Triple>)
    ensures (a + b + c)[..|a|] == a && (a + b + c)[|a|..] == b + c
  {
  }

  /** One event writes parent links only between elements minted since `lo`. */
  lemma StepLinksWithin(m: WalkState, e: Event, ids: Ids, lo: nat)
    requires lo <= m.drawn && StackMinted(m.stack, ids, lo, m.drawn)
    ensures var r := Step(m, e, ids);
            |m.out| <= |r.out| && r.out[..|m.out|] == m.out && LinksWithin(r.out[|m.out|..], ids, lo, r.drawn)
  {
    match e
    case Start(local, attrs) =>
      StartLinksWithin(m, local, attrs, ids, lo);
    case Chars(text) =>
      assert HasValue[|X2R| + 3] != HasChild[|X2R| + 3];
      assert Step(m, e, ids).out[|m.out|..] == CharsTriples(m.subject, text);
    case End =>
      assert Step(m, e, ids).out[|m.out|..] == [];
    case Other =>
      assert Step(m, e, ids).out[|m.out|..] == [];
  }

  /**
   Parent links written during a run from a stack minted since `lo` only
   join elements minted since `lo`.
   */
  lemma {:induction false} RunLinksWithin(w: WalkState, es: seq<Event>, ids: Ids, lo: nat)
    requires lo <= w.drawn && StackMinted(w.stack, ids, lo, w.drawn)
    ensures var r := Run(w, es, ids);
            |w.out| <= |r.out| && LinksWithin(r.out[|w.out|..], ids, lo, r.drawn)
    decreases |es|
  {
    if es == [] {
      assert w.out[|w.out|..] == [];
    } else {
      var init, last := es[..|es| - 1], es[|es| - 1];
      RunLinksWithin(w, init, ids, lo);
      RunStackIds(w, init, ids, lo);
      var m := Run(w, init, ids);
      var r := Step(m, last, ids);
      assert Run(w, es, ids) == r;
      StepLinksWithin(m, last, ids, lo);
      LinksAfter(w.out, m.out, r.out, ids, lo, m.drawn, r.drawn);
    }
  }

  /** Links written in two stretches, each within range, are within range together. */
  lemma LinksAfter(a: seq<Triple>, b: seq<Triple>, c: seq<Triple>, ids: Ids, lo: nat, mid: nat, hi: nat)
    requires |a| <= |b| <= |c| && b[..|a|] == a && c[..|b|] == b && mid <= hi
    requires LinksWithin(b[|a|..], ids, lo, mid) && LinksWithin(c[|b|..], ids, lo, hi)
    ensures LinksWithin(c[|a|..], ids, lo, hi)
  {
    assert c[|a|..] == b[|a|..] + c[|b|..];
    LinksWithinGrows(b[|a|..], ids, lo, mid, hi);
    LinksWithinConcat(b[|a|..], c[|b|..], ids, lo, hi);
  }

  /**
   No parent link crosses documents: every `hasChild` triple a document
   writes joins two elements whose identifiers were minted from tokens drawn
   while that document was being read.
   */
  lemma DocumentLinksStayInside(out: seq<Triple>, drawn: nat, es: seq<Event>, ids: Ids)
    ensures var r := Run(Fresh(out, drawn), es, ids);
            |out| <= |r.out| && LinksWithin(r.out[|out|..], ids, drawn, r.drawn)
  {
    RunLinksWithin(Fresh(out, drawn), es, ids, drawn);
  }
}
