/**
 The tree walker of `parse_xml` as a pure state machine: one `Step` per
 parser event, `Run` over one document's events and `Convert` over a list of
 documents. The imperative model in module Converter is proved equal to these
 functions; the lemmas in the other modules are stated about them.
 */
module Walk {
  import opened Rdf
  import opened Text

  datatype Option<T> = None | Some(value: T)

  /** One attribute of a start tag: its local name and its raw value. */
  datatype Attribute = Attribute(name: string, value: string)

  /**
   The parser events the walker tells apart. Everything else the XML reader
   yields (document start and end, comments, CDATA, whitespace runs,
   processing instructions, parse errors) is `Other`.
   */
  datatype Event =
    | Start(local: string, attrs: seq<Attribute>)
    | Chars(text: string)
    | End
    | Other

  /** An open element: its dotted structural path and its identifier. */
  datatype Node = Node(path: string, id: string)

  /**
   The identifier supply: the caller's namespace and the k-th fresh token
   (a UUID v4 in the running program). Every identifier is
   `namespace + "/" + token`.
   */
  datatype Ids = Ids(namespace: string, token: nat -> string) {
    function Mint(k: nat): (id: string)
      ensures |id| == |namespace| + 1 + |token(k)|
      ensures id[..|namespace|] == namespace && id[|namespace|] == '/'
      ensures id[|namespace| + 1..] == token(k)
    {
      namespace + "/" + token(k)
    }
  }

  /**
   The walker's state: the ancestor stack (innermost last), the current
   subject, everything written to the sink so far and how many tokens have
   been drawn from the supply.
   */
  datatype WalkState = WalkState(stack: seq<Node>, subject: Option<Node>, out: seq<Triple>, drawn: nat)

  /** The state at the start of every document: sink and supply carry over. */
  function Fresh(out: seq<Triple>, drawn: nat): WalkState {
    WalkState([], None, out, drawn)
  }

  /** Path of a new element: below the innermost open element, or a root path. */
  function ElementPath(stack: seq<Node>, local: string): (p: string)
    ensures |local| < |p| && p[|p| - |local|..] == local
    ensures stack == [] ==> |X2R| <= |p| && p[..|X2R|] == X2R
    ensures stack != [] ==> var parent := stack[|stack| - 1].path;
                            |parent| < |p| && p[..|parent|] == parent && p[|parent|] == '.'
  {
    if stack == [] then X2R + local else stack[|stack| - 1].path + "." + local
  }

  /** The path-shaped IRI that types an attribute of `owner`. */
  function AttributePath(owner: Node, name: string): string {
    owner.path + ".-" + name
  }

  /** The triples written for a new element `n` opened below `stack`. */
  function ElementTriples(stack: seq<Node>, n: Node, local: string): (ts: seq<Triple>)
    ensures |ts| == if stack == [] then 3 else 4
  {
    (if stack == [] then [] else [Triple(stack[|stack| - 1].id, HasChild, Iri(n.id))])
    + [ Triple(n.id, RdfType, Literal(n.path)),
        Triple(n.id, HasName, Literal(local)),
        Triple(n.id, SubClassOf, Iri(XmlNode)) ]
  }

  /** The triples written for one attribute `a` of `owner`, whose node is `attrId`. */
  function AttributeTriples(owner: Node, attrId: string, a: Attribute): (ts: seq<Triple>)
    ensures |ts| == if a.value == "" then 3 else 4
  {
    var typeIri := AttributePath(owner, a.name);
    [ Triple(owner.id, HasAttribute, Iri(attrId)),
      Triple(attrId, RdfType, Iri(typeIri)),
      Triple(typeIri, SubClassOf, Iri(XmlAttribute)) ]
    + (if a.value != "" then [Triple(attrId, HasValue, Literal(a.value))] else [])
  }

  /** How many attributes have an empty value. */
  function EmptyValues(attrs: seq<Attribute>): (k: nat)
    ensures k <= |attrs|
  {
    if attrs == [] then 0
    else EmptyValues(attrs[..|attrs| - 1]) + (if attrs[|attrs| - 1].value == "" then 1 else 0)
  }

  /**
   The triples written for the attributes of `owner`, in source order; the
   i-th attribute's node is identified by token `first + i`.
   */
  function AttrsTriples(owner: Node, attrs: seq<Attribute>, ids: Ids, first: nat): (ts: seq<Triple>)
    ensures |ts| == 4 * |attrs| - EmptyValues(attrs)
  {
    if attrs == [] then []
    else
      var n := |attrs| - 1;
      AttrsTriples(owner, attrs[..n], ids, first) + AttributeTriples(owner, ids.Mint(first + n), attrs[n])
  }

  /** Character data yields a value triple on the subject when it trims to something. */
  function CharsTriples(subject: Option<Node>, text: string): (ts: seq<Triple>)
    ensures |ts| <= 1
    ensures ts != [] <==> subject.Some? && !Blank(text)
    ensures ts != [] ==> ts[0].subj == subject.value.id && ts[0].pred == HasValue && ts[0].obj == Literal(Trim(text))
  {
    TrimEmptyIffBlank(text);
    var t := Trim(text);
    if t != [] && subject.Some? then [Triple(subject.value.id, HasValue, Literal(t))] else []
  }

  /** The stack after an end tag: `Vec::pop`, which does nothing on an empty stack. */
  function Pop(stack: seq<Node>): (r: seq<Node>)
    ensures |r| == if stack == [] then 0 else |stack| - 1
    ensures r == stack[..|r|]
  {
    if stack == [] then [] else stack[..|stack| - 1]
  }

  /**
   One event of the walker. The sink only grows, at most one element is
   opened, and tokens are only ever drawn.
   */
  function Step(w: WalkState, e: Event, ids: Ids): (r: WalkState)
    ensures |w.out| <= |r.out| && r.out[..|w.out|] == w.out
    ensures w.drawn <= r.drawn
    ensures |r.stack| <= |w.stack| + 1
  {
    match e
    case Start(local, attrs) =>
      var n := Node(ElementPath(w.stack, local), ids.Mint(w.drawn));
      WalkState(w.stack + [n], Some(n),
                w.out + ElementTriples(w.stack, n, local) + AttrsTriples(n, attrs, ids, w.drawn + 1),
                w.drawn + 1 + |attrs|)
    case Chars(text) =>
      w.(out := w.out + CharsTriples(w.subject, text))
    case End =>
      w.(stack := Pop(w.stack), subject := None)
    case Other =>
      w
  }

  /**
   A sequence of events, one `Step` after another. Within a document the
   sink only grows, and tokens are only ever drawn.
   */
  function Run(w: WalkState, es: seq<Event>, ids: Ids): (r: WalkState)
    ensures |w.out| <= |r.out| && r.out[..|w.out|] == w.out
    ensures w.drawn <= r.drawn
    decreases |es|
  {
    if es == [] then w
    else
      var mid := Run(w, es[..|es| - 1], ids);
      var next := Step(mid, es[|es| - 1], ids);
      assert next.out[..|w.out|] == mid.out[..|w.out|];
      next
  }

  /**
   Several documents in turn into one sink: each starts from an empty stack
   and no subject, while the sink's contents and the token supply carry over.
   */
  function Convert(out: seq<Triple>, drawn: nat, files: seq<seq<Event>>, ids: Ids): (r: WalkState)
    ensures |out| <= |r.out| && r.out[..|out|] == out
    ensures drawn <= r.drawn
    decreases |files|
  {
    if files == [] then Fresh(out, drawn)
    else
      var before := Convert(out, drawn, files[..|files| - 1], ids);
      var after := Run(Fresh(before.out, before.drawn), files[|files| - 1], ids);
      assert after.out[..|out|] == before.out[..|out|];
      after
  }
}
