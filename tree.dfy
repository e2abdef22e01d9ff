/**
 An independent description of what the converter produces: the XML
 document as a tree, the event stream a reader delivers for it, and the
 triples each element should yield, defined by recursion over the tree
 rather than by an explicit stack. The walker is proved to produce exactly
 these triples for every document.
 */
module Tree {
  import opened Rdf
  import opened Text
  import opened Walk
  import opened Structure

  /** An XML element with its attributes and its content, or a run of character data. */
  datatype Xml =
    | Element(name: string, attrs: seq<Attribute>, children: seq<Xml>)
    | Data(text: string)

  /** The events a reader yields for a tree, in document order. */
  function Events(x: Xml): seq<Event>
    decreases x
  {
    match x
    case Element(name, attrs, children) => [Start(name, attrs)] + EventsOf(children) + [End]
    case Data(text) => [Chars(text)]
  }

  function EventsOf(xs: seq<Xml>): seq<Event>
    decreases xs
  {
    if xs == [] then [] else Events(xs[0]) + EventsOf(xs[1..])
  }

  /** Tokens used by a tree: one per element and one per attribute. */
  function Tokens(x: Xml): nat
    decreases x
  {
    match x
    case Element(_, attrs, children) => 1 + |attrs| + TokensOf(children)
    case Data(_) => 0
  }

  function TokensOf(xs: seq<Xml>): nat
    decreases xs
  {
    if xs == [] then 0 else Tokens(xs[0]) + TokensOf(xs[1..])
  }

  /**
   The triples of element `x`, opened below `parent` (None for a document's
   root element), whose identifiers use tokens from `d` on: its parent link,
   its type, name and class, its attributes, then its content.
   */
  function ElementOut(parent: Option<Node>, x: Xml, ids: Ids, d: nat): seq<Triple>
    requires x.Element?
    decreases x
  {
    var path := if parent.Some? then parent.value.path + "." + x.name else X2R + x.name;
    var n := Node(path, ids.Mint(d));
    (if parent.Some? then [Triple(parent.value.id, HasChild, Iri(n.id))] else [])
    + [ Triple(n.id, RdfType, Literal(path)),
        Triple(n.id, HasName, Literal(x.name)),
        Triple(n.id, SubClassOf, Iri(XmlNode)) ]
    + AttrsTriples(n, x.attrs, ids, d + 1)
    + ContentOut(n, x.children, Some(n), ids, d + 1 + |x.attrs|)
  }

  /**
   The triples of the content of element `n`, read while `subject` is the
   current subject (`Some(n)` at the start of the content). Character data
   gives the subject a value; a child element leaves no subject behind it,
   so the parent's text after its first child element is not recorded.
   */
  function ContentOut(n: Node, xs: seq<Xml>, subject: Option<Node>, ids: Ids, d: nat): seq<Triple>
    decreases xs
  {
    if xs == [] then []
    else
      match xs[0]
      case Data(text) =>
        var t := Trim(text);
        (if subject.Some? && t != [] then [Triple(subject.value.id, HasValue, Literal(t))] else [])
        + ContentOut(n, xs[1..], subject, ids, d)
      case Element(_, _, _) =>
        ElementOut(Some(n), xs[0], ids, d) + ContentOut(n, xs[1..], None, ids, d + Tokens(xs[0]))
  }

  /** The innermost open element, if any. */
  function Top(stack: seq<Node>): Option<Node> {
    if stack == [] then None else Some(stack[|stack| - 1])
  }

  /** Content made of character data only. */
  predicate AllData(xs: seq<Xml>) {
    forall i :: 0 <= i < |xs| ==> xs[i].Data?
  }

  /** `ElementOut` taken apart: parent link, own triples, attributes, content. */
  lemma ElementOutParts(parent: Option<Node>, x: Xml, ids: Ids, d: nat, n: Node,
                        sub: Option<Node>, d1: nat, content: seq<Triple>)
    requires x.Element?
    requires n == Node(if parent.Some? then parent.value.path + "." + x.name else X2R + x.name, ids.Mint(d))
    requires sub == Some(n) && d1 == d + 1 + |x.attrs|
    requires content == ContentOut(n, x.children, sub, ids, d1)
    ensures ElementOut(parent, x, ids, d)
            == (if parent.Some? then [Triple(parent.value.id, HasChild, Iri(n.id))] else [])
               + [ Triple(n.id, RdfType, Literal(n.path)),
                   Triple(n.id, HasName, Literal(x.name)),
                   Triple(n.id, SubClassOf, Iri(XmlNode)) ]
               + AttrsTriples(n, x.attrs, ids, d + 1)
               + content
  {
  }

  /** The element's own triples, as the walker forms them, are those of the reference. */
  lemma ElementHead(stack: seq<Node>, x: Xml, ids: Ids, d: nat, n: Node, head: seq<Triple>,
                    sub: Option<Node>, d1: nat, content: seq<Triple>)
    requires x.Element?
    requires n == Node(ElementPath(stack, x.name), ids.Mint(d))
    requires head == ElementTriples(stack, n, x.name) + AttrsTriples(n, x.attrs, ids, d + 1)
    requires sub == Some(n) && d1 == d + 1 + |x.attrs|
    requires content == ContentOut(n, x.children, sub, ids, d1)
    ensures head + content == ElementOut(Top(stack), x, ids, d)
  {
    var parent := Top(stack);
    assert n.path == if parent.Some? then parent.value.path + "." + x.name else X2R + x.name;
    ElementOutParts(parent, x, ids, d, n, sub, d1, content);
    var link := if parent.Some? then [Triple(parent.value.id, HasChild, Iri(n.id))] else [];
    var own := [ Triple(n.id, RdfType, Literal(n.path)),
                 Triple(n.id, HasName, Literal(x.name)),
                 Triple(n.id, SubClassOf, Iri(XmlNode)) ];
    assert ElementTriples(stack, n, x.name) == link + own;
  }

  /** Running three event sequences in turn, given the state after each. */
  lemma Compose3(w: WalkState, a: seq<Event>, b: seq<Event>, c: seq<Event>, ids: Ids,
                 w1: WalkState, w2: WalkState, w3: WalkState)
    requires Run(w, a, ids) == w1 && Run(w1, b, ids) == w2 && Run(w2, c, ids) == w3
    ensures Run(w, a + b + c, ids) == w3
  {
    RunAppend(w, a + b, c, ids);
    RunAppend(w, a, b, ids);
  }

  /** Running two event sequences in turn, given the state after each. */
  lemma Compose2(w: WalkState, a: seq<Event>, b: seq<Event>, ids: Ids, w1: WalkState, w2: WalkState)
    requires Run(w, a, ids) == w1 && Run(w1, b, ids) == w2
    ensures Run(w, a + b, ids) == w2
  {
    RunAppend(w, a, b, ids);
  }

  /** A start tag run on its own, with the resulting state spelled out. */
  lemma StartRun(w: WalkState, local: string, attrs: seq<Attribute>, ids: Ids, n: Node, w1: WalkState)
    requires n == Node(ElementPath(w.stack, local), ids.Mint(w.drawn))
    requires w1 == WalkState(w.stack + [n], Some(n),
                             w.out + ElementTriples(w.stack, n, local) + AttrsTriples(n, attrs, ids, w.drawn + 1),
                             w.drawn + 1 + |attrs|)
    ensures Run(w, [Start(local, attrs)], ids) == w1
  {
    RunOne(w, Start(local, attrs), ids);
  }

  /** An end tag run on its own pops the innermost element and clears the subject. */
  lemma EndRun(w: WalkState, stack: seq<Node>, n: Node, ids: Ids, w1: WalkState)
    requires w.stack == stack + [n]
    requires w1 == WalkState(stack, None, w.out, w.drawn)
    ensures Run(w, [End], ids) == w1
  {
    RunOne(w, End, ids);
    assert Pop(w.stack) == stack;
  }

  /** A run of character data on its own. */
  lemma CharsRun(w: WalkState, text: string, ids: Ids, w1: WalkState)
    requires w1 == WalkState(w.stack, w.subject, w.out + CharsTriples(w.subject, text), w.drawn)
    ensures Run(w, [Chars(text)], ids) == w1
  {
    RunOne(w, Chars(text), ids);
  }

  /** Walking an element's events, given the state after its start tag, its content and its end tag. */
  lemma ElementEventsRun(w: WalkState, x: Xml, ids: Ids, w1: WalkState, w2: WalkState, w3: WalkState)
    requires x.Element?
    requires Run(w, [Start(x.name, x.attrs)], ids) == w1
    requires Run(w1, EventsOf(x.children), ids) == w2
    requires Run(w2, [End], ids) == w3
    ensures Run(w, Events(x), ids) == w3
  {
    Compose3(w, [Start(x.name, x.attrs)], EventsOf(x.children), [End], ids, w1, w2, w3);
  }

  /** The state after an element's events, from the state after its content. */
  lemma ElementState(w: WalkState, x: Xml, ids: Ids, n: Node, head: seq<Triple>, w1: WalkState, w2: WalkState)
    requires x.Element?
    requires n == Node(ElementPath(w.stack, x.name), ids.Mint(w.drawn))
    requires head == ElementTriples(w.stack, n, x.name) + AttrsTriples(n, x.attrs, ids, w.drawn + 1)
    requires w1 == WalkState(w.stack + [n], Some(n), w.out + head, w.drawn + 1 + |x.attrs|)
    requires w2 == ContentState(w1, n, x.children, ids)
    ensures w2.out == w.out + ElementOut(Top(w.stack), x, ids, w.drawn) && w2.drawn == w.drawn + Tokens(x)
  {
    var content := ContentOut(n, x.children, w1.subject, ids, w1.drawn);
    assert w2.out == w1.out + content;
    assert w2.drawn == w.drawn + 1 + |x.attrs| + TokensOf(x.children);
    ElementHead(w.stack, x, ids, w.drawn, n, head, w1.subject, w1.drawn, content);
    AppendToPrefix(w.out, head, content, ElementOut(Top(w.stack), x, ids, w.drawn), w1.out, w2.out);
  }

  /**
   Walking an element's events from any state appends exactly the
   element's reference triples, leaves the stack as it was, clears the
   subject and uses `Tokens(x)` tokens.
   */
  lemma {:induction false} ElementRun(w: WalkState, x: Xml, ids: Ids)
    requires x.Element?
    ensures Run(w, Events(x), ids)
            == WalkState(w.stack, None, w.out + ElementOut(Top(w.stack), x, ids, w.drawn), w.drawn + Tokens(x))
    decreases x, 2
  {
    var n := Node(ElementPath(w.stack, x.name), ids.Mint(w.drawn));
    var tags := ElementTriples(w.stack, n, x.name);
    var attrs := AttrsTriples(n, x.attrs, ids, w.drawn + 1);
    var head := tags + attrs;
    var w1 := WalkState(w.stack + [n], Some(n), w.out + head, w.drawn + 1 + |x.attrs|);
    AppendAssoc(w.out, tags, attrs);
    StartRun(w, x.name, x.attrs, ids, n, w1);
    ContentRun(w1, n, x.children, ids);
    var w2 := Run(w1, EventsOf(x.children), ids);
    var w3 := WalkState(w.stack, None, w2.out, w2.drawn);
    EndRun(w2, w.stack, n, ids, w3);
    ElementEventsRun(w, x, ids, w1, w2, w3);
    ElementState(w, x, ids, n, head, w1, w2);
  }

  /** Character data at the head of the content: its value triple, if any, then the rest. */
  lemma ContentOutData(n: Node, xs: seq<Xml>, subject: Option<Node>, ids: Ids, d: nat)
    requires xs != [] && xs[0].Data?
    ensures ContentOut(n, xs, subject, ids, d)
            == CharsTriples(subject, xs[0].text) + ContentOut(n, xs[1..], subject, ids, d)
    ensures TokensOf(xs) == TokensOf(xs[1..])
    ensures AllData(xs) <==> AllData(xs[1..])
  {
    if AllData(xs[1..]) {
      forall i | 0 <= i < |xs| ensures xs[i].Data? {
        if i > 0 { assert xs[i] == xs[1..][i - 1]; }
      }
    }
  }

  /** A child element at the head of the content: its triples, then the rest without a subject. */
  lemma ContentOutElement(n: Node, xs: seq<Xml>, subject: Option<Node>, ids: Ids, d: nat)
    requires xs != [] && xs[0].Element?
    ensures ContentOut(n, xs, subject, ids, d)
            == ElementOut(Some(n), xs[0], ids, d) + ContentOut(n, xs[1..], None, ids, d + Tokens(xs[0]))
    ensures TokensOf(xs) == Tokens(xs[0]) + TokensOf(xs[1..])
    ensures !AllData(xs)
  {
  }

  /** Content events are those of the first item followed by those of the rest. */
  lemma EventsOfCons(xs: seq<Xml>)
    requires xs != []
    ensures EventsOf(xs) == Events(xs[0]) + EventsOf(xs[1..])
  {
  }

  /** The state after a content run from `w`, as `ContentRun` describes it. */
  function ContentState(w: WalkState, n: Node, xs: seq<Xml>, ids: Ids): WalkState {
    WalkState(w.stack, if AllData(xs) then w.subject else None,
              w.out + ContentOut(n, xs, w.subject, ids, w.drawn), w.drawn + TokensOf(xs))
  }

  /** Character data first in the content: the state after it, then after the rest. */
  lemma DataContent(w: WalkState, n: Node, xs: seq<Xml>, ids: Ids, w1: WalkState, w2: WalkState)
    requires xs != [] && xs[0].Data?
    requires w1 == WalkState(w.stack, w.subject, w.out + CharsTriples(w.subject, xs[0].text), w.drawn)
    requires w2 == ContentState(w1, n, xs[1..], ids)
    ensures w2 == ContentState(w, n, xs, ids)
  {
    ContentOutData(n, xs, w.subject, ids, w.drawn);
    AppendAssoc(w.out, CharsTriples(w.subject, xs[0].text), ContentOut(n, xs[1..], w.subject, ids, w.drawn));
  }

  /** A child element first in the content: the state after it, then after the rest. */
  lemma ElementContent(w: WalkState, n: Node, xs: seq<Xml>, ids: Ids, w1: WalkState, w2: WalkState)
    requires xs != [] && xs[0].Element?
    requires Top(w.stack) == Some(n)
    requires w1 == WalkState(w.stack, None, w.out + ElementOut(Top(w.stack), xs[0], ids, w.drawn), w.drawn + Tokens(xs[0]))
    requires w2 == ContentState(w1, n, xs[1..], ids)
    ensures w2 == ContentState(w, n, xs, ids)
  {
    ContentOutElement(n, xs, w.subject, ids, w.drawn);
    AppendAssoc(w.out, ElementOut(Some(n), xs[0], ids, w.drawn), ContentOut(n, xs[1..], None, ids, w1.drawn));
  }

  /** `ContentRun` when the content starts with character data. */
  lemma {:induction false} ContentRunData(w: WalkState, n: Node, xs: seq<Xml>, ids: Ids)
    requires xs != [] && xs[0].Data?
    requires w.stack != [] && w.stack[|w.stack| - 1] == n
    requires w.subject == None || w.subject == Some(n)
    ensures Run(w, EventsOf(xs), ids) == ContentState(w, n, xs, ids)
    decreases xs, 0
  {
    var text, rest := xs[0].text, xs[1..];
    var w1 := WalkState(w.stack, w.subject, w.out + CharsTriples(w.subject, text), w.drawn);
    CharsRun(w, text, ids, w1);
    ContentRun(w1, n, rest, ids);
    var w2 := Run(w1, EventsOf(rest), ids);
    EventsOfCons(xs);
    Compose2(w, [Chars(text)], EventsOf(rest), ids, w1, w2);
    DataContent(w, n, xs, ids, w1, w2);
  }

  /** `ContentRun` when the content starts with a child element. */
  lemma {:induction false} ContentRunElement(w: WalkState, n: Node, xs: seq<Xml>, ids: Ids)
    requires xs != [] && xs[0].Element?
    requires w.stack != [] && w.stack[|w.stack| - 1] == n
    ensures Run(w, EventsOf(xs), ids) == ContentState(w, n, xs, ids)
    decreases xs, 0
  {
    var first, rest := xs[0], xs[1..];
    assert Top(w.stack) == Some(n);
    ElementRun(w, first, ids);
    var w1 := Run(w, Events(first), ids);
    ContentRun(w1, n, rest, ids);
    var w2 := Run(w1, EventsOf(rest), ids);
    EventsOfCons(xs);
    Compose2(w, Events(first), EventsOf(rest), ids, w1, w2);
    ElementContent(w, n, xs, ids, w1, w2);
  }

  /**
   Walking the events of the content of `n`, the innermost open element,
   appends exactly `ContentOut`; the subject (`n`, or none) survives only
   content without child elements.
   */
  lemma {:induction false} ContentRun(w: WalkState, n: Node, xs: seq<Xml>, ids: Ids)
    requires w.stack != [] && w.stack[|w.stack| - 1] == n
    requires w.subject == None || w.subject == Some(n)
    ensures Run(w, EventsOf(xs), ids) == ContentState(w, n, xs, ids)
    decreases xs, 1
  {
    if xs == [] {
      assert EventsOf(xs) == [];
      assert w.out + [] == w.out;
    } else if xs[0].Data? {
      ContentRunData(w, n, xs, ids);
    } else {
      ContentRunElement(w, n, xs, ids);
    }
  }

  /** A single event that is not `Other` is kept. */
  lemma KeepOne(e: Event)
    requires !e.Other?
    ensures DropOther([e]) == [e]
  {
    assert [e][..0] == [];
  }

  /** A tree's events hold no `Other` event. */
  lemma {:induction false} EventsKept(x: Xml)
    ensures DropOther(Events(x)) == Events(x)
    decreases x, 1
  {
    match x
    case Element(name, attrs, children) =>
      var open, inner := [Start(name, attrs)], EventsOf(children);
      assert Events(x) == open + inner + [End];
      KeepOne(Start(name, attrs));
      KeepOne(End);
      EventsOfKept(children);
      DropOtherAppend(open + inner, [End]);
      DropOtherAppend(open, inner);
    case Data(text) =>
      KeepOne(Chars(text));
  }

  lemma {:induction false} EventsOfKept(xs: seq<Xml>)
    ensures DropOther(EventsOf(xs)) == EventsOf(xs)
    decreases xs, 0
  {
    if xs != [] {
      EventsKept(xs[0]);
      EventsOfKept(xs[1..]);
      DropOtherAppend(Events(xs[0]), EventsOf(xs[1..]));
    }
  }

  /**
   The walker reproduces the reference mapping: a document whose start
   tags, text and end tags are those of a tree with an element at its root,
   whatever other events come between them, yields exactly
   `ElementOut(None, root, ...)` after what the sink already held, and ends
   with an empty stack and no subject.
   */
  lemma DocumentMatchesTree(out: seq<Triple>, drawn: nat, root: Xml, es: seq<Event>, ids: Ids)
    requires root.Element? && DropOther(es) == Events(root)
    ensures Run(Fresh(out, drawn), es, ids)
            == WalkState([], None, out + ElementOut(None, root, ids, drawn), drawn + Tokens(root))
  {
    RunDropOther(Fresh(out, drawn), es, ids);
    ElementRun(Fresh(out, drawn), root, ids);
  }

  /**
   The stream a reader delivers for a whole document: a document start, the
   tree's events and a document end, none of which adds to the output.
   */
  lemma FramedDocument(out: seq<Triple>, drawn: nat, root: Xml, ids: Ids)
    requires root.Element?
    ensures Run(Fresh(out, drawn), [Other] + Events(root) + [Other], ids)
            == WalkState([], None, out + ElementOut(None, root, ids, drawn), drawn + Tokens(root))
  {
    EventsKept(root);
    DropFrame(Events(root));
    DocumentMatchesTree(out, drawn, root, [Other] + Events(root) + [Other], ids);
  }

  /** A document start and a document end around a stream are left out. */
  lemma DropFrame(inner: seq<Event>)
    ensures DropOther([Other] + inner + [Other]) == DropOther(inner)
  {
    assert [Other][..0] == [];
    assert DropOther([Other]) == [];
    DropOtherAppend([Other] + inner, [Other]);
    DropOtherAppend([Other], inner);
    assert [] + DropOther(inner) + [] == DropOther(inner);
  }

  /** Tokens used by several documents. */
  function TokensOfDocuments(roots: seq<Xml>): nat {
    if roots == [] then 0 else TokensOfDocuments(roots[..|roots| - 1]) + Tokens(roots[|roots| - 1])
  }

  /** The reference triples of several documents, one after the other. */
  function DocumentsOut(roots: seq<Xml>, ids: Ids, d: nat): seq<Triple>
    requires forall i :: 0 <= i < |roots| ==> roots[i].Element?
  {
    if roots == [] then []
    else
      var init := roots[..|roots| - 1];
      DocumentsOut(init, ids, d) + ElementOut(None, roots[|roots| - 1], ids, d + TokensOfDocuments(init))
  }

  /**
   The last document's part of the reference description of several
   documents; its identifiers start at `last`, the tokens used before it.
   */
  lemma DocumentsSnoc(roots: seq<Xml>, ids: Ids, d: nat, last: nat)
    requires roots != [] && forall i :: 0 <= i < |roots| ==> roots[i].Element?
    requires last == d + TokensOfDocuments(roots[..|roots| - 1])
    ensures DocumentsOut(roots, ids, d)
            == DocumentsOut(roots[..|roots| - 1], ids, d) + ElementOut(None, roots[|roots| - 1], ids, last)
  {
  }

  /** The tokens of several documents: those before the last one, then the last one's. */
  lemma TokensSnoc(roots: seq<Xml>, d: nat, last: nat)
    requires roots != []
    requires last == d + TokensOfDocuments(roots[..|roots| - 1])
    ensures d + TokensOfDocuments(roots) == last + Tokens(roots[|roots| - 1])
  {
  }

  /** Appending to a sink that already holds a prefix of the whole. */
  lemma AppendToPrefix(out: seq<Triple>, prev: seq<Triple>, mine: seq<Triple>, whole: seq<Triple>,
                       before: seq<Triple>, after: seq<Triple>)
    requires whole == prev + mine && before == out + prev && after == before + mine
    ensures after == out + whole
  {
    AppendAssoc(out, prev, mine);
  }

  /** Files whose events are those of their trees, cut to the first `n`. */
  lemma MatchesInit(files: seq<seq<Event>>, roots: seq<Xml>, n: nat)
    requires n <= |roots| == |files|
    requires forall i :: 0 <= i < |roots| ==> roots[i].Element? && DropOther(files[i]) == Events(roots[i])
    ensures forall i :: 0 <= i < n ==> roots[..n][i].Element? && DropOther(files[..n][i]) == Events(roots[..n][i])
  {
  }

  /**
   Several documents into one sink: each file's stream carries the events
   of one tree, with any other events in between, and each document's
   reference triples are appended in turn to what the sink already held,
   with no state carried from one document to the next other than the
   token supply.
   */
  lemma {:induction false} ConvertMatchesTrees(out: seq<Triple>, drawn: nat, files: seq<seq<Event>>, roots: seq<Xml>, ids: Ids)
    requires |files| == |roots|
    requires forall i :: 0 <= i < |roots| ==> roots[i].Element? && DropOther(files[i]) == Events(roots[i])
    ensures Convert(out, drawn, files, ids)
            == WalkState([], None, out + DocumentsOut(roots, ids, drawn), drawn + TokensOfDocuments(roots))
    decreases |roots|
  {
    if roots != [] {
      var n := |roots| - 1;
      var init, last := roots[..n], roots[n];
      var d := drawn + TokensOfDocuments(init);
      DocumentsSnoc(roots, ids, drawn, d);
      TokensSnoc(roots, drawn, d);
      MatchesInit(files, roots, n);
      ConvertMatchesTrees(out, drawn, files[..n], init, ids);
      var before := Convert(out, drawn, files[..n], ids);
      assert before == Fresh(before.out, d);
      DocumentMatchesTree(before.out, d, last, files[n], ids);
      var after := Run(Fresh(before.out, d), files[n], ids);
      assert Convert(out, drawn, files, ids) == after;
      AppendToPrefix(out, DocumentsOut(init, ids, drawn), ElementOut(None, last, ids, d), DocumentsOut(roots, ids, drawn),
                     before.out, after.out);
    }
  }
}
