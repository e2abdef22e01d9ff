/**
 The converter as the program runs it: `parse_xml` walks the parser events of
 each input document in turn, keeping an ancestor stack and a current subject
 as local variables, and appends triples to a sink as it goes. Every method
 here is proved to do exactly what the matching function of module Walk says.
 */
module Converter {
  import opened Rdf
  import opened Walk

  /**
   The triple sink. Both writers of the program (the append-mode file writer
   and the in-memory graph writer) accept one triple at a time; here the sink
   records them in the order they arrive. What was in it before is kept.
   */
  class Sink {
    var triples: seq<Triple>

    constructor (existing: seq<Triple>)
      ensures triples == existing
    {
      triples := existing;
    }

    /** `write_triple` / `add_triple`: append one triple. */
    method AddTriple(t: Triple)
      modifies this
      ensures triples == old(triples) + [t]
    {
      triples := triples + [t];
    }
  }

  /**
   The source of fresh tokens that stands for `Uuid::new_v4`: the k-th call
   returns `token(k)`. Identifiers are distinct exactly when `token` is
   injective (see module Identity).
   */
  class TokenSource {
    const token: nat -> string
    var drawn: nat

    constructor (token: nat -> string)
      ensures this.token == token && drawn == 0
    {
      this.token := token;
      drawn := 0;
    }

    method Next() returns (t: string)
      modifies this
      ensures t == token(old(drawn)) && drawn == old(drawn) + 1
    {
      t := token(drawn);
      drawn := drawn + 1;
    }
  }

  /** The attribute loop of a start tag: four triples per attribute, three when its value is empty. */
  method WriteAttributes(s: Node, attributes: seq<Attribute>, writer: Sink, uuids: TokenSource, namespace: string)
    modifies writer, uuids
    ensures writer.triples
            == old(writer.triples) + AttrsTriples(s, attributes, Ids(namespace, uuids.token), old(uuids.drawn))
    ensures uuids.drawn == old(uuids.drawn) + |attributes|
  {
    ghost var ids := Ids(namespace, uuids.token);
    ghost var first := old(uuids.drawn);
    for i := 0 to |attributes|
      invariant writer.triples == old(writer.triples) + AttrsTriples(s, attributes[..i], ids, first)
      invariant uuids.drawn == first + i
    {
      ghost var before := writer.triples;
      var attr := attributes[i];
      var attribId := uuids.Next();
      var path := s.path + ".-" + attr.name;
      var attrSubject := namespace + "/" + attribId;
      var t1 := Triple(s.id, HasAttribute, Iri(attrSubject));
      var t2 := Triple(attrSubject, RdfType, Iri(path));
      var t3 := Triple(path, SubClassOf, Iri(XmlAttribute));
      writer.AddTriple(t1);
      writer.AddTriple(t2);
      writer.AddTriple(t3);
      AppendThree(before, t1, t2, t3);
      ghost var value: seq<Triple> := [];
      if attr.value != "" {
        var t4 := Triple(attrSubject, HasValue, Literal(attr.value));
        writer.AddTriple(t4);
        value := [t4];
      }
      AppendAssoc(before, [t1, t2, t3], value);
      assert attrSubject == ids.Mint(first + i);
      assert [t1, t2, t3] + value == AttributeTriples(s, attrSubject, attr);
      assert attributes[..i + 1][..i] == attributes[..i];
      AppendAssoc(old(writer.triples), AttrsTriples(s, attributes[..i], ids, first), [t1, t2, t3] + value);
    }
    assert attributes[..|attributes|] == attributes;
  }

  /**
   A start tag: mint the element's identifier, compute its path, write its
   four (three at the root) triples, push it and make it the subject, then
   write its attributes.
   */
  method StartElement(name: string, attributes: seq<Attribute>, stack: seq<Node>,
                      writer: Sink, uuids: TokenSource, namespace: string)
    returns (stack': seq<Node>, subject: Option<Node>)
    modifies writer, uuids
    ensures var n := Node(ElementPath(stack, name), Ids(namespace, uuids.token).Mint(old(uuids.drawn)));
            && stack' == stack + [n] && subject == Some(n)
            && writer.triples == old(writer.triples) + ElementTriples(stack, n, name)
                                 + AttrsTriples(n, attributes, Ids(namespace, uuids.token), old(uuids.drawn) + 1)
            && uuids.drawn == old(uuids.drawn) + 1 + |attributes|
  {
    ghost var ids := Ids(namespace, uuids.token);
    ghost var before := writer.triples;
    var id := uuids.Next();
    var path := if |stack| > 0 then stack[|stack| - 1].path + "." + name else X2R + name;
    var s := Node(path, namespace + "/" + id);
    subject := Some(s);
    assert s == Node(ElementPath(stack, name), ids.Mint(old(uuids.drawn)));
    if |stack| > 0 {
      writer.AddTriple(Triple(stack[|stack| - 1].id, HasChild, Iri(s.id)));
    }
    var t1 := Triple(s.id, RdfType, Literal(s.path));
    var t2 := Triple(s.id, HasName, Literal(name));
    var t3 := Triple(s.id, SubClassOf, Iri(XmlNode));
    ghost var linked := writer.triples;
    writer.AddTriple(t1);
    writer.AddTriple(t2);
    writer.AddTriple(t3);
    AppendThree(linked, t1, t2, t3);
    if |stack| > 0 {
      AppendAssoc(before, [Triple(stack[|stack| - 1].id, HasChild, Iri(s.id))], [t1, t2, t3]);
    }
    assert writer.triples == before + ElementTriples(stack, s, name);
    stack' := stack + [s];
    WriteAttributes(s, attributes, writer, uuids, namespace);
  }

  /** One parser event: the body of the `match` in `parse_xml`. */
  method HandleEvent(e: Event, stack: seq<Node>, subject: Option<Node>,
                     writer: Sink, uuids: TokenSource, namespace: string)
    returns (stack': seq<Node>, subject': Option<Node>)
    modifies writer, uuids
    ensures WalkState(stack', subject', writer.triples, uuids.drawn)
            == Step(WalkState(stack, subject, old(writer.triples), old(uuids.drawn)), e, Ids(namespace, uuids.token))
  {
    stack', subject' := stack, subject;
    match e {
      case Start(name, attributes) =>
        stack', subject' := StartElement(name, attributes, stack, writer, uuids, namespace);
      case Chars(text) =>
        var trimmed := Text.Trim(text);
        if trimmed != [] {
          if subject.Some? {
            writer.AddTriple(Triple(subject.value.id, HasValue, Literal(trimmed)));
          }
        }
      case End =>
        if |stack| > 0 {
          stack' := stack[..|stack| - 1];
        }
        subject' := None;
      case Other =>
    }
  }

  /**
   `parse_xml`: every file's events in turn into one sink. Stack and subject
   are reset per file; the sink and the token supply carry over, so the
   sink's earlier contents stay a prefix of what it holds afterwards.
   */
  method ParseXml(files: seq<seq<Event>>, writer: Sink, uuids: TokenSource, namespace: string)
    modifies writer, uuids
    ensures var w := Convert(old(writer.triples), old(uuids.drawn), files, Ids(namespace, uuids.token));
            writer.triples == w.out && uuids.drawn == w.drawn
  {
    ghost var ids := Ids(namespace, uuids.token);
    for f := 0 to |files|
      invariant var w := Convert(old(writer.triples), old(uuids.drawn), files[..f], ids);
                writer.triples == w.out && uuids.drawn == w.drawn
    {
      var events := files[f];
      var stack: seq<Node> := [];
      var subject: Option<Node> := None;
      ghost var start := Fresh(writer.triples, uuids.drawn);
      for i := 0 to |events|
        invariant WalkState(stack, subject, writer.triples, uuids.drawn) == Run(start, events[..i], ids)
      {
        stack, subject := HandleEvent(events[i], stack, subject, writer, uuids, namespace);
        assert events[..i + 1][..i] == events[..i];
      }
      assert events[..|events|] == events;
      assert files[..f + 1][..f] == files[..f];
    }
    assert files[..|files|] == files;
  }
}
