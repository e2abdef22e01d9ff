# xml2rdf converter core, modelled in Dafny

xml2rdf turns XML documents into RDF triples that describe their structure.
Every element and every attribute becomes a node named
`namespace/token`, where the token is a fresh UUID. Nodes are linked by a
small fixed vocabulary under `https://decisym.ai/xml2rdf/model#`:
`hasChild`, `hasAttribute`, `hasName`, `hasValue`, `XmlNode` and
`XmlAttribute`. Two further predicates come from the standard vocabularies:
`rdf:type` and `rdfs:subClassOf`. Each element is typed by its dotted
structural path. Each attribute is typed by an IRI made of that path, `.-`
and the attribute's name.

The core is `parse_xml`. It reads the parser events of one file after
another. For each file it keeps an ancestor stack and a current subject.
For every event it appends a fixed pattern of triples to a sink.

The model has three layers:

- **The program as it runs** (`convert.dfy`, module `Converter`). These are
  imperative methods over a `Sink` class and a `TokenSource` class:
  - the sink appends triples;
  - the token source stands for `Uuid::new_v4`.

  `ParseXml` holds the loop over files and the loop over events.
  `HandleEvent` holds the `match` on one event. `StartElement` and
  `WriteAttributes` hold the start-tag and attribute code. Each method is
  proved to compute exactly what the pure state machine below computes.
- **The state machine** (`walk.dfy`, module `Walk`). `Step` handles one
  event, `Run` one document's events, and `Convert` a list of documents.
  Module `Rdf` (`rdf.dfy`) holds the vocabulary, the triple type and the
  graph sink's set view. Module `Text` (`text.dfy`) holds Rust's
  `str::trim` with the exact Unicode White_Space set of
  `char::is_whitespace`.
- **What is proved about it**:
  - `Emission`: what each kind of event writes, in order.
  - `Structure`: the sink only grows; the stack follows the nesting; the
    path rule; the subject is always the innermost open element.
  - `Identity`: identifiers are fresh when the token supply never repeats,
    and parent links never cross documents.
  - `Tree`: an independent reference, an XML tree datatype with a recursive
    mapping to triples. The walker is proved to produce exactly that
    mapping's triples for every document and for every list of documents,
    whatever other events (document start and end, comments, processing
    instructions) a reader delivers between the tags.

## Model

| member | source | states |
|---|---|---|
| Converter.Sink.AddTriple | src/convert.rs:197-201 | writing a triple appends it to what the sink already holds |
| Converter.TokenSource.Next | src/convert.rs:83 | each call hands out the next token of the supply and counts it as drawn |
| Converter.WriteAttributes | src/convert.rs:125-165 | the attribute loop appends exactly `AttrsTriples` for the element's attributes, in order, and draws one token per attribute |
| Converter.StartElement | src/convert.rs:79-123 | a start tag makes node `namespace/token` with its dotted path, pushes it, makes it the subject, writes the parent link (only below a parent), `type`, `hasName`, `subClassOf XmlNode`, then the attributes; draws 1 + attribute count tokens |
| Converter.HandleEvent | src/convert.rs:77-189 | one event changes stack, subject, sink and token count exactly as `Walk.Step` says |
| Converter.ParseXml | src/convert.rs:56-195 | the whole conversion leaves in the sink, after its earlier contents, exactly what `Walk.Convert` computes; stack and subject restart with every file |
| Walk.Ids.Mint | src/convert.rs:90 | an identifier is the namespace, a slash and the token, so namespace and token can be read back from it |
| Walk.ElementPath | src/convert.rs:84-88 | an element's path ends with its local name; below a parent it extends the parent's path by a dot, at the root it starts with the model namespace |
| Walk.CharsTriples | src/convert.rs:167-183 | text writes at most one triple; it writes one exactly when there is a subject and the text is not all whitespace, and that triple is the subject's `hasValue` with the trimmed text |
| Walk.Pop | src/convert.rs:185 | an end tag removes the innermost element, and nothing from an empty stack; the rest of the stack is kept |
| Walk.Step | src/convert.rs:77-189 | one event only appends to the sink, only draws tokens, and opens at most one element |
| Walk.Run | src/convert.rs:77-190 | within a document the sink only grows, with its earlier contents as a prefix, and tokens are only drawn |
| Walk.Convert | src/convert.rs:68-191 | across all files the sink only grows, with its earlier contents as a prefix, and tokens are only drawn |
| Walk.ElementTriples | src/convert.rs:94-120 | a new element writes 4 triples below a parent and 3 at the root |
| Walk.AttributeTriples | src/convert.rs:127-163 | an attribute writes 4 triples when its value is non-empty and 3 when it is empty |
| Walk.AttrsTriples | src/convert.rs:126-165 | the attributes of an element write 4 triples each, minus one per empty value |
| Emission.StartStep | src/convert.rs:79-123 | a start tag pushes exactly one node, makes it the subject, keeps the earlier sink as a prefix, adds 3 (+1 below a parent) + 4 per attribute − empty values triples, and draws 1 + attribute count tokens |
| Emission.StartTriples | src/convert.rs:94-120 | the triples of a start tag in order: `hasChild` from the innermost open element (only if there is one), `type` with the path literal, `hasName`, `subClassOf XmlNode`, then the attributes |
| Emission.AttrsInSourceOrder | src/convert.rs:126-165 | the k-th attribute's triples form the k-th block, in source order, with the node minted from the k-th token after the element's |
| Emission.AttributeShape | src/convert.rs:134-163 | an attribute writes `hasAttribute`, `type` to the path-shaped IRI, `subClassOf XmlAttribute` on that IRI, and `hasValue` exactly when its value is non-empty |
| Emission.CharsStep | src/convert.rs:167-183 | text writes one `hasValue` with the trimmed text exactly when there is a subject and the text is not all whitespace, otherwise nothing; stack, subject and supply stay the same |
| Emission.EndStep | src/convert.rs:184-187 | an end tag pops the innermost node (nothing on an empty stack), clears the subject and writes nothing |
| Emission.OtherStep | src/convert.rs:188 | every other event, parse errors included, changes nothing |
| Emission.TextAfterEndIsDropped | src/convert.rs:167-187 | after an end tag, any run of text and other events writes nothing, even inside a parent that is still open |
| Emission.LoneRoot | src/convert.rs:79-188 | a document made of one empty root element, with any other events around it, writes exactly its `type`, `hasName` and `subClassOf` triples and ends with an empty stack and no subject |
| Emission.CountIgnoresIdentifiers | src/convert.rs:77-189 | how many triples a run writes depends on the events alone, not on the tokens or on the sink's earlier contents |
| Emission.AttributeClassAt | src/convert.rs:139-148 | the `subClassOf XmlAttribute` triple of an attribute depends only on the element's path and the attribute's name |
| Emission.SiblingsRepeatAttributeClass | src/convert.rs:139-148 | two sibling elements in a row with the same name and the same attribute write a triple twice, so the graph sink ends up smaller than the file sink |
| Rdf.GraphOf | src/writer.rs:66-70 | the graph sink holds exactly the written triples as a set, never more of them than were written |
| Rdf.GraphSizeMatchesIffDistinct | src/writer.rs:47-70 | the graph sink and the file sink agree on the number of triples if and only if no triple was written twice |
| Text.SkipBlanks | src/convert.rs:169 | scanning forward stops at the first character that is not whitespace, having passed only whitespace |
| Text.BackBlanks | src/convert.rs:169 | scanning backward, no further than a lower bound, stops just after the last character that is not whitespace, having passed only whitespace |
| Text.Trim | src/convert.rs:169 | `trim` never lengthens the text, and what it keeps neither starts nor ends with whitespace |
| Text.TrimSlice | src/convert.rs:169 | what `trim` keeps is the slice of the text between its leading and trailing whitespace, and all that is cut off on either side is whitespace |
| Text.TrimEmptyIffBlank | src/convert.rs:169-170 | text trims to nothing exactly when all of it is whitespace |
| Structure.ConvertOutGrows | src/convert.rs:68-191 | across documents the sink only grows: the output after any prefix of the file list is a prefix of the final output |
| Structure.RunDropOther | src/convert.rs:188 | events other than start tags, text and end tags change nothing wherever they occur: a run gives the same state with them left out |
| Structure.RunKeepsSubjectOnTop | src/convert.rs:84-187 | the subject, when set, is always the innermost open element |
| Structure.RunStackDepth | src/convert.rs:122-185 | without unmatched end tags, the stack keeps the elements open before the run, with opens − closes elements above them |
| Structure.BalancedRestoresStack | src/convert.rs:74-187 | balanced start and end tags leave the stack as they found it, so a well-formed document ends with an empty stack |
| Structure.PathOfStartsWithModelNamespace | src/convert.rs:84-88 | every element path begins with the model namespace |
| Structure.StepPathsFollow | src/convert.rs:84-88 | one event keeps each open element's path equal to the path its ancestors' names dictate |
| Structure.RunPathsFollow | src/convert.rs:84-122 | over a run, the i-th open element's path is built from the names of the first i+1 open elements |
| Structure.DocumentPaths | src/convert.rs:84-88 | a root's path is the model namespace plus its name; a child's path is its parent's path, a dot and its name |
| Identity.MintSeparates | src/convert.rs:90 | different tokens give different `namespace/token` identifiers |
| Identity.NextIsNew | src/convert.rs:83 | with a supply that never repeats, a new element's identifier differs from every identifier minted before it |
| Identity.StepStackIds | src/convert.rs:83-122 | one event keeps every open element minted during the document and, with a non-repeating supply, all of them distinct |
| Identity.RunStackIds | src/convert.rs:83-122 | over a run, open elements were minted since the run began and, with a non-repeating supply, have pairwise distinct identifiers |
| Identity.DocumentStackIds | src/convert.rs:74-122 | in every document the open elements come from that document's tokens and are distinct under a non-repeating supply |
| Identity.AttrsHaveNoLinks | src/convert.rs:126-165 | attributes never write a `hasChild` triple |
| Identity.ElementLinksWithin | src/convert.rs:95-120 | the only parent link of a new element joins the innermost open element to the new element, and a root element has none |
| Identity.StartLinksWithin | src/convert.rs:79-165 | a start tag's parent link joins two elements minted during the current document |
| Identity.StepLinksWithin | src/convert.rs:77-189 | one event keeps the sink's earlier contents and writes parent links only between elements of the current document |
| Identity.RunLinksWithin | src/convert.rs:77-190 | all parent links of a run join elements minted during it |
| Identity.DocumentLinksStayInside | src/convert.rs:68-190 | every `hasChild` triple a document writes has both ends minted from tokens drawn while that document was read |
| Identity.RangesDisjoint | src/convert.rs:68-90 | with a non-repeating supply, one document's tokens and the next document's tokens mint disjoint sets of identifiers, so with the previous row no parent link joins two documents |
| Tree.ElementHead | src/convert.rs:84-165 | the walker's element and attribute triples are the first part of the reference triples of that element |
| Tree.ElementRun | src/convert.rs:77-189 | the events of an element, from any state, append exactly the element's reference triples, restore the stack, clear the subject and draw one token per element and attribute |
| Tree.ContentRun | src/convert.rs:77-189 | the events of an element's content append exactly the reference triples of that content; text after a child element is not recorded |
| Tree.DocumentMatchesTree | src/convert.rs:68-191 | a document whose tags and text are those of a tree with an element at its root, whatever other events lie between them, yields exactly the reference triples of its tree and ends with an empty stack and no subject |
| Tree.FramedDocument | src/convert.rs:68-191 | a tree's events between a document start and a document end, as a reader delivers them, yield exactly the tree's reference triples |
| Tree.ConvertMatchesTrees | src/convert.rs:56-195 | several files into one sink, each carrying one tree's tags and text among any other events, yield, after the sink's earlier contents, the reference triples of each tree in turn |

## Where the description of the system and the code differ

- The description counts 3 triples per attribute. The code writes 4 per
  attribute with a non-empty value: `hasAttribute`, `type`, `subClassOf`
  and `hasValue`. It writes 3 when the value is empty. The model follows
  the code (`Walk.AttrsTriples`, `Emission.AttributeShape`).
- The description says the textual sink and the in-memory graph sink
  always agree on the triple count. The code writes the same `subClassOf
  XmlAttribute` triple once for every attribute that shares a path and a
  name. The graph sink is a set, so it collapses these repeats. The counts
  therefore agree only when nothing repeats (`Rdf.GraphSizeMatchesIffDistinct`).
  Repeats do happen (`Emission.SiblingsRepeatAttributeClass`).

## Left out

- File and stream I/O is not modelled:
  - opening the output in create/append mode;
  - the panic of `output_path.unwrap()` when no path is given;
  - `BufWriter`, the final `flush`, and opening each input file.

  The sink is a sequence of triples and never fails, so the early return on
  an I/O error (`?`) is not modelled.
- The xml-rs tokeniser is not modelled. A document is given as its list of
  events. Everything other than start tag, text and end tag is one `Other`
  event: document start and end, comments, CDATA, whitespace, processing
  instructions and parse errors. Names are the local names the code reads.
  The `Tree` results hold for any stream whose tags and text are a tree's.
  That a well-formed document's stream has this shape is the tokeniser's
  promise; it is not proved here.
- UUID v4 randomness is replaced by an injected supply, `nat -> string`.
  Distinct identifiers are proved under the assumption that the supply
  never repeats a token. The program itself relies on UUIDs being
  probably unique.
- IRI validation by `NamedNode::new(...).unwrap()` is not modelled; every
  identifier and path IRI is taken to be valid. N-Triples rendering by
  `triple.to_string()` is not modelled either: the sink records the triples
  themselves.
- The `print!` warning for an empty attribute value is not modelled. It is
  console output only.
- The attribute loop's `if let Some(ref s) = subject` always finds a subject
  right after a start tag. Its empty branch cannot happen and has no
  counterpart in the model.
- The rest of the repository is not part of this model:
  - the `FileWriter` and `GraphWriter` realisations in src/writer.rs, beyond
    the set view of the graph sink;
  - the command-line front end in src/main.rs;
  - the integration test in tests/integration.rs, whose counts depend on a
    fixture document.
- The newer `parse_xml(files, &mut writer, ns)` signature is covered through
  the abstract sink. Only the emission logic is modelled.
