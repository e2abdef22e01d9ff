/**
 What the walker keeps true over a whole run: the sink only grows, the
 subject is always the innermost open element, the stack follows the
 nesting of start and end tags, and every open element's path is built from
 the local names of its ancestors.
 */
module Structure {
  import opened Rdf
  import opened Walk

  /** Running two event sequences one after the other is running their concatenation. */
  lemma {:induction false} RunAppend(w: WalkState, a: seq<Event>, b: seq<Event>, ids: Ids)
    ensures Run(w, a + b, ids) == Run(Run(w, a, ids), b, ids)
    decreases |b|
  {
    if b == [] {
      assert a + b == a;
    } else {
      var b' := b[..|b| - 1];
      assert (a + b)[..|a + b| - 1] == a + b';
      assert (a + b)[|a + b| - 1] == b[|b| - 1];
      RunAppend(w, a, b', ids);
    }
  }

  /** Running a single event is one `Step`. */
  lemma RunOne(w: WalkState, e: Event, ids: Ids)
    ensures Run(w, [e], ids) == Step(w, e, ids)
  {
    assert [e][..0] == [];
  }

  /** The events that are not `Other`, in their order. */
  function DropOther(es: seq<Event>): (r: seq<Event>)
    ensures |r| <= |es|
    ensures forall i :: 0 <= i < |r| ==> !r[i].Other?
    decreases |es|
  {
    if es == [] then []
    else DropOther(es[..|es| - 1]) + (if es[|es| - 1].Other? then [] else [es[|es| - 1]])
  }

  /**
   Events other than start tags, text and end tags change nothing, wherever
   they occur: a run gives the same state with them left out. A document's
   start and end, comments and processing instructions are such events.
   */
  lemma {:induction false} RunDropOther(w: WalkState, es: seq<Event>, ids: Ids)
    ensures Run(w, es, ids) == Run(w, DropOther(es), ids)
    decreases |es|
  {
    if es != [] {
      var init, last := es[..|es| - 1], es[|es| - 1];
      RunDropOther(w, init, ids);
      var kept := DropOther(init);
      assert Run(w, es, ids) == Step(Run(w, init, ids), last, ids);
      if !last.Other? {
        assert DropOther(es) == kept + [last];
        RunAppend(w, kept, [last], ids);
        RunOne(Run(w, kept, ids), last, ids);
      } else {
        assert DropOther(es) == kept + [];
        assert kept + [] == kept;
      }
    }
  }

  /** Leaving out `Other` events, piece by piece. */
  lemma {:induction false} DropOtherAppend(a: seq<Event>, b: seq<Event>)
    ensures DropOther(a + b) == DropOther(a) + DropOther(b)
    decreases |b|
  {
    if b == [] {
      assert a + b == a;
    } else {
      var b' := b[..|b| - 1];
      assert (a + b)[..|a + b| - 1] == a + b';
      DropOtherAppend(a, b');
    }
  }

  /**
   Across documents the sink only grows: what it held before any prefix of
   the file list was converted, and what that prefix wrote, stays a prefix of
   what the whole list writes.
   */
  lemma {:induction false} ConvertOutGrows(out: seq<Triple>, drawn: nat, files: seq<seq<Event>>, k: nat, ids: Ids)
    requires k <= |files|
    ensures var before := Convert(out, drawn, files[..k], ids).out;
            var after := Convert(out, drawn, files, ids).out;
            |before| <= |after| && after[..|before|] == before
    ensures |out| <= |Convert(out, drawn, files, ids).out| && Convert(out, drawn, files, ids).out[..|out|] == out
    decreases |files|
  {
    if files == [] {
    } else if k == |files| {
      assert files[..k] == files;
      ConvertOutGrows(out, drawn, files[..|files| - 1], |files| - 1, ids);
      var prev := Convert(out, drawn, files[..|files| - 1], ids);
    } else {
      var init := files[..|files| - 1];
      assert init[..k] == files[..k];
      ConvertOutGrows(out, drawn, init, k, ids);
      var prev := Convert(out, drawn, init, ids);
    }
  }

  /** The subject, when there is one, is the innermost open element. */
  predicate SubjectOnTop(w: WalkState) {
    w.subject.Some? ==> w.stack != [] && w.subject.value == w.stack[|w.stack| - 1]
  }

  /**
   Every run from a state whose subject is on top of the stack (in particular
   every document, which starts without a subject) ends in such a state; so
   text is only ever attributed to the innermost open element.
   */
  lemma {:induction false} RunKeepsSubjectOnTop(w: WalkState, es: seq<Event>, ids: Ids)
    requires SubjectOnTop(w)
    ensures SubjectOnTop(Run(w, es, ids))
    decreases |es|
  {
    if es != [] {
      RunKeepsSubjectOnTop(w, es[..|es| - 1], ids);
    }
  }

  /** Number of start tags among `es`. */
  function Opens(es: seq<Event>): (n: nat)
    ensures n <= |es|
  {
    if es == [] then 0 else Opens(es[..|es| - 1]) + (if es[|es| - 1].Start? then 1 else 0)
  }

  /** Number of end tags among `es`. */
  function Closes(es: seq<Event>): (n: nat)
    ensures n <= |es|
  {
    if es == [] then 0 else Closes(es[..|es| - 1]) + (if es[|es| - 1].End? then 1 else 0)
  }

  /** No prefix of `es` closes more elements than it opened. */
  predicate NoUnderflow(es: seq<Event>) {
    forall k :: 0 <= k <= |es| ==> Closes(es[..k]) <= Opens(es[..k])
  }

  /** Start and end tags nest properly: no underflow and every element is closed. */
  predicate Balanced(es: seq<Event>) {
    NoUnderflow(es) && Closes(es) == Opens(es)
  }

  /**
   Without underflow, the stack keeps the elements that were open before the
   run, below exactly `Opens - Closes` elements opened during it.
   */
  lemma {:induction false} RunStackDepth(w: WalkState, es: seq<Event>, ids: Ids)
    requires NoUnderflow(es)
    ensures var st := Run(w, es, ids).stack;
            |st| + Closes(es) == |w.stack| + Opens(es) && |w.stack| <= |st| && st[..|w.stack|] == w.stack
    decreases |es|
  {
    if es != [] {
      var init := es[..|es| - 1];
      assert NoUnderflow(init) by {
        forall k | 0 <= k <= |init| ensures Closes(init[..k]) <= Opens(init[..k]) {
          assert init[..k] == es[..k];
        }
      }
      RunStackDepth(w, init, ids);
      assert es[..|es|] == es;
    }
  }

  /** A balanced event sequence leaves the stack as it found it: a document ends with an empty stack. */
  lemma BalancedRestoresStack(w: WalkState, es: seq<Event>, ids: Ids)
    requires Balanced(es)
    ensures Run(w, es, ids).stack == w.stack
  {
    RunStackDepth(w, es, ids);
  }

  /** The local names of the elements open after `es`, starting from `names`. */
  function OpenNames(names: seq<string>, es: seq<Event>): seq<string>
    decreases |es|
  {
    if es == [] then names
    else
      var before := OpenNames(names, es[..|es| - 1]);
      match es[|es| - 1]
      case Start(local, _) => before + [local]
      case End => if before == [] then [] else before[..|before| - 1]
      case _ => before
  }

  /**
   The path an element gets from the local names of its ancestors and its
   own (outermost first): the root's is the model namespace followed by its
   name, every other one extends its parent's with a dot and its name.
   */
  function PathOf(names: seq<string>): string
    requires names != []
    decreases |names|
  {
    if |names| == 1 then X2R + names[0]
    else PathOf(names[..|names| - 1]) + "." + names[|names| - 1]
  }

  /** Every path starts with the model namespace. */
  lemma {:induction false} PathOfStartsWithModelNamespace(names: seq<string>)
    requires names != []
    ensures |X2R| <= |PathOf(names)| && PathOf(names)[..|X2R|] == X2R
    decreases |names|
  {
    if |names| > 1 {
      PathOfStartsWithModelNamespace(names[..|names| - 1]);
    }
  }

  /** The stack's paths are those the names of the open elements dictate. */
  predicate PathsFollow(stack: seq<Node>, names: seq<string>) {
    |stack| == |names| && forall i :: 0 <= i < |stack| ==> stack[i].path == PathOf(names[..i + 1])
  }

  lemma StepPathsFollow(w: WalkState, names: seq<string>, e: Event, ids: Ids)
    requires PathsFollow(w.stack, names)
    ensures PathsFollow(Step(w, e, ids).stack, OpenNames(names, [e]))
  {
    assert [e][..0] == [];
    assert OpenNames(names, []) == names;
    var st := Step(w, e, ids).stack;
    var nn := OpenNames(names, [e]);
    match e
    case Start(local, _) =>
      forall i | 0 <= i < |st| ensures st[i].path == PathOf(nn[..i + 1]) {
        if i < |names| {
          assert nn[..i + 1] == names[..i + 1];
        } else {
          assert nn[..i + 1][..i] == names;
          assert names != [] ==> names[..|names|] == names;
        }
      }
    case End =>
      if names != [] {
        assert nn == names[..|names| - 1];
        forall i | 0 <= i < |st| ensures st[i].path == PathOf(nn[..i + 1]) {
          assert nn[..i + 1] == names[..i + 1];
        }
      }
    case _ =>
  }

  /**
   The path rule over a whole run: the i-th open element's path is
   `PathOf` of the local names of the first i+1 open elements. It depends on
   the chain of ancestor names only, not on siblings, attributes or text.
   */
  lemma {:induction false} RunPathsFollow(w: WalkState, names: seq<string>, es: seq<Event>, ids: Ids)
    requires PathsFollow(w.stack, names)
    ensures PathsFollow(Run(w, es, ids).stack, OpenNames(names, es))
    decreases |es|
  {
    if es != [] {
      var init := es[..|es| - 1];
      RunPathsFollow(w, names, init, ids);
      var before := OpenNames(names, init);
      StepPathsFollow(Run(w, init, ids), before, es[|es| - 1], ids);
      assert [es[|es| - 1]][..0] == [];
      assert OpenNames(before, []) == before;
      assert OpenNames(names, es) == OpenNames(before, [es[|es| - 1]]);
    }
  }

  /**
   The path rule as stated for a document: the root's path is the model
   namespace followed by its name, each child's path is its parent's path, a
   dot and its name, and so every path begins with the model namespace.
   */
  lemma DocumentPaths(out: seq<Triple>, drawn: nat, es: seq<Event>, ids: Ids)
    ensures var st := Run(Fresh(out, drawn), es, ids).stack;
            var names := OpenNames([], es);
            && |st| == |names|
            && (st != [] ==> st[0].path == X2R + names[0])
            && (forall i :: 0 < i < |st| ==> st[i].path == st[i - 1].path + "." + names[i])
            && (forall i :: 0 <= i < |st| ==> |X2R| <= |st[i].path| && st[i].path[..|X2R|] == X2R)
  {
    RunPathsFollow(Fresh(out, drawn), [], es, ids);
    var st := Run(Fresh(out, drawn), es, ids).stack;
    var names := OpenNames([], es);
    if st != [] {
      assert names[..1] == [names[0]];
    }
    forall i | 0 < i < |st| ensures st[i].path == st[i - 1].path + "." + names[i] {
      assert names[..i + 1][..i] == names[..i];
    }
    forall i | 0 <= i < |st| ensures |X2R| <= |st[i].path| && st[i].path[..|X2R|] == X2R {
      PathOfStartsWithModelNamespace(names[..i + 1]);
    }
  }
}
