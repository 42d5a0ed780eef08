/** What the handler computes, said on element trees: the value of an element, and the calls a
    streaming parse makes. */
module XmlTree {
  import opened PyText
  import opened XmlHandler

  datatype Node =
    | Elem(name: string, attrs: seq<Attr>, kids: seq<Node>)
    | Chunk(text: string)

  function Flatten(n: Node): seq<Event>
    decreases n, 1
  {
    match n
    case Elem(name, attrs, kids) => [Start(name, attrs)] + FlattenAll(kids) + [End(name)]
    case Chunk(text) => [Chars(text)]
  }

  function FlattenAll(ns: seq<Node>): seq<Event>
    decreases ns, 0
  {
    if ns == [] then [] else Flatten(ns[0]) + FlattenAll(ns[1..])
  }

  lemma {:induction false} FlattenAppend(a: seq<Node>, b: seq<Node>)
    ensures FlattenAll(a + b) == FlattenAll(a) + FlattenAll(b)
  {
    if a == [] {
      assert a + b == b;
    } else {
      assert (a + b)[1..] == a[1..] + b;
      FlattenAppend(a[1..], b);
    }
  }

  // ---- Every well-nested event stream is a forest ----

  /** Every end tag closes the innermost open element, and nothing stays open. */
  predicate WellNested(events: seq<Event>, open: seq<string>)
    decreases events
  {
    if events == [] then open == []
    else match events[0]
      case Start(name, _) => WellNested(events[1..], open + [name])
      case Chars(_) => WellNested(events[1..], open)
      case End(name) =>
        open != [] && open[|open| - 1] == name && WellNested(events[1..], open[..|open| - 1])
  }

  lemma {:induction false} SplitForest(events: seq<Event>, open: seq<string>)
    returns (ns: seq<Node>, rest: seq<Event>)
    requires WellNested(events, open)
    ensures events == FlattenAll(ns) + rest
    ensures WellNested(rest, open)
    ensures rest == [] || rest[0].End?
    decreases |events|
  {
    if events == [] || events[0].End? {
      ns, rest := [], events;
    } else if events[0].Chars? {
      var more, after := SplitForest(events[1..], open);
      ns, rest := [Chunk(events[0].text)] + more, after;
      assert ns[1..] == more;
    } else {
      var name, attrs := events[0].name, events[0].attrs;
      var kids, after := SplitForest(events[1..], open + [name]);
      assert after[0] == End(name) && (open + [name])[..|open|] == open;
      var more, last := SplitForest(after[1..], open);
      ns, rest := [Elem(name, attrs, kids)] + more, last;
      assert ns[1..] == more;
      assert events == [Start(name, attrs)] + FlattenAll(kids) + [End(name)] + FlattenAll(more) + rest;
    }
  }

  /** The well-nested streams are exactly the flattened forests. */
  lemma WellNestedIsForest(events: seq<Event>)
    ensures WellNested(events, []) <==> exists ns :: events == FlattenAll(ns)
  {
    if WellNested(events, []) {
      var ns, rest := SplitForest(events, []);
      assert rest == [];
      assert events == FlattenAll(ns);
    }
    forall ns | events == FlattenAll(ns)
      ensures WellNested(events, [])
    {
      ForestIsWellNested(ns, [], []);
      assert FlattenAll(ns) + [] == events;
    }
  }

  lemma RegroupElem(a: Event, b: seq<Event>, c: Event, d: seq<Event>, e: seq<Event>)
    ensures [a] + b + [c] + d + e == [a] + (b + ([c] + (d + e)))
  {
  }

  lemma {:induction false} ForestIsWellNested(ns: seq<Node>, rest: seq<Event>, open: seq<string>)
    ensures WellNested(FlattenAll(ns) + rest, open) <==> WellNested(rest, open)
    decreases ns
  {
    if ns == [] {
      assert FlattenAll(ns) + rest == rest;
    } else {
      var more := FlattenAll(ns[1..]) + rest;
      ForestIsWellNested(ns[1..], rest, open);
      match ns[0] {
        case Chunk(text) =>
          assert FlattenAll(ns) + rest == [Chars(text)] + more;
        case Elem(name, attrs, kids) =>
          var tail := [End(name)] + more;
          RegroupElem(Start(name, attrs), FlattenAll(kids), End(name), FlattenAll(ns[1..]), rest);
          ForestIsWellNested(kids, tail, open + [name]);
          assert (open + [name])[..|open|] == open;
      }
    }
  }

  // ---- The value of an element ----

  /** The character data directly inside an element, joined as the handler joins it. */
  function KidText(cfg: Config, kids: seq<Node>, data: Option<string>): Option<string>
    decreases kids
  {
    if kids == [] then data
    else KidText(cfg, kids[1..],
      if kids[0].Chunk? then AddText(cfg.cdataSeparator, data, kids[0].text) else data)
  }

  /** The dictionary after the child elements have been pushed, each under its name. */
  function PushKids(cfg: Config, kids: seq<Node>, items: seq<Entry>): seq<Entry>
    decreases kids, 0
  {
    if kids == [] then items
    else PushKids(cfg, kids[1..],
      if kids[0].Elem? then Push(items, kids[0].name, ElemValue(cfg, kids[0])) else items)
  }

  function ElemValue(cfg: Config, n: Node): Value
    requires n.Elem?
    decreases n, 1
  {
    var attrs := if cfg.xmlAttribs then AttrItems(n.attrs) else [];
    Finish(cfg, PushKids(cfg, n.kids, attrs), KidText(cfg, n.kids, None))
  }

  /** Below the item depth the stack machine computes exactly the recursive value: a whole element
      leaves every field as it was, except that its value has been pushed into the current item. */
  lemma {:induction false} RunElem(cfg: Config, keep: Callback, st: State, n: Node)
    requires n.Elem? && !st.interrupted && |st.path| >= cfg.itemDepth
    ensures Run(cfg, keep, st, Flatten(n)) == st.(item := Push(st.item, n.name, ElemValue(cfg, n)))
    decreases n, 1
  {
    var entered := OnStart(cfg, st, n.name, n.attrs);
    var inside := FlattenAll(n.kids);
    RunKids(cfg, keep, entered, n.kids);
    RunAppend(cfg, keep, st, [Start(n.name, n.attrs)] + inside, [End(n.name)]);
    RunAppend(cfg, keep, st, [Start(n.name, n.attrs)], inside);
    assert entered.path[..|entered.path| - 1] == st.path;
    assert entered.stack[..|entered.stack| - 1] == st.stack;
  }

  lemma {:induction false} RunKids(cfg: Config, keep: Callback, st: State, kids: seq<Node>)
    requires !st.interrupted && |st.path| >= cfg.itemDepth
    ensures Run(cfg, keep, st, FlattenAll(kids))
         == st.(item := PushKids(cfg, kids, st.item), data := KidText(cfg, kids, st.data))
    decreases kids, 0
  {
    if kids != [] {
      RunAppend(cfg, keep, st, Flatten(kids[0]), FlattenAll(kids[1..]));
      var next := Run(cfg, keep, st, Flatten(kids[0]));
      match kids[0] {
        case Elem(_, _, _) => RunElem(cfg, keep, st, kids[0]);
        case Chunk(text) => assert next == OnChars(cfg, st, text);
      }
      RunKids(cfg, keep, next, kids[1..]);
    }
  }

  /** A whole document parsed without streaming yields the one-entry dictionary of its root. */
  lemma ParseDocument(cfg: Config, keep: Callback, root: Node)
    requires root.Elem? && cfg.itemDepth == 0
    ensures Run(cfg, keep, INITIAL, Flatten(root)).item == [Entry(root.name, ElemValue(cfg, root))]
    ensures Run(cfg, keep, INITIAL, Flatten(root)).calls == []
  {
    RunElem(cfg, keep, INITIAL, root);
  }

  // ---- The options ----

  /** Without `xml_attribs` attributes are dropped. */
  lemma AttribsDropped(cfg: Config, name: string, attrs: seq<Attr>, kids: seq<Node>)
    requires !cfg.xmlAttribs
    ensures ElemValue(cfg, Elem(name, attrs, kids)) == ElemValue(cfg, Elem(name, [], kids))
  {
  }

  /** With `xml_attribs` an attribute is an entry under its name behind an at sign. */
  lemma AttribsKept(cfg: Config, name: string, attr: Attr)
    requires cfg.xmlAttribs
    ensures ElemValue(cfg, Elem(name, [attr], [])) == Dict([Entry("@" + attr.name, Text(attr.value))])
  {
    assert AttrItems([attr]) == [Entry("@" + attr.name, Text(attr.value))];
  }

  /** Two chunks are joined with the separator, but an empty first one leaves no trace. The white space
      around is kept without `strip_whitespace`, and dropped with it, together with a text that is nothing
      else. */
  lemma TextOptions(cfg: Config, name: string, s: string, t: string)
    ensures var v := ElemValue(cfg, Elem(name, [], [Chunk(s), Chunk(t)]));
      var text := if s == "" then t else s + cfg.cdataSeparator + t;
      && (!cfg.stripWhitespace ==> v == Text(text))
      && (cfg.stripWhitespace ==> v == if Strip(text) == "" then Null else Text(Strip(text)))
  {
    assert AttrItems([]) == [];
    TwoKids(cfg, Chunk(s), t);
  }

  lemma TwoKids(cfg: Config, kid: Node, t: string)
    ensures KidText(cfg, [kid, Chunk(t)], None)
         == if kid.Chunk? then AddText(cfg.cdataSeparator, Some(kid.text), t) else Some(t)
    ensures PushKids(cfg, [kid, Chunk(t)], [])
         == if kid.Chunk? then [] else [Entry(kid.name, ElemValue(cfg, kid))]
  {
    var kids, rest := [kid, Chunk(t)], [Chunk(t)];
    assert kids[1..] == rest && rest[1..] == [];
    var data := if kid.Chunk? then Some(kid.text) else None;
    var items := if kid.Chunk? then [] else Push([], kid.name, ElemValue(cfg, kid));
    assert KidText(cfg, kids, None) == KidText(cfg, rest, data);
    assert PushKids(cfg, kids, []) == PushKids(cfg, rest, items);
    assert KidText(cfg, rest, data) == KidText(cfg, [], AddText(cfg.cdataSeparator, data, t));
    assert PushKids(cfg, rest, items) == PushKids(cfg, [], items);
  }

  /** Beside a child element the text is an entry of its own, behind it, unless it is empty. */
  lemma MixedText(cfg: Config, name: string, kid: Node, t: string)
    requires kid.Elem? && kid.name != CDATA_KEY
    ensures var text := if cfg.stripWhitespace then Strip(t) else t;
      var front := [Entry(kid.name, ElemValue(cfg, kid))];
      ElemValue(cfg, Elem(name, [], [kid, Chunk(t)]))
      == Dict(if text == "" then front else front + [Entry(CDATA_KEY, Text(text))])
  {
    assert AttrItems([]) == [];
    TwoKids(cfg, kid, t);
    assert !HasKey([Entry(kid.name, ElemValue(cfg, kid))], CDATA_KEY);
  }

  // ---- Chunks of character data ----

  /** Adjacent character events joined into one. */
  function Coalesce(events: seq<Event>): seq<Event> {
    if events == [] then []
    else
      var rest := Coalesce(events[1..]);
      if events[0].Chars? && rest != [] && rest[0].Chars?
      then [Chars(events[0].text + rest[0].text)] + rest[1..]
      else [events[0]] + rest
  }

  predicate NoEmptyChunk(events: seq<Event>) {
    forall i :: 0 <= i < |events| && events[i].Chars? ==> events[i].text != ""
  }

  lemma AddTextTwice(data: Option<string>, s: string, t: string)
    requires s != ""
    ensures AddText("", AddText("", data, s), t) == AddText("", data, s + t)
  {
    var d := if data.Some? then data.value else "";
    assert d + "" + s + "" + t == d + "" + (s + t);
    assert s + "" + t == s + t;
  }

  /** With an empty separator it makes no difference how the parser cuts character data into
      (non-empty) chunks, in any state and in either mode. */
  lemma {:induction false} ChunksDoNotMatter(cfg: Config, keep: Callback, st: State, events: seq<Event>)
    requires cfg.cdataSeparator == "" && NoEmptyChunk(events)
    ensures Run(cfg, keep, st, Coalesce(events)) == Run(cfg, keep, st, events)
    ensures NoEmptyChunk(Coalesce(events))
    decreases events
  {
    if events != [] {
      var first, rest := events[0], Coalesce(events[1..]);
      var next := Step(cfg, keep, st, first);
      assert NoEmptyChunk(events[1..]);
      ChunksDoNotMatter(cfg, keep, next, events[1..]);
      if first.Chars? && rest != [] && rest[0].Chars? {
        var joined := [Chars(first.text + rest[0].text)] + rest[1..];
        assert Coalesce(events) == joined && joined[1..] == rest[1..];
        AddTextTwice(st.data, first.text, rest[0].text);
      } else {
        assert Coalesce(events) == [first] + rest && ([first] + rest)[1..] == rest;
      }
    }
  }

  /** Two cuts of the same document parse alike. */
  lemma ResplitParsesAlike(cfg: Config, keep: Callback, a: seq<Event>, b: seq<Event>)
    requires cfg.cdataSeparator == "" && NoEmptyChunk(a) && NoEmptyChunk(b)
    requires Coalesce(a) == Coalesce(b)
    ensures Run(cfg, keep, INITIAL, a) == Run(cfg, keep, INITIAL, b)
  {
    ChunksDoNotMatter(cfg, keep, INITIAL, a);
    ChunksDoNotMatter(cfg, keep, INITIAL, b);
  }

  /** With any other separator it does: every cut of a text into two chunks shows. */
  lemma SeparatorShowsTheCut(cfg: Config, keep: Callback, st: State, s: string, t: string)
    requires s != "" && t != "" && !st.interrupted
    ensures Run(cfg, keep, st, [Chars(s), Chars(t)]) == Run(cfg, keep, st, [Chars(s + t)])
      <==> cfg.cdataSeparator == ""
  {
    var sep := cfg.cdataSeparator;
    assert Run(cfg, keep, st, [Chars(s + t)]) == OnChars(cfg, st, s + t) by {
      assert [Chars(s + t)][1..] == [];
    }
    assert Run(cfg, keep, st, [Chars(s), Chars(t)]) == OnChars(cfg, OnChars(cfg, st, s), t) by {
      var cut := [Chars(s), Chars(t)];
      assert cut == [Chars(s)] + [Chars(t)];
      RunAppend(cfg, keep, st, [Chars(s)], [Chars(t)]);
    }
    var d := if st.data.None? || st.data.value == "" then "" else st.data.value + sep;
    assert AddText(sep, st.data, s).value == d + s && AddText(sep, st.data, s + t).value == d + (s + t);
    assert |d + s + sep + t| == |d + (s + t)| + |sep|;
    if sep == "" {
      assert d + s + sep + t == d + (s + t);
    }
  }

  // ---- Streaming ----

  /** The stack holds one frame for every open element below the item depth. */
  predicate StackInvariant(cfg: Config, st: State) {
    |st.stack| == if |st.path| > cfg.itemDepth then |st.path| - cfg.itemDepth else 0
  }

  lemma {:induction false} StackDepth(cfg: Config, keep: Callback, st: State, events: seq<Event>)
    requires StackInvariant(cfg, st)
    ensures StackInvariant(cfg, Run(cfg, keep, st, events))
    decreases events
  {
    if events != [] {
      StackDepth(cfg, keep, Step(cfg, keep, st, events[0]), events[1..]);
    }
  }

  /** An element at the item depth, with its path from the root and the character data that was
      still pending when it was opened. */
  datatype Found = Found(path: seq<Tag>, node: Node, pending: Option<string>)

  /** The elements at a depth, in document order. */
  function FoundIn(cfg: Config, path: seq<Tag>, n: Node, pending: Option<string>): seq<Found>
    requires n.Elem?
    decreases n, 1
  {
    var inner := path + [Tag(n.name, n.attrs)];
    if |inner| >= cfg.itemDepth then [Found(inner, n, pending)]
    else FoundInAll(cfg, inner, n.kids, pending)
  }

  function FoundInAll(cfg: Config, path: seq<Tag>, kids: seq<Node>, pending: Option<string>): seq<Found>
    decreases kids, 0
  {
    if kids == [] then []
    else match kids[0]
      case Chunk(text) =>
        FoundInAll(cfg, path, kids[1..], AddText(cfg.cdataSeparator, pending, text))
      case Elem(_, _, _) => FoundIn(cfg, path, kids[0], pending) + FoundInAll(cfg, path, kids[1..], None)
  }

  /** What the callback receives for an element: its child elements as a dictionary, or else the
      pending character data followed by its own. */
  function Reported(cfg: Config, f: Found): Call
    requires f.node.Elem?
  {
    var items := PushKids(cfg, f.node.kids, []);
    Call(f.path, if items != [] then Dict(items) else DataValue(KidText(cfg, f.node.kids, f.pending)))
  }

  predicate AllElems(found: seq<Found>) {
    forall i :: 0 <= i < |found| ==> found[i].node.Elem?
  }

  lemma {:induction false} FoundAreElems(cfg: Config, path: seq<Tag>, n: Node, pending: Option<string>)
    requires n.Elem?
    ensures AllElems(FoundIn(cfg, path, n, pending))
    decreases n, 1
  {
    if |path| + 1 < cfg.itemDepth {
      FoundAllAreElems(cfg, path + [Tag(n.name, n.attrs)], n.kids, pending);
    }
  }

  lemma {:induction false} FoundAllAreElems(cfg: Config, path: seq<Tag>, kids: seq<Node>, pending: Option<string>)
    ensures AllElems(FoundInAll(cfg, path, kids, pending))
    decreases kids, 0
  {
    if kids != [] {
      match kids[0]
      case Chunk(text) =>
        FoundAllAreElems(cfg, path, kids[1..], AddText(cfg.cdataSeparator, pending, text));
      case Elem(_, _, _) =>
        FoundAreElems(cfg, path, kids[0], pending);
        FoundAllAreElems(cfg, path, kids[1..], None);
    }
  }

  /** Telling the callback about elements one after the other, until it answers false. */
  function Deliver(cfg: Config, keep: Callback, calls: seq<Call>, found: seq<Found>): (r: (seq<Call>, bool))
    requires AllElems(found)
    decreases found
  {
    if found == [] then (calls, false)
    else
      var told := calls + [Reported(cfg, found[0])];
      if keep(told) then Deliver(cfg, keep, told, found[1..]) else (told, true)
  }

  lemma {:induction false} DeliverAppend(
    cfg: Config, keep: Callback, calls: seq<Call>, a: seq<Found>, b: seq<Found>)
    requires AllElems(a) && AllElems(b)
    ensures AllElems(a + b)
    ensures var first := Deliver(cfg, keep, calls, a);
      Deliver(cfg, keep, calls, a + b)
        == if first.1 then first else Deliver(cfg, keep, first.0, b)
    decreases a
  {
    if a == [] {
      assert a + b == b;
    } else {
      assert (a + b)[1..] == a[1..] + b;
      DeliverAppend(cfg, keep, calls + [Reported(cfg, a[0])], a[1..], b);
    }
  }

  /** The delivered calls are the reports of a prefix of the elements; the prefix is the whole unless
      the callback refused its last call, and it accepted every call before. */
  lemma {:induction false} DeliverIsPrefix(cfg: Config, keep: Callback, calls: seq<Call>, found: seq<Found>)
    requires AllElems(found)
    ensures var r := Deliver(cfg, keep, calls, found);
      && |calls| <= |r.0| <= |calls| + |found|
      && r.0[..|calls|] == calls
      && (forall i :: |calls| <= i < |r.0| ==> r.0[i] == Reported(cfg, found[i - |calls|]))
      && (forall i :: |calls| < i < |r.0| ==> keep(r.0[..i]))
      && (if r.1 then |calls| < |r.0| && !keep(r.0)
          else |r.0| == |calls| + |found| && (found != [] ==> keep(r.0)))
    decreases found
  {
    if found != [] {
      var told := calls + [Reported(cfg, found[0])];
      if keep(told) {
        DeliverIsPrefix(cfg, keep, told, found[1..]);
        var r := Deliver(cfg, keep, told, found[1..]);
        assert told[..|calls|] == calls;
        assert r.0[..|calls|] == r.0[..|told|][..|calls|];
        forall i | |calls| <= i < |r.0|
          ensures r.0[i] == Reported(cfg, found[i - |calls|])
        {
          if i == |calls| {
            assert r.0[i] == r.0[..|told|][i];
          }
        }
      } else {
        assert told[..|calls|] == calls;
      }
    }
  }

  /** Above the item depth nothing is kept between elements, so the state between two of them is
      determined by the calls made so far. */
  lemma {:induction false} StreamElem(cfg: Config, keep: Callback, st: State, n: Node)
    requires n.Elem? && !st.interrupted && |st.path| < cfg.itemDepth && st.stack == [] && st.item == []
    ensures AllElems(FoundIn(cfg, st.path, n, st.data))
    ensures var r := Deliver(cfg, keep, st.calls, FoundIn(cfg, st.path, n, st.data));
      var end := Run(cfg, keep, st, Flatten(n));
      end.calls == r.0 && end.interrupted == r.1 && (!r.1 ==> end == st.(calls := r.0, data := None))
    decreases n, 1
  {
    FoundAreElems(cfg, st.path, n, st.data);
    var entered := OnStart(cfg, st, n.name, n.attrs);
    var inside := FlattenAll(n.kids);
    RunAppend(cfg, keep, st, [Start(n.name, n.attrs)] + inside, [End(n.name)]);
    RunAppend(cfg, keep, st, [Start(n.name, n.attrs)], inside);
    var before := Run(cfg, keep, entered, inside);
    assert Run(cfg, keep, st, Flatten(n)) == Step(cfg, keep, before, End(n.name));
    assert entered.path[..|entered.path| - 1] == st.path;
    if |entered.path| == cfg.itemDepth {
      RunKids(cfg, keep, entered, n.kids);
      var f := Found(entered.path, n, st.data);
      assert FoundIn(cfg, st.path, n, st.data) == [f];
      assert Deliver(cfg, keep, st.calls + [Reported(cfg, f)], [f][1..])
          == (st.calls + [Reported(cfg, f)], false);
    } else {
      StreamKids(cfg, keep, entered, n.kids);
    }
  }

  lemma {:induction false} StreamKids(cfg: Config, keep: Callback, st: State, kids: seq<Node>)
    requires !st.interrupted && |st.path| < cfg.itemDepth && st.stack == [] && st.item == []
    ensures AllElems(FoundInAll(cfg, st.path, kids, st.data))
    ensures var r := Deliver(cfg, keep, st.calls, FoundInAll(cfg, st.path, kids, st.data));
      var end := Run(cfg, keep, st, FlattenAll(kids));
      && end.calls == r.0 && end.interrupted == r.1
      && (!r.1 ==> exists data :: end == st.(calls := r.0, data := data))
    decreases kids, 0
  {
    FoundAllAreElems(cfg, st.path, kids, st.data);
    if kids == [] {
      assert st == st.(data := st.data);
    } else {
      var next := Run(cfg, keep, st, Flatten(kids[0]));
      RunAppend(cfg, keep, st, Flatten(kids[0]), FlattenAll(kids[1..]));
      match kids[0] {
        case Chunk(text) =>
          assert next == OnChars(cfg, st, text);
          StreamKids(cfg, keep, next, kids[1..]);
        case Elem(_, _, _) =>
          StreamElem(cfg, keep, st, kids[0]);
          FoundAllAreElems(cfg, st.path, kids[1..], None);
          var a, b := FoundIn(cfg, st.path, kids[0], st.data), FoundInAll(cfg, st.path, kids[1..], None);
          DeliverAppend(cfg, keep, st.calls, a, b);
          if next.interrupted {
            RunInterrupted(cfg, keep, next, FlattenAll(kids[1..]));
          } else {
            StreamKids(cfg, keep, next, kids[1..]);
          }
      }
    }
  }

  lemma {:induction false} RunInterrupted(cfg: Config, keep: Callback, st: State, events: seq<Event>)
    requires st.interrupted
    ensures Run(cfg, keep, st, events) == st
    decreases events
  {
    if events != [] {
      RunInterrupted(cfg, keep, st, events[1..]);
    }
  }

  /** Streaming a document calls back once for every element at the item depth, in document order,
      until the callback answers false. */
  lemma StreamDocument(cfg: Config, keep: Callback, root: Node)
    requires root.Elem? && cfg.itemDepth > 0
    ensures var found := FoundIn(cfg, [], root, None);
      var end := Run(cfg, keep, INITIAL, Flatten(root));
      && AllElems(found)
      && |end.calls| <= |found|
      && (forall i :: 0 <= i < |end.calls| ==> end.calls[i] == Reported(cfg, found[i]))
      && (forall i :: 0 < i < |end.calls| ==> keep(end.calls[..i]))
      && (if end.interrupted then end.calls != [] && !keep(end.calls)
          else |end.calls| == |found| && (found != [] ==> keep(end.calls)))
  {
    StreamElem(cfg, keep, INITIAL, root);
    DeliverIsPrefix(cfg, keep, [], FoundIn(cfg, [], root, None));
  }
}
