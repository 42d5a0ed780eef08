/** The printer of common/xml2dict.py: from nested dictionaries to SAX events. */
module XmlEmit {
  import opened PyText
  import opened XmlHandler
  import opened XmlTree

  datatype Layout = Plain | Pretty(newl: string, indent: string)

  datatype Printed = Printed(events: seq<Event>) | NotOneKey | MultipleRoots

  predicate IsAttrKey(key: string) {
    key != "" && key[0] == '@'
  }

  predicate IsChildKey(key: string) {
    key != CDATA_KEY && !IsAttrKey(key)
  }

  predicate DistinctKeys(items: seq<Entry>) {
    forall i, j :: 0 <= i < j < |items| ==> items[i].key != items[j].key
  }

  /** What `unparse` can write: attribute values and character data are strings, and no list stands
      directly inside a list. */
  predicate Printable(v: Value)
    decreases v, 1
  {
    if v.List? then forall i :: 0 <= i < |v.vals| ==> PrintableOne(v.vals[i]) else PrintableOne(v)
  }

  predicate PrintableOne(v: Value)
    decreases v, 0
  {
    match v
    case List(_) => false
    case Dict(items) =>
      DistinctKeys(items) && forall i :: 0 <= i < |items| ==> PrintableEntry(items[i])
    case _ => true
  }

  predicate PrintableEntry(e: Entry)
    decreases e
  {
    if e.key == CDATA_KEY then e.val.Text? || e.val.Null?
    else if IsAttrKey(e.key) then e.val.Text?
    else Printable(e.val)
  }

  // ---- Sorting the entries of one dictionary ----

  function AsDict(v: Value): seq<Entry>
    requires !v.List?
  {
    match v
    case Null => []
    case Text(text) => [Entry(CDATA_KEY, v)]
    case Other(shown) => [Entry(CDATA_KEY, Text(shown))]
    case Dict(items) => items
  }

  function AttrsOf(items: seq<Entry>): seq<Attr> {
    if items == [] then []
    else
      var last := items[|items| - 1];
      AttrsOf(items[..|items| - 1])
      + if IsAttrKey(last.key) && last.val.Text? then [Attr(last.key[1..], last.val.text)] else []
  }

  function ChildrenOf(items: seq<Entry>): seq<Entry> {
    if items == [] then []
    else
      var last := items[|items| - 1];
      ChildrenOf(items[..|items| - 1]) + if IsChildKey(last.key) then [last] else []
  }

  function CdataOf(items: seq<Entry>): Option<string> {
    if items == [] then None
    else
      var last := items[|items| - 1];
      if last.key != CDATA_KEY then CdataOf(items[..|items| - 1])
      else if last.val.Text? then Some(last.val.text) else None
  }

  lemma SortText(text: string)
    ensures var t := [Entry(CDATA_KEY, Text(text))];
      AttrsOf(t) == [] && ChildrenOf(t) == [] && CdataOf(t) == Some(text)
  {
    var t := [Entry(CDATA_KEY, Text(text))];
    assert t[..0] == [];
  }

  // ---- The printed nodes ----

  function Repeat(s: string, n: nat): string {
    if n == 0 then "" else Repeat(s, n - 1) + s
  }

  function Pad(layout: Layout, depth: nat): seq<Node> {
    if layout.Pretty? then [Chunk(Repeat(layout.indent, depth))] else []
  }

  function NewLine(layout: Layout): seq<Node> {
    if layout.Pretty? then [Chunk(layout.newl)] else []
  }

  /** The content of an element whose child elements are printed as `kids`. */
  function Body(kids: seq<Node>, hasKids: bool, cdata: Option<string>, depth: nat, layout: Layout): seq<Node> {
    (if hasKids then NewLine(layout) else [])
    + kids
    + (if cdata.Some? then [Chunk(cdata.value)] else [])
    + (if hasKids then Pad(layout, depth) else [])
  }

  function PrintedElem(key: string, v: Value, depth: nat, layout: Layout): Node
    requires !v.List?
    decreases v, 1
  {
    var items := AsDict(v);
    var kids := if v.Dict? then EmitKids(v.items, depth + 1, layout) else [];
    Elem(key, AttrsOf(items), Body(kids, ChildrenOf(items) != [], CdataOf(items), depth, layout))
  }

  function EmitOne(key: string, v: Value, depth: nat, layout: Layout): seq<Node>
    decreases v, 2
  {
    if v.List? then []
    else
      Pad(layout, depth) + [PrintedElem(key, v, depth, layout)]
      + if depth > 0 then NewLine(layout) else []
  }

  function EmitList(key: string, vals: seq<Value>, depth: nat, layout: Layout): seq<Node>
    decreases vals, 3
  {
    if vals == [] then []
    else EmitOne(key, vals[0], depth, layout) + EmitList(key, vals[1..], depth, layout)
  }

  function EmitKey(key: string, v: Value, depth: nat, layout: Layout): seq<Node>
    decreases v, 4
  {
    if v.List? then EmitList(key, v.vals, depth, layout) else EmitOne(key, v, depth, layout)
  }

  function EmitKids(items: seq<Entry>, depth: nat, layout: Layout): seq<Node>
    decreases items, 0
  {
    if items == [] then []
    else
      (if IsChildKey(items[0].key) then EmitKey(items[0].key, items[0].val, depth, layout) else [])
      + EmitKids(items[1..], depth, layout)
  }

  lemma {:induction false} EmitListAppend(key: string, a: seq<Value>, b: seq<Value>, depth: nat, layout: Layout)
    ensures EmitList(key, a + b, depth, layout)
         == EmitList(key, a, depth, layout) + EmitList(key, b, depth, layout)
  {
    if a == [] {
      assert a + b == b;
    } else {
      assert (a + b)[1..] == a[1..] + b;
      EmitListAppend(key, a[1..], b, depth, layout);
    }
  }

  lemma {:induction false} EmitKidsAppend(a: seq<Entry>, b: seq<Entry>, depth: nat, layout: Layout)
    ensures EmitKids(a + b, depth, layout) == EmitKids(a, depth, layout) + EmitKids(b, depth, layout)
  {
    if a == [] {
      assert a + b == b;
    } else {
      assert (a + b)[1..] == a[1..] + b;
      EmitKidsAppend(a[1..], b, depth, layout);
    }
  }

  lemma EmitListOne(key: string, v: Value, depth: nat, layout: Layout)
    ensures EmitList(key, [v], depth, layout) == EmitOne(key, v, depth, layout)
  {
    var one := EmitOne(key, v, depth, layout);
    assert EmitList(key, [v], depth, layout) == one + EmitList(key, [v][1..], depth, layout);
    assert one + [] == one;
  }

  lemma EmitKidsOne(e: Entry, depth: nat, layout: Layout)
    ensures EmitKids([e], depth, layout)
         == if IsChildKey(e.key) then EmitKey(e.key, e.val, depth, layout) else []
  {
    var one := if IsChildKey(e.key) then EmitKey(e.key, e.val, depth, layout) else [];
    assert EmitKids([e], depth, layout) == one + EmitKids([e][1..], depth, layout);
    assert one + [] == one;
  }

  lemma {:induction false} EmitChildren(items: seq<Entry>, depth: nat, layout: Layout)
    ensures EmitKids(ChildrenOf(items), depth, layout) == EmitKids(items, depth, layout)
  {
    if items != [] {
      var front, last := items[..|items| - 1], items[|items| - 1];
      EmitChildren(front, depth, layout);
      EmitKidsAppend(front, [last], depth, layout);
      assert front + [last] == items;
      EmitKidsOne(last, depth, layout);
      if IsChildKey(last.key) {
        EmitKidsAppend(ChildrenOf(front), [last], depth, layout);
      } else {
        assert ChildrenOf(items) == ChildrenOf(front);
        assert EmitKids(items, depth, layout) == EmitKids(front, depth, layout);
      }
    }
  }

  // ---- The printer itself ----

  /** The content handler, as the list of events it has received. */
  class Writer {
    var events: seq<Event>

    constructor ()
      ensures events == []
    {
      events := [];
    }

    method Write(ev: Event)
      modifies this
      ensures events == old(events) + [ev]
    {
      events := events + [ev];
    }

    method Whitespace(ns: seq<Node>)
      modifies this
      ensures events == old(events) + CharsOf(ns)
    {
      if ns != [] && ns[0].Chunk? {
        Write(Chars(ns[0].text));
      }
    }
  }

  method SortEntries(v: Value, items: seq<Entry>)
    returns (attrs: seq<Attr>, children: seq<Entry>, cdata: Option<string>)
    requires PrintableOne(v) && items == AsDict(v)
    ensures attrs == AttrsOf(items) && children == ChildrenOf(items) && cdata == CdataOf(items)
    ensures forall c :: 0 <= c < |children| ==>
      children[c].val < v && Printable(children[c].val) && IsChildKey(children[c].key)
  {
    attrs, children, cdata := [], [], None;
    for i := 0 to |items|
      invariant attrs == AttrsOf(items[..i]) && children == ChildrenOf(items[..i])
      invariant cdata == CdataOf(items[..i])
      invariant forall c :: 0 <= c < |children| ==>
        children[c].val < v && Printable(children[c].val) && IsChildKey(children[c].key)
    {
      assert items[..i + 1][..i] == items[..i] && items[..i + 1][i] == items[i];
      var ik, iv := items[i].key, items[i].val;
      assert v.Dict? ==> PrintableEntry(v.items[i]);
      if ik == CDATA_KEY {
        cdata := if iv.Text? then Some(iv.text) else None;
      } else if IsAttrKey(ik) {
        attrs := attrs + [Attr(ik[1..], iv.text)];
      } else {
        children := children + [Entry(ik, iv)];
      }
    }
    assert items[..|items|] == items;
  }

  method Emit(key: string, value: Value, handler: Writer, depth: nat, layout: Layout)
    requires Printable(value)
    modifies handler
    ensures handler.events == old(handler.events) + FlattenAll(EmitKey(key, value, depth, layout))
    decreases value, 2
  {
    if value.List? {
      for k := 0 to |value.vals|
        invariant handler.events
               == old(handler.events) + FlattenAll(EmitList(key, value.vals[..k], depth, layout))
      {
        EmitSingle(key, value.vals[k], handler, depth, layout);
        EmitListSnoc(old(handler.events), key, value.vals, k, depth, layout);
      }
      assert value.vals[..|value.vals|] == value.vals;
    } else {
      EmitSingle(key, value, handler, depth, layout);
    }
  }

  /** The body of the loop of `_emit`: the element of one value. */
  method EmitSingle(key: string, v: Value, handler: Writer, depth: nat, layout: Layout)
    requires PrintableOne(v)
    modifies handler
    ensures handler.events == old(handler.events) + FlattenAll(EmitOne(key, v, depth, layout))
    decreases v, 1
  {
    var items := AsDict(v);
    var attrs, children, cdata := SortEntries(v, items);
    ghost var before := handler.events;
    handler.Whitespace(Pad(layout, depth));
    handler.Write(Start(key, attrs));
    handler.Whitespace(if children != [] then NewLine(layout) else []);
    EmitChildElements(v, children, handler, depth + 1, layout);
    handler.Whitespace(if cdata.Some? then [Chunk(cdata.value)] else []);
    handler.Whitespace(if children != [] then Pad(layout, depth) else []);
    handler.Write(End(key));
    handler.Whitespace(if depth > 0 then NewLine(layout) else []);

    OneEvents(before, key, v, depth, layout);
  }

  method EmitChildElements(
    ghost parent: Value, children: seq<Entry>, handler: Writer, depth: nat, layout: Layout)
    requires forall c :: 0 <= c < |children| ==>
      children[c].val < parent && Printable(children[c].val) && IsChildKey(children[c].key)
    modifies handler
    ensures handler.events == old(handler.events) + FlattenAll(EmitKids(children, depth, layout))
    decreases parent, 0
  {
    for c := 0 to |children|
      invariant handler.events == old(handler.events) + FlattenAll(EmitKids(children[..c], depth, layout))
    {
      Emit(children[c].key, children[c].val, handler, depth, layout);
      EmitKidsSnoc(old(handler.events), children, c, depth, layout);
    }
    assert children[..|children|] == children;
  }

  lemma EmitListSnoc(
    before: seq<Event>, key: string, values: seq<Value>, k: nat, depth: nat, layout: Layout)
    requires k < |values|
    ensures before + FlattenAll(EmitList(key, values[..k + 1], depth, layout))
         == before + FlattenAll(EmitList(key, values[..k], depth, layout))
          + FlattenAll(EmitOne(key, values[k], depth, layout))
  {
    var done, last := EmitList(key, values[..k], depth, layout), EmitOne(key, values[k], depth, layout);
    assert values[..k + 1] == values[..k] + [values[k]];
    EmitListAppend(key, values[..k], [values[k]], depth, layout);
    EmitListOne(key, values[k], depth, layout);
    FlattenSnoc(before, done, last);
  }

  lemma FlattenSnoc(before: seq<Event>, a: seq<Node>, b: seq<Node>)
    ensures before + FlattenAll(a + b) == before + FlattenAll(a) + FlattenAll(b)
  {
    FlattenAppend(a, b);
  }

  lemma EmitKidsSnoc(before: seq<Event>, children: seq<Entry>, c: nat, depth: nat, layout: Layout)
    requires c < |children| && IsChildKey(children[c].key)
    ensures before + FlattenAll(EmitKids(children[..c + 1], depth, layout))
         == before + FlattenAll(EmitKids(children[..c], depth, layout))
          + FlattenAll(EmitKey(children[c].key, children[c].val, depth, layout))
  {
    var done := EmitKids(children[..c], depth, layout);
    var last := EmitKey(children[c].key, children[c].val, depth, layout);
    assert children[..c + 1] == children[..c] + [children[c]];
    EmitKidsAppend(children[..c], [children[c]], depth, layout);
    EmitKidsOne(children[c], depth, layout);
    FlattenSnoc(before, done, last);
  }

  function CharsOf(ns: seq<Node>): seq<Event> {
    if ns != [] && ns[0].Chunk? then [Chars(ns[0].text)] else []
  }

  lemma BodyEvents(
    before: seq<Event>, kids: seq<Node>, inner: bool, cdata: Option<string>, depth: nat, layout: Layout)
    ensures before + FlattenAll(Body(kids, inner, cdata, depth, layout))
      == before + CharsOf(if inner then NewLine(layout) else []) + FlattenAll(kids)
       + CharsOf(if cdata.Some? then [Chunk(cdata.value)] else [])
       + CharsOf(if inner then Pad(layout, depth) else [])
  {
    var a := if inner then NewLine(layout) else [];
    var b := if cdata.Some? then [Chunk(cdata.value)] else [];
    var c := if inner then Pad(layout, depth) else [];
    FlattenFour(a, kids, b, c);
    assert FlattenAll(a) == CharsOf(a) && FlattenAll(b) == CharsOf(b) && FlattenAll(c) == CharsOf(c);
    RegroupFour(before, CharsOf(a), FlattenAll(kids), CharsOf(b), CharsOf(c));
  }

  lemma RegroupFour<T>(a: seq<T>, b: seq<T>, c: seq<T>, d: seq<T>, e: seq<T>)
    ensures a + (b + c + d + e) == a + b + c + d + e
  {
  }

  lemma FlattenFour(a: seq<Node>, b: seq<Node>, c: seq<Node>, d: seq<Node>)
    ensures FlattenAll(a + b + c + d) == FlattenAll(a) + FlattenAll(b) + FlattenAll(c) + FlattenAll(d)
  {
    FlattenAppend(a + b + c, d);
    FlattenAppend(a + b, c);
    FlattenAppend(a, b);
  }

  lemma RegroupParts<T>(a: seq<T>, b: seq<T>, c: seq<T>, d: seq<T>, e: seq<T>, f: seq<T>)
    ensures a + (b + (c + d + e) + f) == a + b + c + d + e + f
  {
  }

  /** The events of one element of the printer, in the order in which they are written. */
  lemma ElemEvents(
    before: seq<Event>, key: string, attrs: seq<Attr>, kids: seq<Node>, inner: bool,
    cdata: Option<string>, depth: nat, layout: Layout)
    ensures var elem := Elem(key, attrs, Body(kids, inner, cdata, depth, layout));
      var tail := if depth > 0 then NewLine(layout) else [];
      before + FlattenAll(Pad(layout, depth) + [elem] + tail)
      == before + CharsOf(Pad(layout, depth)) + [Start(key, attrs)]
       + CharsOf(if inner then NewLine(layout) else []) + FlattenAll(kids)
       + CharsOf(if cdata.Some? then [Chunk(cdata.value)] else [])
       + CharsOf(if inner then Pad(layout, depth) else []) + [End(key)] + CharsOf(tail)
  {
    var elem := Elem(key, attrs, Body(kids, inner, cdata, depth, layout));
    var tail := if depth > 0 then NewLine(layout) else [];
    var margin := CharsOf(Pad(layout, depth));
    FlattenAppend(Pad(layout, depth) + [elem], tail);
    FlattenAppend(Pad(layout, depth), [elem]);
    assert FlattenAll([elem]) == Flatten(elem) by {
      assert FlattenAll([elem]) == Flatten(elem) + FlattenAll([elem][1..]);
    }
    var started := before + margin + [Start(key, attrs)];
    BodyEvents(started, kids, inner, cdata, depth, layout);
    RegroupParts(before, margin, [Start(key, attrs)], FlattenAll(elem.kids), [End(key)], CharsOf(tail));
  }

  lemma OneEvents(before: seq<Event>, key: string, v: Value, depth: nat, layout: Layout)
    requires !v.List?
    ensures var children, cdata := ChildrenOf(AsDict(v)), CdataOf(AsDict(v));
      var tail := if depth > 0 then NewLine(layout) else [];
      before + FlattenAll(EmitOne(key, v, depth, layout))
      == before + CharsOf(Pad(layout, depth)) + [Start(key, AttrsOf(AsDict(v)))]
       + CharsOf(if children != [] then NewLine(layout) else [])
       + FlattenAll(EmitKids(children, depth + 1, layout))
       + CharsOf(if cdata.Some? then [Chunk(cdata.value)] else [])
       + CharsOf(if children != [] then Pad(layout, depth) else []) + [End(key)] + CharsOf(tail)
  {
    var items := AsDict(v);
    var children, cdata := ChildrenOf(items), CdataOf(items);
    var kids := EmitKids(children, depth + 1, layout);
    if v.Text? || v.Other? {
      SortText(if v.Text? then v.text else v.shown);
    }
    assert v.Dict? || (children == [] && kids == []);
    var elem := PrintedElem(key, v, depth, layout);
    assert elem == Elem(key, AttrsOf(items), Body(kids, children != [], cdata, depth, layout)) by {
      EmitChildren(items, depth + 1, layout);
    }
    var tail := if depth > 0 then NewLine(layout) else [];
    assert EmitOne(key, v, depth, layout) == Pad(layout, depth) + [elem] + tail;
    ElemEvents(before, key, AttrsOf(items), kids, children != [], cdata, depth, layout);
  }

  /** `unparse` without the document header: one root, or an error. */
  method Unparse(doc: seq<Entry>, layout: Layout) returns (r: Printed)
    requires forall i :: 0 <= i < |doc| ==> Printable(doc[i].val)
    ensures r.NotOneKey? <==> |doc| != 1
    ensures r.MultipleRoots? <==> |doc| == 1 && doc[0].val.List? && |doc[0].val.vals| > 1
    ensures r.Printed? ==> r.events == FlattenAll(EmitKey(doc[0].key, doc[0].val, 0, layout))
  {
    if |doc| != 1 {
      return NotOneKey;
    }
    if doc[0].val.List? && |doc[0].val.vals| > 1 {
      return MultipleRoots;
    }
    var writer := new Writer();
    Emit(doc[0].key, doc[0].val, writer, 0, layout);
    return Printed(writer.events);
  }
}
