/** The printer and the handler undo each other, with any white-space layout, and the values that
    parsing can produce are exactly the normal forms. */
module XmlRoundTrip {
  import opened Lists
  import opened PyText
  import opened XmlHandler
  import opened XmlTree
  import opened XmlEmit

  // ---- Normal forms ----

  predicate NormalText(s: string) {
    s != "" && Stripped(s)
  }

  predicate NormalOne(v: Value)
    decreases v, 0
  {
    match v
    case Null => true
    case Text(text) => NormalText(text)
    case Dict(items) =>
      && DistinctKeys(items)
      && (forall i :: 0 <= i < |items| ==> NormalEntry(items[i]))
      && (exists i :: 0 <= i < |items| && items[i].key != CDATA_KEY)
    case _ => false
  }

  predicate NormalEntry(e: Entry)
    decreases e, 0
  {
    if e.key == CDATA_KEY then e.val.Text? && NormalText(e.val.text)
    else if IsAttrKey(e.key) then e.val.Text?
    else NormalChild(e.val)
  }

  predicate NormalChild(v: Value)
    decreases v, 1
  {
    if v.List? then |v.vals| >= 2 && forall i :: 0 <= i < |v.vals| ==> NormalOne(v.vals[i])
    else NormalOne(v)
  }

  /** The same value with every dictionary in the order in which the parser would build it:
      attributes, then child elements, then character data. */
  function Canon(v: Value): Value
    decreases v, 1
  {
    match v
    case Dict(items) =>
      Dict(AttrItems(AttrsOf(items)) + CanonKids(items) + TextItems(CdataOf(items)))
    case List(vals) => List(CanonAll(vals))
    case _ => v
  }

  function CanonKids(items: seq<Entry>): seq<Entry>
    decreases items, 0
  {
    if items == [] then []
    else
      (if IsChildKey(items[0].key) then [Entry(items[0].key, Canon(items[0].val))] else [])
      + CanonKids(items[1..])
  }

  function CanonAll(vals: seq<Value>): seq<Value>
    decreases vals, 0
  {
    if vals == [] then [] else [Canon(vals[0])] + CanonAll(vals[1..])
  }

  function TextItems(cdata: Option<string>): seq<Entry> {
    if cdata.Some? then [Entry(CDATA_KEY, Text(cdata.value))] else []
  }

  // ---- How it is laid out ----

  /** Elements one after the other; with a layout each of them on a line of its own, at its depth. */
  predicate LaidOut(ns: seq<Node>, depth: nat, layout: Layout) {
    match layout
    case Plain => forall i :: 0 <= i < |ns| ==> ns[i].Elem?
    case Pretty(newl, indent) =>
      && |ns| % 3 == 0
      && forall i :: 0 <= i < |ns| ==>
           && (i % 3 == 0 ==> ns[i] == Chunk(Repeat(indent, depth)))
           && (i % 3 == 1 ==> ns[i].Elem?)
           && (i % 3 == 2 ==> ns[i] == Chunk(newl))
  }

  /** A margin is so many times the indent. */
  lemma {:induction false} RepeatAdds(s: string, m: nat, n: nat)
    ensures Repeat(s, 0) == "" && Repeat(s, 1) == s
    ensures Repeat(s, m + n) == Repeat(s, m) + Repeat(s, n)
    decreases n
  {
    assert Repeat(s, 1) == Repeat(s, 0) + s;
    if n > 0 {
      RepeatAdds(s, m, n - 1);
      Regroup(Repeat(s, m), Repeat(s, n - 1), s);
    }
  }

  /** The root stands at the margin, and no line end follows it. */
  lemma RootLaidOut(key: string, v: Value, layout: Layout)
    requires !v.List?
    ensures EmitKey(key, v, 0, layout)
         == (if layout.Pretty? then [Chunk("")] else []) + [PrintedElem(key, v, 0, layout)]
  {
  }

  lemma LaidOutAppend(a: seq<Node>, b: seq<Node>, depth: nat, layout: Layout)
    requires LaidOut(a, depth, layout) && LaidOut(b, depth, layout)
    ensures LaidOut(a + b, depth, layout)
  {
    forall i | |a| <= i < |a| + |b|
      ensures (a + b)[i] == b[i - |a|] && (layout.Pretty? ==> (i - |a|) % 3 == i % 3)
    {
    }
  }

  lemma OneLaidOut(key: string, v: Value, depth: nat, layout: Layout)
    requires depth > 0
    ensures LaidOut(EmitOne(key, v, depth, layout), depth, layout)
  {
    if !v.List? {
      OneAlone(PrintedElem(key, v, depth, layout), depth, layout);
    }
  }

  lemma OneAlone(elem: Node, depth: nat, layout: Layout)
    requires elem.Elem?
    ensures LaidOut(Pad(layout, depth) + [elem] + NewLine(layout), depth, layout)
  {
  }

  lemma {:induction false} ListLaidOut(key: string, vals: seq<Value>, depth: nat, layout: Layout)
    requires depth > 0
    ensures LaidOut(EmitList(key, vals, depth, layout), depth, layout)
  {
    if vals != [] {
      OneLaidOut(key, vals[0], depth, layout);
      ListLaidOut(key, vals[1..], depth, layout);
      LaidOutAppend(EmitOne(key, vals[0], depth, layout), EmitList(key, vals[1..], depth, layout), depth, layout);
    }
  }

  /** The child elements of a dictionary stand on lines of their own, one deeper. */
  lemma {:induction false} KidsLaidOut(items: seq<Entry>, depth: nat, layout: Layout)
    requires depth > 0
    ensures LaidOut(EmitKids(items, depth, layout), depth, layout)
  {
    if items != [] {
      var e := items[0];
      KidsLaidOut(items[1..], depth, layout);
      if IsChildKey(e.key) {
        if e.val.List? {
          ListLaidOut(e.key, e.val.vals, depth, layout);
        } else {
          OneLaidOut(e.key, e.val, depth, layout);
        }
        LaidOutAppend(EmitKey(e.key, e.val, depth, layout), EmitKids(items[1..], depth, layout), depth, layout);
      } else {
        assert EmitKids(items, depth, layout) == EmitKids(items[1..], depth, layout);
      }
    }
  }

  /** The content of a printed dictionary: with child elements, a line end, the children, the text, and the
      margin in front of the end tag; without, just the text. */
  lemma ContentLaidOut(key: string, items: seq<Entry>, depth: nat, layout: Layout)
    requires PrintableOne(Dict(items))
    ensures var kids, text := EmitKids(items, depth + 1, layout), [Chunk(CdataText(items))];
      var content := PrintedElem(key, Dict(items), depth, layout).kids;
      var inner := exists i :: 0 <= i < |items| && IsChildKey(items[i].key);
      && LaidOut(kids, depth + 1, layout)
      && (layout.Pretty? && inner ==>
            content == [Chunk(layout.newl)] + kids + (if HasText(items) then text else [])
                       + [Chunk(Repeat(layout.indent, depth))])
      && (layout.Plain? || !inner ==> content == kids + if HasText(items) then text else [])
  {
    KidsLaidOut(items, depth + 1, layout);
    HasChildren(items);
    CdataIsText(items);
    TextIsThere(items);
    var kids := EmitKids(items, depth + 1, layout);
    assert [] + kids == kids;
    assert forall t :: kids + t + [] == kids + t;
  }

  predicate HasText(items: seq<Entry>) {
    exists i :: 0 <= i < |items| && items[i].key == CDATA_KEY && items[i].val.Text?
  }

  lemma TextIsThere(items: seq<Entry>)
    requires DistinctKeys(items)
    ensures CdataOf(items).Some? <==> HasText(items)
  {
    if i :| 0 <= i < |items| && items[i].key == CDATA_KEY && items[i].val.Text? {
      CdataAt(items, i);
    }
    var i := FindKey(items, CDATA_KEY);
    if i < |items| {
      CdataAt(items, i);
    } else {
      CdataMissing(items);
    }
  }

  lemma {:induction false} HasChildren(items: seq<Entry>)
    ensures ChildrenOf(items) != [] <==> exists i :: 0 <= i < |items| && IsChildKey(items[i].key)
  {
    if items != [] {
      var front := items[..|items| - 1];
      HasChildren(front);
      assert forall i :: 0 <= i < |front| ==> front[i] == items[i];
    }
  }

  // ---- What a printed value reads as ----

  /** A text without the white space around it; nothing, if that is all. */
  function ReadText(text: string): Value {
    if Strip(text) == "" then Null else Text(Strip(text))
  }

  function AttrEntries(items: seq<Entry>): seq<Entry> {
    if items == [] then []
    else
      var last := items[|items| - 1];
      AttrEntries(items[..|items| - 1]) + if IsAttrKey(last.key) then [last] else []
  }

  function CdataText(items: seq<Entry>): string {
    var i := FindKey(items, CDATA_KEY);
    if i < |items| && items[i].val.Text? then items[i].val.text else ""
  }

  /** What parsing gives back for a printed value: scalars become stripped texts, attributes come first and
      the text last, a list of one is its element, an empty list is missing, and so is empty text. */
  function Read(v: Value): Value
    decreases v, 1
  {
    match v
    case Null => Null
    case Text(text) => ReadText(text)
    case Other(shown) => ReadText(shown)
    case Dict(items) =>
      var front := AttrEntries(items) + ReadKids(items);
      if front == [] then ReadText(CdataText(items))
      else if Strip(CdataText(items)) == "" then Dict(front)
      else Dict(front + [Entry(CDATA_KEY, Text(Strip(CdataText(items))))])
    case List(vals) => if |vals| == 1 then Read(vals[0]) else List(ReadAll(vals))
  }

  function ReadAll(vals: seq<Value>): seq<Value>
    decreases vals, 0
  {
    if vals == [] then [] else [Read(vals[0])] + ReadAll(vals[1..])
  }

  function ReadOf(key: string, v: Value): seq<Entry>
    decreases v, 2
  {
    if v.List? && v.vals == [] then [] else [Entry(key, Read(v))]
  }

  function ReadKids(items: seq<Entry>): seq<Entry>
    decreases items, 0
  {
    if items == [] then []
    else (if IsChildKey(items[0].key) then ReadOf(items[0].key, items[0].val) else []) + ReadKids(items[1..])
  }

  predicate White(layout: Layout) {
    layout.Pretty? ==> AllSpace(layout.newl) && AllSpace(layout.indent)
  }

  // ---- Pushing ----

  lemma PushNew(items: seq<Entry>, key: string, v: Value)
    requires !HasKey(items, key)
    ensures Push(items, key, v) == items + [Entry(key, v)]
  {
  }

  lemma PushLast(items: seq<Entry>, key: string, was: Value, v: Value)
    requires !HasKey(items, key)
    ensures Push(items + [Entry(key, was)], key, v) == items + [Entry(key, Grow(was, v))]
  {
    var all := items + [Entry(key, was)];
    assert all[|items|].key == key;
    assert forall j :: 0 <= j < |items| ==> all[j] == items[j];
    assert FindKey(all, key) == |items|;
  }

  /** Entries with other keys stay in front, untouched. */
  lemma PushBehind(front: seq<Entry>, items: seq<Entry>, key: string, v: Value)
    requires !HasKey(front, key)
    ensures Push(front + items, key, v) == front + Push(items, key, v)
  {
    var all := front + items;
    var i, j := FindKey(all, key), FindKey(items, key);
    assert forall k :: 0 <= k < |front| ==> all[k] == front[k];
    assert forall k :: 0 <= k < |items| ==> all[|front| + k] == items[k];
    assert i >= |front|;
    if j < |items| {
      assert all[|front| + j].key == key;
    }
    assert i == |front| + j;
  }

  lemma {:induction false} PushKidsAppend(cfg: Config, a: seq<Node>, b: seq<Node>, items: seq<Entry>)
    ensures PushKids(cfg, a + b, items) == PushKids(cfg, b, PushKids(cfg, a, items))
    decreases a
  {
    if a == [] {
      assert a + b == b;
    } else {
      assert (a + b)[1..] == a[1..] + b;
      PushKidsAppend(cfg, a[1..], b,
        if a[0].Elem? then Push(items, a[0].name, ElemValue(cfg, a[0])) else items);
    }
  }

  predicate OneChunk(ns: seq<Node>) {
    ns == [] || (|ns| == 1 && ns[0].Chunk?)
  }

  lemma PushAround(cfg: Config, a: seq<Node>, kids: seq<Node>, b: seq<Node>, items: seq<Entry>)
    requires OneChunk(a) && OneChunk(b)
    ensures PushKids(cfg, a + kids + b, items) == PushKids(cfg, kids, items)
  {
    PushKidsAppend(cfg, a + kids, b, items);
    PushKidsAppend(cfg, a, kids, items);
    assert a != [] ==> a[1..] == [];
    assert b != [] ==> b[1..] == [];
  }

  // ---- Character data ----

  function OrEmpty(data: Option<string>): string {
    if data.Some? then data.value else ""
  }

  /** All character data directly in a list of nodes. */
  function Joined(ns: seq<Node>): string {
    if ns == [] then "" else (if ns[0].Chunk? then ns[0].text else "") + Joined(ns[1..])
  }

  lemma {:induction false} JoinedAppend(a: seq<Node>, b: seq<Node>)
    ensures Joined(a + b) == Joined(a) + Joined(b)
  {
    if a == [] {
      assert a + b == b;
    } else {
      assert (a + b)[1..] == a[1..] + b;
      JoinedAppend(a[1..], b);
    }
  }

  lemma {:induction false} KidTextIsJoined(kids: seq<Node>, data: Option<string>)
    ensures OrEmpty(KidText(DEFAULTS, kids, data)) == OrEmpty(data) + Joined(kids)
    decreases kids
  {
    if kids != [] {
      var next := AfterKid(kids[0], data);
      KidTextIsJoined(kids[1..], next);
      KidTextFirst(kids, data);
      AfterKidJoins(kids[0], data, Joined(kids[1..]));
    }
  }

  /** The pending text behind one child. */
  function AfterKid(kid: Node, data: Option<string>): Option<string> {
    if kid.Chunk? then AddText("", data, kid.text) else data
  }

  function KidShare(kid: Node): string {
    if kid.Chunk? then kid.text else ""
  }

  lemma KidTextFirst(kids: seq<Node>, data: Option<string>)
    requires kids != []
    ensures KidText(DEFAULTS, kids, data) == KidText(DEFAULTS, kids[1..], AfterKid(kids[0], data))
    ensures Joined(kids) == KidShare(kids[0]) + Joined(kids[1..])
  {
  }

  lemma AfterKidJoins(kid: Node, data: Option<string>, rest: string)
    ensures OrEmpty(AfterKid(kid, data)) + rest == OrEmpty(data) + (KidShare(kid) + rest)
  {
    if kid.Chunk? {
      AddTextJoins(data, kid.text, rest);
    } else {
      assert "" + rest == rest;
    }
  }

  lemma AddTextJoins(data: Option<string>, text: string, rest: string)
    ensures OrEmpty(AddText("", data, text)) + rest == OrEmpty(data) + (text + rest)
  {
    assert data.Some? ==> data.value + "" + text == data.value + text;
  }

  lemma StripJoined(kids: seq<Node>)
    ensures var s := Strip(Joined(kids));
      StripData(DEFAULTS, KidText(DEFAULTS, kids, None)) == if s == "" then None else Some(s)
  {
    KidTextIsJoined(kids, None);
    assert OrEmpty(None) + Joined(kids) == Joined(kids);
    assert Strip("") == "";
  }

  lemma {:induction false} RepeatIsSpace(s: string, n: nat)
    requires AllSpace(s)
    ensures AllSpace(Repeat(s, n))
  {
    if n > 0 {
      RepeatIsSpace(s, n - 1);
    }
  }

  lemma JoinedLayout(layout: Layout, depth: nat)
    requires White(layout)
    ensures AllSpace(Joined(Pad(layout, depth))) && AllSpace(Joined(NewLine(layout)))
  {
    if layout.Pretty? {
      RepeatIsSpace(layout.indent, depth);
      assert Pad(layout, depth)[1..] == [] && NewLine(layout)[1..] == [];
    }
  }

  /** Between printed elements there is only white space. */
  lemma {:induction false} JoinedOne(key: string, v: Value, depth: nat, layout: Layout)
    requires White(layout)
    ensures AllSpace(Joined(EmitOne(key, v, depth, layout)))
  {
    if !v.List? {
      var elem := PrintedElem(key, v, depth, layout);
      var tail := if depth > 0 then NewLine(layout) else [];
      JoinedLayout(layout, depth);
      JoinedAppend(Pad(layout, depth) + [elem], tail);
      JoinedAppend(Pad(layout, depth), [elem]);
      assert [elem][1..] == [];
    }
  }

  lemma {:induction false} JoinedList(key: string, vals: seq<Value>, depth: nat, layout: Layout)
    requires White(layout)
    ensures AllSpace(Joined(EmitList(key, vals, depth, layout)))
  {
    if vals != [] {
      JoinedOne(key, vals[0], depth, layout);
      JoinedList(key, vals[1..], depth, layout);
      JoinedAppend(EmitOne(key, vals[0], depth, layout), EmitList(key, vals[1..], depth, layout));
    }
  }

  lemma {:induction false} JoinedKids(items: seq<Entry>, depth: nat, layout: Layout)
    requires White(layout)
    ensures AllSpace(Joined(EmitKids(items, depth, layout)))
  {
    if items != [] {
      var e := items[0];
      JoinedKids(items[1..], depth, layout);
      if IsChildKey(e.key) {
        if e.val.List? {
          JoinedList(e.key, e.val.vals, depth, layout);
        } else {
          JoinedOne(e.key, e.val, depth, layout);
        }
        JoinedAppend(EmitKey(e.key, e.val, depth, layout), EmitKids(items[1..], depth, layout));
      } else {
        assert EmitKids(items, depth, layout) == EmitKids(items[1..], depth, layout);
      }
    }
  }

  lemma StripBody(kids: seq<Node>, inner: bool, cdata: Option<string>, depth: nat, layout: Layout)
    requires White(layout) && AllSpace(Joined(kids))
    ensures Strip(Joined(Body(kids, inner, cdata, depth, layout))) == Strip(OrEmpty(cdata))
  {
    var a := if inner then NewLine(layout) else [];
    var b := if cdata.Some? then [Chunk(cdata.value)] else [];
    var c := if inner then Pad(layout, depth) else [];
    JoinedLayout(layout, depth);
    JoinedAppend(a + kids + b, c);
    JoinedAppend(a + kids, b);
    JoinedAppend(a, kids);
    assert Joined(b) == OrEmpty(cdata) by {
      if cdata.Some? {
        assert Joined(b) == b[0].text + Joined(b[1..]);
      }
    }
    StripPadded(Joined(a) + Joined(kids), OrEmpty(cdata), Joined(c));
  }

  // ---- Sorting a dictionary into attributes, children and text ----

  lemma {:induction false} SortAppend(a: seq<Entry>, b: seq<Entry>)
    ensures AttrsOf(a + b) == AttrsOf(a) + AttrsOf(b)
    ensures ChildrenOf(a + b) == ChildrenOf(a) + ChildrenOf(b)
    decreases b
  {
    if b == [] {
      assert a + b == a;
    } else {
      var front := b[..|b| - 1];
      assert (a + b)[..|a + b| - 1] == a + front && (a + b)[|a + b| - 1] == b[|b| - 1];
      SortAppend(a, front);
    }
  }

  lemma {:induction false} CdataAppend(a: seq<Entry>, b: seq<Entry>)
    requires !HasKey(a, CDATA_KEY)
    ensures CdataOf(a + b) == CdataOf(b)
    decreases b
  {
    if b == [] {
      assert a + b == a;
      CdataMissing(a);
    } else {
      var front := b[..|b| - 1];
      assert (a + b)[..|a + b| - 1] == a + front && (a + b)[|a + b| - 1] == b[|b| - 1];
      CdataAppend(a, front);
    }
  }

  lemma {:induction false} CdataMissing(items: seq<Entry>)
    ensures !HasKey(items, CDATA_KEY) ==> CdataOf(items) == None
  {
    if items != [] {
      CdataMissing(items[..|items| - 1]);
      assert HasKey(items[..|items| - 1], CDATA_KEY) ==> HasKey(items, CDATA_KEY);
      assert items[|items| - 1].key == CDATA_KEY ==> HasKey(items, CDATA_KEY);
    }
  }

  lemma {:induction false} SortAttrItems(attrs: seq<Attr>)
    ensures AttrsOf(AttrItems(attrs)) == attrs
    ensures ChildrenOf(AttrItems(attrs)) == [] && CdataOf(AttrItems(attrs)) == None
  {
    if attrs != [] {
      var front := attrs[..|attrs| - 1];
      assert AttrItems(attrs)[..|attrs| - 1] == AttrItems(front);
      SortAttrItems(front);
    }
  }

  lemma {:induction false} CanonKidsAppend(a: seq<Entry>, b: seq<Entry>)
    ensures CanonKids(a + b) == CanonKids(a) + CanonKids(b)
  {
    if a == [] {
      assert a + b == b;
    } else {
      CanonKidsAppend(a[1..], b);
      assert (a + b)[1..] == a[1..] + b && (a + b)[0] == a[0];
    }
  }

  lemma {:induction false} CanonKidsKeys(items: seq<Entry>)
    ensures forall k :: HasKey(CanonKids(items), k) <==> IsChildKey(k) && HasKey(items, k)
    ensures forall i :: 0 <= i < |CanonKids(items)| ==> IsChildKey(CanonKids(items)[i].key)
  {
    if items != [] {
      CanonKidsKeys(items[1..]);
      forall k
        ensures HasKey(CanonKids(items), k) <==> IsChildKey(k) && HasKey(items, k)
      {
        var rest, e := CanonKids(items[1..]), items[0];
        assert HasKey(items, k) <==> e.key == k || HasKey(items[1..], k) by {
          if i :| 0 <= i < |items[1..]| && items[1..][i].key == k {
            assert items[i + 1].key == k;
          }
          if i :| 0 <= i < |items| && items[i].key == k {
            assert i > 0 ==> items[1..][i - 1].key == k;
          }
        }
        var first := if IsChildKey(e.key) then [Entry(e.key, Canon(e.val))] else [];
        assert CanonKids(items) == first + rest;
        assert HasKey(first, k) <==> IsChildKey(e.key) && e.key == k by {
          assert IsChildKey(e.key) ==> first[0].key == e.key;
        }
        HasKeyAppend(first, rest, k);
      }
    }
  }

  lemma HasKeyAppend(a: seq<Entry>, b: seq<Entry>, k: string)
    ensures HasKey(a + b, k) <==> HasKey(a, k) || HasKey(b, k)
  {
    if i :| 0 <= i < |a| && a[i].key == k {
      assert (a + b)[i].key == k;
    }
    if i :| 0 <= i < |b| && b[i].key == k {
      assert (a + b)[|a| + i].key == k;
    }
    if i :| 0 <= i < |a + b| && (a + b)[i].key == k {
      assert i < |a| ==> a[i].key == k;
      assert i >= |a| ==> b[i - |a|].key == k;
    }
  }

  lemma AttrItemsKeys(attrs: seq<Attr>, k: string)
    requires IsChildKey(k) || k == CDATA_KEY
    ensures !HasKey(AttrItems(attrs), k)
  {
  }

  lemma {:induction false} CdataNormal(items: seq<Entry>)
    requires forall i :: 0 <= i < |items| ==> NormalEntry(items[i])
    ensures CdataOf(items).Some? ==> NormalText(CdataOf(items).value)
  {
    if items != [] {
      CdataNormal(items[..|items| - 1]);
    }
  }

  // ---- Parsing what was printed ----

  /** The value of an element whose content the printer laid out: the layout leaves no trace. */
  lemma BodyValue(
    key: string, attrs: seq<Attr>, kids: seq<Node>, inner: bool, cdata: Option<string>, depth: nat,
    layout: Layout)
    requires White(layout) && AllSpace(Joined(kids))
    ensures var items, text := PushKids(DEFAULTS, kids, AttrItems(attrs)), Strip(OrEmpty(cdata));
      ElemValue(DEFAULTS, Elem(key, attrs, Body(kids, inner, cdata, depth, layout)))
      == if items == [] then ReadText(OrEmpty(cdata))
         else if text == "" then Dict(items)
         else Dict(Push(items, CDATA_KEY, Text(text)))
  {
    StripBody(kids, inner, cdata, depth, layout);
    StripJoined(Body(kids, inner, cdata, depth, layout));
    PushBody(kids, inner, cdata, depth, layout, AttrItems(attrs));
  }

  /** A scalar of any type is printed as its text: it reads as that text without the white space around it,
      or as nothing if there is no more. */
  lemma PrintedScalar(key: string, v: Value, depth: nat, layout: Layout)
    requires White(layout) && (v.Null? || v.Text? || v.Other?)
    ensures var text := if v.Text? then v.text else if v.Other? then v.shown else "";
      ElemValue(DEFAULTS, PrintedElem(key, v, depth, layout))
      == if Strip(text) == "" then Null else Text(Strip(text))
  {
    if !v.Null? {
      SortText(if v.Text? then v.text else v.shown);
    }
    BodyValue(key, [], [], false, CdataOf(AsDict(v)), depth, layout);
  }

  lemma FlattenOne(n: Node)
    ensures FlattenAll([n]) == Flatten(n)
  {
    assert FlattenAll([n]) == Flatten(n) + FlattenAll([n][1..]);
  }

  lemma PrintedText(key: string, v: Value, depth: nat, layout: Layout)
    requires v.Null? || v.Text? || v.Other?
    ensures PrintedElem(key, v, depth, layout)
         == Elem(key, [], if v.Null? then [] else [Chunk(if v.Text? then v.text else v.shown)])
  {
    if !v.Null? {
      SortText(if v.Text? then v.text else v.shown);
    }
  }

  /** Without a layout a scalar is a start tag, its text as it is, and an end tag. */
  lemma ScalarEvents(key: string, v: Value)
    requires v.Null? || v.Text? || v.Other?
    ensures var text := if v.Null? then [] else [Chars(if v.Text? then v.text else v.shown)];
      FlattenAll(EmitKey(key, v, 0, Plain)) == [Start(key, [])] + text + [End(key)]
  {
    PrintedText(key, v, 0, Plain);
    var elem := PrintedElem(key, v, 0, Plain);
    assert EmitKey(key, v, 0, Plain) == [elem];
    FlattenOne(elem);
    if !v.Null? {
      FlattenOne(elem.kids[0]);
    }
  }

  lemma {:induction false} AttrsAreEntries(items: seq<Entry>)
    requires forall i :: 0 <= i < |items| ==> PrintableEntry(items[i])
    ensures AttrItems(AttrsOf(items)) == AttrEntries(items)
  {
    if items != [] {
      var front, last := items[..|items| - 1], items[|items| - 1];
      AttrsAreEntries(front);
      assert PrintableEntry(last);
      assert IsAttrKey(last.key) ==> last.key == "@" + last.key[1..];
    }
  }

  lemma {:induction false} CdataAt(items: seq<Entry>, i: nat)
    requires DistinctKeys(items) && i < |items| && items[i].key == CDATA_KEY
    ensures CdataOf(items) == if items[i].val.Text? then Some(items[i].val.text) else None
  {
    if i < |items| - 1 {
      CdataAt(items[..|items| - 1], i);
    }
  }

  lemma CdataIsText(items: seq<Entry>)
    requires DistinctKeys(items)
    ensures OrEmpty(CdataOf(items)) == CdataText(items)
  {
    var i := FindKey(items, CDATA_KEY);
    if i < |items| {
      CdataAt(items, i);
    } else {
      CdataMissing(items);
    }
  }

  /** The parser reads the printed element of any value as the reading of that value. */
  lemma {:induction false} PrintedReads(key: string, v: Value, depth: nat, layout: Layout)
    requires PrintableOne(v) && White(layout)
    ensures ElemValue(DEFAULTS, PrintedElem(key, v, depth, layout)) == Read(v)
    decreases v, 1
  {
    if !v.Dict? {
      PrintedScalar(key, v, depth, layout);
    } else {
      JoinedKids(v.items, depth + 1, layout);
      BodyValue(key, AttrsOf(v.items), EmitKids(v.items, depth + 1, layout),
        ChildrenOf(v.items) != [], CdataOf(v.items), depth, layout);
      BuiltItems(v.items, depth + 1, layout);
      CdataIsText(v.items);
    }
  }

  /** The pushed children of a printed dictionary, behind its attributes and before its text. */
  lemma {:induction false} BuiltItems(items: seq<Entry>, depth: nat, layout: Layout)
    requires PrintableOne(Dict(items)) && White(layout)
    ensures var built := PushKids(DEFAULTS, EmitKids(items, depth, layout), AttrItems(AttrsOf(items)));
      && built == AttrEntries(items) + ReadKids(items)
      && forall text :: Push(built, CDATA_KEY, text) == built + [Entry(CDATA_KEY, text)]
    decreases items, 1
  {
    var attrs := AttrItems(AttrsOf(items));
    assert Apart(attrs, items) by {
      forall k | HasKey(items, k) && IsChildKey(k)
        ensures !HasKey(attrs, k)
      {
        AttrItemsKeys(AttrsOf(items), k);
      }
    }
    PrintedKids(items, depth, layout, attrs);
    AttrsAreEntries(items);
    NoTextYet(items);
    forall text
      ensures Push(attrs + ReadKids(items), CDATA_KEY, text)
           == attrs + ReadKids(items) + [Entry(CDATA_KEY, text)]
    {
      PushNew(attrs + ReadKids(items), CDATA_KEY, text);
    }
  }

  lemma {:induction false} ReadKidsKeys(items: seq<Entry>, k: string)
    ensures HasKey(ReadKids(items), k) ==> IsChildKey(k) && HasKey(items, k)
  {
    if items != [] {
      var e := items[0];
      var first := if IsChildKey(e.key) then ReadOf(e.key, e.val) else [];
      ReadKidsKeys(items[1..], k);
      HasKeyAppend(first, ReadKids(items[1..]), k);
      HasKeyAppend([e], items[1..], k);
      assert [e] + items[1..] == items && [e][0].key == e.key;
    }
  }

  lemma NoTextYet(items: seq<Entry>)
    ensures !HasKey(AttrItems(AttrsOf(items)) + ReadKids(items), CDATA_KEY)
  {
    ReadKidsKeys(items, CDATA_KEY);
    AttrItemsKeys(AttrsOf(items), CDATA_KEY);
    HasKeyAppend(AttrItems(AttrsOf(items)), ReadKids(items), CDATA_KEY);
  }

  lemma PushBody(
    kids: seq<Node>, inner: bool, cdata: Option<string>, depth: nat, layout: Layout, items: seq<Entry>)
    ensures PushKids(DEFAULTS, Body(kids, inner, cdata, depth, layout), items)
         == PushKids(DEFAULTS, kids, items)
  {
    var a := if inner then NewLine(layout) else [];
    var b := if cdata.Some? then [Chunk(cdata.value)] else [];
    var c := if inner then Pad(layout, depth) else [];
    PushAround(DEFAULTS, [], a + kids + b, c, items);
    assert [] + (a + kids + b) + c == a + kids + b + c;
    PushAround(DEFAULTS, a, kids, b, items);
  }

  lemma {:induction false} PrintedOne(
    key: string, v: Value, depth: nat, layout: Layout, items: seq<Entry>)
    requires PrintableOne(v) && White(layout)
    ensures PushKids(DEFAULTS, EmitOne(key, v, depth, layout), items) == Push(items, key, Read(v))
    decreases v, 2
  {
    PrintedReads(key, v, depth, layout);
    var elem := PrintedElem(key, v, depth, layout);
    PushAround(DEFAULTS, Pad(layout, depth), [elem], if depth > 0 then NewLine(layout) else [], items);
    assert [elem][1..] == [];
  }

  /** The rest of a list is appended to the list that has begun. */
  lemma {:induction false} PrintedList(
    key: string, vals: seq<Value>, depth: nat, layout: Layout, items: seq<Entry>, done: seq<Value>)
    requires forall i :: 0 <= i < |vals| ==> PrintableOne(vals[i])
    requires White(layout) && !HasKey(items, key)
    ensures PushKids(DEFAULTS, EmitList(key, vals, depth, layout), items + [Entry(key, List(done))])
         == items + [Entry(key, List(done + ReadAll(vals)))]
    decreases vals, 3
  {
    var begun := items + [Entry(key, List(done))];
    if vals == [] {
      assert done + [] == done;
    } else {
      PrintedOne(key, vals[0], depth, layout, begun);
      PushLast(items, key, List(done), Read(vals[0]));
      PushKidsAppend(DEFAULTS, EmitOne(key, vals[0], depth, layout),
        EmitList(key, vals[1..], depth, layout), begun);
      PrintedList(key, vals[1..], depth, layout, items, done + [Read(vals[0])]);
      Regroup(done, [Read(vals[0])], ReadAll(vals[1..]));
    }
  }

  /** The first of two or more values is pushed by itself, the second makes it a list. */
  lemma {:induction false} PrintedTwo(
    key: string, vals: seq<Value>, depth: nat, layout: Layout, items: seq<Entry>)
    requires |vals| >= 2 && PrintableOne(vals[0]) && PrintableOne(vals[1])
    requires White(layout) && !HasKey(items, key)
    ensures PushKids(DEFAULTS, EmitOne(key, vals[0], depth, layout) + EmitOne(key, vals[1], depth, layout), items)
         == items + [Entry(key, List([Read(vals[0]), Read(vals[1])]))]
    decreases vals, 3
  {
    var a, b := vals[0], vals[1];
    PrintedOne(key, a, depth, layout, items);
    PrintedOne(key, b, depth, layout, Push(items, key, Read(a)));
    PushKidsAppend(DEFAULTS, EmitOne(key, a, depth, layout), EmitOne(key, b, depth, layout), items);
    ReadIsOne(a);
    SecondMakesList(items, key, Read(a), Read(b));
  }

  lemma ReadIsOne(v: Value)
    requires PrintableOne(v)
    ensures !Read(v).List?
  {
  }

  lemma SecondMakesList(items: seq<Entry>, key: string, a: Value, b: Value)
    requires !HasKey(items, key) && !a.List?
    ensures Push(Push(items, key, a), key, b) == items + [Entry(key, List([a, b]))]
  {
    PushNew(items, key, a);
    PushLast(items, key, a, b);
  }

  lemma {:induction false} PrintedMany(
    key: string, vals: seq<Value>, depth: nat, layout: Layout, items: seq<Entry>)
    requires |vals| >= 2 && forall i :: 0 <= i < |vals| ==> PrintableOne(vals[i])
    requires White(layout) && !HasKey(items, key)
    ensures PushKids(DEFAULTS, EmitList(key, vals, depth, layout), items)
         == items + [Entry(key, List(ReadAll(vals)))]
    decreases vals, 4
  {
    var two := EmitOne(key, vals[0], depth, layout) + EmitOne(key, vals[1], depth, layout);
    PrintedTwo(key, vals, depth, layout, items);
    PrintedList(key, vals[2..], depth, layout, items, [Read(vals[0]), Read(vals[1])]);
    PushKidsAppend(DEFAULTS, two, EmitList(key, vals[2..], depth, layout), items);
    FirstTwo(key, vals, depth, layout);
  }

  lemma FirstTwo(key: string, vals: seq<Value>, depth: nat, layout: Layout)
    requires |vals| >= 2
    ensures EmitList(key, vals, depth, layout)
         == EmitOne(key, vals[0], depth, layout) + EmitOne(key, vals[1], depth, layout)
          + EmitList(key, vals[2..], depth, layout)
    ensures ReadAll(vals) == [Read(vals[0]), Read(vals[1])] + ReadAll(vals[2..])
  {
    var rest := vals[1..];
    assert rest[0] == vals[1] && rest[1..] == vals[2..];
    Regroup(EmitOne(key, vals[0], depth, layout), EmitOne(key, vals[1], depth, layout),
      EmitList(key, vals[2..], depth, layout));
    Regroup([Read(vals[0])], [Read(vals[1])], ReadAll(vals[2..]));
  }

  lemma {:induction false} PrintedChild(
    key: string, v: Value, depth: nat, layout: Layout, items: seq<Entry>)
    requires Printable(v) && White(layout) && !HasKey(items, key)
    ensures PushKids(DEFAULTS, EmitKey(key, v, depth, layout), items) == items + ReadOf(key, v)
    decreases v, 5
  {
    if v.List? && v.vals == [] {
      assert items + [] == items;
    } else if v.List? && |v.vals| == 1 {
      assert v.vals == [v.vals[0]];
      EmitListOne(key, v.vals[0], depth, layout);
      PrintedOne(key, v.vals[0], depth, layout, items);
      PushNew(items, key, Read(v.vals[0]));
    } else if v.List? {
      PrintedMany(key, v.vals, depth, layout, items);
    } else {
      PrintedOne(key, v, depth, layout, items);
      PushNew(items, key, Read(v));
    }
  }

  lemma {:induction false} PrintedKids(items: seq<Entry>, depth: nat, layout: Layout, front: seq<Entry>)
    requires DistinctKeys(items) && White(layout)
    requires forall i :: 0 <= i < |items| ==> PrintableEntry(items[i])
    requires Apart(front, items)
    ensures PushKids(DEFAULTS, EmitKids(items, depth, layout), front) == front + ReadKids(items)
    decreases items, 0
  {
    if items == [] {
      assert front + [] == front;
    } else {
      var e, rest := items[0], items[1..];
      assert PrintableEntry(e) && HasKey(items, e.key);
      FrontStaysApart(items, front);
      if IsChildKey(e.key) {
        PrintedChild(e.key, e.val, depth, layout, front);
        PushKidsAppend(DEFAULTS, EmitKey(e.key, e.val, depth, layout),
          EmitKids(rest, depth, layout), front);
        Regroup(front, ReadOf(e.key, e.val), ReadKids(rest));
        PrintedKids(rest, depth, layout, front + ReadOf(e.key, e.val));
      } else {
        assert EmitKids(items, depth, layout) == EmitKids(rest, depth, layout);
        assert ReadKids(items) == ReadKids(rest);
        PrintedKids(rest, depth, layout, front);
      }
    }
  }

  lemma FrontStaysApart(items: seq<Entry>, front: seq<Entry>)
    requires items != [] && DistinctKeys(items) && Apart(front, items)
    ensures Apart(front, items[1..])
    ensures Apart(front + ReadOf(items[0].key, items[0].val), items[1..])
  {
    var more, rest := ReadOf(items[0].key, items[0].val), items[1..];
    forall k | HasKey(rest, k) && IsChildKey(k)
      ensures !HasKey(front, k) && !HasKey(front + more, k)
    {
      var i :| 0 <= i < |rest| && rest[i].key == k;
      assert items[i + 1].key == k && items[0].key != k;
      assert HasKey(items, k);
      HasKeyAppend(front, more, k);
    }
  }

  ghost predicate Apart(front: seq<Entry>, items: seq<Entry>) {
    forall k :: HasKey(items, k) && IsChildKey(k) ==> !HasKey(front, k)
  }

  /** Parsing the events that `unparse` writes for any value, in any white-space layout, gives the reading
      of the value. */
  lemma UnparseReads(key: string, v: Value, layout: Layout, keep: Callback)
    requires Printable(v) && White(layout)
    ensures Run(DEFAULTS, keep, INITIAL, FlattenAll(EmitKey(key, v, 0, layout))).item == ReadOf(key, v)
  {
    RunKids(DEFAULTS, keep, INITIAL, EmitKey(key, v, 0, layout));
    PrintedChild(key, v, 0, layout, []);
    assert [] + ReadOf(key, v) == ReadOf(key, v);
  }

  // ---- Normal values read as themselves ----

  lemma {:induction false} ReadNormalKids(items: seq<Entry>)
    requires forall i :: 0 <= i < |items| ==> NormalEntry(items[i])
    ensures ReadKids(items) == CanonKids(items)
    decreases items, 0
  {
    if items != [] {
      assert NormalEntry(items[0]);
      if IsChildKey(items[0].key) {
        ReadNormalChild(items[0].val);
      }
      ReadNormalKids(items[1..]);
    }
  }

  lemma {:induction false} ReadNormalAll(vals: seq<Value>)
    requires forall i :: 0 <= i < |vals| ==> NormalOne(vals[i])
    ensures ReadAll(vals) == CanonAll(vals)
    decreases vals, 0
  {
    if vals != [] {
      ReadNormal(vals[0]);
      ReadNormalAll(vals[1..]);
    }
  }

  lemma {:induction false} ReadNormalChild(v: Value)
    requires NormalChild(v)
    ensures Read(v) == Canon(v) && !(v.List? && v.vals == [])
    decreases v, 2
  {
    if v.List? {
      ReadNormalAll(v.vals);
    } else {
      ReadNormal(v);
    }
  }

  /** A normal value reads as itself, in canonical order. */
  lemma {:induction false} ReadNormal(v: Value)
    requires NormalOne(v)
    ensures Read(v) == Canon(v)
    decreases v, 1
  {
    if v.Text? {
      StripStripped(v.text);
    } else if v.Dict? {
      ReadNormalKids(v.items);
      NormalIsPrintable(v);
      AttrsAreEntries(v.items);
      CdataIsText(v.items);
      CdataNormal(v.items);
      BuiltNotEmpty(v.items);
      StripStripped(CdataText(v.items));
      assert AttrEntries(v.items) + CanonKids(v.items) + [] == AttrEntries(v.items) + CanonKids(v.items);
    }
  }

  lemma BuiltNotEmpty(items: seq<Entry>)
    requires forall i :: 0 <= i < |items| ==> NormalEntry(items[i])
    requires exists i :: 0 <= i < |items| && items[i].key != CDATA_KEY
    ensures AttrItems(AttrsOf(items)) + CanonKids(items) != []
  {
    var i :| 0 <= i < |items| && items[i].key != CDATA_KEY;
    assert NormalEntry(items[i]);
    if IsAttrKey(items[i].key) {
      AttrsOfNotEmpty(items, i);
    } else {
      CanonKidsKeys(items);
      assert HasKey(items, items[i].key);
    }
  }

  lemma {:induction false} AttrsOfNotEmpty(items: seq<Entry>, i: nat)
    requires i < |items| && IsAttrKey(items[i].key) && items[i].val.Text?
    ensures AttrsOf(items) != []
  {
    if i < |items| - 1 {
      AttrsOfNotEmpty(items[..|items| - 1], i);
    }
  }

  /** The parser reads the printed element of a normal value back as that value. */
  lemma PrintedValue(key: string, v: Value, depth: nat, layout: Layout)
    requires NormalOne(v) && White(layout)
    ensures ElemValue(DEFAULTS, PrintedElem(key, v, depth, layout)) == Canon(v)
  {
    NormalIsPrintable(v);
    PrintedReads(key, v, depth, layout);
    ReadNormal(v);
  }

  /** Round trip: parsing the events that `unparse` writes for a normal value, in any white-space
      layout, gives back the value. */
  lemma RoundTrip(key: string, v: Value, layout: Layout, keep: Callback)
    requires NormalOne(v) && White(layout)
    ensures Run(DEFAULTS, keep, INITIAL, FlattenAll(EmitKey(key, v, 0, layout))).item
         == [Entry(key, Canon(v))]
  {
    NormalIsPrintable(v);
    UnparseReads(key, v, layout, keep);
    ReadNormal(v);
  }

  /** Two white-space layouts of one value parse alike. */
  lemma LayoutDoesNotMatter(key: string, v: Value, a: Layout, b: Layout, keep: Callback)
    requires Printable(v) && White(a) && White(b)
    ensures Run(DEFAULTS, keep, INITIAL, FlattenAll(EmitKey(key, v, 0, a))).item
         == Run(DEFAULTS, keep, INITIAL, FlattenAll(EmitKey(key, v, 0, b))).item
  {
    UnparseReads(key, v, a, keep);
    UnparseReads(key, v, b, keep);
  }

  // ---- Printing what was parsed ----

  /** An element a well-formed document can contain: its names are XML names, which start neither with
      `@` nor with `#`, and it has no two attributes of one name. */
  predicate ValidNode(n: Node)
    decreases n
  {
    match n
    case Chunk(_) => true
    case Elem(name, attrs, kids) =>
      && IsChildKey(name)
      && DistinctAttrs(attrs)
      && forall i :: 0 <= i < |kids| ==> ValidNode(kids[i])
  }

  predicate DistinctAttrs(attrs: seq<Attr>) {
    forall i, j :: 0 <= i < j < |attrs| ==> attrs[i].name != attrs[j].name
  }

  predicate GoodKids(items: seq<Entry>) {
    && DistinctKeys(items)
    && forall i :: 0 <= i < |items| ==>
         IsChildKey(items[i].key) && NormalChild(items[i].val) && Canon(items[i].val) == items[i].val
  }

  lemma {:induction false} CanonAllAt(vals: seq<Value>)
    ensures |CanonAll(vals)| == |vals|
    ensures forall i :: 0 <= i < |vals| ==> CanonAll(vals)[i] == Canon(vals[i])
  {
    if vals != [] {
      CanonAllAt(vals[1..]);
    }
  }

  lemma GrownIsGood(was: Value, v: Value)
    requires NormalChild(was) && Canon(was) == was
    requires NormalOne(v) && Canon(v) == v
    ensures NormalChild(Grow(was, v)) && Canon(Grow(was, v)) == Grow(was, v)
  {
    var grown := Grow(was, v);
    CanonAllAt(grown.vals);
    if was.List? {
      CanonAllAt(was.vals);
    }
    assert grown.vals == CanonAll(grown.vals);
  }

  lemma PushKeepsGood(items: seq<Entry>, key: string, v: Value)
    requires GoodKids(items) && IsChildKey(key) && NormalOne(v) && Canon(v) == v
    ensures GoodKids(Push(items, key, v)) && Push(items, key, v) != []
  {
    var i := FindKey(items, key);
    if i < |items| {
      GrownIsGood(items[i].val, v);
    }
  }

  lemma {:induction false} ParsedKids(kids: seq<Node>, items: seq<Entry>)
    requires forall i :: 0 <= i < |kids| ==> ValidNode(kids[i])
    requires GoodKids(items)
    ensures GoodKids(PushKids(DEFAULTS, kids, items))
    decreases kids, 0
  {
    if kids != [] {
      assert ValidNode(kids[0]);
      var next := items;
      if kids[0].Elem? {
        ParsedElem(kids[0]);
        PushKeepsGood(items, kids[0].name, ElemValue(DEFAULTS, kids[0]));
        next := Push(items, kids[0].name, ElemValue(DEFAULTS, kids[0]));
      }
      ParsedKids(kids[1..], next);
    }
  }

  /** The children are collected behind the attributes as if there were none. */
  lemma {:induction false} KidsBehindAttrs(cfg: Config, kids: seq<Node>, attrs: seq<Attr>, items: seq<Entry>)
    requires forall i :: 0 <= i < |kids| ==> ValidNode(kids[i])
    ensures PushKids(cfg, kids, AttrItems(attrs) + items) == AttrItems(attrs) + PushKids(cfg, kids, items)
    decreases kids
  {
    if kids != [] {
      var first := kids[0];
      assert ValidNode(first);
      var next := items;
      if first.Elem? {
        AttrItemsKeys(attrs, first.name);
        PushBehind(AttrItems(attrs), items, first.name, ElemValue(cfg, first));
        next := Push(items, first.name, ElemValue(cfg, first));
      }
      KidsBehindAttrs(cfg, kids[1..], attrs, next);
    }
  }

  lemma SortChild(e: Entry)
    requires IsChildKey(e.key)
    ensures AttrsOf([e]) == [] && ChildrenOf([e]) == [e]
    ensures CanonKids([e]) == [Entry(e.key, Canon(e.val))]
  {
    assert [e][1..] == [] && [e][..0] == [];
  }

  lemma {:induction false} CanonKidsGood(items: seq<Entry>)
    requires GoodKids(items)
    ensures CanonKids(items) == items && AttrsOf(items) == [] && ChildrenOf(items) == items
  {
    if items != [] {
      var front, last := items[..|items| - 1], items[|items| - 1];
      CanonKidsGood(front);
      SortAppend(front, [last]);
      CanonKidsAppend(front, [last]);
      SortChild(last);
      assert front + [last] == items;
    }
  }

  /** A dictionary of attributes, then good children, then text, is already in order. */
  lemma CanonInOrder(attrs: seq<Attr>, kids: seq<Entry>, cdata: Option<string>)
    requires GoodKids(kids)
    ensures var items := AttrItems(attrs) + kids + TextItems(cdata);
      Canon(Dict(items)) == Dict(items) && ChildrenOf(items) == kids
  {
    var a, t := AttrItems(attrs), TextItems(cdata);
    CanonKidsGood(kids);
    SortAttrItems(attrs);
    CanonKidsAttrs(attrs);
    if cdata.Some? {
      SortText(cdata.value);
      assert t[1..] == [] && CanonKids(t) == [];
    }
    AttrItemsKeys(attrs, CDATA_KEY);
    HasKeyAppend(a, kids, CDATA_KEY);
    SortThree(a, kids, t);
    assert attrs + [] + [] == attrs && [] + kids + [] == kids;
  }

  lemma SortThree(a: seq<Entry>, b: seq<Entry>, c: seq<Entry>)
    requires !HasKey(a + b, CDATA_KEY)
    ensures AttrsOf(a + b + c) == AttrsOf(a) + AttrsOf(b) + AttrsOf(c)
    ensures ChildrenOf(a + b + c) == ChildrenOf(a) + ChildrenOf(b) + ChildrenOf(c)
    ensures CanonKids(a + b + c) == CanonKids(a) + CanonKids(b) + CanonKids(c)
    ensures CdataOf(a + b + c) == CdataOf(c)
  {
    SortAppend(a + b, c);
    SortAppend(a, b);
    CdataAppend(a + b, c);
    CanonKidsAppend(a + b, c);
    CanonKidsAppend(a, b);
  }

  lemma EntriesInOrder(attrs: seq<Attr>, kids: seq<Entry>, cdata: Option<string>, i: nat)
    requires GoodKids(kids) && (cdata.Some? ==> NormalText(cdata.value))
    requires i < |attrs| + |kids| + |TextItems(cdata)|
    ensures var e := (AttrItems(attrs) + kids + TextItems(cdata))[i];
      && NormalEntry(e)
      && (i < |attrs| ==> e == AttrItems(attrs)[i] && IsAttrKey(e.key))
      && (|attrs| <= i < |attrs| + |kids| ==> e == kids[i - |attrs|] && IsChildKey(e.key))
      && (i >= |attrs| + |kids| ==> e.key == CDATA_KEY)
  {
    var items := AttrItems(attrs) + kids + TextItems(cdata);
    if i < |attrs| {
      assert items[i] == AttrItems(attrs)[i] && items[i].key[0] == '@' != CDATA_KEY[0];
    } else if i < |attrs| + |kids| {
      assert items[i] == kids[i - |attrs|];
    } else {
      assert items[i] == Entry(CDATA_KEY, Text(cdata.value));
    }
  }

  lemma NormalInOrder(attrs: seq<Attr>, kids: seq<Entry>, cdata: Option<string>)
    requires GoodKids(kids) && DistinctAttrs(attrs) && AttrItems(attrs) + kids != []
    requires cdata.Some? ==> NormalText(cdata.value)
    ensures NormalOne(Dict(AttrItems(attrs) + kids + TextItems(cdata)))
  {
    var items := AttrItems(attrs) + kids + TextItems(cdata);
    forall i | 0 <= i < |items|
      ensures NormalEntry(items[i])
    {
      EntriesInOrder(attrs, kids, cdata, i);
    }
    forall i, j | 0 <= i < j < |items|
      ensures items[i].key != items[j].key
    {
      EntriesInOrder(attrs, kids, cdata, i);
      EntriesInOrder(attrs, kids, cdata, j);
      if j < |attrs| {
        assert items[i].key[1..] == attrs[i].name && items[j].key[1..] == attrs[j].name;
      }
    }
    EntriesInOrder(attrs, kids, cdata, 0);
    assert items[0].key != CDATA_KEY;
  }

  lemma {:induction false} CanonKidsAttrs(attrs: seq<Attr>)
    ensures CanonKids(AttrItems(attrs)) == []
  {
    if attrs != [] {
      assert AttrItems(attrs)[1..] == AttrItems(attrs[1..]);
      CanonKidsAttrs(attrs[1..]);
    }
  }

  /** The parts of a parsed element: its attributes, its children as collected without them, its
      stripped text. */
  lemma ElemParts(n: Node)
    requires n.Elem? && ValidNode(n)
    requires !HasKey(AttrItems(n.attrs) + PushKids(DEFAULTS, n.kids, []), CDATA_KEY)
    ensures var kids := PushKids(DEFAULTS, n.kids, []);
      var cdata := StripData(DEFAULTS, KidText(DEFAULTS, n.kids, None));
      ElemValue(DEFAULTS, n) == if AttrItems(n.attrs) + kids == [] then DataValue(cdata)
        else Dict(AttrItems(n.attrs) + kids + TextItems(cdata))
  {
    KidsBehindAttrs(DEFAULTS, n.kids, n.attrs, []);
    assert AttrItems(n.attrs) + [] == AttrItems(n.attrs);
    var cdata := StripData(DEFAULTS, KidText(DEFAULTS, n.kids, None));
    var built := AttrItems(n.attrs) + PushKids(DEFAULTS, n.kids, []);
    assert built + [] == built;
    if cdata.Some? {
      PushNew(built, CDATA_KEY, Text(cdata.value));
    }
  }

  /** Every element of a well-formed document parses to a normal value in canonical order. */
  lemma {:induction false} ParsedElem(n: Node)
    requires n.Elem? && ValidNode(n)
    ensures NormalOne(ElemValue(DEFAULTS, n)) && Canon(ElemValue(DEFAULTS, n)) == ElemValue(DEFAULTS, n)
    decreases n, 1
  {
    var kids := PushKids(DEFAULTS, n.kids, []);
    var cdata := StripData(DEFAULTS, KidText(DEFAULTS, n.kids, None));
    ParsedKids(n.kids, []);
    StripJoined(n.kids);
    StripIsStripped(Joined(n.kids));
    CanonInOrder(n.attrs, kids, cdata);
    if AttrItems(n.attrs) + kids != [] {
      NormalInOrder(n.attrs, kids, cdata);
    }
    CanonKidsGood(kids);
    AttrItemsKeys(n.attrs, CDATA_KEY);
    HasKeyAppend(AttrItems(n.attrs), kids, CDATA_KEY);
    ElemParts(n);
  }

  /** parse, then unparse, then parse: the same dictionary again. */
  lemma ParseUnparseParse(root: Node, layout: Layout, keep: Callback)
    requires root.Elem? && ValidNode(root) && White(layout)
    ensures var v := ElemValue(DEFAULTS, root);
      && Printable(v)
      && Run(DEFAULTS, keep, INITIAL, FlattenAll(EmitKey(root.name, v, 0, layout))).item
      == Run(DEFAULTS, keep, INITIAL, Flatten(root)).item
  {
    ParsedElem(root);
    RoundTrip(root.name, ElemValue(DEFAULTS, root), layout, keep);
    ParseDocument(DEFAULTS, keep, root);
    NormalIsPrintable(ElemValue(DEFAULTS, root));
  }

  lemma {:induction false} NormalIsPrintable(v: Value)
    requires NormalChild(v)
    ensures Printable(v)
    decreases v
  {
    if v.List? {
      forall i | 0 <= i < |v.vals|
        ensures PrintableOne(v.vals[i])
      {
        assert NormalOne(v.vals[i]);
        NormalIsPrintable(v.vals[i]);
      }
    } else if v.Dict? {
      forall i | 0 <= i < |v.items|
        ensures PrintableEntry(v.items[i])
      {
        assert NormalEntry(v.items[i]);
        if IsChildKey(v.items[i].key) {
          NormalIsPrintable(v.items[i].val);
        }
      }
    }
  }

  /** What an XML parser guarantees of each start tag. */
  predicate ValidStarts(events: seq<Event>) {
    forall i :: 0 <= i < |events| && events[i].Start? ==>
                  IsChildKey(events[i].name) && DistinctAttrs(events[i].attrs)
  }

  lemma {:induction false} ValidStartsMakeValidNodes(ns: seq<Node>)
    requires ValidStarts(FlattenAll(ns))
    ensures forall i :: 0 <= i < |ns| ==> ValidNode(ns[i])
    decreases ns
  {
    if ns != [] {
      var first, rest := Flatten(ns[0]), FlattenAll(ns[1..]);
      ValidParts(first, rest);
      if ns[0].Elem? {
        var inner := FlattenAll(ns[0].kids);
        assert first[0] == Start(ns[0].name, ns[0].attrs);
        ValidParts([first[0]] + inner, [End(ns[0].name)]);
        ValidParts([first[0]], inner);
        ValidStartsMakeValidNodes(ns[0].kids);
      }
      ValidStartsMakeValidNodes(ns[1..]);
    }
  }

  lemma ValidParts(a: seq<Event>, b: seq<Event>)
    requires ValidStarts(a + b)
    ensures ValidStarts(a) && ValidStarts(b)
  {
    assert forall i :: 0 <= i < |a| ==> a[i] == (a + b)[i];
    assert forall i :: 0 <= i < |b| ==> b[i] == (a + b)[|a| + i];
  }

  /** Whatever well-nested events with valid names the parser delivers, the dictionary is normal. */
  lemma WellNestedParsesNormal(events: seq<Event>, keep: Callback)
    requires WellNested(events, []) && ValidStarts(events)
    ensures GoodKids(Run(DEFAULTS, keep, INITIAL, events).item)
  {
    WellNestedIsForest(events);
    var ns :| events == FlattenAll(ns);
    ValidStartsMakeValidNodes(ns);
    RunKids(DEFAULTS, keep, INITIAL, ns);
    ParsedKids(ns, []);
  }

  // ---- What streaming reports ----

  /** For an element with child elements the callback gets exactly the children part of the dictionary
      that parsing the whole document builds for it. */
  lemma StreamedChildren(cfg: Config, f: Found)
    requires f.node.Elem? && ValidNode(f.node)
    requires cfg == DEFAULTS.(itemDepth := cfg.itemDepth)
    requires exists i :: 0 <= i < |f.node.kids| && f.node.kids[i].Elem?
    ensures ElemValue(DEFAULTS, f.node).Dict?
    ensures Reported(cfg, f) == Call(f.path, Dict(ChildrenOf(ElemValue(DEFAULTS, f.node).items)))
  {
    var n := f.node;
    var kids := PushKids(DEFAULTS, n.kids, []);
    var cdata := StripData(DEFAULTS, KidText(DEFAULTS, n.kids, None));
    SameKids(cfg, n.kids, []);
    ParsedKids(n.kids, []);
    KidsNotEmpty(DEFAULTS, n.kids, []);
    StripJoined(n.kids);
    StripIsStripped(Joined(n.kids));
    CanonInOrder(n.attrs, kids, cdata);
    CanonKidsGood(kids);
    AttrItemsKeys(n.attrs, CDATA_KEY);
    HasKeyAppend(AttrItems(n.attrs), kids, CDATA_KEY);
    ElemParts(n);
  }

  lemma {:induction false} SameKids(cfg: Config, kids: seq<Node>, items: seq<Entry>)
    requires cfg == DEFAULTS.(itemDepth := cfg.itemDepth)
    ensures PushKids(cfg, kids, items) == PushKids(DEFAULTS, kids, items)
    decreases kids, 0
  {
    if kids != [] {
      if kids[0].Elem? {
        SameElem(cfg, kids[0]);
      }
      SameKids(cfg, kids[1..],
        if kids[0].Elem? then Push(items, kids[0].name, ElemValue(cfg, kids[0])) else items);
    }
  }

  lemma {:induction false} SameElem(cfg: Config, n: Node)
    requires cfg == DEFAULTS.(itemDepth := cfg.itemDepth) && n.Elem?
    ensures ElemValue(cfg, n) == ElemValue(DEFAULTS, n)
    decreases n, 1
  {
    SameKids(cfg, n.kids, AttrItems(n.attrs));
    SameText(cfg, n.kids, None);
  }

  lemma {:induction false} SameText(cfg: Config, kids: seq<Node>, data: Option<string>)
    requires cfg == DEFAULTS.(itemDepth := cfg.itemDepth)
    ensures KidText(cfg, kids, data) == KidText(DEFAULTS, kids, data)
    decreases kids
  {
    if kids != [] {
      SameText(cfg, kids[1..], if kids[0].Chunk? then AddText("", data, kids[0].text) else data);
    }
  }

  lemma {:induction false} KidsNotEmpty(cfg: Config, kids: seq<Node>, items: seq<Entry>)
    requires items != [] || exists i :: 0 <= i < |kids| && kids[i].Elem?
    ensures PushKids(cfg, kids, items) != []
    decreases kids
  {
    if kids != [] {
      var next := if kids[0].Elem? then Push(items, kids[0].name, ElemValue(cfg, kids[0])) else items;
      if next == [] {
        var i :| 0 <= i < |kids| && kids[i].Elem?;
        assert kids[1..][i - 1].Elem?;
      }
      KidsNotEmpty(cfg, kids[1..], next);
    }
  }

  /** An element without child elements is reported as the text that was pending in front of it,
      joined with its own; so it is its own text exactly when no text was pending. */
  lemma StreamedLeaf(cfg: Config, f: Found)
    requires f.node.Elem? && cfg == DEFAULTS.(itemDepth := cfg.itemDepth)
    requires forall i :: 0 <= i < |f.node.kids| ==> f.node.kids[i].Chunk?
    ensures var own, item := Joined(f.node.kids), Reported(cfg, f).item;
      var told := if item.Text? then item.text else "";
      && (item.Null? || item.Text?)
      && told == OrEmpty(f.pending) + own
      && (told == own <==> OrEmpty(f.pending) == "")
  {
    LeafHasNoKids(cfg, f.node.kids);
    SameText(cfg, f.node.kids, f.pending);
    KidTextIsJoined(f.node.kids, f.pending);
    var own := Joined(f.node.kids);
    assert |OrEmpty(f.pending) + own| == |OrEmpty(f.pending)| + |own|;
  }

  lemma {:induction false} LeafHasNoKids(cfg: Config, kids: seq<Node>)
    requires forall i :: 0 <= i < |kids| ==> kids[i].Chunk?
    ensures PushKids(cfg, kids, []) == []
  {
    if kids != [] {
      LeafHasNoKids(cfg, kids[1..]);
    }
  }
}
