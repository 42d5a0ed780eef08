/** The SAX handler of common/xml2dict.py: a stack machine that turns start, characters and end
    events into nested dictionaries. */
module XmlHandler {
  import opened PyText

  /** A Python value as `parse` builds it and `unparse` prints it. A dictionary is the sequence of its
      entries in insertion order; `Other` is any other scalar, known by its `unicode()` text. */
  datatype Value =
    | Null
    | Text(text: string)
    | Other(shown: string)
    | Dict(items: seq<Entry>)
    | List(vals: seq<Value>)

  datatype Entry = Entry(key: string, val: Value)

  datatype Attr = Attr(name: string, value: string)

  datatype Event =
    | Start(name: string, attrs: seq<Attr>)
    | Chars(text: string)
    | End(name: string)

  /** The keyword arguments of the handler. `attr_prefix` and `cdata_key` keep their defaults. */
  datatype Config = Config(
    itemDepth: nat, xmlAttribs: bool, cdataSeparator: string, stripWhitespace: bool)

  const DEFAULTS := Config(0, true, "", true)

  const CDATA_KEY := "#text"

  datatype Tag = Tag(name: string, attrs: seq<Attr>)

  datatype Call = Call(path: seq<Tag>, item: Value)

  /** The callback's answer may depend on every call it has received so far. */
  type Callback = seq<Call> -> bool

  datatype Frame = Frame(item: seq<Entry>, data: Option<string>)

  /** The fields of the handler. `item == []` stands for `None`: the code never keeps an empty
      dictionary there. */
  datatype State = State(
    path: seq<Tag>, stack: seq<Frame>, item: seq<Entry>, data: Option<string>,
    calls: seq<Call>, interrupted: bool)

  const INITIAL := State([], [], [], None, [], false)

  function AttrItems(attrs: seq<Attr>): (items: seq<Entry>) {
    seq(|attrs|, i requires 0 <= i < |attrs| => Entry("@" + attrs[i].name, Text(attrs[i].value)))
  }

  predicate HasKey(items: seq<Entry>, key: string) {
    exists i :: 0 <= i < |items| && items[i].key == key
  }

  /** The position of a key, or the length of the dictionary when it is missing. */
  function FindKey(items: seq<Entry>, key: string): (i: nat)
    ensures i <= |items|
    ensures i < |items| ==> items[i].key == key
    ensures forall j :: 0 <= j < i ==> items[j].key != key
    ensures i < |items| <==> HasKey(items, key)
  {
    if items == [] then 0
    else if items[0].key == key then 0
    else
      assert HasKey(items[1..], key) ==> HasKey(items, key) by {
        if i :| 0 <= i < |items[1..]| && items[1..][i].key == key {
          assert items[i + 1].key == key;
        }
      }
      1 + FindKey(items[1..], key)
  }

  /** A second value under one key turns the first into a list, later ones are appended to it. */
  function Grow(value: Value, data: Value): Value {
    match value
    case List(vals) => List(vals + [data])
    case _ => List([value, data])
  }

  function Push(items: seq<Entry>, key: string, data: Value): seq<Entry> {
    var i := FindKey(items, key);
    if i < |items| then items[i := Entry(key, Grow(items[i].val, data))]
    else items + [Entry(key, data)]
  }

  function AddText(separator: string, data: Option<string>, text: string): Option<string> {
    if data.None? || data.value == "" then Some(text) else Some(data.value + separator + text)
  }

  function StripData(cfg: Config, data: Option<string>): Option<string> {
    if cfg.stripWhitespace && data.Some? then
      var s := Strip(data.value);
      if s == "" then None else Some(s)
    else data
  }

  function DataValue(data: Option<string>): Value {
    if data.Some? then Text(data.value) else Null
  }

  /** The value that the end of an element hands to its parent. */
  function Finish(cfg: Config, item: seq<Entry>, data: Option<string>): Value {
    var text := StripData(cfg, data);
    if item == [] then DataValue(text)
    else if text.Some? && text.value != "" then Dict(Push(item, CDATA_KEY, Text(text.value)))
    else Dict(item)
  }

  function OnStart(cfg: Config, st: State, name: string, attrs: seq<Attr>): State {
    var entered := st.(path := st.path + [Tag(name, attrs)]);
    if |entered.path| <= cfg.itemDepth then entered
    else entered.(
      stack := st.stack + [Frame(st.item, st.data)],
      item := if cfg.xmlAttribs then AttrItems(attrs) else [],
      data := None)
  }

  function OnChars(cfg: Config, st: State, text: string): State {
    st.(data := AddText(cfg.cdataSeparator, st.data, text))
  }

  function Report(st: State): Value {
    if st.item == [] then DataValue(st.data) else Dict(st.item)
  }

  function OnCallback(cfg: Config, keep: Callback, st: State): State {
    if |st.path| != cfg.itemDepth then st
    else
      var calls := st.calls + [Call(st.path, Report(st))];
      st.(calls := calls, interrupted := !keep(calls))
  }

  function OnClose(cfg: Config, st: State, name: string): State
    requires st.path != []
  {
    var left := st.(path := st.path[..|st.path| - 1]);
    if st.stack == [] then left.(item := [], data := None)
    else
      var top := st.stack[|st.stack| - 1];
      left.(
        stack := st.stack[..|st.stack| - 1],
        item := Push(top.item, name, Finish(cfg, st.item, st.data)),
        data := top.data)
  }

  function OnEnd(cfg: Config, keep: Callback, st: State, name: string): State
    requires st.path != []
  {
    var told := OnCallback(cfg, keep, st);
    if told.interrupted then told else OnClose(cfg, told, name)
  }

  /** One event. The parser delivers nothing after `ParsingInterrupted`, and no end tag without an
      open element. */
  function Step(cfg: Config, keep: Callback, st: State, ev: Event): State {
    if st.interrupted then st
    else match ev
      case Start(name, attrs) => OnStart(cfg, st, name, attrs)
      case Chars(text) => OnChars(cfg, st, text)
      case End(name) => if st.path == [] then st else OnEnd(cfg, keep, st, name)
  }

  function Run(cfg: Config, keep: Callback, st: State, events: seq<Event>): State
    decreases events
  {
    if events == [] then st else Run(cfg, keep, Step(cfg, keep, st, events[0]), events[1..])
  }

  lemma {:induction false} RunAppend(cfg: Config, keep: Callback, st: State, a: seq<Event>, b: seq<Event>)
    ensures Run(cfg, keep, st, a + b) == Run(cfg, keep, Run(cfg, keep, st, a), b)
    decreases a
  {
    if a == [] {
      assert a + b == b;
    } else {
      assert (a + b)[1..] == a[1..] + b;
      RunAppend(cfg, keep, Step(cfg, keep, st, a[0]), a[1..], b);
    }
  }

  /** The handler itself, its callback and the calls the callback has received. */
  class DictSAXHandler {
    const cfg: Config
    const itemCallback: Callback
    var path: seq<Tag>
    var stack: seq<Frame>
    var item: seq<Entry>
    var data: Option<string>
    var calls: seq<Call>
    var interrupted: bool

    ghost function Now(): State
      reads this
    {
      State(path, stack, item, data, calls, interrupted)
    }

    constructor (cfg: Config, itemCallback: Callback)
      ensures this.cfg == cfg && this.itemCallback == itemCallback
      ensures Now() == INITIAL
    {
      this.cfg, this.itemCallback := cfg, itemCallback;
      path, stack, item, data, calls, interrupted := [], [], [], None, [], false;
    }

    method StartElement(name: string, attrs: seq<Attr>)
      modifies this
      ensures Now() == OnStart(cfg, old(Now()), name, attrs)
    {
      path := path + [Tag(name, attrs)];
      if |path| > cfg.itemDepth {
        stack := stack + [Frame(item, data)];
        item := if cfg.xmlAttribs then AttrItems(attrs) else [];
        data := None;
      }
    }

    method Characters(text: string)
      modifies this
      ensures Now() == OnChars(cfg, old(Now()), text)
    {
      if data.None? || data.value == "" {
        data := Some(text);
      } else {
        data := Some(data.value + cfg.cdataSeparator + text);
      }
    }

    method EndElement(name: string)
      requires path != []
      requires !interrupted
      modifies this
      ensures Now() == OnEnd(cfg, itemCallback, old(Now()), name)
    {
      if |path| == cfg.itemDepth {
        var reported := if item == [] then DataValue(data) else Dict(item);
        calls := calls + [Call(path, reported)];
        if !itemCallback(calls) {
          interrupted := true;
          return;
        }
      }
      Close(name);
    }

    /** The part of `endElement` after the callback. */
    method Close(name: string)
      requires path != []
      modifies this
      ensures Now() == OnClose(cfg, old(Now()), name)
    {
      if stack != [] {
        var inner, text := item, StripData(cfg, data);
        ghost var value := Finish(cfg, item, data);
        item, data := stack[|stack| - 1].item, stack[|stack| - 1].data;
        stack := stack[..|stack| - 1];
        if inner != [] {
          if text.Some? && text.value != "" {
            inner := Push(inner, CDATA_KEY, Text(text.value));
          }
          assert Dict(inner) == value;
          item := Push(item, name, Dict(inner));
        } else {
          item := Push(item, name, DataValue(text));
        }
      } else {
        item, data := [], None;
      }
      path := path[..|path| - 1];
    }
  }

  /** Feeding a parser's events to a fresh handler, until the callback interrupts. */
  method Parse(cfg: Config, itemCallback: Callback, events: seq<Event>)
    returns (item: seq<Entry>, calls: seq<Call>, interrupted: bool)
    ensures var end := Run(cfg, itemCallback, INITIAL, events);
      item == end.item && calls == end.calls && interrupted == end.interrupted
  {
    var handler := new DictSAXHandler(cfg, itemCallback);
    for i := 0 to |events|
      invariant handler.cfg == cfg && handler.itemCallback == itemCallback
      invariant fresh(handler)
      invariant Run(cfg, itemCallback, handler.Now(), events[i..])
             == Run(cfg, itemCallback, INITIAL, events)
    {
      assert events[i..][0] == events[i] && events[i..][1..] == events[i + 1..];
      if !handler.interrupted {
        match events[i] {
          case Start(name, attrs) => handler.StartElement(name, attrs);
          case Chars(text) => handler.Characters(text);
          case End(name) =>
            if handler.path != [] {
              handler.EndElement(name);
            }
        }
      }
    }
    return handler.item, handler.calls, handler.interrupted;
  }
}
