/*
 * NativePyDictHandler (xmlpydict/core.py): the pure-Python handler driven by
 * an event parser's callbacks. It keeps the element being built in `item`,
 * its character data in `data`, and the enclosing elements' `item` and `data`
 * on two stacks.
 */
module PyDictHandler {
  import opened XmlChars
  import opened Values

  /** Python's `str.isspace` for one character: what `str.strip()` removes. */
  predicate PyIsSpace(c: char) {
    || c == ' '
    || '\t' <= c <= '\r'
    || '\U{001C}' <= c <= '\U{001F}'
    || c == '\U{0085}' || c == '\U{00A0}' || c == '\U{1680}'
    || '\U{2000}' <= c <= '\U{200A}'
    || c == '\U{2028}' || c == '\U{2029}' || c == '\U{202F}' || c == '\U{205F}' || c == '\U{3000}'
  }

  /** `"".join(chunks)`. */
  function Join(chunks: seq<string>): (s: string)
    ensures chunks == [] ==> s == []
  {
    if chunks == [] then [] else Join(chunks[..|chunks| - 1]) + chunks[|chunks| - 1]
  }

  lemma {:induction false} JoinAppend(a: seq<string>, b: seq<string>)
    ensures Join(a + b) == Join(a) + Join(b)
    decreases |b|
  {
    if b != [] {
      assert (a + b)[..|a + b| - 1] == a + b[..|b| - 1];
      JoinAppend(a, b[..|b| - 1]);
    } else {
      assert a + b == a;
    }
  }

  /**
   * `update_children(target, key, value)`: the dict target (a fresh one for
   * None) with value added under key, next to what is there already.
   */
  function UpdateChildren(target: Value, key: string, value: Value): (r: Value)
    requires target.Null? || target.Dict?
    ensures r.Dict?
    ensures target.Null? ==> r == Dict([(key, value)])
    ensures target.Dict? ==> forall k :: k != key ==> Get(r.entries, k) == Get(target.entries, k)
    ensures target.Dict? && Get(target.entries, key).None? ==> Get(r.entries, key) == Some(value)
    ensures target.Dict? && Get(target.entries, key).Some? && Get(target.entries, key).value.List? ==>
              Get(r.entries, key) == Some(List(Get(target.entries, key).value.items + [value]))
    ensures target.Dict? && Get(target.entries, key).Some? && !Get(target.entries, key).value.List? ==>
              Get(r.entries, key) == Some(List([Get(target.entries, key).value, value]))
  {
    var entries := if target.Null? then [] else target.entries;
    match Get(entries, key)
    case None => Dict(Set(entries, key, value))
    case Some(existing) =>
      if existing.List? then Dict(Set(entries, key, List(existing.items + [value])))
      else Dict(Set(entries, key, List([existing, value])))
  }

  /** Adding a child keeps the keys of the target in order, appending the key when it is new. */
  lemma UpdateChildrenKeys(target: Value, key: string, value: Value)
    requires target.Dict?
    ensures Keys(UpdateChildren(target, key, value).entries) ==
              if key in Keys(target.entries) then Keys(target.entries) else Keys(target.entries) + [key]
  {
    match Get(target.entries, key)
    case None => SetKeys(target.entries, key, value);
    case Some(existing) =>
      if existing.List? {
        SetKeys(target.entries, key, List(existing.items + [value]));
      } else {
        SetKeys(target.entries, key, List([existing, value]));
      }
  }

  // ---------------------------------------------------------------------
  // The handler's state and its callbacks as steps
  // ---------------------------------------------------------------------

  /** The handler's fields `item`, `data`, `item_stack` and `data_stack`. */
  datatype Handler = Handler(item: Value, data: seq<string>, itemStack: seq<Value>, dataStack: seq<seq<string>>)

  /** What the callbacks keep: every item is None or a dict, and the two stacks are equally deep. */
  predicate HandlerInv(h: Handler) {
    && (h.item.Null? || h.item.Dict?)
    && (forall j :: 0 <= j < |h.itemStack| ==> h.itemStack[j].Null? || h.itemStack[j].Dict?)
    && |h.itemStack| == |h.dataStack|
  }

  /** The state after `__init__`. */
  const Initial := Handler(Null, [], [], [])

  /** A callback from the event parser. */
  datatype Event = Text(chunk: string) | Start(name: string, attrs: seq<Pair>) | End(name: string)

  /** The item startElement begins: the prefixed attributes, or None when there are none. */
  function StartItem(attrs: seq<Pair>, prefix: string): (r: Value)
    ensures r.Null? <==> attrs == []
    ensures r.Dict? ==> r.entries == PrefixedDict(attrs, prefix)
  {
    var d := PrefixedDict(attrs, prefix);
    assert attrs != [] ==> Get(d, prefix + attrs[|attrs| - 1].key).Some?;
    if d == [] then Null else Dict(d)
  }

  /** The value endElement attaches for a closed element, from its item and its stripped text. */
  function ClosedValue(item: Value, text: string, cdataKey: string): (r: Value)
    requires item.Null? || item.Dict?
    ensures item.Null? && text == [] ==> r == Null
    ensures item.Null? && text != [] ==> r == Str(text)
    ensures item.Dict? ==> r.Dict?
    ensures item.Dict? && text != [] ==> Get(r.entries, cdataKey) == Some(Str(text))
    ensures item.Dict? ==> forall k :: k != cdataKey ==> Get(r.entries, k) == Get(item.entries, k)
    ensures item.Dict? && text == [] ==> r == item
  {
    if item.Null? then (if text == [] then Null else Str(text))
    else if text != [] then Dict(Set(item.entries, cdataKey, Str(text)))
    else item
  }

  /** One callback on the handler's state. */
  function Step(h: Handler, e: Event, prefix: string, cdataKey: string): (r: Handler)
    requires HandlerInv(h)
    ensures HandlerInv(r)
  {
    match e
    case Text(chunk) => h.(data := h.data + [chunk])
    case Start(_, attrs) => Handler(StartItem(attrs, prefix), [], h.itemStack + [h.item], h.dataStack + [h.data])
    case End(name) =>
      if h.dataStack == [] then h
      else
        var last := |h.dataStack| - 1;
        var value := ClosedValue(h.item, Trim(Join(h.data), PyIsSpace), cdataKey);
        Handler(UpdateChildren(h.itemStack[last], name, value), h.dataStack[last], h.itemStack[..last], h.dataStack[..last])
  }

  /** A proof step: `Step`'s End branch unfolded, for the lemmas and methods that reason about it. */
  lemma StepEnd(h: Handler, name: string, prefix: string, cdataKey: string)
    requires HandlerInv(h) && h.dataStack != []
    ensures var last := |h.dataStack| - 1;
            Step(h, End(name), prefix, cdataKey) ==
              Handler(UpdateChildren(h.itemStack[last], name, ClosedValue(h.item, Trim(Join(h.data), PyIsSpace), cdataKey)),
                      h.dataStack[last], h.itemStack[..last], h.dataStack[..last])
  {
  }

  /**
   * endElement with an open element: both stacks pop, the parent's character
   * data comes back, and the parent item (a fresh dict for None) gains the
   * closed element's value under its name, as a list when the name repeats.
   */
  lemma EndPops(h: Handler, name: string, prefix: string, cdataKey: string)
    requires HandlerInv(h) && h.dataStack != []
    ensures var r := Step(h, End(name), prefix, cdataKey);
            var last := |h.dataStack| - 1;
            var parent := h.itemStack[last];
            var v := ClosedValue(h.item, Trim(Join(h.data), PyIsSpace), cdataKey);
            && r.itemStack == h.itemStack[..last] && r.dataStack == h.dataStack[..last]
            && r.data == h.dataStack[last]
            && r.item.Dict?
            && (parent.Null? ==> r.item == Dict([(name, v)]))
            && (parent.Dict? ==> forall k :: k != name ==> Get(r.item.entries, k) == Get(parent.entries, k))
            && (parent.Dict? && Get(parent.entries, name).None? ==> Get(r.item.entries, name) == Some(v))
            && (parent.Dict? && Get(parent.entries, name).Some? ==>
                  var existing := Get(parent.entries, name).value;
                  Get(r.item.entries, name) == Some(List((if existing.List? then existing.items else [existing]) + [v])))
  {
    StepEnd(h, name, prefix, cdataKey);
    var parent := h.itemStack[|h.dataStack| - 1];
    if parent.Dict? && Get(parent.entries, name).Some? {
      UpdateChildrenRepeats(parent, name, ClosedValue(h.item, Trim(Join(h.data), PyIsSpace), cdataKey));
    }
  }

  /** A key already present turns into a list, or a list grows, by the added value. */
  lemma UpdateChildrenRepeats(target: Value, key: string, value: Value)
    requires target.Dict? && Get(target.entries, key).Some?
    ensures var existing := Get(target.entries, key).value;
            Get(UpdateChildren(target, key, value).entries, key) ==
              Some(List((if existing.List? then existing.items else [existing]) + [value]))
  {
    var existing := Get(target.entries, key).value;
    assert [existing] + [value] == [existing, value];
  }

  /** The callbacks of events, in order. */
  function Run(h: Handler, events: seq<Event>, prefix: string, cdataKey: string): (r: Handler)
    requires HandlerInv(h)
    ensures HandlerInv(r)
    decreases |events|
  {
    if events == [] then h else Run(Step(h, events[0], prefix, cdataKey), events[1..], prefix, cdataKey)
  }

  lemma {:induction false} RunAppend(h: Handler, a: seq<Event>, b: seq<Event>, prefix: string, cdataKey: string)
    requires HandlerInv(h)
    ensures Run(h, a + b, prefix, cdataKey) == Run(Run(h, a, prefix, cdataKey), b, prefix, cdataKey)
    decreases |a|
  {
    if a != [] {
      assert (a + b)[0] == a[0] && (a + b)[1..] == a[1..] + b;
      RunAppend(Step(h, a[0], prefix, cdataKey), a[1..], b, prefix, cdataKey);
    } else {
      assert a + b == b;
    }
  }

  /** A sequence with one element appended: its prefix and its last element. */
  lemma SnocParts<T>(s: seq<T>, x: T)
    ensures (s + [x])[..|s|] == s && (s + [x])[|s|] == x
  {
  }

  // ---------------------------------------------------------------------
  // What the handler builds for a whole element
  // ---------------------------------------------------------------------

  /** A piece of an element's content: character data or a child element. */
  datatype Content = CharData(text: string) | Child(element: Element)

  datatype Element = Element(name: string, attrs: seq<Pair>, content: seq<Content>)

  /** The callbacks the event parser makes for an element. */
  function Events(e: Element): seq<Event>
    decreases e, 1
  {
    [Start(e.name, e.attrs)] + ContentEvents(e, 0) + [End(e.name)]
  }

  /** The callbacks for the content of e from index k on. */
  function ContentEvents(e: Element, k: nat): seq<Event>
    requires k <= |e.content|
    decreases e, 0, |e.content| - k
  {
    if k == |e.content| then []
    else
      match e.content[k]
      case CharData(t) => [Text(t)] + ContentEvents(e, k + 1)
      case Child(c) => Events(c) + ContentEvents(e, k + 1)
  }

  /** The character data directly inside e (not inside its children), from index k on. */
  function Chunks(e: Element, k: nat): seq<string>
    requires k <= |e.content|
    decreases |e.content| - k
  {
    if k == |e.content| then []
    else (if e.content[k].CharData? then [e.content[k].text] else []) + Chunks(e, k + 1)
  }

  /** The text of e: its direct character data joined and stripped. */
  function ElementText(e: Element): string {
    Trim(Join(Chunks(e, 0)), PyIsSpace)
  }

  /** The value an element contributes to its parent, defined over the element tree. */
  function ElementValue(e: Element, prefix: string, cdataKey: string): Value
    decreases e, 1
  {
    ClosedValue(ChildrenItem(e, 0, StartItem(e.attrs, prefix), prefix, cdataKey), ElementText(e), cdataKey)
  }

  /** item with the values of the child elements of e from index k on added, in document order. */
  function ChildrenItem(e: Element, k: nat, item: Value, prefix: string, cdataKey: string): (r: Value)
    requires k <= |e.content| && (item.Null? || item.Dict?)
    ensures r.Null? || r.Dict?
    ensures r.Null? ==> item.Null?
    decreases e, 0, |e.content| - k
  {
    if k == |e.content| then item
    else
      match e.content[k]
      case CharData(_) => ChildrenItem(e, k + 1, item, prefix, cdataKey)
      case Child(c) => ChildrenItem(e, k + 1, UpdateChildren(item, c.name, ElementValue(c, prefix, cdataKey)), prefix, cdataKey)
  }

  /**
   * The callbacks of a whole element leave both stacks and the parent's data
   * as they were, and add the element's value to the parent's item.
   */
  lemma {:induction false} RunElement(h: Handler, e: Element, prefix: string, cdataKey: string)
    requires HandlerInv(h)
    ensures Run(h, Events(e), prefix, cdataKey) ==
              h.(item := UpdateChildren(h.item, e.name, ElementValue(e, prefix, cdataKey)))
    decreases e, 1
  {
    var start, body, end := [Start(e.name, e.attrs)], ContentEvents(e, 0), [End(e.name)];
    var h1 := Handler(StartItem(e.attrs, prefix), [], h.itemStack + [h.item], h.dataStack + [h.data]);
    var h2 := h1.(item := ChildrenItem(e, 0, h1.item, prefix, cdataKey), data := Chunks(e, 0));
    calc {
      Run(h, Events(e), prefix, cdataKey);
    == { RunAppend(h, start + body, end, prefix, cdataKey); }
      Run(Run(h, start + body, prefix, cdataKey), end, prefix, cdataKey);
    == { RunAppend(h, start, body, prefix, cdataKey);
         RunSingle(h, Start(e.name, e.attrs), prefix, cdataKey); }
      Run(Run(h1, body, prefix, cdataKey), end, prefix, cdataKey);
    == { RunContent(h1, e, 0, prefix, cdataKey);
         NilAppend(Chunks(e, 0)); }
      Run(h2, end, prefix, cdataKey);
    == { RunSingle(h2, End(e.name), prefix, cdataKey);
         StepEnd(h2, e.name, prefix, cdataKey);
         SnocParts(h.itemStack, h.item);
         SnocParts(h.dataStack, h.data); }
      h.(item := UpdateChildren(h.item, e.name, ElementValue(e, prefix, cdataKey)));
    }
  }

  /** The callbacks of the content of e from index k on add its children's values and collect its text. */
  lemma {:induction false} RunContent(g: Handler, e: Element, k: nat, prefix: string, cdataKey: string)
    requires HandlerInv(g) && k <= |e.content|
    ensures Run(g, ContentEvents(e, k), prefix, cdataKey) ==
              g.(item := ChildrenItem(e, k, g.item, prefix, cdataKey), data := g.data + Chunks(e, k))
    decreases e, 0, |e.content| - k, 1
  {
    if k == |e.content| {
      assert g.data + [] == g.data;
    } else if e.content[k].CharData? {
      RunCharData(g, e, k, prefix, cdataKey);
    } else {
      RunChild(g, e, k, prefix, cdataKey);
    }
  }

  lemma {:induction false} RunCharData(g: Handler, e: Element, k: nat, prefix: string, cdataKey: string)
    requires HandlerInv(g) && k < |e.content| && e.content[k].CharData?
    ensures Run(g, ContentEvents(e, k), prefix, cdataKey) ==
              g.(item := ChildrenItem(e, k, g.item, prefix, cdataKey), data := g.data + Chunks(e, k))
    decreases e, 0, |e.content| - k, 0
  {
    var t := e.content[k].text;
    var rest := ContentEvents(e, k + 1);
    var g1 := g.(data := g.data + [t]);
    calc {
      Run(g, ContentEvents(e, k), prefix, cdataKey);
    == { RunAppend(g, [Text(t)], rest, prefix, cdataKey); }
      Run(Run(g, [Text(t)], prefix, cdataKey), rest, prefix, cdataKey);
    == { RunSingle(g, Text(t), prefix, cdataKey); }
      Run(g1, rest, prefix, cdataKey);
    == { RunContent(g1, e, k + 1, prefix, cdataKey); }
      g1.(item := ChildrenItem(e, k + 1, g.item, prefix, cdataKey), data := g1.data + Chunks(e, k + 1));
    == { AppendAssoc(g.data, [t], Chunks(e, k + 1)); }
      g.(item := ChildrenItem(e, k, g.item, prefix, cdataKey), data := g.data + Chunks(e, k));
    }
  }

  /** The callbacks of one event are that event's step. */
  lemma RunSingle(h: Handler, ev: Event, prefix: string, cdataKey: string)
    requires HandlerInv(h)
    ensures Run(h, [ev], prefix, cdataKey) == Step(h, ev, prefix, cdataKey)
  {
    assert [ev][1..] == [];
  }

  lemma {:induction false} RunChild(g: Handler, e: Element, k: nat, prefix: string, cdataKey: string)
    requires HandlerInv(g) && k < |e.content| && e.content[k].Child?
    ensures Run(g, ContentEvents(e, k), prefix, cdataKey) ==
              g.(item := ChildrenItem(e, k, g.item, prefix, cdataKey), data := g.data + Chunks(e, k))
    decreases e, 0, |e.content| - k, 0
  {
    var c := e.content[k].element;
    var rest := ContentEvents(e, k + 1);
    assert ContentEvents(e, k) == Events(c) + rest;
    RunAppend(g, Events(c), rest, prefix, cdataKey);
    RunElement(g, c, prefix, cdataKey);
    var g1 := g.(item := UpdateChildren(g.item, c.name, ElementValue(c, prefix, cdataKey)));
    RunContent(g1, e, k + 1, prefix, cdataKey);
    assert Chunks(e, k) == Chunks(e, k + 1);
  }

  /** A document of one root element becomes the dict holding the root's value under its name. */
  lemma RunDocument(root: Element, prefix: string, cdataKey: string)
    ensures Run(Initial, Events(root), prefix, cdataKey) ==
              Handler(Dict([(root.name, ElementValue(root, prefix, cdataKey))]), [], [], [])
  {
    RunElement(Initial, root, prefix, cdataKey);
  }

  /** An element with no attributes and no child elements is attached as its text, or None. */
  lemma {:induction false} LeafValue(e: Element, prefix: string, cdataKey: string)
    requires e.attrs == []
    requires forall k :: 0 <= k < |e.content| ==> e.content[k].CharData?
    ensures ElementText(e) == [] ==> ElementValue(e, prefix, cdataKey) == Null
    ensures ElementText(e) != [] ==> ElementValue(e, prefix, cdataKey) == Str(ElementText(e))
  {
    LeafChildren(e, 0, prefix, cdataKey);
  }

  lemma {:induction false} LeafChildren(e: Element, k: nat, prefix: string, cdataKey: string)
    requires k <= |e.content|
    requires forall j :: k <= j < |e.content| ==> e.content[j].CharData?
    ensures ChildrenItem(e, k, Null, prefix, cdataKey) == Null
    decreases |e.content| - k
  {
    if k < |e.content| {
      LeafChildren(e, k + 1, prefix, cdataKey);
    }
  }

  /**
   * An element with attributes or a child element is attached as a dict,
   * holding its non-empty text under the text key.
   */
  lemma {:induction false} ElementDict(e: Element, prefix: string, cdataKey: string, k: nat)
    requires e.attrs != [] || (k < |e.content| && e.content[k].Child?)
    ensures ElementValue(e, prefix, cdataKey).Dict?
    ensures ElementText(e) != [] ==> Get(ElementValue(e, prefix, cdataKey).entries, cdataKey) == Some(Str(ElementText(e)))
  {
    if e.attrs == [] {
      ChildMakesDict(e, 0, k, Null, prefix, cdataKey);
    }
  }

  lemma {:induction false} ChildMakesDict(e: Element, j: nat, k: nat, item: Value, prefix: string, cdataKey: string)
    requires j <= k < |e.content| && e.content[k].Child?
    requires item.Null? || item.Dict?
    ensures ChildrenItem(e, j, item, prefix, cdataKey).Dict?
    decreases k - j
  {
    match e.content[j]
    case CharData(_) =>
      ChildMakesDict(e, j + 1, k, item, prefix, cdataKey);
    case Child(c) =>
      var next := UpdateChildren(item, c.name, ElementValue(c, prefix, cdataKey));
      if j < k {
        ChildMakesDict(e, j + 1, k, next, prefix, cdataKey);
      }
  }

  // ---------------------------------------------------------------------
  // The handler object
  // ---------------------------------------------------------------------

  class NativePyDictHandler {
    const attrPrefix: string
    const cdataKey: string
    var item: Value
    var data: seq<string>
    var itemStack: seq<Value>
    var dataStack: seq<seq<string>>

    function State(): Handler
      reads this
    {
      Handler(item, data, itemStack, dataStack)
    }

    predicate Valid()
      reads this
    {
      HandlerInv(State())
    }

    /** `__init__`: no item, no data, empty stacks. */
    constructor (attrPrefix: string, cdataKey: string)
      ensures this.attrPrefix == attrPrefix && this.cdataKey == cdataKey
      ensures State() == Initial && Valid()
    {
      this.attrPrefix := attrPrefix;
      this.cdataKey := cdataKey;
      item := Null;
      data := [];
      itemStack := [];
      dataStack := [];
    }

    /** `characters`: the chunk is appended to the data, nothing else changes. */
    method Characters(chunk: string)
      requires Valid()
      modifies this`data
      ensures Valid()
      ensures data == old(data) + [chunk]
      ensures State() == Step(old(State()), Text(chunk), attrPrefix, cdataKey)
    {
      data := data + [chunk];
    }

    /** `startElement`: both stacks grow by the current item and data; a new item and empty data begin. */
    method StartElement(name: string, attrs: seq<Pair>)
      requires Valid()
      modifies this
      ensures Valid()
      ensures itemStack == old(itemStack) + [old(item)] && dataStack == old(dataStack) + [old(data)]
      ensures item.Null? <==> attrs == []
      ensures item.Dict? ==> item.entries == PrefixedDict(attrs, attrPrefix)
      ensures data == []
      ensures State() == Step(old(State()), Start(name, attrs), attrPrefix, cdataKey)
    {
      itemStack := itemStack + [item];
      dataStack := dataStack + [data];
      var newDict := PrefixedDict(attrs, attrPrefix);
      item := if newDict == [] then Null else Dict(newDict);
      data := [];
    }

    /**
     * `endElement`: with an open element, pops both stacks and adds the
     * closed element's value (its item with its text, or its text alone) to
     * the parent's item; with none, does nothing.
     */
    method EndElement(name: string)
      requires Valid()
      modifies this
      ensures State() == Step(old(State()), End(name), attrPrefix, cdataKey) && Valid()
    {
      if dataStack != [] {
        var pyData := Trim(Join(data), PyIsSpace);
        var tempItem := item;
        item := itemStack[|itemStack| - 1];
        itemStack := itemStack[..|itemStack| - 1];
        data := dataStack[|dataStack| - 1];
        dataStack := dataStack[..|dataStack| - 1];
        var value: Value;
        if tempItem != Null {
          if pyData != [] {
            tempItem := Dict(Set(tempItem.entries, cdataKey, Str(pyData)));
          }
          value := tempItem;
        } else {
          value := if pyData == [] then Null else Str(pyData);
        }
        assert value == ClosedValue(old(item), pyData, cdataKey);
        item := UpdateChildren(item, name, value);
        StepEnd(old(State()), name, attrPrefix, cdataKey);
      }
    }
  }
}
