/*
 * The fold of xml_parse (src/xmlparse.cpp): the node sequence becomes nested
 * dicts, lists and strings, through a stack of open containers and one
 * pass-wide list flag.
 *
 * The source keeps every open container's dict both on its stack and inside
 * its parent (a shared object), so filling the child fills the parent too.
 * The model keeps values instead: each frame records where its dict sits in
 * the parent (`Slot`) and the dict is written back there when the element
 * closes, which is the moment the source first reads it through the parent.
 */
module XmlFold {
  import opened XmlChars
  import opened Values
  import opened XmlScan
  import opened XmlLexer

  /** The key text content is stored under (`cdata_key`). */
  const TextKey: string := "#text"

  /** Where an open element's dict sits in its parent: under its key, or at an index of the list there. */
  datatype Slot = Direct | InList(index: nat)

  /** An open container: its name (`containerStackNames`), its dict (`containerStack`) and its slot in the parent. */
  datatype Frame = Frame(name: string, dict: Entries, slot: Slot)

  /** The stack of open containers, the document frame at the bottom, and the flag `isList`. */
  datatype FoldState = FoldState(frames: seq<Frame>, isList: bool)

  /** The value at slot of the entry under key, if there is one. */
  function SlotValue(es: Entries, key: string, slot: Slot): Option<Value> {
    match Get(es, key)
    case None => None
    case Some(v) =>
      match slot
      case Direct => Some(v)
      case InList(k) => if v.List? && k < |v.items| then Some(v.items[k]) else None
  }

  /**
   * The fold's invariant: the document frame is at the bottom, unnamed, and
   * every other frame has a place in the frame below it.
   */
  predicate FoldInv(st: FoldState) {
    && |st.frames| >= 1
    && st.frames[0].name == []
    && (forall j :: 1 <= j < |st.frames| ==>
          SlotValue(st.frames[j - 1].dict, st.frames[j].name, st.frames[j].slot).Some?)
  }

  function Top(st: FoldState): Frame
    requires |st.frames| >= 1
  {
    st.frames[|st.frames| - 1]
  }

  /** The names of frames, bottom first. */
  function Names(frames: seq<Frame>): (ns: seq<string>)
    ensures |ns| == |frames|
    ensures forall j :: 0 <= j < |frames| ==> ns[j] == frames[j].name
  {
    if frames == [] then [] else Names(frames[..|frames| - 1]) + [frames[|frames| - 1].name]
  }

  /** The names of the open elements, outermost first. */
  function OpenNames(st: FoldState): seq<string>
    requires |st.frames| >= 1
  {
    Names(st.frames)[1..]
  }

  /** The state the fold starts in: only the document frame, flag cleared. */
  const Start := FoldState([Frame([], [], Direct)], false)

  // ---------------------------------------------------------------------
  // Inserting a child and collapsing text-only dicts
  // ---------------------------------------------------------------------

  /** The parent's dict after an insertion, the new list flag and where the child went. */
  datatype Insertion = Insertion(dict: Entries, isList: bool, slot: Slot)

  /** Adding the dict of an open or self-closing element under its name. */
  function InsertChild(es: Entries, key: string, d: Entries, isList: bool): (r: Insertion)
    ensures SlotValue(r.dict, key, r.slot) == Some(Dict(d))
    ensures forall k :: k != key ==> Get(r.dict, k) == Get(es, k)
    ensures Get(es, key).None? ==> Get(r.dict, key) == Some(Dict(d)) && !r.isList
    ensures Get(es, key).Some? && isList && Get(es, key).value.List? ==>
              Get(r.dict, key) == Some(List(Get(es, key).value.items + [Dict(d)])) && r.isList
    ensures Get(es, key).Some? && !(isList && Get(es, key).value.List?) ==>
              Get(r.dict, key) == Some(List([Get(es, key).value, Dict(d)])) && r.isList
    ensures r.slot.Direct? <==> Get(es, key).None?
    ensures r.slot.InList? ==>
              Get(r.dict, key).Some? && Get(r.dict, key).value.List? &&
              r.slot.index == |Get(r.dict, key).value.items| - 1
  {
    match Get(es, key)
    case None => Insertion(Set(es, key, Dict(d)), false, Direct)
    case Some(item) =>
      if isList && item.List? then
        Insertion(Set(es, key, List(item.items + [Dict(d)])), true, InList(|item.items|))
      else
        Insertion(Set(es, key, List([item, Dict(d)])), true, InList(1))
  }

  /** v with the child value put at slot (the write-back of the shared dict). */
  function Place(v: Value, slot: Slot, child: Value): (r: Value)
    requires slot.InList? ==> v.List? && slot.index < |v.items|
    ensures slot.InList? ==> r.List? && |r.items| == |v.items| && r.items[slot.index] == child
    ensures slot.InList? ==> forall k :: 0 <= k < |v.items| && k != slot.index ==> r.items[k] == v.items[k]
    ensures slot.Direct? ==> r == child
  {
    match slot
    case Direct => child
    case InList(k) => List(v.items[k := child])
  }

  /** A dict whose only entry is the text key stands for its text. */
  function CollapseText(v: Value): (r: Value)
    ensures v.Dict? && |v.entries| == 1 && v.entries[0].0 == TextKey ==> r == v.entries[0].1
    ensures !(v.Dict? && |v.entries| == 1 && v.entries[0].0 == TextKey) ==> r == v
  {
    if v.Dict? && |v.entries| == 1 && v.entries[0].0 == TextKey then v.entries[0].1 else v
  }

  /** The value just closed, collapsed: each list element, or the single value. */
  function Collapse(v: Value): (r: Value)
    ensures v.List? ==> r.List? && |r.items| == |v.items|
    ensures v.List? ==> forall k :: 0 <= k < |v.items| ==> r.items[k] == CollapseText(v.items[k])
    ensures !v.List? ==> r == CollapseText(v)
  {
    if v.List? then List(seq(|v.items|, k requires 0 <= k < |v.items| => CollapseText(v.items[k])))
    else CollapseText(v)
  }

  // ---------------------------------------------------------------------
  // The fold, one node at a time
  // ---------------------------------------------------------------------

  /** Every close node is named, as the lexer guarantees. */
  predicate ClosesNamed(nodes: seq<XmlNode>) {
    forall j :: 0 <= j < |nodes| ==> nodes[j].kind == ContainerClose ==> nodes[j].name != []
  }

  /** The close rule: pop, put the child's dict at its place in the parent and collapse it there. */
  function CloseTop(st: FoldState): (r: FoldState)
    requires FoldInv(st) && |st.frames| >= 2
    ensures FoldInv(r)
    ensures r.frames == st.frames[..|st.frames| - 2] + [Top(r)] && r.isList == st.isList
    ensures Top(r).name == st.frames[|st.frames| - 2].name && Top(r).slot == st.frames[|st.frames| - 2].slot
    ensures Get(Top(r).dict, Top(st).name) ==
              Some(Collapse(Place(Get(st.frames[|st.frames| - 2].dict, Top(st).name).value, Top(st).slot, Dict(Top(st).dict))))
    ensures forall k :: k != Top(st).name ==> Get(Top(r).dict, k) == Get(st.frames[|st.frames| - 2].dict, k)
  {
    var child := Top(st);
    var parent := st.frames[|st.frames| - 2];
    var placed := Place(Get(parent.dict, child.name).value, child.slot, Dict(child.dict));
    var dict := Set(parent.dict, child.name, Collapse(placed));
    var r := FoldState(st.frames[..|st.frames| - 2] + [parent.(dict := dict)], st.isList);
    assert forall j :: 0 <= j < |r.frames| - 1 ==> r.frames[j] == st.frames[j];
    r
  }

  /**
   * After a close, the closed element's dict sits at its place in the parent,
   * collapsed to its text when the text is all it holds.
   */
  lemma CloseLeavesChild(st: FoldState)
    requires FoldInv(st) && |st.frames| >= 2
    ensures SlotValue(Top(CloseTop(st)).dict, Top(st).name, Top(st).slot) == Some(CollapseText(Dict(Top(st).dict)))
    ensures |Top(st).dict| == 1 && Top(st).dict[0].0 == TextKey ==>
              SlotValue(Top(CloseTop(st)).dict, Top(st).name, Top(st).slot) == Some(Top(st).dict[0].1)
  {
  }

  /** The state with the current dict replaced by es: every frame keeps its name and its place. */
  function WithTopDict(st: FoldState, es: Entries): (r: FoldState)
    requires FoldInv(st)
    ensures FoldInv(r) && Names(r.frames) == Names(st.frames) && r.isList == st.isList
    ensures |r.frames| == |st.frames| && r.frames[..|st.frames| - 1] == st.frames[..|st.frames| - 1]
    ensures Top(r) == Top(st).(dict := es)
  {
    var r := st.(frames := st.frames[|st.frames| - 1 := Top(st).(dict := es)]);
    assert Names(r.frames) == Names(st.frames);
    r
  }

  /** st with the frame f pushed, f having a place in the current dict. */
  function Push(st: FoldState, f: Frame): (r: FoldState)
    requires FoldInv(st) && SlotValue(Top(st).dict, f.name, f.slot).Some?
    ensures FoldInv(r) && OpenNames(r) == OpenNames(st) + [f.name] && Top(r) == f && r.isList == st.isList
  {
    var r := st.(frames := st.frames + [f]);
    assert Names(r.frames) == Names(st.frames) + [f.name];
    r
  }

  /** The text rule: the trimmed text replaces the current dict's text. */
  function AddText(st: FoldState, text: string): (r: FoldState)
    requires FoldInv(st)
    ensures FoldInv(r) && OpenNames(r) == OpenNames(st) && r.isList == st.isList
    ensures |r.frames| == |st.frames| && r.frames[..|st.frames| - 1] == st.frames[..|st.frames| - 1]
    ensures Get(Top(r).dict, TextKey) == Some(Str(text))
    ensures forall k :: k != TextKey ==> Get(Top(r).dict, k) == Get(Top(st).dict, k)
  {
    WithTopDict(st, Set(Top(st).dict, TextKey, Str(text)))
  }

  /** The open and self-closing rule: insert the attribute dict; an open element also becomes the current frame. */
  function OpenChild(st: FoldState, n: XmlNode, prefix: string): (r: FoldState)
    requires FoldInv(st) && (n.kind == ContainerOpen || n.kind == Primitive)
    ensures FoldInv(r)
    ensures n.kind == ContainerOpen ==> OpenNames(r) == OpenNames(st) + [n.name]
    ensures n.kind == ContainerOpen ==> Top(r) == Frame(n.name, PrefixedDict(n.attrs, prefix), Top(r).slot)
    ensures n.kind == Primitive ==> OpenNames(r) == OpenNames(st)
    ensures |r.frames| == |st.frames| + (if n.kind == ContainerOpen then 1 else 0)
    ensures r.frames[..|st.frames| - 1] == st.frames[..|st.frames| - 1]
    ensures var ins := InsertChild(Top(st).dict, n.name, PrefixedDict(n.attrs, prefix), st.isList);
            r.frames[|st.frames| - 1].dict == ins.dict && r.isList == ins.isList
    ensures n.kind == ContainerOpen ==>
              Top(r).slot == InsertChild(Top(st).dict, n.name, PrefixedDict(n.attrs, prefix), st.isList).slot
  {
    var d := PrefixedDict(n.attrs, prefix);
    var ins := InsertChild(Top(st).dict, n.name, d, st.isList);
    var inserted := WithTopDict(st, ins.dict).(isList := ins.isList);
    if n.kind == ContainerOpen then Push(inserted, Frame(n.name, d, ins.slot)) else inserted
  }

  /** The fold's handling of one node. */
  function FoldStep(st: FoldState, n: XmlNode, prefix: string): (r: Result<FoldState, ParseError>)
    requires FoldInv(st)
    requires n.kind == ContainerClose ==> n.name != []
    ensures r.Ok? ==> FoldInv(r.value)
    ensures r.Err? <==> n.kind == ContainerClose && Top(st).name != n.name
    ensures r.Err? ==> r.error == TagMismatch(n.name)
  {
    match n.kind
    case Text =>
      var text := Trim(n.name, IsSpace);
      if text == [] then Ok(st) else Ok(AddText(st, text))
    case Comment => Ok(st)
    case ContainerClose =>
      if Top(st).name != n.name then Err(TagMismatch(n.name)) else Ok(CloseTop(st))
    case _ => Ok(OpenChild(st, n, prefix))
  }

  /** Each step moves the stack of open names as its tag says: open pushes, close pops, the rest leave it. */
  lemma FoldStepNames(st: FoldState, n: XmlNode, prefix: string)
    requires FoldInv(st)
    requires n.kind == ContainerClose ==> n.name != []
    requires FoldStep(st, n, prefix).Ok?
    ensures n.kind == ContainerOpen ==> OpenNames(FoldStep(st, n, prefix).value) == OpenNames(st) + [n.name]
    ensures n.kind == ContainerClose ==>
              OpenNames(st) != [] && Top(st).name == n.name &&
              OpenNames(FoldStep(st, n, prefix).value) == OpenNames(st)[..|OpenNames(st)| - 1]
    ensures n.kind != ContainerOpen && n.kind != ContainerClose ==>
              OpenNames(FoldStep(st, n, prefix).value) == OpenNames(st)
  {
    if n.kind == ContainerClose {
      CloseTopNames(st);
    }
  }

  /** Closing pops the innermost open name. */
  lemma CloseTopNames(st: FoldState)
    requires FoldInv(st) && |st.frames| >= 2
    ensures OpenNames(CloseTop(st)) == OpenNames(st)[..|OpenNames(st)| - 1]
  {
    var r := CloseTop(st);
    assert Names(r.frames) == Names(st.frames)[..|st.frames| - 1];
  }

  /** The loop of xml_parse over the remaining nodes, then its end-of-input check. */
  function FoldLoop(nodes: seq<XmlNode>, st: FoldState, prefix: string): (r: Result<Value, ParseError>)
    requires FoldInv(st) && ClosesNamed(nodes)
    ensures r.Ok? ==> r.value.Dict?
    ensures r.Err? ==> r.error.TagMismatch? || (r.error.UnclosedTags? && r.error.count >= 1)
    decreases |nodes|
  {
    if nodes == [] then
      if |st.frames| > 1 then Err(UnclosedTags(|st.frames| - 1)) else Ok(Dict(st.frames[0].dict))
    else
      match FoldStep(st, nodes[0], prefix)
      case Err(e) => Err(e)
      case Ok(next) => FoldLoop(nodes[1..], next, prefix)
  }

  /** The fold of a whole node sequence. */
  function Fold(nodes: seq<XmlNode>, prefix: string): Result<Value, ParseError>
    requires ClosesNamed(nodes)
  {
    FoldLoop(nodes, Start, prefix)
  }

  lemma WellFormedClosesNamed(nodes: seq<XmlNode>)
    requires WellFormedNodes(nodes)
    ensures ClosesNamed(nodes)
  {
    forall j | 0 <= j < |nodes| && nodes[j].kind == ContainerClose
      ensures nodes[j].name != []
    {
      assert WellFormedNode(nodes[j]);
    }
  }

  /**
   * `parse(xml_content, attr_prefix)`: both arguments are converted as C
   * strings, which refuses an embedded NUL; then lex, then fold.
   */
  function ParseXml(s: string, prefix: string): (r: Result<Value, ParseError>)
    ensures r == Err(EmbeddedNul) <==> !NoNul(s) || !NoNul(prefix)
    ensures r.Ok? ==> r.value.Dict?
  {
    if !NoNul(s) || !NoNul(prefix) then Err(EmbeddedNul)
    else
      match Lex(s)
      case Err(e) => Err(e)
      case Ok(nodes) =>
        WellFormedClosesNamed(nodes);
        Fold(nodes, prefix)
  }

  // ---------------------------------------------------------------------
  // When the fold succeeds
  // ---------------------------------------------------------------------

  /**
   * Matching close tags against open ones, independently of the dicts: the
   * names still open after the nodes, or None at the first close tag that
   * does not close the innermost open element.
   */
  function OpenAfter(nodes: seq<XmlNode>, open: seq<string>): Option<seq<string>>
    decreases |nodes|
  {
    if nodes == [] then Some(open)
    else if nodes[0].kind == ContainerOpen then OpenAfter(nodes[1..], open + [nodes[0].name])
    else if nodes[0].kind == ContainerClose then
      if open != [] && open[|open| - 1] == nodes[0].name then OpenAfter(nodes[1..], open[..|open| - 1])
      else None
    else OpenAfter(nodes[1..], open)
  }

  /**
   * The fold fails with a tag mismatch exactly when some close tag does not
   * close the innermost open element, fails with the number of elements left
   * open when some are, and succeeds otherwise.
   */
  lemma {:induction false} FoldOutcome(nodes: seq<XmlNode>, st: FoldState, prefix: string)
    requires FoldInv(st) && ClosesNamed(nodes)
    ensures OpenAfter(nodes, OpenNames(st)).None? ==>
              FoldLoop(nodes, st, prefix).Err? && FoldLoop(nodes, st, prefix).error.TagMismatch?
    ensures OpenAfter(nodes, OpenNames(st)) == Some([]) ==> FoldLoop(nodes, st, prefix).Ok?
    ensures OpenAfter(nodes, OpenNames(st)).Some? && OpenAfter(nodes, OpenNames(st)).value != [] ==>
              FoldLoop(nodes, st, prefix) == Err(UnclosedTags(|OpenAfter(nodes, OpenNames(st)).value|))
    decreases |nodes|
  {
    if nodes != [] {
      var n := nodes[0];
      var open := OpenNames(st);
      assert Names(st.frames)[|st.frames| - 1] == Top(st).name;
      assert ClosesNamed(nodes[1..]);
      if n.kind == ContainerClose && open != [] {
        assert open[|open| - 1] == Top(st).name;
      }
      match FoldStep(st, n, prefix)
      case Err(e) =>
      case Ok(next) =>
        FoldStepNames(st, n, prefix);
        FoldOutcome(nodes[1..], next, prefix);
    }
  }

  /** A close tag with no open element to close (more closes than opens so far) is a tag mismatch. */
  lemma {:induction false} ExcessCloseRejected(nodes: seq<XmlNode>, st: FoldState, prefix: string, k: nat)
    requires FoldInv(st) && ClosesNamed(nodes)
    requires k < |nodes| && nodes[k].kind == ContainerClose
    requires |OpenNames(st)| + Opens(nodes[..k]) <= Closes(nodes[..k])
    ensures FoldLoop(nodes, st, prefix).Err? && FoldLoop(nodes, st, prefix).error.TagMismatch?
    decreases k
  {
    assert nodes[..k + 1][..k] == nodes[..k];
    OpenAfterExcess(nodes, OpenNames(st), k);
    FoldOutcome(nodes, st, prefix);
  }

  /** The number of open-tag nodes. */
  function Opens(nodes: seq<XmlNode>): nat {
    if nodes == [] then 0 else Opens(nodes[..|nodes| - 1]) + (if nodes[|nodes| - 1].kind == ContainerOpen then 1 else 0)
  }

  /** The number of close-tag nodes. */
  function Closes(nodes: seq<XmlNode>): nat {
    if nodes == [] then 0 else Closes(nodes[..|nodes| - 1]) + (if nodes[|nodes| - 1].kind == ContainerClose then 1 else 0)
  }

  lemma {:induction false} OpenAfterExcess(nodes: seq<XmlNode>, open: seq<string>, k: nat)
    requires k < |nodes| && nodes[k].kind == ContainerClose
    requires |open| + Opens(nodes[..k]) <= Closes(nodes[..k])
    ensures OpenAfter(nodes, open).None?
    decreases k
  {
    if k == 0 {
      assert open == [];
    } else {
      var n := nodes[0];
      var rest := nodes[1..];
      assert nodes[..k] == [n] + rest[..k - 1];
      CountsCons(n, rest[..k - 1]);
      if n.kind == ContainerOpen {
        OpenAfterExcess(rest, open + [n.name], k - 1);
      } else if n.kind == ContainerClose {
        if open != [] && open[|open| - 1] == n.name {
          OpenAfterExcess(rest, open[..|open| - 1], k - 1);
        }
      } else {
        OpenAfterExcess(rest, open, k - 1);
      }
    }
  }

  lemma {:induction false} CountsCons(n: XmlNode, rest: seq<XmlNode>)
    ensures Opens([n] + rest) == (if n.kind == ContainerOpen then 1 else 0) + Opens(rest)
    ensures Closes([n] + rest) == (if n.kind == ContainerClose then 1 else 0) + Closes(rest)
    decreases |rest|
  {
    if rest != [] {
      var init := rest[..|rest| - 1];
      assert ([n] + rest)[..|rest|] == [n] + init;
      CountsCons(n, init);
    }
  }

  // ---------------------------------------------------------------------
  // The imperative fold
  // ---------------------------------------------------------------------

  /** `createDict`: the attribute pairs as a dict, each key prefixed. */
  method CreateDict(attributes: seq<Pair>, attributePrefix: string) returns (d: Entries)
    ensures d == PrefixedDict(attributes, attributePrefix)
    ensures UniqueKeys(d)
  {
    d := [];
    for k := 0 to |attributes|
      invariant d == PrefixedDict(attributes[..k], attributePrefix)
    {
      assert attributes[..k + 1][..k] == attributes[..k];
      var attr := attributes[k];
      d := Set(d, attributePrefix + attr.key, Str(attr.value));
    }
    assert attributes[..|attributes|] == attributes;
  }

  /** The loop of the close branch that collapses each element of the list just closed, in place. */
  method CollapseList(items: seq<Value>) returns (d: seq<Value>)
    ensures |d| == |items|
    ensures forall k :: 0 <= k < |items| ==> d[k] == CollapseText(items[k])
  {
    d := items;
    for k := 0 to |d|
      invariant |d| == |items|
      invariant forall j :: 0 <= j < k ==> d[j] == CollapseText(items[j])
      invariant forall j :: k <= j < |d| ==> d[j] == items[j]
    {
      var dict := d[k];
      if dict.Dict? {
        if |dict.entries| == 1 {
          var item := Get(dict.entries, TextKey);
          assert dict.entries[1..] == [];
          if item.Some? {
            d := d[k := item.value];
          }
        }
      }
    }
  }

  /** The open and self-closing branch of the loop of xml_parse. */
  method FoldOpen(frames: seq<Frame>, isList: bool, node: XmlNode, attributePrefix: string)
    returns (frames': seq<Frame>, isList': bool)
    requires FoldInv(FoldState(frames, isList)) && (node.kind == ContainerOpen || node.kind == Primitive)
    ensures FoldState(frames', isList') == OpenChild(FoldState(frames, isList), node, attributePrefix)
  {
    var top := frames[|frames| - 1];
    var d := CreateDict(node.attrs, attributePrefix);
    var dict := top.dict;
    var slot: Slot;
    isList' := isList;
    var item := Get(dict, node.name);
    if item.Some? {
      if isList && item.value.List? {
        dict := Set(dict, node.name, List(item.value.items + [Dict(d)]));
        slot := InList(|item.value.items|);
      } else {
        dict := Set(dict, node.name, List([item.value, Dict(d)]));
        slot := InList(1);
        isList' := true;
      }
    } else {
      dict := Set(dict, node.name, Dict(d));
      slot := Direct;
      isList' := false;
    }
    frames' := frames[|frames| - 1 := top.(dict := dict)];
    assert FoldState(frames', isList') == WithTopDict(FoldState(frames, isList), dict).(isList := isList');
    if node.kind == ContainerOpen {
      frames' := frames' + [Frame(node.name, d, slot)];
    }
  }

  /** The close branch of the loop of xml_parse, after the name check: pop and collapse. */
  method FoldClose(frames: seq<Frame>, isList: bool) returns (frames': seq<Frame>)
    requires FoldInv(FoldState(frames, isList)) && |frames| >= 2
    ensures FoldState(frames', isList) == CloseTop(FoldState(frames, isList))
  {
    var top := frames[|frames| - 1];
    frames' := frames[..|frames| - 1];
    var parent := frames'[|frames'| - 1];
    // the closed dict, read through its parent
    var entry := Place(Get(parent.dict, top.name).value, top.slot, Dict(top.dict));
    ghost var placed := entry;
    if entry.List? {
      var items := CollapseList(entry.items);
      assert items == Collapse(placed).items;
      entry := List(items);
    } else if entry.Dict? && |entry.entries| == 1 {
      var item := Get(entry.entries, TextKey);
      assert entry.entries[1..] == [];
      if item.Some? {
        entry := item.value;
      }
    }
    assert entry == Collapse(placed);
    frames' := frames'[|frames'| - 1 := parent.(dict := Set(parent.dict, top.name, entry))];
    PopReplace(frames, parent.(dict := Set(parent.dict, top.name, entry)));
  }

  /** Dropping the last frame and replacing the new last one is keeping all but two and adding one. */
  lemma PopReplace(frames: seq<Frame>, f: Frame)
    requires |frames| >= 2
    ensures frames[..|frames| - 1][|frames| - 2 := f] == frames[..|frames| - 2] + [f]
  {
  }

  /** One pass of the loop of xml_parse: the branch for the node's type. */
  method FoldNode(frames: seq<Frame>, isList: bool, node: XmlNode, attributePrefix: string)
    returns (r: Result<FoldState, ParseError>)
    requires FoldInv(FoldState(frames, isList))
    requires node.kind == ContainerClose ==> node.name != []
    ensures r == FoldStep(FoldState(frames, isList), node, attributePrefix)
  {
    var top := frames[|frames| - 1];
    if node.kind == Text {
      var text := Strip(node.name);
      if text != [] {
        return Ok(FoldState(frames[|frames| - 1 := top.(dict := Set(top.dict, TextKey, Str(text)))], isList));
      }
    } else if node.kind == ContainerOpen || node.kind == Primitive {
      var frames', isList' := FoldOpen(frames, isList, node, attributePrefix);
      return Ok(FoldState(frames', isList'));
    } else if node.kind == ContainerClose {
      if top.name != node.name {
        return Err(TagMismatch(node.name));
      }
      var frames' := FoldClose(frames, isList);
      return Ok(FoldState(frames', isList));
    }
    return Ok(FoldState(frames, isList));
  }

  /** The folding loop of xml_parse over the lexed nodes. */
  method FoldNodes(nodes: seq<XmlNode>, attributePrefix: string) returns (r: Result<Value, ParseError>)
    requires ClosesNamed(nodes)
    ensures r == Fold(nodes, attributePrefix)
  {
    var frames := [Frame([], [], Direct)];
    var isList := false;
    for k := 0 to |nodes|
      invariant FoldInv(FoldState(frames, isList))
      invariant FoldLoop(nodes[k..], FoldState(frames, isList), attributePrefix) == Fold(nodes, attributePrefix)
    {
      assert nodes[k..][1..] == nodes[k + 1..];
      var step := FoldNode(frames, isList, nodes[k], attributePrefix);
      if step.Err? {
        return Err(step.error);
      }
      frames, isList := step.value.frames, step.value.isList;
    }
    if |frames| > 1 {
      return Err(UnclosedTags(|frames| - 1));
    }
    r := Ok(Dict(frames[0].dict));
  }

  /** `parse`: split the input into nodes, then fold them. */
  method Parse(xmlContent: string, attrPrefix: string) returns (r: Result<Value, ParseError>)
    ensures r == ParseXml(xmlContent, attrPrefix)
  {
    if !NoNul(xmlContent) || !NoNul(attrPrefix) {
      return Err(EmbeddedNul);
    }
    var lexer := new Lexer(xmlContent);
    var lexed := lexer.SplitNodes();
    if lexed.Err? {
      return Err(lexed.error);
    }
    WellFormedClosesNamed(lexed.value);
    r := FoldNodes(lexed.value, attrPrefix);
  }
}
