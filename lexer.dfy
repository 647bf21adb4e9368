/*
 * splitNodes (src/xmlparse.cpp): the cursor-driven loop that turns the input
 * into the flat sequence of nodes, and the parser object whose fields are the
 * source's global cursor `i` and counter `curr_id`.
 */
module XmlLexer {
  import opened XmlChars
  import opened Values
  import opened XmlScan
  import opened XmlScanLemmas

  /** The variables of splitNodes: cursor, id counter, nodes, parentIdMap and idStack. */
  datatype LexState = LexState(i: nat, currId: nat, nodes: seq<XmlNode>, parentIdMap: map<nat, nat>, idStack: seq<nat>)

  /** A node as the lexer can emit it: tags carry names, only open tags carry attributes, comments never stay. */
  predicate WellFormedNode(n: XmlNode) {
    match n.kind
    case Text => n.attrs == []
    case Comment => false
    case ContainerClose => IsName(n.name) && n.attrs == []
    case _ => IsName(n.name) && forall j :: 0 <= j < |n.attrs| ==> IsName(n.attrs[j].key)
  }

  predicate WellFormedNodes(nodes: seq<XmlNode>) {
    forall j :: 0 <= j < |nodes| ==> WellFormedNode(nodes[j])
  }

  /**
   * The bookkeeping splitNodes keeps: the root id stays at the bottom of the
   * id stack, and every recorded text node exists and is a text node.
   */
  predicate Consistent(st: LexState) {
    && |st.idStack| >= 1
    && st.idStack[0] == 0
    && (forall id :: id in st.parentIdMap ==> st.parentIdMap[id] < |st.nodes| && st.nodes[st.parentIdMap[id]].kind == Text)
    && WellFormedNodes(st.nodes)
  }

  /** The state after a tag scanner: its node is kept unless its name is empty (`if (!node.elementName.empty())`). */
  function Emit(st: LexState, r: Scan): Result<LexState, ParseError> {
    if r.Fail? then Err(r.error)
    else Ok(st.(i := r.next, nodes := if r.node.name != [] then st.nodes + [r.node] else st.nodes))
  }

  /**
   * What one iteration promises: the cursor moves forward, the bookkeeping
   * stays consistent, and at most one node is appended, never a nameless one.
   */
  predicate StepAdvances(s: string, st: LexState, r: Result<LexState, ParseError>) {
    r.Ok? ==>
      && st.i < r.value.i <= |s| + 1
      && Consistent(r.value)
      && r.value.currId == st.currId + 1
      && |st.nodes| <= |r.value.nodes| <= |st.nodes| + 1
      && (|r.value.nodes| == |st.nodes| + 1 ==>
            r.value.nodes[..|st.nodes|] == st.nodes && r.value.nodes[|st.nodes|].name != [])
  }

  /** The scanner splitNodes hands a tag to, p just after its '<'. */
  function MarkupScan(s: string, p: nat): (r: Scan)
    requires 0 < p <= |s|
    ensures Advances(r, s, p)
    ensures r.Done? ==> WellFormedNode(r.node) || r.node.name == []
    ensures r.Fail? ==> r.error != EmbeddedNul
  {
    if At(s, p) == '/' then CloseTag(s, p)
    else if At(s, p) == '!' then (if At(s, p + 1) == '[' then CDataTag(s, p) else CommentTag(s, p))
    else OpenTag(s, p)
  }

  /**
   * An iteration on '<': close tag (popping its id), comment or CDATA, or open
   * tag (pushing a fresh id). The scanner's error is the iteration's error; on
   * success the cursor moves past the tag, the scanned node is appended when it
   * has a name, and a comment leaves the nodes as they were.
   */
  function MarkupStep(s: string, st: LexState): (r: Result<LexState, ParseError>)
    requires st.i < |s| && At(s, st.i) == '<'
    requires Consistent(st)
    ensures StepAdvances(s, st, r)
    ensures r.Err? <==> MarkupScan(s, st.i + 1).Fail?
    ensures r.Err? ==> r.error == MarkupScan(s, st.i + 1).error
    ensures r.Ok? ==>
              var sc := MarkupScan(s, st.i + 1);
              && r.value.i == sc.next
              && r.value.idStack == MarkupIds(s, st)
              && r.value.parentIdMap == st.parentIdMap
              && r.value.nodes == st.nodes + (if sc.node.name != [] then [sc.node] else [])
    ensures r.Ok? && At(s, st.i + 1) == '!' && At(s, st.i + 2) != '[' ==> r.value.nodes == st.nodes
    ensures r.Ok? && At(s, st.i + 1) == '/' ==>
              |r.value.nodes| == |st.nodes| + 1 && r.value.nodes[|st.nodes|].kind == ContainerClose
  {
    Emit(st.(currId := st.currId + 1, idStack := MarkupIds(s, st)), MarkupScan(s, st.i + 1))
  }

  /**
   * The id stack after a tag: a close tag pops the innermost id (never the
   * root's), a comment or CDATA section leaves the stack alone, and any other
   * tag, a self-closing one included, pushes the id this iteration takes.
   */
  function MarkupIds(s: string, st: LexState): (ids: seq<nat>)
    requires |st.idStack| >= 1 && st.idStack[0] == 0
    ensures |ids| >= 1 && ids[0] == 0
    ensures At(s, st.i + 1) == '/' && |st.idStack| > 1 ==> ids == st.idStack[..|st.idStack| - 1]
    ensures At(s, st.i + 1) == '/' && |st.idStack| == 1 ==> ids == [0]
    ensures At(s, st.i + 1) == '!' ==> ids == st.idStack
    ensures At(s, st.i + 1) != '/' && At(s, st.i + 1) != '!' ==>
              |ids| == |st.idStack| + 1 && ids[..|st.idStack|] == st.idStack && ids[|st.idStack|] == st.currId + 1
  {
    var p := st.i + 1;
    if At(s, p) == '/' then
      // idStack.pop_back(), keeping the root id (see README, Findings)
      if |st.idStack| > 1 then st.idStack[..|st.idStack| - 1] else st.idStack
    else if At(s, p) == '!' then st.idStack
    else st.idStack + [st.currId + 1]
  }

  /** The run of character data starting at the cursor of st and ending at next. */
  predicate TextRunAt(s: string, st: LexState, next: nat) {
    && st.i <= next <= |s|
    && (forall j :: st.i <= j < next ==> TextChar(s[j]))
    && (At(s, next) == NUL || At(s, next) == '<')
  }

  /**
   * An iteration on character data: the run continues the text node already
   * recorded for the innermost open id, or starts one and records it. An
   * all-white-space run empties the continued node, and starts none.
   */
  function TextStep(s: string, st: LexState): (r: Result<LexState, ParseError>)
    requires st.i < |s| && At(s, st.i) != NUL && At(s, st.i) != '<'
    requires Consistent(st)
    ensures StepAdvances(s, st, r)
    ensures r.Err? ==>
              && r.error.NotWellFormed?
              && var m := r.error.pos;
              && st.i <= m < |s| && (s[m] == '&' || s[m] == '>' || s[m] == '"' || s[m] == '\'')
              && forall j :: st.i <= j < m ==> TextChar(s[j])
    ensures r.Ok? ==>
              && TextRunAt(s, st, r.value.i)
              && r.value.currId == st.currId + 1 && r.value.idStack == st.idStack
              && var run := s[st.i..r.value.i];
              && var parentId := st.idStack[|st.idStack| - 1];
              && (parentId in st.parentIdMap ==>
                    var idx := st.parentIdMap[parentId];
                    && r.value.parentIdMap == st.parentIdMap
                    && r.value.nodes == st.nodes[idx := st.nodes[idx].(name := if AllSpace(run) then [] else st.nodes[idx].name + run)])
              && (parentId !in st.parentIdMap && AllSpace(run) ==>
                    r.value.parentIdMap == st.parentIdMap && r.value.nodes == st.nodes)
              && (parentId !in st.parentIdMap && !AllSpace(run) ==>
                    && r.value.parentIdMap == st.parentIdMap[parentId := |st.nodes|]
                    && r.value.nodes == st.nodes + [XmlNode(Text, run, [])])
  {
    var id := st.currId + 1;
    var parentId := st.idStack[|st.idStack| - 1];
    if parentId in st.parentIdMap then
      var idx := st.parentIdMap[parentId];
      var r := TextScan(s, st.i, st.nodes[idx]);
      TextScanResult(s, st.i, st.nodes[idx]);
      if r.Fail? then Err(r.error)
      else Ok(st.(i := r.next, currId := id, nodes := st.nodes[idx := r.node]))
    else
      var r := TextScan(s, st.i, EmptyNode);
      TextScanResult(s, st.i, EmptyNode);
      if r.Fail? then Err(r.error)
      else if r.node.name != [] then
        NilAppend(s[st.i..r.next]);
        Ok(st.(i := r.next, currId := id, nodes := st.nodes + [r.node],
               parentIdMap := st.parentIdMap[parentId := |st.nodes|]))
      else Ok(st.(i := r.next, currId := id))
  }

  /** One iteration of the loop of splitNodes, the cursor on a character that is not NUL. */
  function LexStep(s: string, st: LexState): (r: Result<LexState, ParseError>)
    requires st.i < |s| && At(s, st.i) != NUL
    requires Consistent(st)
    ensures StepAdvances(s, st, r)
    ensures r.Err? ==> r.error != EmbeddedNul
  {
    if At(s, st.i) == '<' then MarkupStep(s, st) else TextStep(s, st)
  }

  /** The loop of splitNodes from state st to the end of the input or the first error. */
  function LexLoop(s: string, st: LexState): (r: Result<seq<XmlNode>, ParseError>)
    requires st.i <= |s| + 1 && Consistent(st)
    ensures r.Ok? ==> WellFormedNodes(r.value)
    ensures r.Err? ==> r.error != EmbeddedNul
    decreases |s| + 1 - st.i
  {
    if At(s, st.i) == NUL then Ok(st.nodes)
    else
      match LexStep(s, st)
      case Err(e) => Err(e)
      case Ok(next) => LexLoop(s, next)
  }

  /** The state splitNodes starts its loop in, with the cursor after the prolog. */
  function Initial(i0: nat): LexState {
    LexState(i0, 0, [], map[], [0])
  }

  /** splitNodes: the nodes of the input, or the first error a scanner raised. */
  function Lex(s: string): (r: Result<seq<XmlNode>, ParseError>)
    ensures r.Ok? ==> WellFormedNodes(r.value)
    ensures r.Err? ==> r.error != EmbeddedNul
  {
    match Prolog(s)
    case Err(e) => Err(e)
    case Ok(i0) => LexLoop(s, Initial(i0))
  }

  /** The native parser's scanning state: the input and the source's global cursor and id counter. */
  class Lexer {
    const content: string
    var i: nat
    var currId: nat

    constructor (content: string)
      ensures this.content == content && i == 0 && currId == 0
    {
      this.content := content;
      i := 0;
      currId := 0;
    }

    /** parseContainerClose, the cursor on the '/'. */
    method ParseContainerClose() returns (r: Scan)
      requires i < |content|
      modifies this`i
      ensures r == CloseTag(content, old(i))
      ensures r.Done? ==> i == r.next
    {
      i := i + 1;
      var c := At(content, i);
      if !IsNameStart(c) {
        return Fail(NotWellFormed(i));
      }
      var name := [c];
      i := i + 1;
      while At(content, i) != NUL && At(content, i) != '>'
        invariant i <= |content|
        invariant CloseRest(content, i, name) == CloseTag(content, old(i))
        decreases |content| - i
      {
        c := At(content, i);
        if IsNameChar(c) {
          name := name + [c];
        } else if IsSpace(c) {
          if name == [] {
            return Fail(NotWellFormed(i));
          }
        } else {
          return Fail(NotWellFormed(i));
        }
        i := i + 1;
      }
      i := i + 1;
      r := Done(XmlNode(ContainerClose, name, []), i);
    }

    /** parseContainerOpen, the cursor on the first character after '<'. */
    method ParseContainerOpen() returns (r: Scan)
      requires i <= |content|
      modifies this`i
      ensures r == OpenTag(content, old(i))
      ensures r.Done? ==> i == r.next
    {
      var c := At(content, i);
      if !IsNameStart(c) {
        return Fail(NotWellFormed(i));
      }
      var name := [c];
      i := i + 1;
      var hasAttr := false;
      while At(content, i) != NUL && At(content, i) != '>'
        invariant i <= |content| && IsName(name)
        invariant OpenName(content, i, name) == OpenTag(content, old(i))
        decreases |content| - i
      {
        if SelfClosesAt(content, i) {
          i := i + 2;
          return Done(XmlNode(Primitive, name, []), i);
        }
        c := At(content, i);
        if IsNameChar(c) {
          name := name + [c];
          i := i + 1;
        } else if IsSpace(c) {
          if name == [] {
            return Fail(NotWellFormed(i));
          }
          hasAttr := true;
          break;
        } else {
          return Fail(NotWellFormed(i));
        }
      }

      if !hasAttr {
        i := i + 1;
        return Done(XmlNode(ContainerOpen, name, []), i);
      }
      r := ParseAttributes(name);
    }

    /**
     * The attribute state machine of parseContainerOpen, the cursor on the
     * white space after the element name.
     */
    method ParseAttributes(name: string) returns (r: Scan)
      requires i <= |content| && IsName(name)
      modifies this`i
      ensures r == Attributes(content, old(i), name, AttrsStart)
      ensures r.Done? ==> i == r.next
    {
      // the attribute machine: the state, key and value buffers, quote and pairs
      var c: char;
      var state := SpaceBefore;
      var key: string, val: string := [], [];
      var quoteType := NUL;
      var attrs: seq<Pair> := [];
      while At(content, i) != NUL && At(content, i) != '>'
        invariant i <= |content|
        invariant AttrNames(AttrScan(state, key, val, quoteType, attrs))
        invariant Attributes(content, i, name, AttrScan(state, key, val, quoteType, attrs)) == Attributes(content, old(i), name, AttrsStart)
        decreases |content| - i
      {
        c := At(content, i);
        match state
        case SpaceBefore =>
          if SelfClosesAt(content, i) {
            i := i + 2;
            return Done(XmlNode(Primitive, name, attrs), i);
          }
          if IsSpace(c) {
            i := i + 1;
            state := Start;
          } else {
            return Fail(NotWellFormed(i));
          }
        case Start =>
          if SelfClosesAt(content, i) {
            i := i + 2;
            return Done(XmlNode(Primitive, name, attrs), i);
          }
          if IsSpace(c) {
            i := i + 1;
          } else if IsNameStart(c) {
            state := Key;
            key := key + [c];
            i := i + 1;
          } else {
            return Fail(NotWellFormed(i));
          }
        case Key =>
          if c == '=' {
            state := BeforeValue;
          } else if IsNameChar(c) {
            key := key + [c];
          } else if IsSpace(c) {
            state := AfterKey;
          } else {
            return Fail(NotWellFormed(i));
          }
          i := i + 1;
        case AfterKey =>
          if c == '=' {
            state := BeforeValue;
          } else if !IsSpace(c) {
            return Fail(NotWellFormed(i));
          }
          i := i + 1;
        case BeforeValue =>
          if c == '\'' || c == '"' {
            state := InValue;
            quoteType := c;
          } else if !IsSpace(c) {
            return Fail(NotWellFormed(i));
          }
          i := i + 1;
        case InValue =>
          if c == quoteType {
            state := SpaceBefore;
            attrs := attrs + [Pair(key, val)];
            key, val := [], [];
          } else {
            val := val + [c];
          }
          i := i + 1;
      }
      if InAttribute(state) {
        return Fail(NotWellFormed(i));
      }
      i := i + 1;
      r := Done(XmlNode(ContainerOpen, name, attrs), i);
    }

    /** parseComment, the cursor on the '!'. */
    method ParseComment() returns (r: Scan)
      requires i < |content|
      modifies this`i
      ensures r == CommentTag(content, old(i))
      ensures r.Done? ==> i == r.next
    {
      i := i + 1;
      if At(content, i) != '-' || At(content, i + 1) != '-' {
        return Fail(NotWellFormed(i));
      }
      i := i + 2;
      while At(content, i) != NUL || At(content, i + 1) != NUL
        invariant 1 <= i <= |content| + 1
        invariant CommentBody(content, i) == CommentTag(content, old(i))
        decreases |content| + 1 - i
      {
        if At(content, i) == '-' && At(content, i + 1) == '-' && At(content, i + 2) == '>' {
          if At(content, i - 1) == '-' {
            return Fail(NotWellFormed(i - 1));
          }
          i := i + 3;
          return Done(EmptyNode, i);
        }
        i := i + 1;
      }
      r := Fail(UnclosedToken);
    }

    /** parseCData, the cursor on the '!' of "<![". */
    method ParseCData() returns (r: Scan)
      requires i + 1 < |content|
      modifies this`i
      ensures r == CDataTag(content, old(i))
      ensures r.Done? ==> i == r.next
    {
      i := i + 2;
      var j := 0;
      while At(content, i) != NUL
        invariant i <= |content| && j <= |CDataOpener|
        invariant CDataOpen(content, i, j) == CDataTag(content, old(i))
        decreases |CDataOpener| - j
      {
        if j >= |CDataOpener| {
          break;
        }
        if CDataOpener[j] != At(content, i) {
          return Fail(NotWellFormed(i));
        }
        i := i + 1;
        j := j + 1;
      }
      var text := [];
      while At(content, i) != NUL || At(content, i + 1) != NUL
        invariant i <= |content| + 1
        invariant CDataBody(content, i, text) == CDataTag(content, old(i))
        decreases |content| + 1 - i
      {
        if At(content, i) == ']' && At(content, i + 1) == ']' && At(content, i + 2) == '>' {
          i := i + 3;
          return Done(XmlNode(Text, text, []), i);
        }
        text := text + [At(content, i)];
        i := i + 1;
      }
      r := Fail(UnclosedToken);
    }

    /** parseText, appending to the text of node. */
    method ParseText(node: XmlNode) returns (r: Scan)
      requires i <= |content|
      modifies this`i
      ensures r == TextScan(content, old(i), node)
      ensures r.Done? ==> i == r.next
    {
      var text := node.name;
      var allSpace := true;
      while At(content, i) != NUL && At(content, i) != '<'
        invariant i <= |content|
        invariant TextRun(content, i, node.(name := text), allSpace) == TextScan(content, old(i), node)
        decreases |content| - i
      {
        var c := At(content, i);
        if c == '&' || c == '>' || c == '"' || c == '\'' {
          return Fail(NotWellFormed(i));
        }
        if allSpace && !IsSpace(c) {
          allSpace := false;
        }
        text := text + [c];
        i := i + 1;
      }
      if allSpace {
        text := [];
      }
      r := Done(XmlNode(Text, text, node.attrs), i);
    }

    /** parseProlog: skips a leading "<?xml ... ?>"; false on "unclosed token". */
    method ParseProlog() returns (ok: bool)
      requires i == 0
      modifies this`i
      ensures ok <==> Prolog(content).Ok?
      ensures ok ==> i == Prolog(content).value
    {
      var j := 0;
      while j < |PrologOpener| && At(content, j) != NUL
        invariant j <= |PrologOpener|
        invariant PrologMatch(content, j) == Prolog(content)
      {
        if At(content, j) != PrologOpener[j] {
          return true;
        }
        j := j + 1;
      }
      if At(content, j) == NUL {
        return true;
      }
      i := j;
      while At(content, i) != NUL
        invariant i <= |content|
        invariant PrologEnd(content, i) == Prolog(content)
        decreases |content| - i
      {
        if At(content, i) == '?' && At(content, i + 1) == '>' {
          i := i + 2;
          return true;
        }
        i := i + 1;
      }
      ok := false;
    }

    /** The dispatch of splitNodes on the character after '<', the cursor on it. */
    method ParseMarkup() returns (r: Scan)
      requires 0 < i <= |content|
      modifies this`i
      ensures r == MarkupScan(content, old(i))
      ensures r.Done? ==> i == r.next
    {
      if At(content, i) == '/' {
        r := ParseContainerClose();
      } else if At(content, i) == '!' {
        if At(content, i + 1) == '[' {
          r := ParseCData();
        } else {
          r := ParseComment();
        }
      } else {
        r := ParseContainerOpen();
      }
    }

    /**
     * The body of the loop of splitNodes on '<': dispatches the tag, pops or
     * pushes the id stack and keeps the node unless its name is empty.
     */
    method LexMarkup(nodes: seq<XmlNode>, parentIdMap: map<nat, nat>, idStack: seq<nat>)
      returns (r: Result<LexState, ParseError>)
      requires i < |content| && At(content, i) == '<'
      requires Consistent(LexState(i, currId, nodes, parentIdMap, idStack))
      modifies this`i, this`currId
      ensures r == MarkupStep(content, LexState(old(i), old(currId), nodes, parentIdMap, idStack))
      ensures r.Ok? ==> i == r.value.i && currId == r.value.currId
    {
      ghost var before := LexState(i, currId, nodes, parentIdMap, idStack);
      var ids := idStack;
      currId := currId + 1;
      i := i + 1;
      var dispatch := At(content, i);
      var scan := ParseMarkup();
      if dispatch == '/' {
        if |ids| > 1 {
          ids := ids[..|ids| - 1];
        }
      } else if dispatch != '!' {
        ids := ids + [currId];
      }
      assert ids == MarkupIds(content, before);
      if scan.Fail? {
        return Err(scan.error);
      }
      var node := scan.node;
      r := Ok(LexState(i, currId, if node.name != [] then nodes + [node] else nodes, parentIdMap, ids));
    }

    /**
     * The body of the loop of splitNodes on character data: the run extends
     * the text node recorded for the innermost open id, or becomes a new one.
     */
    method LexText(nodes: seq<XmlNode>, parentIdMap: map<nat, nat>, idStack: seq<nat>)
      returns (r: Result<LexState, ParseError>)
      requires i < |content| && At(content, i) != NUL && At(content, i) != '<'
      requires Consistent(LexState(i, currId, nodes, parentIdMap, idStack))
      modifies this`i, this`currId
      ensures r == TextStep(content, LexState(old(i), old(currId), nodes, parentIdMap, idStack))
      ensures r.Ok? ==> i == r.value.i && currId == r.value.currId
    {
      currId := currId + 1;
      var parentId := idStack[|idStack| - 1];
      if parentId in parentIdMap {
        var textNode := nodes[parentIdMap[parentId]];
        var scan := ParseText(textNode);
        if scan.Fail? {
          return Err(scan.error);
        }
        r := Ok(LexState(i, currId, nodes[parentIdMap[parentId] := scan.node], parentIdMap, idStack));
      } else {
        var scan := ParseText(EmptyNode);
        if scan.Fail? {
          return Err(scan.error);
        }
        var node := scan.node;
        if node.name != [] {
          r := Ok(LexState(i, currId, nodes + [node], parentIdMap[parentId := |nodes|], idStack));
        } else {
          r := Ok(LexState(i, currId, nodes, parentIdMap, idStack));
        }
      }
    }

    /** splitNodes: the nodes of the whole input, or the first error. */
    method SplitNodes() returns (r: Result<seq<XmlNode>, ParseError>)
      modifies this
      ensures r == Lex(content)
    {
      var nodes: seq<XmlNode> := [];
      var parentIdMap: map<nat, nat> := map[];
      var idStack: seq<nat> := [];
      i := 0;
      currId := 0;
      idStack := idStack + [currId];

      var ok := ParseProlog();
      if !ok {
        return Err(UnclosedToken);
      }
      assert LexState(i, currId, nodes, parentIdMap, idStack) == Initial(i);
      while At(content, i) != NUL
        invariant i <= |content| + 1
        invariant Consistent(LexState(i, currId, nodes, parentIdMap, idStack))
        invariant LexLoop(content, LexState(i, currId, nodes, parentIdMap, idStack)) == Lex(content)
        decreases |content| + 1 - i
      {
        var step;
        if At(content, i) == '<' {
          step := LexMarkup(nodes, parentIdMap, idStack);
        } else {
          step := LexText(nodes, parentIdMap, idStack);
        }
        if step.Err? {
          return Err(step.error);
        }
        nodes, parentIdMap, idStack := step.value.nodes, step.value.parentIdMap, step.value.idStack;
      }
      r := Ok(nodes);
    }
  }
}
