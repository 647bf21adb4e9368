/*
 * The sub-scanners of the native lexer (src/xmlparse.cpp, parseContainerClose
 * to parseProlog), each as a function from the input and the cursor on entry
 * to the node it fills in and the cursor it leaves, or the error it raises.
 * Every loop of a scanner is a function recursive in the cursor, so that the
 * methods of XmlLexer.Lexer can be proved against them and the lemmas below
 * can state what each scanner accepts.
 */
module XmlScan {
  import opened XmlChars
  import opened Values

  datatype NodeType = Primitive | ContainerOpen | ContainerClose | Text | Comment

  /** `XMLNode`: for a tag its name, for text the text itself (`elementName`), and the attributes. */
  datatype XmlNode = XmlNode(kind: NodeType, name: string, attrs: seq<Pair>)

  /** The exceptions `xml_parse` raises, with what their messages carry. */
  datatype ParseError =
    | NotWellFormed(pos: nat)        // "not well formed (violation at pos=N)"
    | UnclosedToken                  // "unclosed token"
    | TagMismatch(tag: string)       // "tag mismatch ('T' does not match the last start tag)"
    | UnclosedTags(count: nat)       // "not well formed (N unclosed tags)"
    | EmbeddedNul                    // ValueError "embedded null character" from the argument parser

  /** What a sub-scanner leaves behind: the node and the cursor after it, or its error. */
  datatype Scan = Done(node: XmlNode, next: nat) | Fail(error: ParseError)

  /** The node a scanner starts from: `XMLNode node;` in splitNodes. */
  const EmptyNode := XmlNode(Comment, [], [])

  /** A scan that, on success, moved the cursor forward from k and stayed within the buffer and one past it. */
  predicate Advances(r: Scan, s: string, k: nat) {
    r.Done? ==> k < r.next <= |s| + 1
  }

  // ---------------------------------------------------------------------
  // parseContainerClose: the cursor is on the '/' of "</".
  // ---------------------------------------------------------------------

  /** The name loop of parseContainerClose, at cursor k with the name read so far. */
  function CloseRest(s: string, k: nat, name: string): (r: Scan)
    requires k <= |s|
    ensures Advances(r, s, k)
    ensures r.Done? ==> r.node.kind == ContainerClose && r.node.attrs == []
    ensures r.Done? && IsName(name) ==> IsName(r.node.name)
    ensures r.Fail? ==> r.error.NotWellFormed? && k <= r.error.pos < |s|
    decreases |s| - k
  {
    var c := At(s, k);
    if c == NUL || c == '>' then Done(XmlNode(ContainerClose, name, []), k + 1)
    else if IsNameChar(c) then CloseRest(s, k + 1, name + [c])
    else if IsSpace(c) then
      if name == [] then Fail(NotWellFormed(k)) else CloseRest(s, k + 1, name)
    else Fail(NotWellFormed(k))
  }

  /** parseContainerClose with the cursor at p, on the '/'. */
  function CloseTag(s: string, p: nat): (r: Scan)
    requires p < |s|
    ensures Advances(r, s, p)
    ensures r.Done? ==> r.node.kind == ContainerClose && IsName(r.node.name) && r.node.attrs == []
    ensures r.Fail? ==> r.error.NotWellFormed?
  {
    var c := At(s, p + 1);
    if IsNameStart(c) then CloseRest(s, p + 2, [c]) else Fail(NotWellFormed(p + 1))
  }

  // ---------------------------------------------------------------------
  // parseContainerOpen: the cursor is on the first character after '<'.
  // ---------------------------------------------------------------------

  /** The states of the attribute machine: 0 space, 1 start, 2 name, 3 equals, 4 quote, 5 value. */
  datatype AttrPhase = SpaceBefore | Start | Key | AfterKey | BeforeValue | InValue

  /** `state > 1`: an attribute has been started and not yet closed by its quote. */
  predicate InAttribute(p: AttrPhase) {
    !(p.SpaceBefore? || p.Start?)
  }

  /** The machine's variables: state, key and value buffers, the opening quote and the pairs so far. */
  datatype AttrScan = AttrScan(phase: AttrPhase, key: string, val: string, quote: char, attrs: seq<Pair>)

  /** Every attribute read so far, and the key being read, are names; between attributes the key buffer is empty. */
  predicate AttrNames(a: AttrScan) {
    && (forall j :: 0 <= j < |a.attrs| ==> IsName(a.attrs[j].key))
    && (InAttribute(a.phase) ==> IsName(a.key))
    && (!InAttribute(a.phase) ==> a.key == [])
  }

  const AttrsStart := AttrScan(SpaceBefore, [], [], NUL, [])

  /** Either "/>" ends the tag at k as a self-closing one. */
  predicate SelfClosesAt(s: string, k: nat) {
    At(s, k) == '/' && At(s, k + 1) == '>'
  }

  /** The attribute loop of parseContainerOpen at cursor k, for the element called name. */
  function Attributes(s: string, k: nat, name: string, a: AttrScan): (r: Scan)
    requires k <= |s|
    ensures Advances(r, s, k)
    ensures r.Done? ==> (r.node.kind == ContainerOpen || r.node.kind == Primitive) && r.node.name == name
    ensures r.Fail? ==> r.error.NotWellFormed? && k <= r.error.pos <= |s|
    decreases |s| - k
  {
    var c := At(s, k);
    if c == NUL || c == '>' then
      if InAttribute(a.phase) then Fail(NotWellFormed(k))
      else Done(XmlNode(ContainerOpen, name, a.attrs), k + 1)
    else
      match a.phase
      case SpaceBefore =>
        if SelfClosesAt(s, k) then Done(XmlNode(Primitive, name, a.attrs), k + 2)
        else if IsSpace(c) then Attributes(s, k + 1, name, a.(phase := Start))
        else Fail(NotWellFormed(k))
      case Start =>
        if SelfClosesAt(s, k) then Done(XmlNode(Primitive, name, a.attrs), k + 2)
        else if IsSpace(c) then Attributes(s, k + 1, name, a)
        else if IsNameStart(c) then Attributes(s, k + 1, name, a.(phase := Key, key := a.key + [c]))
        else Fail(NotWellFormed(k))
      case Key =>
        if c == '=' then Attributes(s, k + 1, name, a.(phase := BeforeValue))
        else if IsNameChar(c) then Attributes(s, k + 1, name, a.(key := a.key + [c]))
        else if IsSpace(c) then Attributes(s, k + 1, name, a.(phase := AfterKey))
        else Fail(NotWellFormed(k))
      case AfterKey =>
        if c == '=' then Attributes(s, k + 1, name, a.(phase := BeforeValue))
        else if IsSpace(c) then Attributes(s, k + 1, name, a)
        else Fail(NotWellFormed(k))
      case BeforeValue =>
        if c == '\'' || c == '"' then Attributes(s, k + 1, name, a.(phase := InValue, quote := c))
        else if IsSpace(c) then Attributes(s, k + 1, name, a)
        else Fail(NotWellFormed(k))
      case InValue =>
        if c == a.quote then
          Attributes(s, k + 1, name, AttrScan(SpaceBefore, [], [], a.quote, a.attrs + [Pair(a.key, a.val)]))
        else Attributes(s, k + 1, name, a.(val := a.val + [c]))
  }

  /** Every attribute the machine yields has a name for its key. */
  lemma {:induction false} AttributesNamed(s: string, k: nat, name: string, a: AttrScan)
    requires k <= |s| && AttrNames(a)
    ensures Attributes(s, k, name, a).Done? ==> NamedPairs(Attributes(s, k, name, a).node.attrs)
    decreases |s| - k
  {
    var c := At(s, k);
    if c == NUL || c == '>' {
    } else {
      match a.phase
      case SpaceBefore =>
        if !SelfClosesAt(s, k) && IsSpace(c) {
          AttributesNamed(s, k + 1, name, a.(phase := Start));
        }
      case Start =>
        if !SelfClosesAt(s, k) && IsSpace(c) {
          AttributesNamed(s, k + 1, name, a);
        } else if !SelfClosesAt(s, k) && IsNameStart(c) {
          AttributesNamed(s, k + 1, name, a.(phase := Key, key := a.key + [c]));
        }
      case Key =>
        if c == '=' {
          AttributesNamed(s, k + 1, name, a.(phase := BeforeValue));
        } else if IsNameChar(c) {
          AttributesNamed(s, k + 1, name, a.(key := a.key + [c]));
        } else if IsSpace(c) {
          AttributesNamed(s, k + 1, name, a.(phase := AfterKey));
        }
      case AfterKey =>
        if c == '=' {
          AttributesNamed(s, k + 1, name, a.(phase := BeforeValue));
        } else if IsSpace(c) {
          AttributesNamed(s, k + 1, name, a);
        }
      case BeforeValue =>
        if c == '\'' || c == '"' {
          AttributesNamed(s, k + 1, name, a.(phase := InValue, quote := c));
        } else if IsSpace(c) {
          AttributesNamed(s, k + 1, name, a);
        }
      case InValue =>
        if c == a.quote {
          AttributesNamed(s, k + 1, name, AttrScan(SpaceBefore, [], [], a.quote, a.attrs + [Pair(a.key, a.val)]));
        } else {
          AttributesNamed(s, k + 1, name, a.(val := a.val + [c]));
        }
    }
  }

  /** Every key is a name. */
  predicate NamedPairs(ps: seq<Pair>) {
    forall j :: 0 <= j < |ps| ==> IsName(ps[j].key)
  }

  /** The name loop of parseContainerOpen at cursor k with the name read so far. */
  function OpenName(s: string, k: nat, name: string): (r: Scan)
    requires k <= |s|
    requires IsName(name)
    ensures Advances(r, s, k)
    ensures r.Done? ==> (r.node.kind == ContainerOpen || r.node.kind == Primitive) && IsName(r.node.name)
    ensures r.Done? ==> forall j :: 0 <= j < |r.node.attrs| ==> IsName(r.node.attrs[j].key)
    ensures r.Fail? ==> r.error.NotWellFormed?
    decreases |s| - k
  {
    var c := At(s, k);
    if c == NUL || c == '>' then Done(XmlNode(ContainerOpen, name, []), k + 1)
    else if SelfClosesAt(s, k) then Done(XmlNode(Primitive, name, []), k + 2)
    else if IsNameChar(c) then OpenName(s, k + 1, name + [c])
    else if IsSpace(c) then
      if name == [] then Fail(NotWellFormed(k))
      else AttributesNamed(s, k, name, AttrsStart); Attributes(s, k, name, AttrsStart)
    else Fail(NotWellFormed(k))
  }

  /** parseContainerOpen with the cursor at p, on the first character after '<'. */
  function OpenTag(s: string, p: nat): (r: Scan)
    requires p <= |s|
    ensures Advances(r, s, p)
    ensures r.Done? ==> (r.node.kind == ContainerOpen || r.node.kind == Primitive) && IsName(r.node.name)
    ensures r.Done? ==> forall j :: 0 <= j < |r.node.attrs| ==> IsName(r.node.attrs[j].key)
    ensures r.Fail? ==> r.error.NotWellFormed?
  {
    var c := At(s, p);
    if IsNameStart(c) then OpenName(s, p + 1, [c]) else Fail(NotWellFormed(p))
  }

  // ---------------------------------------------------------------------
  // parseComment: the cursor is on the '!' of "<!".
  // ---------------------------------------------------------------------

  /** The search loop of parseComment for "-->", at cursor k. */
  function CommentBody(s: string, k: nat): (r: Scan)
    requires 1 <= k <= |s| + 1
    ensures Advances(r, s, k)
    ensures r.Done? ==> r.node == EmptyNode
    ensures r.Fail? ==> r.error == UnclosedToken || r.error.NotWellFormed?
    decreases |s| + 1 - k
  {
    if At(s, k) == NUL && At(s, k + 1) == NUL then Fail(UnclosedToken)
    else if At(s, k) == '-' && At(s, k + 1) == '-' && At(s, k + 2) == '>' then
      if At(s, k - 1) == '-' then Fail(NotWellFormed(k - 1)) else Done(EmptyNode, k + 3)
    else CommentBody(s, k + 1)
  }

  /** parseComment with the cursor at p, on the '!'. */
  function CommentTag(s: string, p: nat): (r: Scan)
    requires p < |s|
    ensures Advances(r, s, p)
    ensures r.Done? ==> r.node == EmptyNode
    ensures r.Fail? ==> r.error == UnclosedToken || r.error.NotWellFormed?
  {
    if At(s, p + 1) != '-' || At(s, p + 2) != '-' then Fail(NotWellFormed(p + 1))
    else CommentBody(s, p + 3)
  }

  // ---------------------------------------------------------------------
  // parseCData: the cursor is on the '!' of "<![".
  // ---------------------------------------------------------------------

  const CDataOpener: string := "CDATA["

  /** The search loop of parseCData for "]]>", at cursor k with the text copied so far. */
  function CDataBody(s: string, k: nat, text: string): (r: Scan)
    requires k <= |s| + 1
    ensures Advances(r, s, k)
    ensures r.Done? ==> r.node.kind == Text && r.node.attrs == []
    ensures r.Fail? ==> r.error == UnclosedToken
    decreases |s| + 1 - k
  {
    if At(s, k) == NUL && At(s, k + 1) == NUL then Fail(UnclosedToken)
    else if At(s, k) == ']' && At(s, k + 1) == ']' && At(s, k + 2) == '>' then Done(XmlNode(Text, text, []), k + 3)
    else CDataBody(s, k + 1, text + [At(s, k)])
  }

  /** The loop of parseCData that matches "CDATA[" at cursor k, j characters of it matched so far. */
  function CDataOpen(s: string, k: nat, j: nat): (r: Scan)
    requires k <= |s| && j <= |CDataOpener|
    ensures Advances(r, s, k)
    ensures r.Done? ==> r.node.kind == Text && r.node.attrs == []
    ensures r.Fail? ==> r.error == UnclosedToken || r.error.NotWellFormed?
    decreases |CDataOpener| - j
  {
    if At(s, k) == NUL || j >= |CDataOpener| then CDataBody(s, k, [])
    else if CDataOpener[j] != At(s, k) then Fail(NotWellFormed(k))
    else CDataOpen(s, k + 1, j + 1)
  }

  /** parseCData with the cursor at p, on the '!' (the '[' follows it). */
  function CDataTag(s: string, p: nat): (r: Scan)
    requires p + 1 < |s|
    ensures Advances(r, s, p)
    ensures r.Done? ==> r.node.kind == Text && r.node.attrs == []
    ensures r.Fail? ==> r.error == UnclosedToken || r.error.NotWellFormed?
  {
    CDataOpen(s, p + 2, 0)
  }

  // ---------------------------------------------------------------------
  // parseText: the cursor is on a character that is not '<'.
  // ---------------------------------------------------------------------

  /**
   * The loop of parseText at cursor k: name is the node's text so far, and
   * allSpace whether every character this run has read is white space.
   */
  function TextRun(s: string, k: nat, node: XmlNode, allSpace: bool): (r: Scan)
    requires k <= |s|
    ensures r.Done? ==> k <= r.next <= |s| && (At(s, r.next) == NUL || At(s, r.next) == '<')
    ensures r.Done? ==> r.node.kind == Text && r.node.attrs == node.attrs
    ensures r.Fail? ==> r.error.NotWellFormed?
    decreases |s| - k
  {
    var c := At(s, k);
    if c == NUL || c == '<' then
      Done(XmlNode(Text, if allSpace then [] else node.name, node.attrs), k)
    else if c == '&' || c == '>' || c == '"' || c == '\'' then Fail(NotWellFormed(k))
    else TextRun(s, k + 1, node.(name := node.name + [c]), allSpace && IsSpace(c))
  }

  /** parseText at cursor k, appending to the text of node. */
  function TextScan(s: string, k: nat, node: XmlNode): (r: Scan)
    requires k <= |s|
    ensures r.Done? ==> k <= r.next <= |s| && (At(s, r.next) == NUL || At(s, r.next) == '<')
    ensures r.Done? && At(s, k) != NUL && At(s, k) != '<' ==> k < r.next
    ensures r.Done? ==> r.node.kind == Text && r.node.attrs == node.attrs
    ensures r.Fail? ==> r.error.NotWellFormed?
  {
    TextRun(s, k, node, true)
  }

  // ---------------------------------------------------------------------
  // parseProlog: at the start of the input.
  // ---------------------------------------------------------------------

  const PrologOpener: string := "<?xml"

  /** The loop of parseProlog that searches for "?>" at cursor k. */
  function PrologEnd(s: string, k: nat): (r: Result<nat, ParseError>)
    requires k <= |s|
    ensures r.Ok? ==> k < r.value <= |s|
    ensures r.Err? ==> r.error == UnclosedToken
    decreases |s| - k
  {
    if At(s, k) == NUL then Err(UnclosedToken)
    else if At(s, k) == '?' && At(s, k + 1) == '>' then Ok(k + 2)
    else PrologEnd(s, k + 1)
  }

  /** The loop of parseProlog that matches "<?xml", j characters matched so far. */
  function PrologMatch(s: string, j: nat): (r: Result<nat, ParseError>)
    requires j <= |PrologOpener|
    ensures r.Ok? ==> r.value <= |s|
    ensures r.Err? ==> r.error == UnclosedToken
    decreases |PrologOpener| - j
  {
    if j < |PrologOpener| && At(s, j) != NUL then
      if At(s, j) != PrologOpener[j] then Ok(0) else PrologMatch(s, j + 1)
    else if At(s, j) == NUL then Ok(0)
    else PrologEnd(s, j)
  }

  /** parseProlog: the cursor after a leading "<?xml ... ?>", 0 when there is none. */
  function Prolog(s: string): (r: Result<nat, ParseError>)
    ensures r.Ok? ==> r.value <= |s|
    ensures r.Err? ==> r.error == UnclosedToken
  {
    PrologMatch(s, 0)
  }
}
