/*
 * What each sub-scanner of XmlScan accepts, stated over spans of the input
 * rather than step by step: the name a tag ends up with, the attributes an
 * open tag yields, the text a run or a CDATA section copies, where a comment
 * ends, and at which offset each scanner reports an error.
 */
module XmlScanLemmas {
  import opened XmlChars
  import opened Values
  import opened XmlScan

  /** The string t occurs in s starting at offset j. */
  predicate OccursAt(s: string, j: nat, t: string) {
    j + |t| <= |s| && s[j..j + |t|] == t
  }

  /** Every character of t is white space. */
  predicate AllSpace(t: string) {
    forall j :: 0 <= j < |t| ==> IsSpace(t[j])
  }

  /** Over characters other than NUL, an occurrence is a match of each character read through At. */
  lemma AtOccurs(s: string, j: nat, t: string)
    requires j <= |s|
    requires forall l :: 0 <= l < |t| ==> t[l] != NUL
    ensures OccursAt(s, j, t) <==> forall l :: 0 <= l < |t| ==> At(s, j + l) == t[l]
  {
    if forall l :: 0 <= l < |t| ==> At(s, j + l) == t[l] {
      if |t| > 0 {
        assert At(s, j + |t| - 1) == t[|t| - 1] != NUL;
      }
      forall l | 0 <= l < |t| ensures s[j..j + |t|][l] == t[l] {
        assert At(s, j + l) == t[l];
      }
    }
    if OccursAt(s, j, t) {
      forall l | 0 <= l < |t| ensures At(s, j + l) == t[l] {
        assert j + l < |s| && s[j..j + |t|][l] == s[j + l];
      }
    }
  }

  /** Appending a slice is appending its first character and then the rest. */
  lemma AppendSlice(x: string, s: string, k: nat, m: nat)
    requires k < m <= |s|
    ensures x + s[k..m] == (x + [s[k]]) + s[k + 1..m]
  {
  }

  /** Appending an empty slice changes nothing. */
  lemma AppendEmpty(x: string, s: string, k: nat, m: nat)
    requires k == m <= |s|
    ensures x + s[k..m] == x
  {
  }

  /** An empty span has no name characters to add. */
  lemma AppendEmptyNames(x: string, s: string, k: nat, m: nat)
    requires k == m <= |s|
    ensures x + NameChars(s[k..m]) == x
  {
    assert s[k..m] == [];
  }

  /** A slice is its first character followed by the rest. */
  lemma SliceCons(s: string, k: nat, m: nat)
    requires k < m <= |s|
    ensures [s[k]] + s[k + 1..m] == s[k..m]
  {
  }

  /** A slice is the slice one shorter followed by its last character. */
  lemma SliceSnoc(s: string, k: nat, m: nat)
    requires k < m <= |s|
    ensures s[k..m - 1] + [s[m - 1]] == s[k..m]
  {
  }

  // ---------------------------------------------------------------------
  // Close tags
  // ---------------------------------------------------------------------

  /** One name character is kept, one white-space character dropped, once the name has begun. */
  lemma CloseRestStep(s: string, k: nat, name: string)
    requires k < |s| && name != [] && (IsNameChar(s[k]) || IsSpace(s[k]))
    ensures CloseRest(s, k, name) == CloseRest(s, k + 1, name + (if IsNameChar(s[k]) then [s[k]] else []))
  {
    assert At(s, k) == s[k] && s[k] != NUL && s[k] != '>';
    assert name + [] == name;
  }

  /** The span from k up to m - 1, read as its name characters, grows by the character at m - 1. */
  lemma CloseRestExtend(s: string, k: nat, m: nat, name: string)
    requires k < m <= |s| && name != [] && (IsNameChar(s[m - 1]) || IsSpace(s[m - 1]))
    requires CloseRest(s, k, name) == CloseRest(s, m - 1, name + NameChars(s[k..m - 1]))
    ensures CloseRest(s, k, name) == CloseRest(s, m, name + NameChars(s[k..m]))
  {
    var c, read := s[m - 1], NameChars(s[k..m - 1]);
    var kept := if IsNameChar(c) then [c] else [];
    CloseRestStep(s, m - 1, name + read);
    NameCharsAppend(s[k..m - 1], c);
    SliceSnoc(s, k, m);
    AppendAssoc(name, read, kept);
  }

  /** Name characters and white space between k and m are read as the name characters alone. */
  lemma {:induction false} CloseRestSpan(s: string, k: nat, m: nat, name: string)
    requires k <= m <= |s| && name != []
    requires forall j :: k <= j < m ==> IsNameChar(s[j]) || IsSpace(s[j])
    ensures CloseRest(s, k, name) == CloseRest(s, m, name + NameChars(s[k..m]))
    decreases m - k
  {
    if k < m {
      CloseRestSpan(s, k, m - 1, name);
      CloseRestExtend(s, k, m, name);
    } else {
      AppendEmptyNames(name, s, k, m);
    }
  }

  /**
   * A close tag is accepted when its first character starts a name and the
   * rest up to '>' (or the end of the input) are name characters or white
   * space; its name is the name characters, the white space dropped
   * ("</a b>" closes "ab"), and the cursor ends just past the '>'.
   */
  lemma CloseTagAccepts(s: string, p: nat, m: nat)
    requires p + 2 <= m <= |s|
    requires IsNameStart(s[p + 1])
    requires forall j :: p + 2 <= j < m ==> IsNameChar(s[j]) || IsSpace(s[j])
    requires At(s, m) == '>' || At(s, m) == NUL
    ensures CloseTag(s, p) == Done(XmlNode(ContainerClose, NameChars(s[p + 1..m]), []), m + 1)
  {
    CloseRestSpan(s, p + 2, m, [s[p + 1]]);
    assert s[p + 1..m][1..] == s[p + 2..m];
  }

  /**
   * After an accepted start, the first character that is none of a name
   * character, white space, '>' or the end is reported at its own offset.
   * White space straight after "</" is reported at p + 1 by CloseTagStart.
   */
  lemma CloseTagRejects(s: string, p: nat, m: nat)
    requires p + 2 <= m < |s|
    requires IsNameStart(s[p + 1])
    requires forall j :: p + 2 <= j < m ==> IsNameChar(s[j]) || IsSpace(s[j])
    requires s[m] != '>' && s[m] != NUL && !IsNameChar(s[m]) && !IsSpace(s[m])
    ensures CloseTag(s, p) == Fail(NotWellFormed(m))
  {
    CloseRestSpan(s, p + 2, m, [s[p + 1]]);
  }

  /** A close tag fails at the character after '/' exactly when that character cannot start a name. */
  lemma CloseTagStart(s: string, p: nat)
    requires p < |s|
    ensures CloseTag(s, p) == Fail(NotWellFormed(p + 1)) <==> !IsNameStart(At(s, p + 1))
  {
  }

  // ---------------------------------------------------------------------
  // Open tags
  // ---------------------------------------------------------------------

  /** Name characters between k and m extend the element name. */
  lemma {:induction false} OpenNameSpan(s: string, k: nat, m: nat, name: string)
    requires k <= m <= |s| && IsName(name)
    requires forall j :: k <= j < m ==> IsNameChar(s[j])
    ensures IsName(name + s[k..m])
    ensures OpenName(s, k, name) == OpenName(s, m, name + s[k..m])
    decreases m - k
  {
    if k < m {
      AppendSlice(name, s, k, m);
      OpenNameSpan(s, k + 1, m, name + [s[k]]);
    } else {
      AppendEmpty(name, s, k, m);
    }
  }

  /** The name of an open tag is the name characters from p up to the first other character m. */
  lemma OpenTagName(s: string, p: nat, m: nat)
    requires p < m <= |s|
    requires IsNameStart(s[p])
    requires forall j :: p < j < m ==> IsNameChar(s[j])
    ensures IsName(s[p..m])
    ensures OpenTag(s, p) == OpenName(s, m, s[p..m])
  {
    OpenNameSpan(s, p + 1, m, [s[p]]);
    SliceCons(s, p, m);
  }

  /**
   * The outcomes after the name: '>' or the end gives an open tag with no
   * attributes, "/>" a primitive with the cursor two further on, white space
   * hands over to the attribute machine, and anything else is an error at m.
   */
  lemma OpenTagOutcome(s: string, p: nat, m: nat)
    requires p < m <= |s|
    requires IsNameStart(s[p])
    requires forall j :: p < j < m ==> IsNameChar(s[j])
    requires m == |s| || !IsNameChar(s[m])
    ensures At(s, m) == '>' || At(s, m) == NUL ==> OpenTag(s, p) == Done(XmlNode(ContainerOpen, s[p..m], []), m + 1)
    ensures SelfClosesAt(s, m) ==> OpenTag(s, p) == Done(XmlNode(Primitive, s[p..m], []), m + 2)
    ensures IsSpace(At(s, m)) ==> OpenTag(s, p) == Attributes(s, m, s[p..m], AttrsStart)
    ensures At(s, m) != '>' && At(s, m) != NUL && !SelfClosesAt(s, m) && !IsSpace(At(s, m)) ==>
              OpenTag(s, p) == Fail(NotWellFormed(m))
  {
    OpenTagName(s, p, m);
  }

  /** An open tag fails at its first character exactly when that character cannot start a name. */
  lemma OpenTagStart(s: string, p: nat)
    requires p <= |s|
    ensures OpenTag(s, p) == Fail(NotWellFormed(p)) <==> !IsNameStart(At(s, p))
  {
    if IsNameStart(At(s, p)) {
      OpenNameFailsAfter(s, p + 1, [At(s, p)]);
    }
  }

  /** The name loop reports errors no earlier than where it started. */
  lemma {:induction false} OpenNameFailsAfter(s: string, k: nat, name: string)
    requires k <= |s| && IsName(name)
    ensures OpenName(s, k, name).Fail? ==> OpenName(s, k, name).error.pos >= k
    decreases |s| - k
  {
    var c := At(s, k);
    if c != NUL && c != '>' && !SelfClosesAt(s, k) && IsNameChar(c) {
      OpenNameFailsAfter(s, k + 1, name + [c]);
    }
  }

  // ---------------------------------------------------------------------
  // The attribute machine
  // ---------------------------------------------------------------------

  /**
   * Inside a quoted value every character up to the matching quote is
   * copied verbatim, whatever it is (the other quote, '=', white space);
   * the closing quote appends exactly one pair and clears both buffers.
   */
  lemma {:induction false} AttrValueVerbatim(s: string, k: nat, m: nat, name: string, a: AttrScan)
    requires k <= m < |s| && a.phase == InValue
    requires a.quote == '"' || a.quote == '\''
    requires forall j :: k <= j < m ==> s[j] != a.quote && s[j] != NUL && s[j] != '>'
    requires s[m] == a.quote
    ensures Attributes(s, k, name, a) ==
            Attributes(s, m + 1, name, AttrScan(SpaceBefore, [], [], a.quote, a.attrs + [Pair(a.key, a.val + s[k..m])]))
    decreases m - k
  {
    if k < m {
      AppendSlice(a.val, s, k, m);
      AttrValueVerbatim(s, k + 1, m, name, a.(val := a.val + [s[k]]));
    } else {
      AppendEmpty(a.val, s, k, m);
    }
  }

  /** In any state past the start of an attribute, '>' or the end of the input is an error at that offset. */
  lemma AttrUnfinished(s: string, k: nat, name: string, a: AttrScan)
    requires k <= |s| && InAttribute(a.phase)
    requires At(s, k) == '>' || At(s, k) == NUL
    ensures Attributes(s, k, name, a) == Fail(NotWellFormed(k))
  {
  }

  /** A value the machine reads back unchanged between double quotes. */
  predicate Quotable(v: string) {
    forall j :: 0 <= j < |v| ==> v[j] != '"' && v[j] != NUL && v[j] != '>'
  }

  /** Attributes that can be written as ` key="value"`: name keys, quotable values. */
  predicate Renderable(attrs: seq<Pair>) {
    NamedKeys(attrs) && forall j :: 0 <= j < |attrs| ==> Quotable(attrs[j].value)
  }

  /** One attribute written as ` key="value"`. */
  function RenderAttr(x: Pair): (t: string)
    ensures |t| == |x.key| + |x.value| + 4
  {
    " " + x.key + "=\"" + x.value + "\""
  }

  /** The attributes written out in order, as they would follow an element name. */
  function RenderAttrs(attrs: seq<Pair>): string {
    if attrs == [] then [] else RenderAttr(attrs[0]) + RenderAttrs(attrs[1..])
  }

  /** An occurrence of a + b is an occurrence of a followed by one of b. */
  lemma OccursAtSplit(s: string, k: nat, a: string, b: string)
    requires OccursAt(s, k, a + b)
    ensures OccursAt(s, k, a) && OccursAt(s, k + |a|, b)
  {
    assert s[k..k + |a|] == (a + b)[..|a|];
    assert s[k + |a|..k + |a| + |b|] == (a + b)[|a|..];
  }

  /** An occurrence of three strings one after the other, taken apart. */
  lemma OccursAtSplit3(s: string, k: nat, a: string, b: string, c: string)
    requires OccursAt(s, k, a + b + c)
    ensures OccursAt(s, k, a) && OccursAt(s, k + |a|, b) && OccursAt(s, k + |a| + |b|, c)
    ensures k + |a + b + c| == k + |a| + |b| + |c|
  {
    OccursAtSplit(s, k, a + b, c);
    OccursAtSplit(s, k, a, b);
  }

  /** The single characters of an occurrence. */
  lemma OccursAtChar(s: string, k: nat, t: string, l: nat)
    requires OccursAt(s, k, t) && l < |t|
    ensures s[k + l] == t[l]
  {
    assert s[k..k + |t|][l] == s[k + l];
  }

  /** The characters of ` key="value"` found one part at a time at offset k. */
  predicate AttrAt(s: string, k: nat, x: Pair) {
    var n, v := |x.key|, |x.value|;
    && k + 4 + n + v <= |s|
    && s[k] == ' ' && s[k + 1..k + 1 + n] == x.key
    && s[k + 1 + n] == '=' && s[k + 2 + n] == '"'
    && s[k + 3 + n..k + 3 + n + v] == x.value && s[k + 3 + n + v] == '"'
  }

  /** An occurrence of ` key="value"`, taken apart. */
  lemma RenderAttrParts(s: string, k: nat, x: Pair)
    requires OccursAt(s, k, RenderAttr(x))
    ensures AttrAt(s, k, x)
  {
    var n, v := |x.key|, |x.value|;
    var a := " " + x.key;
    var b := a + "=\"";
    var c := b + x.value;
    assert RenderAttr(x) == c + "\"";
    assert |a| == 1 + n && |b| == 3 + n && |c| == 3 + n + v;
    OccursAtSplit(s, k, c, "\"");
    OccursAtSplit(s, k, b, x.value);
    OccursAtSplit(s, k, a, "=\"");
    OccursAtSplit(s, k, " ", x.key);
    OccursAtChar(s, k, " ", 0);
    OccursAtChar(s, k + 1 + n, "=\"", 0);
    OccursAtChar(s, k + 1 + n, "=\"", 1);
    OccursAtChar(s, k + 3 + n + v, "\"", 0);
  }

  /** One name character read in the key state is appended to the key. */
  lemma KeyCharStep(s: string, k: nat, name: string, key: string, q: char, acc: seq<Pair>)
    requires k < |s| && IsNameChar(s[k])
    ensures Attributes(s, k, name, AttrScan(Key, key, [], q, acc)) ==
            Attributes(s, k + 1, name, AttrScan(Key, key + [s[k]], [], q, acc))
  {
    assert At(s, k) == s[k];
  }

  /** A name-start character read in the start state begins a key. */
  lemma KeyStartStep(s: string, k: nat, name: string, a: AttrScan)
    requires k < |s| && a.phase == Start && IsNameStart(s[k])
    ensures Attributes(s, k, name, a) == Attributes(s, k + 1, name, a.(phase := Key, key := a.key + [s[k]]))
  {
    assert At(s, k) == s[k] && !SelfClosesAt(s, k);
  }

  /** A key read from k up to m - 1 grows by the name character at m - 1. */
  lemma KeyExtend(s: string, k: nat, m: nat, name: string, q: char, acc: seq<Pair>)
    requires k < m - 1 && m <= |s| && IsNameChar(s[m - 1])
    requires Attributes(s, k, name, AttrScan(Start, [], [], q, acc)) ==
             Attributes(s, m - 1, name, AttrScan(Key, s[k..m - 1], [], q, acc))
    ensures Attributes(s, k, name, AttrScan(Start, [], [], q, acc)) ==
            Attributes(s, m, name, AttrScan(Key, s[k..m], [], q, acc))
  {
    KeyCharStep(s, m - 1, name, s[k..m - 1], q, acc);
    SliceSnoc(s, k, m);
  }

  /** From the start state, a name read up to m becomes the key being read. */
  lemma {:induction false} AttrKeyFrom(s: string, k: nat, m: nat, name: string, q: char, acc: seq<Pair>)
    requires k < m <= |s| && IsNameStart(s[k])
    requires forall j :: k < j < m ==> IsNameChar(s[j])
    ensures Attributes(s, k, name, AttrScan(Start, [], [], q, acc)) ==
            Attributes(s, m, name, AttrScan(Key, s[k..m], [], q, acc))
    decreases m - k
  {
    if m == k + 1 {
      KeyStartStep(s, k, name, AttrScan(Start, [], [], q, acc));
      NilAppend([s[k]]);
      SliceSnoc(s, k, m);
    } else {
      AttrKeyFrom(s, k, m - 1, name, q, acc);
      KeyExtend(s, k, m, name, q, acc);
    }
  }

  /** A space and then a key, read from between attributes, leave the machine in the key state holding that key. */
  lemma AttrKeyRead(s: string, k: nat, m: nat, name: string, q: char, acc: seq<Pair>)
    requires k + 1 < m <= |s| && s[k] == ' ' && IsNameStart(s[k + 1])
    requires forall j :: k + 1 < j < m ==> IsNameChar(s[j])
    ensures Attributes(s, k, name, AttrScan(SpaceBefore, [], [], q, acc)) ==
            Attributes(s, m, name, AttrScan(Key, s[k + 1..m], [], q, acc))
  {
    assert At(s, k) == ' ' && !SelfClosesAt(s, k);
    AttrKeyFrom(s, k + 1, m, name, q, acc);
  }

  /** An occurrence of a name consists of a name-start character and name characters. */
  lemma OccursName(s: string, k: nat, key: string)
    requires OccursAt(s, k, key) && IsName(key)
    ensures IsNameStart(s[k]) && forall j :: k < j < k + |key| ==> IsNameChar(s[j])
  {
    OccursAtChar(s, k, key, 0);
    forall j | k < j < k + |key| ensures IsNameChar(s[j]) {
      OccursAtChar(s, k, key, j - k);
    }
  }

  /** '=', a double-quoted value and its closing quote, after a key, append the pair. */
  lemma AttrValueRead(s: string, k: nat, m: nat, name: string, key: string, q: char, acc: seq<Pair>)
    requires k + 2 <= m < |s| && s[k] == '=' && s[k + 1] == '"' && s[m] == '"' && IsName(key)
    requires forall j :: k + 2 <= j < m ==> s[j] != '"' && s[j] != NUL && s[j] != '>'
    ensures Attributes(s, k, name, AttrScan(Key, key, [], q, acc)) ==
            Attributes(s, m + 1, name, AttrScan(SpaceBefore, [], [], '"', acc + [Pair(key, s[k + 2..m])]))
  {
    var inValue := AttrScan(InValue, key, [], '"', acc);
    NilAppend(s[k + 2..m]);
    calc {
      Attributes(s, k, name, AttrScan(Key, key, [], q, acc));
      Attributes(s, k + 1, name, AttrScan(BeforeValue, key, [], q, acc));
      Attributes(s, k + 2, name, inValue);
    == { AttrValueVerbatim(s, k + 2, m, name, inValue); }
      Attributes(s, m + 1, name, AttrScan(SpaceBefore, [], [], '"', acc + [Pair(key, [] + s[k + 2..m])]));
    }
  }

  /** An occurrence of a quotable value holds no double quote, NUL or '>'. */
  lemma OccursQuotable(s: string, k: nat, v: string)
    requires OccursAt(s, k, v) && Quotable(v)
    ensures forall j :: k <= j < k + |v| ==> s[j] != '"' && s[j] != NUL && s[j] != '>'
  {
    forall j | k <= j < k + |v| ensures s[j] != '"' && s[j] != NUL && s[j] != '>' {
      OccursAtChar(s, k, v, j - k);
    }
  }

  /**
   * Reading one attribute written as ` key="value"` from a state between
   * attributes appends it as a pair and returns to the state between
   * attributes.
   */
  lemma AttrRoundTrip(s: string, k: nat, name: string, q: char, acc: seq<Pair>, x: Pair)
    requires IsName(x.key) && Quotable(x.value) && AttrAt(s, k, x)
    ensures Attributes(s, k, name, AttrScan(SpaceBefore, [], [], q, acc)) ==
            Attributes(s, k + 4 + |x.key| + |x.value|, name, AttrScan(SpaceBefore, [], [], '"', acc + [x]))
  {
    var n, v := |x.key|, |x.value|;
    calc {
      Attributes(s, k, name, AttrScan(SpaceBefore, [], [], q, acc));
    == { AttrKeyPart(s, k, name, q, acc, x.key); }
      Attributes(s, k + 1 + n, name, AttrScan(Key, x.key, [], q, acc));
    == { AttrValuePart(s, k + 1 + n, name, q, acc, x); }
      Attributes(s, k + 4 + n + v, name, AttrScan(SpaceBefore, [], [], '"', acc + [x]));
    }
  }

  /** The ` key` part of an attribute, read from between attributes. */
  lemma AttrKeyPart(s: string, k: nat, name: string, q: char, acc: seq<Pair>, key: string)
    requires IsName(key) && k + 1 + |key| <= |s| && s[k] == ' ' && s[k + 1..k + 1 + |key|] == key
    ensures Attributes(s, k, name, AttrScan(SpaceBefore, [], [], q, acc)) ==
            Attributes(s, k + 1 + |key|, name, AttrScan(Key, key, [], q, acc))
  {
    var m := k + 1 + |key|;
    calc {
      Attributes(s, k, name, AttrScan(SpaceBefore, [], [], q, acc));
    == { OccursName(s, k + 1, key);
         AttrKeyRead(s, k, m, name, q, acc); }
      Attributes(s, m, name, AttrScan(Key, s[k + 1..m], [], q, acc));
    == { assert s[k + 1..m] == key; }
      Attributes(s, m, name, AttrScan(Key, key, [], q, acc));
    }
  }

  /** The `="value"` part of an attribute, read after its key. */
  lemma AttrValuePart(s: string, k: nat, name: string, q: char, acc: seq<Pair>, x: Pair)
    requires IsName(x.key) && Quotable(x.value) && k + 3 + |x.value| <= |s|
    requires s[k] == '=' && s[k + 1] == '"' && s[k + 2..k + 2 + |x.value|] == x.value && s[k + 2 + |x.value|] == '"'
    ensures Attributes(s, k, name, AttrScan(Key, x.key, [], q, acc)) ==
            Attributes(s, k + 3 + |x.value|, name, AttrScan(SpaceBefore, [], [], '"', acc + [x]))
  {
    OccursQuotable(s, k + 2, x.value);
    AttrValueRead(s, k, k + 2 + |x.value|, name, x.key, q, acc);
  }

  /** Every pair has a name for its key. */
  predicate NamedKeys(ps: seq<Pair>) {
    forall j :: 0 <= j < |ps| ==> IsName(ps[j].key)
  }

  lemma RenderableParts(acc: seq<Pair>, attrs: seq<Pair>)
    requires Renderable(attrs) && attrs != []
    ensures IsName(attrs[0].key) && Quotable(attrs[0].value) && Renderable(attrs[1..])
    ensures acc + [attrs[0]] + attrs[1..] == acc + attrs
  {
    assert forall j :: 0 <= j < |attrs| - 1 ==> attrs[1..][j] == attrs[j + 1];
  }

  /** Reading rendered attributes appends them all, in order. */
  lemma {:induction false} AttrsRoundTrip(s: string, k: nat, name: string, q: char, acc: seq<Pair>, attrs: seq<Pair>)
    requires Renderable(attrs) && OccursAt(s, k, RenderAttrs(attrs))
    ensures Attributes(s, k, name, AttrScan(SpaceBefore, [], [], q, acc)) ==
            Attributes(s, k + |RenderAttrs(attrs)|, name, AttrScan(SpaceBefore, [], [], if attrs == [] then q else '"', acc + attrs))
    decreases |attrs|
  {
    if attrs == [] {
      AppendNil(acc);
    } else {
      var x, rest := attrs[0], attrs[1..];
      var k' := k + |RenderAttr(x)|;
      var m := k' + |RenderAttrs(rest)|;
      RenderableParts(acc, attrs);
      RenderAttrsCons(s, k, attrs);
      calc {
        Attributes(s, k, name, AttrScan(SpaceBefore, [], [], q, acc));
      == { AttrsRoundTrip(s, k', name, '"', acc + [x], rest);
           AttrsRoundTripCons(s, k, m, name, q, acc, x, rest); }
        Attributes(s, m, name, AttrScan(SpaceBefore, [], [], '"', acc + [x] + rest));
        Attributes(s, k + |RenderAttrs(attrs)|, name, AttrScan(SpaceBefore, [], [], '"', acc + attrs));
      }
    }
  }

  /** The first rendered attribute and the rest, taken apart. */
  lemma RenderAttrsCons(s: string, k: nat, attrs: seq<Pair>)
    requires attrs != [] && OccursAt(s, k, RenderAttrs(attrs))
    ensures AttrAt(s, k, attrs[0]) && OccursAt(s, k + |RenderAttr(attrs[0])|, RenderAttrs(attrs[1..]))
    ensures |RenderAttrs(attrs)| == |RenderAttr(attrs[0])| + |RenderAttrs(attrs[1..])|
  {
    OccursAtSplit(s, k, RenderAttr(attrs[0]), RenderAttrs(attrs[1..]));
    RenderAttrParts(s, k, attrs[0]);
  }

  /** The first attribute read, then the rest as the induction hypothesis says. */
  lemma AttrsRoundTripCons(s: string, k: nat, m: nat, name: string, q: char, acc: seq<Pair>, x: Pair, rest: seq<Pair>)
    requires IsName(x.key) && Quotable(x.value) && AttrAt(s, k, x) && m <= |s|
    requires Attributes(s, k + |RenderAttr(x)|, name, AttrScan(SpaceBefore, [], [], '"', acc + [x])) ==
             Attributes(s, m, name, AttrScan(SpaceBefore, [], [], '"', acc + [x] + rest))
    ensures Attributes(s, k, name, AttrScan(SpaceBefore, [], [], q, acc)) ==
            Attributes(s, m, name, AttrScan(SpaceBefore, [], [], '"', acc + [x] + rest))
  {
    AttrRoundTrip(s, k, name, q, acc, x);
  }

  /**
   * Between attributes (states 0 and 1), ">" ends an open tag and "/>" a
   * primitive, with the attributes read so far; "/>" moves the cursor by 2.
   */
  lemma TagEnd(s: string, e: nat, name: string, ph: AttrPhase, q: char, attrs: seq<Pair>, selfClosing: bool)
    requires ph == SpaceBefore || ph == Start
    requires OccursAt(s, e, if selfClosing then "/>" else ">")
    ensures Attributes(s, e, name, AttrScan(ph, [], [], q, attrs)) ==
            Done(XmlNode(if selfClosing then Primitive else ContainerOpen, name, attrs), e + if selfClosing then 2 else 1)
  {
    var end := if selfClosing then "/>" else ">";
    OccursAtChar(s, e, end, 0);
    if selfClosing {
      OccursAtChar(s, e, end, 1);
    }
  }

  /** The usual self-closing form, with a space before "/>", scans to a primitive. */
  lemma SpacedSelfClose()
    ensures OpenTag("<a />", 1) == Done(XmlNode(Primitive, "a", []), 5)
  {
  }

  /** Rendered attributes start with a space. */
  lemma RenderAttrsStart(s: string, m: nat, attrs: seq<Pair>)
    requires attrs != [] && OccursAt(s, m, RenderAttrs(attrs))
    ensures m < |s| && s[m] == ' '
  {
    OccursAtSplit(s, m, RenderAttr(attrs[0]), RenderAttrs(attrs[1..]));
    RenderAttrParts(s, m, attrs[0]);
  }

  /**
   * An element written as name, rendered attributes and then ">" or "/>" is
   * read back as an open tag or a primitive with that name and exactly those
   * attributes, the cursor just past the tag.
   */
  lemma OpenTagRoundTrip(s: string, p: nat, name: string, attrs: seq<Pair>, selfClosing: bool)
    requires IsName(name) && Renderable(attrs)
    requires OccursAt(s, p, name + RenderAttrs(attrs) + (if selfClosing then "/>" else ">"))
    ensures OpenTag(s, p) ==
            Done(XmlNode(if selfClosing then Primitive else ContainerOpen, name, attrs),
                 p + |name + RenderAttrs(attrs) + (if selfClosing then "/>" else ">")|)
  {
    var r := RenderAttrs(attrs);
    var end := if selfClosing then "/>" else ">";
    var m := p + |name|;
    OccursAtSplit3(s, p, name, r, end);
    calc {
      OpenTag(s, p);
    == { OpenTagNamed(s, p, name); }
      OpenName(s, m, name);
    == { OpenNameRest(s, m, name, attrs, selfClosing); }
      Done(XmlNode(if selfClosing then Primitive else ContainerOpen, name, attrs), m + |r| + |end|);
    }
  }

  /** A name at p is read whole by the name loop. */
  lemma OpenTagNamed(s: string, p: nat, name: string)
    requires OccursAt(s, p, name) && IsName(name)
    ensures OpenTag(s, p) == OpenName(s, p + |name|, name)
  {
    OccursName(s, p, name);
    OpenTagName(s, p, p + |name|);
  }

  /** After the name, the rendered attributes up to the end of the tag. */
  lemma OpenNameRest(s: string, m: nat, name: string, attrs: seq<Pair>, selfClosing: bool)
    requires IsName(name) && Renderable(attrs) && m <= |s|
    requires OccursAt(s, m, RenderAttrs(attrs))
    requires OccursAt(s, m + |RenderAttrs(attrs)|, if selfClosing then "/>" else ">")
    ensures OpenName(s, m, name) ==
            Done(XmlNode(if selfClosing then Primitive else ContainerOpen, name, attrs),
                 m + |RenderAttrs(attrs)| + if selfClosing then 2 else 1)
  {
    if attrs == [] {
      OpenNameBare(s, m, name, selfClosing);
    } else {
      OpenNameAttrs(s, m, name, attrs, selfClosing);
    }
  }

  /** A name followed directly by ">" or "/>". */
  lemma OpenNameBare(s: string, m: nat, name: string, selfClosing: bool)
    requires IsName(name) && OccursAt(s, m, if selfClosing then "/>" else ">")
    ensures OpenName(s, m, name) ==
            Done(XmlNode(if selfClosing then Primitive else ContainerOpen, name, []), m + if selfClosing then 2 else 1)
  {
    var end := if selfClosing then "/>" else ">";
    OccursAtChar(s, m, end, 0);
    if selfClosing {
      OccursAtChar(s, m, end, 1);
    }
  }

  /** A name followed by at least one rendered attribute and the end of the tag. */
  lemma OpenNameAttrs(s: string, m: nat, name: string, attrs: seq<Pair>, selfClosing: bool)
    requires IsName(name) && Renderable(attrs) && attrs != [] && m <= |s|
    requires OccursAt(s, m, RenderAttrs(attrs))
    requires OccursAt(s, m + |RenderAttrs(attrs)|, if selfClosing then "/>" else ">")
    ensures OpenName(s, m, name) ==
            Done(XmlNode(if selfClosing then Primitive else ContainerOpen, name, attrs),
                 m + |RenderAttrs(attrs)| + if selfClosing then 2 else 1)
  {
    var e := m + |RenderAttrs(attrs)|;
    var end := if selfClosing then "/>" else ">";
    var after := AttrScan(SpaceBefore, [], [], '"', attrs);
    calc {
      OpenName(s, m, name);
    == { RenderAttrsStart(s, m, attrs); }
      Attributes(s, m, name, AttrsStart);
    == { AttrsFromStart(s, m, name, attrs); }
      Attributes(s, e, name, after);
    == { TagEnd(s, e, name, SpaceBefore, '"', attrs, selfClosing); }
      Done(XmlNode(if selfClosing then Primitive else ContainerOpen, name, attrs), e + |end|);
    }
  }

  /** The attributes read after a name, from the machine's initial state. */
  lemma AttrsFromStart(s: string, m: nat, name: string, attrs: seq<Pair>)
    requires Renderable(attrs) && attrs != [] && OccursAt(s, m, RenderAttrs(attrs))
    ensures Attributes(s, m, name, AttrsStart) ==
            Attributes(s, m + |RenderAttrs(attrs)|, name, AttrScan(SpaceBefore, [], [], '"', attrs))
  {
    AttrsRoundTrip(s, m, name, NUL, [], attrs);
    NilAppend(attrs);
  }

  // ---------------------------------------------------------------------
  // Text
  // ---------------------------------------------------------------------

  /** A character bare text may hold: not the end, not '<', and none of & > " '. */
  predicate TextChar(c: char) {
    c != NUL && c != '<' && c != '&' && c != '>' && c != '"' && c != '\''
  }

  /** A run of text characters is appended to the node verbatim. */
  lemma {:induction false} TextRunSpan(s: string, k: nat, m: nat, node: XmlNode, allSpace: bool)
    requires k <= m <= |s|
    requires forall j :: k <= j < m ==> TextChar(s[j])
    ensures TextRun(s, k, node, allSpace) ==
            TextRun(s, m, node.(name := node.name + s[k..m]), allSpace && AllSpace(s[k..m]))
    decreases m - k
  {
    if k < m {
      AppendSlice(node.name, s, k, m);
      assert AllSpace(s[k..m]) == (IsSpace(s[k]) && AllSpace(s[k + 1..m])) by {
        assert s[k..m] == [s[k]] + s[k + 1..m];
      }
      TextRunSpan(s, k + 1, m, node.(name := node.name + [s[k]]), allSpace && IsSpace(s[k]));
    } else {
      AppendEmpty(node.name, s, k, m);
    }
  }

  /**
   * A run of text up to '<' or the end is appended to the node's text, the
   * cursor left on the '<'; a run that is all white space empties the node
   * instead, including the text it held before.
   */
  lemma TextScanAccepts(s: string, k: nat, m: nat, node: XmlNode)
    requires k <= m <= |s|
    requires forall j :: k <= j < m ==> TextChar(s[j])
    requires At(s, m) == NUL || At(s, m) == '<'
    ensures TextScan(s, k, node) ==
            Done(XmlNode(Text, if AllSpace(s[k..m]) then [] else node.name + s[k..m], node.attrs), m)
  {
    TextRunSpan(s, k, m, node, true);
  }

  /** The first of & > " ' in bare text is an error at its offset. */
  lemma TextScanRejects(s: string, k: nat, m: nat, node: XmlNode)
    requires k <= m < |s|
    requires forall j :: k <= j < m ==> TextChar(s[j])
    requires s[m] == '&' || s[m] == '>' || s[m] == '"' || s[m] == '\''
    ensures TextScan(s, k, node) == Fail(NotWellFormed(m))
  {
    TextRunSpan(s, k, m, node, true);
  }

  /**
   * How a text run ends: on success every character it passed is a text
   * character; on failure the error sits on the first character that is not,
   * and that character is one of & > " ' (not the end of the input).
   */
  lemma {:induction false} TextRunOutcome(s: string, k: nat, node: XmlNode, allSpace: bool)
    requires k <= |s|
    ensures TextRun(s, k, node, allSpace).Done? ==>
              forall j :: k <= j < TextRun(s, k, node, allSpace).next ==> TextChar(s[j])
    ensures TextRun(s, k, node, allSpace).Fail? ==>
              var m := TextRun(s, k, node, allSpace).error.pos;
              && k <= m < |s| && (s[m] == '&' || s[m] == '>' || s[m] == '"' || s[m] == '\'')
              && forall j :: k <= j < m ==> TextChar(s[j])
    decreases |s| - k
  {
    var c := At(s, k);
    if !(c == NUL || c == '<' || c == '&' || c == '>' || c == '"' || c == '\'') {
      TextRunOutcome(s, k + 1, node.(name := node.name + [c]), allSpace && IsSpace(c));
    }
  }

  /**
   * parseText in closed form: a successful scan copied the whole run of text
   * characters up to NUL or '<' onto the node's text, unless the run is all
   * white space, which leaves the text empty.
   */
  lemma TextScanResult(s: string, k: nat, node: XmlNode)
    requires k <= |s|
    ensures TextScan(s, k, node).Done? ==>
              var m := TextScan(s, k, node).next;
              && (forall j :: k <= j < m ==> TextChar(s[j]))
              && TextScan(s, k, node) ==
                 Done(XmlNode(Text, if AllSpace(s[k..m]) then [] else node.name + s[k..m], node.attrs), m)
    ensures TextScan(s, k, node).Fail? ==>
              var m := TextScan(s, k, node).error.pos;
              && k <= m < |s| && (s[m] == '&' || s[m] == '>' || s[m] == '"' || s[m] == '\'')
              && forall j :: k <= j < m ==> TextChar(s[j])
  {
    TextRunOutcome(s, k, node, true);
    if TextScan(s, k, node).Done? {
      TextScanAccepts(s, k, TextScan(s, k, node).next, node);
    }
  }

  // ---------------------------------------------------------------------
  // Comments
  // ---------------------------------------------------------------------

  /** The comment search finds the first "-->" after k, provided no byte before it is NUL. */
  lemma {:induction false} CommentBodyFinds(s: string, k: nat, m: nat)
    requires 1 <= k <= m && OccursAt(s, m, "-->")
    requires forall j :: k <= j < m ==> s[j] != NUL && !OccursAt(s, j, "-->")
    ensures CommentBody(s, k) == CommentBody(s, m)
    decreases m - k
  {
    if k < m {
      assert At(s, k) != NUL;
      AtOccurs(s, k, "-->");
      CommentBodyFinds(s, k + 1, m);
    }
  }

  /**
   * A comment opened by "<!--" ends at the first "-->": the cursor goes past
   * it, unless the character before that "-->" is '-', which is an error at
   * that character. So "<!---->" is rejected at its third '-' (the '-' before
   * "-->" is the opener's own), while "<!--->" has no "-->" after its opener
   * and fails as an unclosed token instead.
   */
  lemma CommentTagAccepts(s: string, p: nat, m: nat)
    requires OccursAt(s, p, "!--") && p + 3 <= m && OccursAt(s, m, "-->")
    requires forall j :: p + 3 <= j < m ==> s[j] != NUL && !OccursAt(s, j, "-->")
    ensures CommentTag(s, p) == if s[m - 1] == '-' then Fail(NotWellFormed(m - 1)) else Done(EmptyNode, m + 3)
  {
    OccursAtChar(s, p, "!--", 0);
    OccursAtChar(s, p, "!--", 1);
    OccursAtChar(s, p, "!--", 2);
    CommentBodyFinds(s, p + 3, m);
    OccursAtChar(s, m, "-->", 0);
    OccursAtChar(s, m, "-->", 1);
    OccursAtChar(s, m, "-->", 2);
  }

  /** A comment must open with "--": otherwise the error is at the character after '!'. */
  lemma CommentTagOpener(s: string, p: nat)
    requires p < |s|
    ensures CommentTag(s, p) == Fail(NotWellFormed(p + 1)) <==> !(At(s, p + 1) == '-' && At(s, p + 2) == '-')
  {
    if At(s, p + 1) == '-' && At(s, p + 2) == '-' {
      CommentBodyFailsAfter(s, p + 3);
    }
  }

  /** The comment search reports a malformed end no earlier than one character before where it started. */
  lemma {:induction false} CommentBodyFailsAfter(s: string, k: nat)
    requires 1 <= k <= |s| + 1
    ensures CommentBody(s, k).Fail? && CommentBody(s, k).error.NotWellFormed? ==> CommentBody(s, k).error.pos + 1 >= k
    decreases |s| + 1 - k
  {
    if !(At(s, k) == NUL && At(s, k + 1) == NUL) && !(At(s, k) == '-' && At(s, k + 1) == '-' && At(s, k + 2) == '>') {
      CommentBodyFailsAfter(s, k + 1);
    }
  }

  /** A comment with no "-->" before the end of the input is an unclosed token. */
  lemma {:induction false} CommentUnclosed(s: string, k: nat)
    requires NoNul(s) && 1 <= k <= |s| + 1
    requires forall j :: k <= j < |s| ==> !OccursAt(s, j, "-->")
    ensures CommentBody(s, k) == Fail(UnclosedToken)
    decreases |s| + 1 - k
  {
    if k < |s| {
      AtOccurs(s, k, "-->");
      CommentUnclosed(s, k + 1);
    }
  }

  /** The empty comment "<!---->" is rejected at its third '-'. */
  lemma EmptyCommentRejected()
    ensures CommentTag("<!---->", 1) == Fail(NotWellFormed(3))
  {
    CommentTagAccepts("<!---->", 1, 4);
  }

  // ---------------------------------------------------------------------
  // CDATA sections
  // ---------------------------------------------------------------------

  /** The CDATA search copies every character before the first "]]>" verbatim and moves past it. */
  lemma {:induction false} CDataBodyCopies(s: string, k: nat, m: nat, text: string)
    requires k <= m && OccursAt(s, m, "]]>")
    requires forall j :: k <= j < m ==> s[j] != NUL && !OccursAt(s, j, "]]>")
    ensures CDataBody(s, k, text) == Done(XmlNode(Text, text + s[k..m], []), m + 3)
    decreases m - k
  {
    if k < m {
      AtOccurs(s, k, "]]>");
      AppendSlice(text, s, k, m);
      CDataBodyCopies(s, k + 1, m, text + [s[k]]);
    } else {
      OccursAtChar(s, m, "]]>", 0);
      OccursAtChar(s, m, "]]>", 1);
      OccursAtChar(s, m, "]]>", 2);
      AppendEmpty(text, s, k, m);
    }
  }

  /** Matching the rest of "CDATA[" moves on to the payload. */
  lemma {:induction false} CDataOpenMatches(s: string, k: nat, j: nat)
    requires j <= |CDataOpener| && k <= |s|
    requires OccursAt(s, k, CDataOpener[j..])
    ensures CDataOpen(s, k, j) == CDataBody(s, k + |CDataOpener| - j, [])
    decreases |CDataOpener| - j
  {
    if j < |CDataOpener| {
      assert s[k] == s[k..k + |CDataOpener| - j][0] == CDataOpener[j];
      assert s[k + 1..k + 1 + |CDataOpener[j + 1..]|] == s[k..k + |CDataOpener| - j][1..];
      CDataOpenMatches(s, k + 1, j + 1);
    }
  }

  /**
   * "<![CDATA[" followed by a payload and "]]>" gives a text node holding
   * exactly the payload (markup characters included), the cursor past "]]>".
   */
  lemma CDataTagAccepts(s: string, p: nat, m: nat)
    requires p + 1 < |s| && OccursAt(s, p + 2, CDataOpener)
    requires p + 8 <= m && OccursAt(s, m, "]]>")
    requires forall j :: p + 8 <= j < m ==> s[j] != NUL && !OccursAt(s, j, "]]>")
    ensures CDataTag(s, p) == Done(XmlNode(Text, s[p + 8..m], []), m + 3)
  {
    assert CDataOpener[0..] == CDataOpener;
    CDataOpenMatches(s, p + 2, 0);
    CDataBodyCopies(s, p + 8, m, []);
    NilAppend(s[p + 8..m]);
  }

  /** The first character that departs from "CDATA[" is an error at its offset. */
  lemma CDataTagRejects(s: string, p: nat, j: nat)
    requires p + 1 < |s| && j < |CDataOpener|
    requires OccursAt(s, p + 2, CDataOpener[..j])
    requires p + 2 + j < |s| && s[p + 2 + j] != NUL && s[p + 2 + j] != CDataOpener[j]
    ensures CDataTag(s, p) == Fail(NotWellFormed(p + 2 + j))
  {
    CDataOpenPrefix(s, p + 2, 0, j);
  }

  lemma {:induction false} CDataOpenPrefix(s: string, k: nat, i: nat, j: nat)
    requires i <= j < |CDataOpener| && k + j - i < |s|
    requires forall l :: i <= l < j ==> s[k + l - i] == CDataOpener[l]
    requires s[k + j - i] != NUL && s[k + j - i] != CDataOpener[j]
    ensures CDataOpen(s, k, i) == Fail(NotWellFormed(k + j - i))
    decreases j - i
  {
    if i < j {
      assert At(s, k) == s[k] == CDataOpener[i];
      CDataOpenPrefix(s, k + 1, i + 1, j);
    }
  }

  /** A CDATA section with no "]]>" before the end of the input is an unclosed token. */
  lemma {:induction false} CDataUnclosed(s: string, k: nat, text: string)
    requires NoNul(s) && k <= |s| + 1
    requires forall j :: k <= j < |s| ==> !OccursAt(s, j, "]]>")
    ensures CDataBody(s, k, text) == Fail(UnclosedToken)
    decreases |s| + 1 - k
  {
    if k < |s| {
      AtOccurs(s, k, "]]>");
      CDataUnclosed(s, k + 1, text + [At(s, k)]);
    }
  }

  // ---------------------------------------------------------------------
  // The prolog
  // ---------------------------------------------------------------------

  /** The matching loop of parseProlog, j characters of "<?xml" matched so far. */
  lemma {:induction false} PrologMatchOutcome(s: string, j: nat)
    requires j <= |PrologOpener|
    requires forall l :: 0 <= l < j ==> At(s, l) == PrologOpener[l]
    ensures PrologMatch(s, j) ==
            if OccursAt(s, 0, PrologOpener) && At(s, |PrologOpener|) != NUL then PrologEnd(s, |PrologOpener|) else Ok(0)
    decreases |PrologOpener| - j
  {
    AtOccurs(s, 0, PrologOpener);
    if j < |PrologOpener| && At(s, j) == PrologOpener[j] {
      PrologMatchOutcome(s, j + 1);
    }
  }

  /** Input that does not start with "<?xml" has no prolog: the lexer starts at offset 0. */
  lemma PrologAbsent(s: string)
    ensures !OccursAt(s, 0, PrologOpener) ==> Prolog(s) == Ok(0)
  {
    PrologMatchOutcome(s, 0);
  }

  lemma {:induction false} PrologEndFinds(s: string, k: nat, m: nat)
    requires k <= m && OccursAt(s, m, "?>")
    requires forall j :: k <= j < m ==> s[j] != NUL && !OccursAt(s, j, "?>")
    ensures PrologEnd(s, k) == Ok(m + 2)
    decreases m - k
  {
    if k < m {
      AtOccurs(s, k, "?>");
      PrologEndFinds(s, k + 1, m);
    } else {
      OccursAtChar(s, m, "?>", 0);
      OccursAtChar(s, m, "?>", 1);
    }
  }

  /**
   * A prolog "<?xml ... ?>" is skipped up to just past the first "?>";
   * "<?xml" alone at the end of the input is not a prolog at all.
   */
  lemma PrologSkipped(s: string, m: nat)
    requires OccursAt(s, 0, PrologOpener)
    requires |PrologOpener| <= m && OccursAt(s, m, "?>")
    requires forall j :: |PrologOpener| <= j < m ==> s[j] != NUL && !OccursAt(s, j, "?>")
    ensures Prolog(s) == Ok(m + 2)
  {
    PrologMatchOutcome(s, 0);
    PrologEndFinds(s, |PrologOpener|, m);
  }

  lemma {:induction false} PrologEndUnclosed(s: string, k: nat)
    requires NoNul(s) && k <= |s|
    requires forall j :: k <= j < |s| ==> !OccursAt(s, j, "?>")
    ensures PrologEnd(s, k) == Err(UnclosedToken)
    decreases |s| - k
  {
    if k < |s| {
      AtOccurs(s, k, "?>");
      PrologEndUnclosed(s, k + 1);
    }
  }

  /** "<?xml" with more input but no "?>" is an unclosed token. */
  lemma PrologUnclosed(s: string)
    requires NoNul(s) && OccursAt(s, 0, PrologOpener) && |s| > |PrologOpener|
    requires forall j :: |PrologOpener| <= j < |s| ==> !OccursAt(s, j, "?>")
    ensures Prolog(s) == Err(UnclosedToken)
  {
    PrologMatchOutcome(s, 0);
    PrologEndUnclosed(s, |PrologOpener|);
  }
}
