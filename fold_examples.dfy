/*
 * The dict xml_parse (src/xmlparse.cpp) builds for a small document, node by
 * node: attributes under prefixed keys, a repeated child turned into a list,
 * and text-only children collapsed to their text.
 */
module XmlFoldExamples {
  import opened XmlChars
  import opened Values
  import opened XmlScan
  import opened XmlFold

  /** The nodes of `<a x="1"><b>1</b><b>2</b></a>`. */
  const Nodes: seq<XmlNode> := [
    XmlNode(ContainerOpen, "a", [Pair("x", "1")]),
    XmlNode(ContainerOpen, "b", []),
    XmlNode(Text, "1", []),
    XmlNode(ContainerClose, "b", []),
    XmlNode(ContainerOpen, "b", []),
    XmlNode(Text, "2", []),
    XmlNode(ContainerClose, "b", []),
    XmlNode(ContainerClose, "a", [])
  ]

  /** Text without surrounding white space is kept whole. */
  lemma TrimBare(t: string)
    requires t != [] && !IsSpace(t[0]) && !IsSpace(t[|t| - 1])
    ensures Trim(t, IsSpace) == t
  {
    TrimPadded([], t, [], IsSpace);
    assert [] + t + [] == t;
  }

  /** The attribute dict of `<a x="1">`. */
  const Da: Entries := [("@x", Str("1"))]

  /** The document frame. */
  const Doc := Frame([], [], Direct)

  // The state after each node of Nodes.
  const S1 := FoldState([Doc.(dict := [("a", Dict(Da))]), Frame("a", Da, Direct)], false)
  const S2 := FoldState([S1.frames[0], Frame("a", Da + [("b", Dict([]))], Direct), Frame("b", [], Direct)], false)
  const S3 := FoldState([S2.frames[0], S2.frames[1], Frame("b", [(TextKey, Str("1"))], Direct)], false)
  const S4 := FoldState([S1.frames[0], Frame("a", Da + [("b", Str("1"))], Direct)], false)
  const S5 := FoldState([S1.frames[0], Frame("a", Da + [("b", List([Str("1"), Dict([])]))], Direct),
                         Frame("b", [], InList(1))], true)
  const S6 := FoldState([S5.frames[0], S5.frames[1], Frame("b", [(TextKey, Str("2"))], InList(1))], true)
  const S7 := FoldState([S1.frames[0], Frame("a", Da + [("b", List([Str("1"), Str("2")]))], Direct)], true)
  const S8 := FoldState([Doc.(dict := [("a", Dict(Da + [("b", List([Str("1"), Str("2")]))]))])], true)

  /** One node of a loop whose step succeeds. */
  lemma LoopStep(nodes: seq<XmlNode>, st: FoldState, next: FoldState, prefix: string)
    requires FoldInv(st) && ClosesNamed(nodes) && nodes != []
    requires FoldStep(st, nodes[0], prefix) == Ok(next)
    ensures FoldInv(next) && ClosesNamed(nodes[1..])
    ensures FoldLoop(nodes, st, prefix) == FoldLoop(nodes[1..], next, prefix)
  {
  }

  lemma OpenA()
    ensures FoldStep(XmlFold.Start, Nodes[0], "@") == Ok(S1)
  {
    assert PrefixedDict([Pair("x", "1")], "@") == Da by {
      assert [Pair("x", "1")][..0] == [];
      assert "@" + "x" == "@x";
    }
    assert InsertChild([], "a", Da, false) == Insertion([("a", Dict(Da))], false, Direct);
    var n := Nodes[0];
    assert n == XmlNode(ContainerOpen, "a", [Pair("x", "1")]);
    assert Top(XmlFold.Start).dict == [];
    var w := WithTopDict(XmlFold.Start, [("a", Dict(Da))]);
    assert w.frames == [S1.frames[0]];
    assert OpenChild(XmlFold.Start, n, "@") == Push(w, Frame("a", Da, Direct));
    assert Push(w, Frame("a", Da, Direct)) == S1;
  }

  /** The value stored under the key of the last entry, present nowhere else. */
  lemma GetLast(es: Entries, key: string, u: Value)
    requires key !in Keys(es)
    ensures Get(es + [(key, u)], key) == Some(u)
  {
    SetAbsent(es, key, u);
  }

  /** A close step matching the innermost name, spelled out: entry is the value under the name, v what replaces it. */
  lemma CloseSteps(st: FoldState, entry: Value, v: Value)
    requires FoldInv(st) && |st.frames| >= 2 && Top(st).name != []
    requires Get(st.frames[|st.frames| - 2].dict, Top(st).name) == Some(entry)
    requires Collapse(Place(entry, Top(st).slot, Dict(Top(st).dict))) == v
    ensures FoldStep(st, XmlNode(ContainerClose, Top(st).name, []), "@") ==
            Ok(FoldState(st.frames[..|st.frames| - 2] + [st.frames[|st.frames| - 2].(dict := Set(st.frames[|st.frames| - 2].dict, Top(st).name, v))], st.isList))
  {
  }

  lemma OpenFirstB()
    ensures FoldInv(S1) && FoldStep(S1, Nodes[1], "@") == Ok(S2)
  {
    assert Keys(Da) == ["@x"];
    SetAbsent(Da, "b", Dict([]));
    assert InsertChild(Da, "b", [], false) == Insertion(Da + [("b", Dict([]))], false, Direct);
    var n := Nodes[1];
    assert n == XmlNode(ContainerOpen, "b", []);
    var w := WithTopDict(S1, Da + [("b", Dict([]))]);
    assert w.frames == S2.frames[..2];
    assert OpenChild(S1, n, "@") == Push(w, Frame("b", [], Direct));
    assert Push(w, Frame("b", [], Direct)) == S2;
  }

  lemma TextOne()
    ensures FoldInv(S2) && FoldStep(S2, Nodes[2], "@") == Ok(S3)
  {
    assert Keys(Da) == ["@x"];
    GetLast(Da, "b", Dict([]));
    TrimBare("1");
    var n := Nodes[2];
    assert n == XmlNode(Text, "1", []);
    assert Set([], TextKey, Str("1")) == [(TextKey, Str("1"))];
    assert FoldInv(S2);
    assert Trim(n.name, IsSpace) == "1";
    assert FoldStep(S2, n, "@") == Ok(AddText(S2, "1"));
    assert AddText(S2, "1") == WithTopDict(S2, [(TextKey, Str("1"))]);
    assert WithTopDict(S2, [(TextKey, Str("1"))]).frames == S3.frames;
  }

  lemma CloseFirstB()
    ensures FoldInv(S3) && FoldStep(S3, Nodes[3], "@") == Ok(S4)
  {
    assert Keys(Da) == ["@x"];
    GetLast(Da, "b", Dict([]));
    SetLast(Da, "b", Dict([]), Str("1"));
    var n := Nodes[3];
    assert n == XmlNode(ContainerClose, "b", []);
    assert Get([(TextKey, Str("1"))], "a") == None;
    assert Collapse(Dict([(TextKey, Str("1"))])) == Str("1");
    CloseSteps(S3, Dict([]), Str("1"));
    assert S3.frames[1].dict == Da + [("b", Dict([]))];
    assert Set(S3.frames[1].dict, "b", Str("1")) == Da + [("b", Str("1"))];
    assert S3.frames[..1] + [S3.frames[1].(dict := Da + [("b", Str("1"))])] == S4.frames;
  }

  lemma OpenSecondB()
    ensures FoldInv(S4) && FoldStep(S4, Nodes[4], "@") == Ok(S5)
  {
    assert Keys(Da) == ["@x"];
    GetLast(Da, "b", Str("1"));
    SetLast(Da, "b", Str("1"), List([Str("1"), Dict([])]));
    assert InsertChild(Da + [("b", Str("1"))], "b", [], false) ==
           Insertion(Da + [("b", List([Str("1"), Dict([])]))], true, InList(1));
    var n := Nodes[4];
    assert n == XmlNode(ContainerOpen, "b", []);
    var w := WithTopDict(S4, Da + [("b", List([Str("1"), Dict([])]))]).(isList := true);
    assert w.frames == S5.frames[..2];
    assert OpenChild(S4, n, "@") == Push(w, Frame("b", [], InList(1)));
    assert Push(w, Frame("b", [], InList(1))) == S5;
  }

  lemma TextTwo()
    ensures FoldInv(S5) && FoldStep(S5, Nodes[5], "@") == Ok(S6)
  {
    assert Keys(Da) == ["@x"];
    GetLast(Da, "b", List([Str("1"), Dict([])]));
    TrimBare("2");
    var n := Nodes[5];
    assert n == XmlNode(Text, "2", []);
    assert Set([], TextKey, Str("2")) == [(TextKey, Str("2"))];
    assert FoldInv(S5);
    assert Trim(n.name, IsSpace) == "2";
    assert FoldStep(S5, n, "@") == Ok(AddText(S5, "2"));
    assert AddText(S5, "2") == WithTopDict(S5, [(TextKey, Str("2"))]);
    assert WithTopDict(S5, [(TextKey, Str("2"))]).frames == S6.frames;
  }

  lemma CloseSecondB()
    ensures FoldInv(S6) && FoldStep(S6, Nodes[6], "@") == Ok(S7)
  {
    assert Keys(Da) == ["@x"];
    GetLast(Da, "b", List([Str("1"), Dict([])]));
    SetLast(Da, "b", List([Str("1"), Dict([])]), List([Str("1"), Str("2")]));
    var n := Nodes[6];
    assert n == XmlNode(ContainerClose, "b", []);
    var placed := Place(List([Str("1"), Dict([])]), InList(1), Dict([(TextKey, Str("2"))]));
    assert placed == List([Str("1"), Dict([(TextKey, Str("2"))])]);
    assert Collapse(placed).items == [Str("1"), Str("2")];
    assert Collapse(placed) == List([Str("1"), Str("2")]);
    CloseSteps(S6, List([Str("1"), Dict([])]), List([Str("1"), Str("2")]));
    assert S6.frames[1].dict == Da + [("b", List([Str("1"), Dict([])]))];
    assert Set(S6.frames[1].dict, "b", List([Str("1"), Str("2")])) == Da + [("b", List([Str("1"), Str("2")]))];
    assert S6.frames[..1] + [S6.frames[1].(dict := Da + [("b", List([Str("1"), Str("2")]))])] == S7.frames;
  }

  lemma CloseA()
    ensures FoldInv(S7) && FoldStep(S7, Nodes[7], "@") == Ok(S8)
  {
    assert Keys(Da) == ["@x"];
    var full := Da + [("b", List([Str("1"), Str("2")]))];
    GetLast(Da, "b", List([Str("1"), Str("2")]));
    GetLast([], "a", Dict(Da));
    SetLast([], "a", Dict(Da), Dict(full));
    var n := Nodes[7];
    assert n == XmlNode(ContainerClose, "a", []);
    assert Collapse(Dict(full)) == Dict(full);
    CloseSteps(S7, Dict(Da), Dict(full));
    assert S7.frames[0].dict == [] + [("a", Dict(Da))];
    assert Set(S7.frames[0].dict, "a", Dict(full)) == [] + [("a", Dict(full))];
    NilAppend([("a", Dict(full))]);
    assert S7.frames[..0] + [S7.frames[0].(dict := [("a", Dict(full))])] == S8.frames;
    assert FoldInv(S7);
    assert Top(S7).name == "a";
  }

  /** The dict of the whole example. */
  const Folded := Dict([("a", Dict([("@x", Str("1")), ("b", List([Str("1"), Str("2")]))]))])

  // The loop from each state on, last node first.
  lemma FoldFrom8()
    requires FoldInv(S8)
    ensures FoldLoop([], S8, "@") == Ok(Folded)
  {
    assert |S8.frames| == 1;
    var b := ("b", List([Str("1"), Str("2")]));
    assert Da + [b] == [("@x", Str("1")), b];
    assert Dict(S8.frames[0].dict) == Folded;
  }

  lemma FoldFrom7()
    requires FoldInv(S7) && ClosesNamed(Nodes[7..])
    ensures FoldLoop(Nodes[7..], S7, "@") == Ok(Folded)
  {
    CloseA();
    LoopStep(Nodes[7..], S7, S8, "@");
    assert Nodes[7..][1..] == [];
    FoldFrom8();
  }

  lemma FoldFrom6()
    requires FoldInv(S6) && ClosesNamed(Nodes[6..])
    ensures FoldLoop(Nodes[6..], S6, "@") == Ok(Folded)
  {
    CloseSecondB();
    LoopStep(Nodes[6..], S6, S7, "@");
    assert Nodes[6..][1..] == Nodes[7..];
    FoldFrom7();
  }

  lemma FoldFrom5()
    requires FoldInv(S5) && ClosesNamed(Nodes[5..])
    ensures FoldLoop(Nodes[5..], S5, "@") == Ok(Folded)
  {
    TextTwo();
    LoopStep(Nodes[5..], S5, S6, "@");
    assert Nodes[5..][1..] == Nodes[6..];
    FoldFrom6();
  }

  lemma FoldFrom4()
    requires FoldInv(S4) && ClosesNamed(Nodes[4..])
    ensures FoldLoop(Nodes[4..], S4, "@") == Ok(Folded)
  {
    OpenSecondB();
    LoopStep(Nodes[4..], S4, S5, "@");
    assert Nodes[4..][1..] == Nodes[5..];
    FoldFrom5();
  }

  lemma FoldFrom3()
    requires FoldInv(S3) && ClosesNamed(Nodes[3..])
    ensures FoldLoop(Nodes[3..], S3, "@") == Ok(Folded)
  {
    CloseFirstB();
    LoopStep(Nodes[3..], S3, S4, "@");
    assert Nodes[3..][1..] == Nodes[4..];
    FoldFrom4();
  }

  lemma FoldFrom2()
    requires FoldInv(S2) && ClosesNamed(Nodes[2..])
    ensures FoldLoop(Nodes[2..], S2, "@") == Ok(Folded)
  {
    TextOne();
    LoopStep(Nodes[2..], S2, S3, "@");
    assert Nodes[2..][1..] == Nodes[3..];
    FoldFrom3();
  }

  lemma FoldFrom1()
    requires FoldInv(S1) && ClosesNamed(Nodes[1..])
    ensures FoldLoop(Nodes[1..], S1, "@") == Ok(Folded)
  {
    OpenFirstB();
    LoopStep(Nodes[1..], S1, S2, "@");
    assert Nodes[1..][1..] == Nodes[2..];
    FoldFrom2();
  }

  lemma FoldFrom0()
    requires FoldInv(XmlFold.Start) && ClosesNamed(Nodes[0..])
    ensures FoldLoop(Nodes[0..], XmlFold.Start, "@") == Ok(Folded)
  {
    OpenA();
    LoopStep(Nodes[0..], XmlFold.Start, S1, "@");
    assert Nodes[0..][1..] == Nodes[1..];
    FoldFrom1();
  }

  /** `<a x="1"><b>1</b><b>2</b></a>` folds to `{"a": {"@x": "1", "b": ["1", "2"]}}`. */
  lemma FoldRepeatedChild()
    ensures ClosesNamed(Nodes)
    ensures Fold(Nodes, "@") == Ok(Dict([("a", Dict([("@x", Str("1")), ("b", List([Str("1"), Str("2")]))]))]))
  {
    assert Nodes[0..] == Nodes;
    FoldFrom0();
  }
}
