/*
 * The id stack of splitNodes (src/xmlparse.cpp) as written: a close tag
 * calls `idStack.pop_back()` whatever the depth, so a close tag with no open
 * element pops the root id, and the next close tag (or the `idStack.back()`
 * of the next run of text) works on an empty vector, which C++ leaves
 * undefined. XmlLexer.MarkupIds keeps the root id instead; the fold then
 * reports the surplus close tag as a tag mismatch (XmlFold.ExcessCloseRejected).
 */
module XmlIdStack {
  import opened XmlChars
  import opened Values
  import opened XmlScan
  import opened XmlScanLemmas
  import opened XmlLexer

  /**
   * The id stack after a tag as the source updates it; None when a close
   * tag pops an empty stack.
   */
  function MarkupIdsAsWritten(s: string, st: LexState): (r: Option<seq<nat>>)
    ensures r.None? <==> At(s, st.i + 1) == '/' && st.idStack == []
    ensures r.Some? && At(s, st.i + 1) == '/' ==> |r.value| + 1 == |st.idStack|
  {
    var p := st.i + 1;
    if At(s, p) == '/' then
      if st.idStack == [] then None else Some(st.idStack[..|st.idStack| - 1])
    else if At(s, p) == '!' then Some(st.idStack)
    else Some(st.idStack + [st.currId + 1])
  }

  /** Above the root, the corrected update is the update as written. */
  lemma MarkupIdsAgree(s: string, st: LexState)
    requires |st.idStack| >= 1 && st.idStack[0] == 0
    requires At(s, st.i + 1) == '/' ==> |st.idStack| >= 2
    ensures MarkupIdsAsWritten(s, st) == Some(MarkupIds(s, st))
  {
  }

  /** A close tag with only the root open: the source empties the stack, the model keeps the root. */
  lemma MarkupIdsDiffer(s: string, st: LexState)
    requires st.idStack == [0] && At(s, st.i + 1) == '/'
    ensures MarkupIdsAsWritten(s, st) == Some([])
    ensures MarkupIds(s, st) == [0]
  {
  }

  /**
   * "</a></b>": the first close tag is read and leaves the cursor on the
   * second; as written it has popped the root id, so the second close tag
   * pops an empty stack.
   */
  lemma IdStackUnderflow()
    ensures MarkupStep("</a></b>", LexState(0, 0, [], map[], [0])) ==
              Ok(LexState(4, 1, [XmlNode(ContainerClose, "a", [])], map[], [0]))
    ensures MarkupIdsAsWritten("</a></b>", LexState(0, 0, [], map[], [0])) == Some([])
    ensures MarkupIdsAsWritten("</a></b>", LexState(4, 1, [XmlNode(ContainerClose, "a", [])], map[], [])).None?
  {
    var s := "</a></b>";
    assert At(s, 1) == '/' && At(s, 5) == '/';
    CloseTagAccepts(s, 1, 3);
    assert s[2..3] == "a";
    assert NameChars("a") == "a" by {
      assert "a"[1..] == [];
    }
  }
}
