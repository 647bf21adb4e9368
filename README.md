# xmlpydict, modelled in Dafny

xmlpydict turns an XML document into a Python dict. It has two code paths,
and both are modelled here.

- **The native parser** (`src/xmlparse.cpp`) works in two passes.
  - `splitNodes` lexes the NUL-terminated input into a flat vector of nodes: open tags, self-closing tags, close tags and text. The lexer uses a global cursor `i`, an id counter, an id stack and a map from open-element ids to their text node.
  - `xml_parse` then folds the nodes into nested dicts. Attributes become prefixed keys. Text goes under `#text`. A repeated child becomes a list. A dict holding only text collapses to the text.
- **The pure-Python handler** (`xmlpydict/core.py`) builds the same kind of dict from expat-style callbacks (`startElement`, `characters`, `endElement`), keeping an item stack and a data stack.

The files:

- `xml_chars.dfy` (XmlChars): C-locale character classes, the C string view `At` (offsets past the end read as NUL), trimming and `strip`.
- `values.dfy` (Values): Python values (`None`, `str`, `dict` as an ordered list of entries, `list`), dict lookup and assignment, and the prefixed attribute dict.
- `scanners.dfy` (XmlScan): each sub-scanner of the lexer as a recursive function over the input: close tag, open tag with its six-phase attribute machine, comment, CDATA, text and prolog.
- `scan_lemmas.dfy` (XmlScanLemmas): what each scanner accepts, what it rejects and where, and a round trip. An open tag rendered from a name and attributes is scanned back to that name and those attributes.
- `lexer.dfy` (XmlLexer): the loop of `splitNodes` as a function, and class `Lexer`. The class holds the source's cursor and id counter as fields. Its methods, one per scanner, follow the source's loops and are proved equal to the scanner functions.
- `fold.dfy` (XmlFold): the fold of `xml_parse` as a function over a stack of frames, and the methods that run it.
  - The source shares one `PyObject` between the parent dict and the container stack. The model says instead where a child's dict sits in its parent, and writes it back on close.
  - The fold's outcome is characterised independently, by matching close tags against open ones.
- `handler.dfy` (PyDictHandler): class `NativePyDictHandler` with its four fields and callbacks. A pure step function specifies the callbacks. A reference semantics over element trees states what the handler builds for a whole element.
- `id_stack.dfy` (XmlIdStack): the id stack of `splitNodes` exactly as written, and how it underflows.
- `fold_examples.dfy` (XmlFoldExamples): the fold of `<a x="1"><b>1</b><b>2</b></a>`, node by node, to `{"a": {"@x": "1", "b": ["1", "2"]}}`.

For input with unclosed elements, the error carries the depth of the container stack minus the document frame (`src/xmlparse.cpp:499-503`): `<a><b>` gives 2. The model reports the same (`XmlFold.FoldOutcome`).

## Model

| member | source | states |
|---|---|---|
| XmlChars.Strip | src/xmlparse.cpp:371-381 | the result is the input with leading and trailing C white space removed (`Trim`) |
| XmlChars.Trim | src/xmlparse.cpp:371-381 | the trimmed string is empty exactly when the input is all white space, and otherwise starts and ends with a non-space |
| XmlChars.TrimPadded | src/xmlparse.cpp:371-381 | trimming a string padded with white space on both sides gives back the trimmed core |
| Values.Set | xmlpydict/core.py:59 | after `d[key] = v`, key maps to v and every other key keeps its value |
| Values.SetKeys | xmlpydict/core.py:59 | assignment keeps the order of existing keys and appends a new key at the end |
| Values.SetUnique | xmlpydict/core.py:59 | assignment keeps the keys of a dict unique |
| Values.GetEntry | xmlpydict/core.py:42 | in a dict with unique keys, looking up an entry's key finds that entry's value |
| Values.PrefixedDictKeys | src/xmlparse.cpp:383-392 | the attribute dict has exactly the prefixed attribute names as keys, each with a string value |
| Values.PrefixedDictLast | src/xmlparse.cpp:383-392 | each key holds the value of the last attribute with that name |
| XmlScan.Attributes | src/xmlparse.cpp:107-207 | the attribute machine moves the cursor forward, yields an open or self-closing node named as its tag, and fails at or after its start |
| XmlScan.AttributesNamed | src/xmlparse.cpp:107-207 | every attribute the machine yields has a non-empty name |
| XmlScanLemmas.CloseRestSpan | src/xmlparse.cpp:47-62 | the close-tag loop collects the name characters of the span and stops at '>' or NUL |
| XmlScanLemmas.CloseTagAccepts | src/xmlparse.cpp:35-65 | a close tag of name and space characters yields a close node named by its name characters (spaces inside are dropped), the cursor after '>' |
| XmlScanLemmas.CloseTagRejects | src/xmlparse.cpp:57-59 | a character that is neither a name character, white space nor '>' fails at its offset |
| XmlScanLemmas.CloseTagStart | src/xmlparse.cpp:38-45 | a close tag fails at the character after '/' exactly when that character cannot start a name |
| XmlScanLemmas.OpenTagName | src/xmlparse.cpp:70-105 | the name loop reads the longest run of name characters as the element name |
| XmlScanLemmas.OpenTagOutcome | src/xmlparse.cpp:82-105 | after the name: '>' or NUL gives an open node, "/>" gives a self-closing node, white space hands over to the attribute machine |
| XmlScanLemmas.TagEnd | src/xmlparse.cpp:115-137 | between attributes, in state 0 or 1, ">" ends an open tag and "/>" ends a primitive with the attributes read so far, the cursor moving by exactly 2 |
| XmlScanLemmas.SpacedSelfClose | src/xmlparse.cpp:82-137 | `<a />` scans to the primitive `a` with no attributes, the cursor after "/>" |
| XmlScanLemmas.OpenTagStart | src/xmlparse.cpp:70-77 | an open tag fails at its first character exactly when that character cannot start a name |
| XmlScanLemmas.OpenNameFailsAfter | src/xmlparse.cpp:82-105 | a failure after the name is reported at or after the end of the name |
| XmlScanLemmas.AttrValueVerbatim | src/xmlparse.cpp:180-200 | a quoted value is copied verbatim up to its closing quote and becomes the next attribute |
| XmlScanLemmas.AttrUnfinished | src/xmlparse.cpp:115-205 | '>' or the end of input inside an attribute fails at that offset, including '>' inside a quoted value |
| XmlScanLemmas.AttrsRoundTrip | src/xmlparse.cpp:107-205 | the machine reads a rendered attribute list back as exactly those attributes, in order |
| XmlScanLemmas.OpenTagRoundTrip | src/xmlparse.cpp:67-208 | an open or self-closing tag rendered from a name and attributes is scanned back to that node, the cursor after the tag |
| XmlScanLemmas.TextRunSpan | src/xmlparse.cpp:270-281 | the text loop copies the run up to '<' or NUL |
| XmlScanLemmas.TextScanAccepts | src/xmlparse.cpp:266-288 | a run of text is appended to the node's text and ends at '<' or NUL; a run that is all white space clears the whole text, earlier text included |
| XmlScanLemmas.TextScanRejects | src/xmlparse.cpp:271-274 | '&', '>' or a quote in text fails at its offset |
| XmlScanLemmas.CommentTagAccepts | src/xmlparse.cpp:210-232 | a comment is skipped up to the first "-->", and fails when the character before it is '-' |
| XmlScanLemmas.CommentTagOpener | src/xmlparse.cpp:212-216 | "<!" not followed by "--" fails at the character after '!' |
| XmlScanLemmas.CommentUnclosed | src/xmlparse.cpp:219-234 | a comment with no "-->" after it is an unclosed token |
| XmlScanLemmas.CommentBodyFailsAfter | src/xmlparse.cpp:219-232 | a comment fails no earlier than one character before its body |
| XmlScanLemmas.EmptyCommentRejected | src/xmlparse.cpp:223-227 | `<!---->` is rejected at offset 3 |
| XmlScanLemmas.CDataTagAccepts | src/xmlparse.cpp:237-264 | a CDATA section yields a text node holding its body verbatim, the cursor after "]]>" |
| XmlScanLemmas.CDataTagRejects | src/xmlparse.cpp:242-252 | the first character that differs from "CDATA[" fails at its offset |
| XmlScanLemmas.CDataOpenPrefix | src/xmlparse.cpp:242-252 | a mismatch after a matching prefix of "CDATA[" is reported at the mismatch |
| XmlScanLemmas.CDataUnclosed | src/xmlparse.cpp:253-263 | a CDATA body with no "]]>" is an unclosed token |
| XmlScanLemmas.PrologMatchOutcome | src/xmlparse.cpp:290-300 | the prolog is searched for exactly when the input starts with "<?xml" and continues; otherwise lexing starts at 0 |
| XmlScanLemmas.PrologAbsent | src/xmlparse.cpp:293-297 | input not starting with "<?xml" has no prolog |
| XmlScanLemmas.PrologSkipped | src/xmlparse.cpp:301-306 | a prolog is skipped up to the first "?>" after "<?xml" |
| XmlScanLemmas.PrologEndUnclosed | src/xmlparse.cpp:302-310 | the search for "?>" with none left is an unclosed token |
| XmlScanLemmas.PrologUnclosed | src/xmlparse.cpp:290-311 | "<?xml" followed by text but no "?>" is an unclosed token |
| XmlLexer.MarkupScan | src/xmlparse.cpp:329-341 | the tag dispatcher moves the cursor forward and yields a well-formed node or a nameless one |
| XmlLexer.MarkupStep | src/xmlparse.cpp:329-343 | a tag step fails exactly when its scanner fails, with the scanner's error; otherwise the cursor moves past the tag, the id stack becomes `MarkupIds`, the text map is unchanged, the scanned node is appended exactly when it has a name, a comment appends nothing and a close tag appends its close node |
| XmlLexer.MarkupIds | src/xmlparse.cpp:333-343 | a close tag pops the innermost id (a lone root id stays, see Findings), a comment or CDATA section leaves the stack, and any other tag, self-closing ones included, pushes the id `curr_id + 1` |
| XmlLexer.TextStep | src/xmlparse.cpp:345-357 | the step reads the maximal run of text characters up to '<' or NUL, or fails at the first of & > " ' in it; with a text node recorded for the innermost id, the run is appended to that node's text (an all-space run empties it); otherwise a text node holding the run is appended and recorded exactly when the run is not all space |
| XmlScanLemmas.TextRunOutcome | src/xmlparse.cpp:266-288 | a successful run passed only text characters; a failed one stops at the first & > " ' |
| XmlScanLemmas.TextScanResult | src/xmlparse.cpp:266-288 | a successful text scan appends exactly the run it passed (or empties the text when the run is all space); a failure is at the first & > " ' |
| XmlLexer.LexStep | src/xmlparse.cpp:327-366 | each iteration moves the cursor forward and keeps the bookkeeping consistent |
| XmlLexer.LexLoop | src/xmlparse.cpp:327-368 | every node the loop yields is well formed |
| XmlLexer.Lex | src/xmlparse.cpp:313-369 | every node the lexer yields is well formed: tags named, attributes only on open tags, no comments |
| XmlLexer.Lexer.constructor | src/xmlparse.cpp:318-319 | the cursor and the id counter start at 0 |
| XmlLexer.Lexer.ParseContainerClose | src/xmlparse.cpp:35-65 | the close-tag loop computes `CloseTag` and leaves the cursor after the tag |
| XmlLexer.Lexer.ParseContainerOpen | src/xmlparse.cpp:67-105 | the name loop computes `OpenTag` and leaves the cursor after the tag |
| XmlLexer.Lexer.ParseAttributes | src/xmlparse.cpp:107-207 | the attribute state machine computes `Attributes` and leaves the cursor after the tag |
| XmlLexer.Lexer.ParseComment | src/xmlparse.cpp:210-235 | the comment loop computes `CommentTag` |
| XmlLexer.Lexer.ParseCData | src/xmlparse.cpp:237-264 | the two CDATA loops compute `CDataTag` |
| XmlLexer.Lexer.ParseText | src/xmlparse.cpp:266-288 | the text loop computes `TextScan` |
| XmlLexer.Lexer.ParseProlog | src/xmlparse.cpp:290-311 | succeeds exactly when `Prolog` does, leaving the cursor where lexing starts |
| XmlLexer.Lexer.ParseMarkup | src/xmlparse.cpp:329-341 | the dispatch on the character after '<' computes `MarkupScan` |
| XmlLexer.Lexer.LexMarkup | src/xmlparse.cpp:329-343 | the body of the loop on '<' computes `MarkupStep` |
| XmlLexer.Lexer.LexText | src/xmlparse.cpp:345-357 | the body of the loop on text computes `TextStep` |
| XmlLexer.Lexer.SplitNodes | src/xmlparse.cpp:313-369 | the whole loop computes `Lex`: the well-formed nodes of the input, or its first error |
| XmlFold.InsertChild | src/xmlparse.cpp:434-458 | a new child dict goes under its name if absent, is appended to an existing list only while the pass-wide list flag is set, and otherwise replaces the entry with a two-element list; other keys are untouched; the slot of the new dict is the key itself when it was absent, and otherwise the last item of the list |
| XmlFold.Collapse | src/xmlparse.cpp:470-493 | a closed value, or each item of a closed list, whose only key is the text key becomes its text |
| XmlFold.CloseTop | src/xmlparse.cpp:466-494 | closing pops the innermost frame; in the parent's dict the child's name now holds the collapsed value with the child's dict placed at its slot, and every other key keeps its value |
| XmlFold.CloseLeavesChild | src/xmlparse.cpp:466-494 | after closing, the child's slot in the parent holds its collapsed dict, which is its bare text when the text key is its only key |
| XmlFold.CloseTopNames | src/xmlparse.cpp:466-469 | closing drops the innermost open name |
| XmlFold.AddText | src/xmlparse.cpp:427-433 | text sets the text key of the current dict and changes nothing else |
| XmlFold.OpenChild | src/xmlparse.cpp:434-458 | an open tag pushes a frame holding its attribute dict, a self-closing tag pushes none; the frames below stay, the current dict becomes `InsertChild` of the attribute dict under the tag's name, the pass-wide list flag is the one `InsertChild` returns, and the pushed frame sits where `InsertChild` put the dict, so a repeated child's content is written back into the last list item |
| XmlFold.FoldStep | src/xmlparse.cpp:424-497 | a step fails exactly on a close tag not naming the innermost open element, with a tag mismatch |
| XmlFold.FoldStepNames | src/xmlparse.cpp:424-497 | open pushes the name, close pops it, text and self-closing tags leave the open names |
| XmlFold.FoldLoop | src/xmlparse.cpp:424-503 | the fold yields a dict, a tag mismatch, or a count of at least one unclosed element |
| XmlFold.FoldOutcome | src/xmlparse.cpp:424-507 | the fold fails with a tag mismatch exactly when tag matching fails, fails with the number of elements left open when some are, and succeeds otherwise |
| XmlFold.ExcessCloseRejected | src/xmlparse.cpp:459-465 | a close tag with no open element left to close is a tag mismatch |
| XmlFold.OpenAfterExcess | src/xmlparse.cpp:459-465 | once close tags outnumber open ones, tag matching fails |
| XmlFold.WellFormedClosesNamed | src/xmlparse.cpp:313-369 | the lexer's close nodes are named, as the fold needs |
| XmlFold.CreateDict | src/xmlparse.cpp:383-392 | the loop builds the prefixed attribute dict, with unique keys |
| XmlFold.CollapseList | src/xmlparse.cpp:472-485 | the loop collapses each list item in place, keeping the length |
| XmlFold.FoldOpen | src/xmlparse.cpp:434-458 | the open and self-closing branch computes `OpenChild` |
| XmlFold.FoldClose | src/xmlparse.cpp:466-494 | the close branch computes `CloseTop` |
| XmlFold.FoldNode | src/xmlparse.cpp:424-497 | one pass of the loop computes `FoldStep` |
| XmlFold.FoldNodes | src/xmlparse.cpp:416-507 | the loop and its end check compute `Fold` |
| XmlFold.ParseXml | src/xmlparse.cpp:401-412 | an embedded NUL in either argument is refused exactly as the C string conversion refuses it; a success is a dict |
| XmlFold.Parse | src/xmlparse.cpp:401-508 | parsing refuses embedded NULs, then lexes, then folds (`ParseXml`) |
| XmlFoldExamples.FoldRepeatedChild | src/xmlparse.cpp:416-507 | the nodes of `<a x="1"><b>1</b><b>2</b></a>` fold to `{"a": {"@x": "1", "b": ["1", "2"]}}` |
| PyDictHandler.JoinAppend | xmlpydict/core.py:51 | joining concatenated chunk lists concatenates the joins |
| PyDictHandler.UpdateChildren | xmlpydict/core.py:34-47 | the result is a dict; an absent key gets the value, a list under the key gets it appended, any other value becomes a two-element list; other keys are untouched |
| PyDictHandler.UpdateChildrenKeys | xmlpydict/core.py:34-47 | adding a child keeps the key order and appends a new key |
| PyDictHandler.StartItem | xmlpydict/core.py:30-31 | the new item is None exactly when there are no attributes, and otherwise the prefixed attribute dict |
| PyDictHandler.ClosedValue | xmlpydict/core.py:51-62 | a closed element is None, its text, or its item with its non-empty text under the text key |
| PyDictHandler.Step | xmlpydict/core.py:24-62 | every callback keeps each item None or a dict and the two stacks equally deep |
| PyDictHandler.EndPops | xmlpydict/core.py:49-62 | with an open element, endElement pops both stacks and restores the parent's data; the parent's item (a fresh dict for None) gains the closed value under the name, as a two-element list or a longer list when the name repeats, and keeps every other key |
| PyDictHandler.UpdateChildrenRepeats | xmlpydict/core.py:41-46 | a repeated key turns its value into a list, or extends its list, by the new value |
| PyDictHandler.RunAppend | xmlpydict/core.py:24-62 | running two event sequences in turn is running their concatenation |
| PyDictHandler.RunElement | xmlpydict/core.py:24-62 | the callbacks of a whole element restore both stacks and the parent's data and add the element's tree value to the parent's item |
| PyDictHandler.RunContent | xmlpydict/core.py:24-62 | the callbacks of an element's content add its children's values in order and collect its text chunks |
| PyDictHandler.RunDocument | xmlpydict/core.py:9-62 | a document yields a dict holding the root element's tree value under its name, both stacks empty |
| PyDictHandler.LeafValue | xmlpydict/core.py:57-62 | an element with no attributes and no children yields its stripped text, or None |
| PyDictHandler.ElementDict | xmlpydict/core.py:57-60 | an element with attributes or a child yields a dict holding its non-empty text under the text key |
| PyDictHandler.NativePyDictHandler.constructor | xmlpydict/core.py:9-22 | no item, no data, empty stacks |
| PyDictHandler.NativePyDictHandler.Characters | xmlpydict/core.py:24-25 | the chunk is appended to the data; the step function's text step |
| PyDictHandler.NativePyDictHandler.StartElement | xmlpydict/core.py:27-32 | both stacks grow by the old item and data; the new item is the prefixed attributes or None |
| PyDictHandler.NativePyDictHandler.EndElement | xmlpydict/core.py:49-62 | the callback computes the end step and keeps the handler's invariant |
| XmlIdStack.MarkupIdsAsWritten | src/xmlparse.cpp:329-343 | the source's update pops an empty stack exactly on a close tag with no id left |
| XmlIdStack.MarkupIdsAgree | src/xmlparse.cpp:333-343 | above the root id, the corrected update equals the source's |
| XmlIdStack.MarkupIdsDiffer | src/xmlparse.cpp:333-334 | a close tag with only the root open empties the source's stack but not the model's |
| XmlIdStack.IdStackUnderflow | src/xmlparse.cpp:333-346 | on `</a></b>` the first close tag empties the stack and the second pops an empty stack |

## Left out

- Python C-API glue: argument parsing (beyond its refusal of embedded NULs), reference counting, exception objects and module set-up. Errors are a `ParseError` value: position of a not-well-formed character, unclosed token, tag mismatch, count of unclosed tags, or embedded NUL.
- `xmlpydict/__init__.py` (the expat driver) and `benchmark.py`. The handler is driven by an explicit event sequence, and character data reaches it already decoded.
- Locale: the C character classes are those of the "C" locale, over ASCII. Characters stand for bytes, so no non-ASCII byte is white space. `isspace` on a negative `char`, undefined in C, is not modelled.
- Reads past the terminating NUL (`src/xmlparse.cpp:63`, 206, 219, 253) read NUL in the model (`At`); what the source reads there is undefined.
- Embedded NUL characters: the argument parser's "s" conversion (`src/xmlparse.cpp:408`) raises `ValueError` for them, which the model returns as the error `EmbeddedNul`. `Lex` on its own treats a NUL as the end of input, as the source's loops do.
- XmlFold: dicts are values, not shared objects. The parent's dict and the container stack share one object in the source. The model records where each open child sits (`Slot`) and writes it back when the child closes. Aliasing beyond that is not modelled.
- XmlLexer.Lexer: the source's global cursor `i` and id counter `curr_id` are fields of the `Lexer` object. The vectors and the map of `splitNodes` are method parameters and results, not fields.
- PyDictHandler.NativePyDictHandler.EndElement: the case with no open element (`if self.data_stack` false) does nothing, as in the source. No lemma relates it to unbalanced input beyond that.
- Concrete examples: one node sequence is folded to its dict (`XmlFoldExamples`). Lexing a given string to its nodes is not worked out as an example; the scanner lemmas state what each scanner yields for a span.

## Findings

| source | as written | input that shows it | evidently intended | confidence | as-written member | corrected member |
|---|---|---|---|---|---|---|
| src/xmlparse.cpp:334 | every close tag calls `idStack.pop_back()`, even when only the root id is left; later `idStack.back()` (line 346) or another `pop_back()` acts on an empty vector, which is undefined behaviour | `</a></b>` (also `</a>x`) | keep the root id, and let the fold report the surplus close tag as a tag mismatch | not executed | XmlIdStack.MarkupIdsAsWritten, XmlIdStack.IdStackUnderflow | XmlLexer.MarkupIds, XmlFold.ExcessCloseRejected |
