# A model of the HTML toolchain and the bit64 codec

Dafny model and proofs for the parts of the bundled libraries whose correctness is hardest to see
from the code: Gumbo's tree construction, its RAWTEXT and script tokenizer, its UTF-8 reader and
writer, the gumbo-query selector engine, and the bit64 codec.

`dafny verify dfyconfig.toml` checks everything.

## How it is laid out

| files | what they hold |
|---|---|
| `Options`, `Ascii`, `Sequences`, `Vectors` | values that may be missing; case folding; what the vector operations do to a sequence; the growing pointer vector |
| `Dom`, `DomOps`, `OpenStack`, `DocumentOrder`, `LeafOrder` | a heap of nodes with parents, child vectors and recorded positions; the link-changing steps and what each does to every node's ancestors; the order of the open stack; the leaves in document order, before, inside and after a subtree |
| `Adoption`, `AdoptionClones`, `AdoptionLeaves`, `Agency`, `Spine`, `AdoptionExits`, `RoundExactly` | the adoption agency algorithm: one pass of the inner walk, a round, the whole algorithm, and what they keep; when the open elements stay on the last-child path; what each exit returns; stack, list and clones after a round |
| `Attributes`, `FormattingList`, `ListOrder`, `NoahsArk` | attribute comparison; the list of active formatting elements, reconstruction, runs of list steps; list and stack in the same order; the Noah's Ark clause through the adoption agency |
| `TreeRuns`, `InsertionOrder`, `Straying`, `Spelling`, `Removal`, `Reordering` | every sequence of tree-building actions from an empty document; the runs in which text stays in the order of its insertion, and that no others keep the open elements in place; what the document then says; where nodes are removed from; a run in which text is reordered |
| `TreeConstruction` | the parser state as an object; its methods, loop by loop, proved equal to the functions above |
| `EarlyModes`, `EarlyTree` | the insertion modes from "initial" to "after head", and "text"; the same handlers as tree-building actions |
| `TextTokenizer`, `TextLexing`, `TextEscapes`, `Tokenizing` | the RAWTEXT and script states, what a pass accounts for, the modes of script text as the input defines them, and the tokenizer object, which moves the byte iterator |
| `Utf8`, `InputIterator`, `StringBuffers` | the table automaton against the decoder of the WHATWG Encoding standard, the iterator object, the encoder and its buffer |
| `Selectors`, `SelectorSyntax`, `SelectorParser` | selector trees, the grammar as functions of input and offset, the parser object |
| `SelectorNames`, `SelectorNth`, `SelectorPrinter`, `SelectorExact`, `SelectorShapes` | how names, strings, `an+b` arguments and whole groups may be written, with every freedom of layout, and what each text stands for; that this is exactly what the parser reads; exactly which trees it returns |
| `SelectorMatch`, `Selecting` | the meaning of selectors as tree relations, the matcher, the query |
| `Bit64Numbers`, `Bit64` | numbers in base 256 and base 64; the alphabet loop, the codec object |

Objects that the code updates in place are classes; the loops are loops. Each such method is proved
equal to a function of the old state, and the lemmas are about those functions. The insertion-mode
handlers, which only choose among a few field updates, are functions from state to state.

A node pointer is an identifier into a heap that the tree builder holds as a map, so that two
pointers to one node are one identifier. Acyclicity is "following parents ends", which makes the path
from the root unique; ancestry, document order and all recursion below a node come from it. Tag names
are numbers; the sets of special, scope-limiting and implied-end tags, the tag look-up and the judgement
of simple selectors are parameters, so the results hold for any choice of them.

What is read at a higher level than the code: bit masks and shifts in bit64 and UTF-8 are division and
remainder; the 364-entry UTF-8 table is written as ranges and rows; the tokenizer's buffers hold code
points where the code has their UTF-8 bytes, and its pointer into the temporary buffer is an index.

## Where the code departs from its description

- `all_attributes_match` need not be symmetric when a name is repeated up to case: see
  `Attributes.RepeatedNamesMatchOneWay` for two lists that match one way, and
  `Attributes.MatchDecidesExactly` for the condition under which it decides equality.
- An element dropped from the formatting list in step 13.5 stays on the open stack, where the standard
  removes it; the model follows the code.
- A round of the adoption agency reorders text when the furthest block has leaves and others follow it
  in the common ancestor: `AdoptionLeaves.RoundKeepsLeavesExactly` says exactly when it does not.
  `Reordering.TextIsReordered` reaches such a round from the empty document, with
  `<i><b><u><span><span><span><div><!--x--></b></div><div><!--y--></i>`: the round for `</b>` drops the
  `u` element from the list but leaves it open. `Spine.RoundSpineExactly` shows that this is the only
  way in which a round takes the open elements off the last-child path. Two other actions can: opening
  the head again when it is not the last child or text is waiting, and a comment below the document or
  the html element while more is open. `Straying.RunSpineExactly` shows that there are no others, and
  `InsertionOrder.RunInInsertionOrder` and `Spelling.RunSpells` that without these three, text stays in
  the order of its insertion.
- An entry that the adoption agency moved across a scope marker could become a fourth identical one
  (`FormattingList.FourthBeforeMarker`); `NoahsArk.RoundKeepsOrder` and `TreeRuns.RunKeepsThree` show that
  this does not happen from an empty document on.
- bit64 decoding followed by encoding gives the symbols back exactly for canonical strings
  (`Bit64.EncodeDecode`); a leftover non-zero byte is kept, not refused, so a lone symbol does not come
  back (`Bit64.LoneSymbolChanges`).
- The selector parser stops behind the first group and ignores what follows it, such as a closing
  parenthesis nobody opened and anything after it (`SelectorPrinter.GroupIgnoresRest`). An escape takes
  at most five hexadecimal digits and makes one byte of each pair.
- Two kinds of `an+b` arguments are refused: those that begin with the letter n, which is left unread, and
  those with a minus sign behind it, where the code steps back instead of over the sign.
  `SelectorNth.NthReads` shows that these are the only ones, `SelectorNth.RefusedArguments` has examples.
  So no selector has a step and a negative offset (`SelectorShapes.TreesExactly`).
- In the selector parser `c > 127` is read as the comparison of an unsigned byte. The plainest spelling of a
  name (`SelectorNames.SpellIdent`) escapes such characters, and reads as the name either way.

## Model

| member | source | states |
|---|---|---|
| Vectors.Vector.constructor | plugins/glib/thirdparties/gumbo/vector.c:30-40 | a vector starts empty with the capacity asked for |
| Vectors.Vector.EnlargeIfFull | plugins/glib/thirdparties/gumbo/vector.c:49-67 | the contents survive, there is room for one more, and the capacity doubles exactly when the vector was full (0 becomes 2) |
| Vectors.Vector.Add | plugins/glib/thirdparties/gumbo/vector.c:69-75 | appends and keeps everything before |
| Vectors.Vector.Pop | plugins/glib/thirdparties/gumbo/vector.c:77-83 | takes the last element off, or reports an empty vector |
| Vectors.Vector.FindIndex | plugins/glib/thirdparties/gumbo/vector.c:85-92 | the first position, or -1 exactly when absent |
| Vectors.Vector.InsertElement | plugins/glib/thirdparties/gumbo/vector.c:94-103 | the element lands at the index, the rest moves up by one, also across a reallocation |
| Vectors.Vector.RemoveElement | plugins/glib/thirdparties/gumbo/vector.c:105-112 | drops the first occurrence only |
| Vectors.Vector.RemoveElementAt | plugins/glib/thirdparties/gumbo/vector.c:114-123 | returns the element and closes the gap |
| DomOps.AttachWellFormed | plugins/glib/thirdparties/gumbo/parser.c:829-845 | appending a parentless node that is not an ancestor keeps parents, indices and acyclicity in agreement |
| DomOps.AttachPath | plugins/glib/thirdparties/gumbo/parser.c:829-845 | which ancestors every node has after an append: the moved subtree goes below the new parent, nothing else changes |
| DomOps.InsertPath | plugins/glib/thirdparties/gumbo/parser.c:850-882 | the same for an insertion in the middle, together with well-formedness |
| DomOps.RenumberInsert | plugins/glib/thirdparties/gumbo/parser.c:850-882 | the renumbering loop of the insertion gives every sibling its new index and touches nothing else |
| DomOps.DetachWellFormed | plugins/glib/thirdparties/gumbo/parser.c:1768-1788 | removal keeps the links in agreement |
| DomOps.DetachPath | plugins/glib/thirdparties/gumbo/parser.c:1768-1788 | which ancestors every node has after a removal: the removed subtree becomes a tree of its own |
| DomOps.RenumberDetach | plugins/glib/thirdparties/gumbo/parser.c:1784-1787 | the renumbering loop of the removal closes the gap in the indices, and only there |
| DomOps.InterposeWellFormed | plugins/glib/thirdparties/gumbo/parser.c:1983-2003 | swapping the child vectors and appending the clone keeps the links in agreement |
| DomOps.InterposePath | plugins/glib/thirdparties/gumbo/parser.c:1983-2003 | the clone comes between the block and all its former descendants; no other ancestry changes |
| DomOps.ReparentInterpose | plugins/glib/thirdparties/gumbo/parser.c:1991-2003 | the swap, the parent loop and the append together are exactly that interposition |
| Adoption.WalkDownOk | plugins/glib/thirdparties/gumbo/parser.c:1910-1969 | every pass lowers the position by one although the stack is deleted from and overwritten behind it; tree, stack and bookmark invariants hold all the way to the formatting element |
| Adoption.VisitedHasParent | plugins/glib/thirdparties/gumbo/parser.c:1923-1924 | every element the walk meets still has a parent, as the code asserts |
| Adoption.BookmarkHolds | plugins/glib/thirdparties/gumbo/parser.c:1897-2023 | at step 18 the formatting element is still listed and the bookmark is a position of the list |
| Adoption.RoundKeepsValid | plugins/glib/thirdparties/gumbo/parser.c:1886-2032 | a round keeps the tree well formed and no open element below one later on the stack, keeps every node and its kind, leaves every node of the document attached and attaches every new one |
| AdoptionClones.RoundAddsClones | plugins/glib/thirdparties/gumbo/parser.c:1949-1968 | every node that a round adds is a new clone of an element that was open |
| AdoptionLeaves.WalkedCarried | plugins/glib/thirdparties/gumbo/parser.c:1910-1969 | the walk moves the furthest block into a chain of clones that carries exactly the block's leaves |
| AdoptionLeaves.MovedLeaves | plugins/glib/thirdparties/gumbo/parser.c:1971-1980 | hanging the chain below the common ancestor puts the block's leaves behind all its other ones |
| LeafOrder.LeavesSplit | plugins/glib/thirdparties/gumbo/parser.c:829-845 | a change inside a subtree changes the leaves of every tree around it exactly there |
| LeafOrder.LeavesDetach | plugins/glib/thirdparties/gumbo/parser.c:1768-1788 | removing a subtree takes its leaves out and leaves the others in order |
| LeafOrder.LeavesInsert | plugins/glib/thirdparties/gumbo/parser.c:850-882 | inserting a subtree puts it at its place among the children and its leaves between those before and behind it, and changes no other child vector |
| AdoptionLeaves.RoundLeaves | plugins/glib/thirdparties/gumbo/parser.c:1886-2032 | the exact law, for every round: the leaves of the furthest block leave their place in the document and go behind all other leaves of the common ancestor |
| AdoptionLeaves.RoundKeepsLeavesExactly | plugins/glib/thirdparties/gumbo/parser.c:1886-2032 | the document-order sequence of text and comment nodes is unchanged if and only if the block has no leaves or as many leaves come before it as there are, without it, before and inside the common ancestor |
| AdoptionLeaves.RoundLeavesInside | plugins/glib/thirdparties/gumbo/parser.c:1886-2032 | with the block inside the common ancestor: unchanged if and only if the block has no leaves or none follows it there |
| AdoptionLeaves.RoundKeepsLeaves | plugins/glib/thirdparties/gumbo/parser.c:1886-2032 | if the furthest block ends the last-child path below the common ancestor, the document-order sequence of text and comment nodes is unchanged |
| Spine.WalkedClimbs | plugins/glib/thirdparties/gumbo/parser.c:1910-1969 | the walk leaves a chain of clones, each the only child of the one before, down to the furthest block; it stands right above the formatting element on the stack if and only if no element was still listed at pass 4 or later |
| Spine.RoundSpineExactly | plugins/glib/thirdparties/gumbo/parser.c:1886-2032 | the exact law: a round leaves the open elements on the last-child path of the document if and only if the walk meets no element at pass 4 or later that is still listed |
| Agency.FindFormatting | plugins/glib/thirdparties/gumbo/parser.c:1807-1834 | the last entry with the tag behind the last marker; -1 exactly when there is none behind it |
| Agency.ScopeMeaning | plugins/glib/thirdparties/gumbo/parser.c:1362-1382 | for any list of tags and either sense of the set: in scope exactly when a wanted element is open and nothing above it ends the scope |
| Agency.FurthestBlock | plugins/glib/thirdparties/gumbo/parser.c:1860-1871 | the first special element at or above the formatting element, or -1 when there is none |
| Agency.FlushValid | plugins/glib/thirdparties/gumbo/parser.c:884-919 | flushing the text buffer keeps the parser state valid and loses no node |
| Agency.PopToValid | plugins/glib/thirdparties/gumbo/parser.c:929-958 | so does popping any number of open elements |
| Agency.TurnKeeps | plugins/glib/thirdparties/gumbo/parser.c:1806-2033 | one turn of the outer loop, on each of its exits, keeps the state valid and conserves the document |
| Agency.AdoptKeeps | plugins/glib/thirdparties/gumbo/parser.c:1792-2035 | the whole algorithm keeps tree and stack valid; no node is lost or cut off and all new ones are attached |
| AdoptionExits.TurnIs | plugins/glib/thirdparties/gumbo/parser.c:1806-1880 | what a turn returns, by list, stack and tags: unchanged when no element with the tag is listed behind the last marker; its entry gone and nothing else changed when it is not open; unchanged when it is open but not in scope; popped with all above it, its entry gone, when nothing special is open from it upwards; otherwise a round with the first special element above it |
| AdoptionExits.AdoptIs | plugins/glib/thirdparties/gumbo/parser.c:1792-2035 | the whole algorithm: the current node comes off at once exactly when it has the tag and is not listed; otherwise at most eight rounds, each the one its state calls for, and then the first exit that applies, with the text buffer it leaves |
| AdoptionExits.AdoptUnlists | plugins/glib/thirdparties/gumbo/parser.c:1837-1842 | when the last element with the tag behind the last marker is not open, the algorithm takes its entry off the list and changes nothing else |
| RoundExactly.RoundIs | plugins/glib/thirdparties/gumbo/parser.c:1886-2032 | the exact stack, list and clones after a round: the elements that the first three passes find listed are replaced by clones with their tag, namespace and attributes, those that later passes find listed stay open and lose their entry, the others come off the stack; the new element goes behind the block on the stack, and in the list behind the first clone or, with none, where the old entry was |
| Attributes.MatchIsMapEquality | plugins/glib/thirdparties/gumbo/parser.c:425-437 | with names distinct up to case, the one-directional check and the count decide equality of the attribute maps |
| Attributes.MatchedAtMost | plugins/glib/thirdparties/gumbo/parser.c:425-437 | the counter of unmatched attributes never goes below zero under the same condition |
| Attributes.RepeatedNamesMatchOneWay | plugins/glib/thirdparties/gumbo/parser.c:425-437 | with repeated names the check is not symmetric: two lists that match in one order only |
| Attributes.MatchDecidesExactly | plugins/glib/thirdparties/gumbo/parser.c:425-437 | the exact condition: a vector's names are distinct up to case if and only if the check decides map equality against every vector with distinct names |
| Attributes.AllAttributesMatch | plugins/glib/thirdparties/gumbo/parser.c:425-437 | the loop returns what the check says; with names distinct up to case that is map equality, and the counter never underflows |
| Attributes.FindIsLookup | plugins/glib/thirdparties/gumbo/attribute.c:28-37 | the first attribute with a name, ignoring case, is the map's entry |
| FormattingList.CountIdentical | plugins/glib/thirdparties/gumbo/parser.c:1170-1190 | the earliest match is the first identical entry behind the last marker; with none there the count is 0 |
| FormattingList.CountAgrees | plugins/glib/thirdparties/gumbo/parser.c:1170-1190 | the loop counts exactly the entries after the last marker with the same tag, namespace and attribute map |
| FormattingList.AddKeepsAtMostThree | plugins/glib/thirdparties/gumbo/parser.c:1193-1216 | adding keeps every marker-delimited segment free of four identical entries |
| FormattingList.AddExactly | plugins/glib/thirdparties/gumbo/parser.c:1193-1216 | the exact law: with at most two like it behind the last marker the entry is appended and nothing else changes; with more, the earliest of those goes |
| FormattingList.ClearToMarker | plugins/glib/thirdparties/gumbo/parser.c:1315-1325 | cuts the list just before its last marker, or to nothing; a list that is not empty gets shorter |
| FormattingList.RebuildStart | plugins/glib/thirdparties/gumbo/parser.c:1263-1290 | the entry after the last one that is a marker or open |
| FormattingList.ReconstructResult | plugins/glib/thirdparties/gumbo/parser.c:1263-1313 | length and markers stay, exactly the entries after the last marker or open one become equal new clones, nested below the current node and pushed in list order; the state stays valid |
| FormattingList.ReconstructIdempotent | plugins/glib/thirdparties/gumbo/parser.c:1263-1313 | reconstructing again changes nothing |
| FormattingList.StepKeepsInv | plugins/glib/thirdparties/gumbo/parser.c:1193-1325 | add, remove, clear, reconstruct and list-neutral tree steps all keep the list invariant |
| FormattingList.NoFourAlike | plugins/glib/thirdparties/gumbo/parser.c:1193-1216 | what the invariant means: no four identical entries without a marker between them |
| FormattingList.RunKeepsAtMostThree | plugins/glib/thirdparties/gumbo/parser.c:1193-1325 | it holds in every state of every run of these list steps from the empty list |
| FormattingList.InsertKeepsExactly | plugins/glib/thirdparties/gumbo/parser.c:2022-2023 | inserting an entry anywhere keeps the invariant if and only if its segment holds at most two like it |
| FormattingList.FourthBeforeMarker | plugins/glib/thirdparties/gumbo/parser.c:2022-2023 | why the place matters: a fourth entry that lands before a marker |
| NoahsArk.RoundKeepsThreeExactly | plugins/glib/thirdparties/gumbo/parser.c:1897-2023 | a round keeps every segment free of four identical entries if and only if the segment the new entry goes to holds, without the old one, at most two like it |
| NoahsArk.RoundKeepsList | plugins/glib/thirdparties/gumbo/parser.c:1897-2023 | so it does when no marker lies between the old entry and the new one |
| ListOrder.BookedEnd | plugins/glib/thirdparties/gumbo/parser.c:2005-2032 | the new element goes to places in stack and list that agree |
| NoahsArk.RoundKeepsOrder | plugins/glib/thirdparties/gumbo/parser.c:1886-2032 | a round keeps the listed open elements in stack order, and then no marker lies between the old entry and the new one |
| NoahsArk.NewEntryUnmarked | plugins/glib/thirdparties/gumbo/parser.c:2005-2023 | the new entry comes behind the last marker, so the next turn finds it or a later one |
| NoahsArk.AdoptTidy | plugins/glib/thirdparties/gumbo/parser.c:1792-2035 | the whole algorithm keeps the list tidy: each element once, in stack order, none special, no segment with four alike |
| TreeConstruction.TreeBuilder.constructor | plugins/glib/thirdparties/gumbo/parser.c:453-496 | a document without children and with empty stacks is valid |
| TreeConstruction.TreeBuilder.AppendNode | plugins/glib/thirdparties/gumbo/parser.c:829-845 | the heap becomes the append of the node; nothing else changes |
| TreeConstruction.TreeBuilder.InsertNode | plugins/glib/thirdparties/gumbo/parser.c:850-882 | the heap becomes the insertion, or the append for -1, and stays well formed |
| TreeConstruction.TreeBuilder.RenumberFrom | plugins/glib/thirdparties/gumbo/parser.c:874-878 | the loop is the renumbering function |
| TreeConstruction.TreeBuilder.RemoveFromParent | plugins/glib/thirdparties/gumbo/parser.c:1768-1788 | the heap becomes the removal |
| TreeConstruction.TreeBuilder.CloneNode | plugins/glib/thirdparties/gumbo/parser.c:1231-1258 | a new node of the same kind without links; all others unchanged |
| TreeConstruction.TreeBuilder.InsertTextToken | plugins/glib/thirdparties/gumbo/parser.c:1115-1133 | the buffer grows by the token's text and takes the type of the last character or CDATA token in it, or white space |
| TreeConstruction.TreeBuilder.FlushText | plugins/glib/thirdparties/gumbo/parser.c:884-919 | the pending text becomes a child of the current node, or is dropped at the document, and the buffer is empty |
| TreeConstruction.TreeBuilder.PopCurrentNode | plugins/glib/thirdparties/gumbo/parser.c:929-958 | flushes, then takes the current node off; nothing from an empty stack |
| TreeConstruction.TreeBuilder.PopThrough | plugins/glib/thirdparties/gumbo/parser.c:1872-1878 | pops through the formatting element, flushing once |
| TreeConstruction.TreeBuilder.GenerateImpliedEndTags | plugins/glib/thirdparties/gumbo/parser.c:1477-1484 | pops exactly the elements with implied end tags above the first other one or the exception; no exception tag need be open |
| TreeConstruction.TreeBuilder.ImplicitlyCloseTags | plugins/glib/thirdparties/gumbo/parser.c:1591-1606 | the stack is cut just below the topmost target; true exactly when all above it had implied end tags |
| TreeConstruction.TreeBuilder.CountFormattingElements | plugins/glib/thirdparties/gumbo/parser.c:1170-1190 | the loop counts what CountIdentical counts |
| TreeConstruction.TreeBuilder.AddFormattingElement | plugins/glib/thirdparties/gumbo/parser.c:1193-1216 | the list becomes the addition under the Noah's Ark clause that AddExactly spells out |
| TreeConstruction.TreeBuilder.ClearActiveFormattingElements | plugins/glib/thirdparties/gumbo/parser.c:1315-1325 | the list becomes the part before its last marker |
| TreeConstruction.TreeBuilder.ReconstructActiveFormattingElements | plugins/glib/thirdparties/gumbo/parser.c:1263-1313 | the whole state becomes the reconstruction, and stays valid |
| TreeConstruction.TreeBuilder.VisitElement | plugins/glib/thirdparties/gumbo/parser.c:1929-1968 | one pass of step 13 on stack, list, tree and bookmark, in each of its three cases |
| TreeConstruction.TreeBuilder.WalkToFormatting | plugins/glib/thirdparties/gumbo/parser.c:1897-1969 | the loop, with its saved index, reaches the formatting element and computes the specified walk; every element it meets has a parent |
| TreeConstruction.TreeBuilder.InterposeClone | plugins/glib/thirdparties/gumbo/parser.c:1991-2003 | the swap, the loop and the append make the interposition |
| TreeConstruction.TreeBuilder.FinishTree | plugins/glib/thirdparties/gumbo/parser.c:1971-2003 | steps 14 to 17 on the tree |
| TreeConstruction.TreeBuilder.FinishLists | plugins/glib/thirdparties/gumbo/parser.c:2005-2032 | steps 18 and 19: the new element takes the old one's place in list and stack |
| TreeConstruction.TreeBuilder.AdoptionRound | plugins/glib/thirdparties/gumbo/parser.c:1886-2032 | a full round equals the function that the round lemmas speak of |
| TreeConstruction.TreeBuilder.FindFormattingElement | plugins/glib/thirdparties/gumbo/parser.c:1807-1834 | the last entry with the tag after the last marker |
| TreeConstruction.TreeBuilder.HasElementInScope | plugins/glib/thirdparties/gumbo/parser.c:1362-1382 | the loops decide scope, for a list of tags, negated or not |
| TreeConstruction.TreeBuilder.FindFurthestBlock | plugins/glib/thirdparties/gumbo/parser.c:1860-1871 | the loop finds the furthest block |
| TreeConstruction.TreeBuilder.AdoptionTurn | plugins/glib/thirdparties/gumbo/parser.c:1806-2033 | one turn, the one that TurnIs describes, and whether the loop goes on |
| TreeConstruction.TreeBuilder.AdoptionAgency | plugins/glib/thirdparties/gumbo/parser.c:1792-2035 | the state becomes the one that AdoptIs describes; true exactly when all eight turns were full rounds; the state stays valid and the document is conserved |
| TreeRuns.AdoptBottom | plugins/glib/thirdparties/gumbo/parser.c:1792-2035 | the html element stays at the bottom of the stack, which popping asserts |
| TreeRuns.ActionSound | plugins/glib/thirdparties/gumbo/parser.c:884-2035 | text, root, element and comment insertion (below the current node, the html element or the document), popping, removal from inside the stack, re-entering the head, the adoption agency, reconstruction and every list change keep the state sound and conserve the document |
| TreeRuns.RunSound | plugins/glib/thirdparties/gumbo/parser.c:884-2035 | in every state reachable from an empty document the tree is well formed, the open elements are attached and in order; between any two states no node is lost, changed in kind or cut off, and every new one is attached |
| TreeRuns.LeadsOne | plugins/glib/thirdparties/gumbo/parser.c:884-2035 | a sequence of actions leads from a state to one state only |
| TreeRuns.ActionTidy | plugins/glib/thirdparties/gumbo/parser.c:1193-2035 | each of them, used as the handlers do, keeps the list tidy |
| TreeRuns.RunKeepsThree | plugins/glib/thirdparties/gumbo/parser.c:1193-2035 | the Noah's Ark clause in every reachable state, the adoption agency included: no marker-delimited segment ever holds four entries with equal tag, namespace and attributes |
| InsertionOrder.GraftAppends | plugins/glib/thirdparties/gumbo/parser.c:829-845 | with the open elements on the last-child path, a new last child of the current node extends the path and comes behind all text of the document |
| InsertionOrder.ActionGrows | plugins/glib/thirdparties/gumbo/parser.c:884-2035 | every mild action keeps the open elements on the last-child path, keeps all text in place and puts new text behind it |
| InsertionOrder.RunInInsertionOrder | plugins/glib/thirdparties/gumbo/parser.c:884-2035 | in every mild run from an empty document, the adoption agency included, the text and comment nodes of each state are a prefix of those of every later one, and stand in document order in the order of their creation |
| InsertionOrder.MildRoundKeepsText | plugins/glib/thirdparties/gumbo/parser.c:1886-2032 | so in every reachable state of such a run the furthest block ends the last-child path, and a round keeps the order of all text |
| Straying.AsideStrays | plugins/glib/thirdparties/gumbo/parser.c:3654-3658 | a comment below the html element or the document, with more open, takes the open elements off the last-child path |
| Straying.ReenterStrays | plugins/glib/thirdparties/gumbo/parser.c:2327-2331 | opening the head again stays on the path only if the head is the last child and no text is waiting |
| Straying.AdoptSpineExactly | plugins/glib/thirdparties/gumbo/parser.c:1792-2035 | the exact law for the whole algorithm: it leaves the open elements on the last-child path if and only if none of its rounds meets a listed element at pass 4 or later; later rounds never repair what an earlier one left behind |
| Straying.ActionSpineExactly | plugins/glib/thirdparties/gumbo/parser.c:884-2035 | the exact law for every action: the open elements stay on the last-child path if and only if the action is mild |
| Straying.RunSpineExactly | plugins/glib/thirdparties/gumbo/parser.c:884-2035 | of the runs from an empty document that use the list as the handlers do, exactly the mild ones keep the open elements on the last-child path throughout |
| Spelling.BufferSpells | plugins/glib/thirdparties/gumbo/parser.c:1115-1133 | a text token adds its characters to what the buffer says |
| Spelling.BufferTyped | plugins/glib/thirdparties/gumbo/parser.c:1115-1133 | what any sequence of text tokens leaves in the buffer: their characters in order, as the type of the last character or CDATA token with text among them, or as white space when there is none |
| Spelling.ActionSpeaks | plugins/glib/thirdparties/gumbo/parser.c:884-2035 | every mild action adds exactly its own characters or comment, at the end; the adoption agency, popping and reconstruction add, lose and move nothing |
| Spelling.RunSpells | plugins/glib/thirdparties/gumbo/parser.c:884-2035 | in every mild run from an empty document, what the tree says in document order, then the text in the buffer, is the characters and comments the actions inserted, in order |
| Removal.RunInward | plugins/glib/thirdparties/gumbo/parser.c:1768-1776 | in every reachable state only the bottom of the stack hangs from the document, and no other node is a document |
| Removal.RemovedFromElement | plugins/glib/thirdparties/gumbo/parser.c:1768-1776 | whenever step 13.9 or 14 removes a node from its parent, that parent is an element or a template, not the document |
| Removal.RunRemovesFromElements | plugins/glib/thirdparties/gumbo/parser.c:1768-1776 | so in every state of every run from an empty document |
| Reordering.TextIsReordered | plugins/glib/thirdparties/gumbo/parser.c:1929-1943 | a state reached from the empty document in which a turn of the algorithm swaps two comments; the run is not mild, because a listed element is met at pass 4 and stays open |
| EarlyModes.StepFits | plugins/glib/thirdparties/gumbo/parser.c:2071-2350 | each handler, for every token but a template start tag, leaves the stack its new mode fixes (in body and frameset mode html and that element), makes root and head at most once, fails no assertion, and reprocesses only towards a higher rank |
| EarlyModes.BackInHeadFits | plugins/glib/thirdparties/gumbo/parser.c:2322-2334 | head content after the head: the pushed head element is removed again, wherever it then sits on the stack |
| EarlyModes.TextFits | plugins/glib/thirdparties/gumbo/parser.c:3043-3063 | leaving text mode restores the stack of the original mode |
| EarlyModes.StepMeans | plugins/glib/thirdparties/gumbo/parser.c:2071-2350 | which tokens are used up before the body and which are handed on: from every early mode the token that belongs to the body ends there to be reprocessed, and for every other token the mode that follows, by mode and token class |
| EarlyModes.ProcessToken | plugins/glib/thirdparties/gumbo/parser.c:2071-2350 | a token is handled in at most 5 minus the rank of its mode calls, each but the last asking for the next and every request raising the rank, so it is reprocessed at most five times; no token that belongs to the body is lost: another start tag, `</body>`, `</html>`, `</br>`, EOF and, outside text mode, characters, NUL and CDATA end in body mode and are to be reprocessed there; for every other token, the mode it leads to and that it is used up |
| EarlyModes.Run | plugins/glib/thirdparties/gumbo/parser.c:2071-2350 | over every token stream without template start tags, a trace with one state per token, each the outcome of handling its token: in every state the stack fits the mode and no assertion has failed; root and head stay once made; it stops early only in body or frameset mode, with exactly one root, one head and the stack those modes start with, and an EOF always gets there |
| EarlyTree.StepFollows | plugins/glib/thirdparties/gumbo/parser.c:2071-2350 | each handler call is a listed sequence of tree actions: from a tree that mirrors the parser (same stack, the root the only element child of the document, head and then body or frameset those of the root) it leads to one that mirrors the parser after the call |
| EarlyTree.ActionsMean | plugins/glib/thirdparties/gumbo/parser.c:2071-2350 | what those actions put into the tree: comments and text of the token itself, the element of its tag, and html, head and body where the mode makes them for it |
| EarlyTree.BackInHeadFollows | plugins/glib/thirdparties/gumbo/parser.c:2322-2334 | head content after the head is: open the head again, the in-head actions, take the head off the stack; the content lands in the head |
| EarlyTree.RunFollows | plugins/glib/thirdparties/gumbo/parser.c:2071-2350 | every run, whatever the tokens and their text, grows trees from the empty document: one for each state, mirroring it, and from each to the next exactly the actions of the handler calls for that token and its text |
| EarlyTree.GrowsOneWay | plugins/glib/thirdparties/gumbo/parser.c:2071-2350 | the trees of a run are determined by its tokens and their text |
| EarlyTree.RunBuildsDocument | plugins/glib/thirdparties/gumbo/parser.c:2071-2350 | the trees that a run leaving these modes grows end in a document whose only element child is html, with head and then body or frameset as its only element children, the last of them open |
| TextLexing.TurnAccounts | plugins/glib/thirdparties/gumbo/tokenizer.c:954-987 | every pass of every RAWTEXT or script state uses up the code point at hand, finds the end of the input or an appropriate end tag, or goes on with less left to do; it never fails |
| TextLexing.PlainTextTurn | plugins/glib/thirdparties/gumbo/tokenizer.c:954-987 | the same for the two plain text states |
| TextLexing.LessTurn | plugins/glib/thirdparties/gumbo/tokenizer.c:1160-1172 | less-than sign states: a slash goes on, everything else is given up and replayed |
| TextLexing.EndOpenTurn | plugins/glib/thirdparties/gumbo/tokenizer.c:1175-1187 | end tag open states |
| TextLexing.EndNameTurn | plugins/glib/thirdparties/gumbo/tokenizer.c:1190-1222 | end tag name states: accepted exactly when an appropriate end tag starts at the mark |
| TextLexing.NameHere | plugins/glib/thirdparties/gumbo/tokenizer.c:837-843 | the name in the tag buffer is the lower-case run of letters behind `</`, so the code's test is the declarative one |
| TextLexing.GaveUp | plugins/glib/thirdparties/gumbo/tokenizer.c:617-655 | giving up a speculative tag rewinds, sends its first character and leaves the unsent rest equal to the input at the cursor |
| TextLexing.EscTurn | plugins/glib/thirdparties/gumbo/tokenizer.c:1317-1388 | the escaped states |
| TextLexing.NameTurn | plugins/glib/thirdparties/gumbo/tokenizer.c:1459-1485 | the double escape start and end states |
| TextLexing.DblTurn | plugins/glib/thirdparties/gumbo/tokenizer.c:1488-1556 | the double-escaped states |
| TextEscapes.TurnTraces | plugins/glib/thirdparties/gumbo/tokenizer.c:1225-1599 | every pass, replays included, keeps each state in step with the mode of the text as the input alone defines it: plain, escaped by `<!--`, doubly escaped by a `<script` tag inside, ended by `</script` and `-->` |
| TextEscapes.EscapedName | plugins/glib/thirdparties/gumbo/tokenizer.c:1459-1485 | a name after `<` in escaped text that ends as another name, or does not end as a name, leaves it escaped |
| TextEscapes.ScriptNamed | plugins/glib/thirdparties/gumbo/tokenizer.c:1459-1485 | `<script` and a terminator in escaped text begin a double escape |
| TextEscapes.DoubledName | plugins/glib/thirdparties/gumbo/tokenizer.c:1573-1599 | a name after `</` in doubly escaped text that ends as another name, or does not end as a name, leaves it doubly escaped |
| TextEscapes.EndScriptNamed | plugins/glib/thirdparties/gumbo/tokenizer.c:1573-1599 | `</script` and a terminator take the double escape back |
| Tokenizing.ModeHere | plugins/glib/thirdparties/gumbo/tokenizer.c:1225-1599 | a script state is a doubly escaped one exactly when the text at hand is doubly escaped |
| Tokenizing.FlushDelivers | plugins/glib/thirdparties/gumbo/tokenizer.c:617-642 | a character sent from the buffer is the one at the cursor; it advances the position by one and starts no end tag |
| Tokenizing.FirstClosing | plugins/glib/thirdparties/gumbo/tokenizer.c:1190-1222 | the first appropriate end tag that closes the text (in a script: not doubly escaped), or the end of the input |
| Tokenizing.GoingBuffered | plugins/glib/thirdparties/gumbo/tokenizer.c:1160-1436 | what the state functions assert of the temporary and script buffers holds whenever they are called |
| Tokenizing.DecodedCodePoints | plugins/glib/thirdparties/gumbo/utf8.c:127-221 | a decoded input meets what every text state needs of its input |
| Tokenizing.Tokenizer.constructor | plugins/glib/thirdparties/gumbo/tokenizer.c:845-868 | a tokenizer over bytes, at the first code point, with empty buffers |
| Tokenizing.Tokenizer.NextInput | plugins/glib/thirdparties/gumbo/tokenizer.c:2863-2865 | the iterator's step is the step of the cursor in the decoded input |
| Tokenizing.Tokenizer.ClearTemporaryBuffer | plugins/glib/thirdparties/gumbo/tokenizer.c:355-363 | marks the cursor and empties both buffers; never while the buffer is being sent |
| Tokenizing.Tokenizer.AppendToTemporaryBuffer | plugins/glib/thirdparties/gumbo/tokenizer.c:365-371 | the buffer grows by the code point; nothing else changes |
| Tokenizing.Tokenizer.EmitCurrentChar | plugins/glib/thirdparties/gumbo/tokenizer.c:506-510 | sends the code point at the cursor of the decoded input, which is the one the iterator shows |
| Tokenizing.Tokenizer.EmitChar | plugins/glib/thirdparties/gumbo/tokenizer.c:439-487 | the character becomes the token, and the input moves on unless it is to be reconsumed |
| Tokenizing.Tokenizer.MaybeEmitFromTemporaryBuffer | plugins/glib/thirdparties/gumbo/tokenizer.c:617-642 | sends the next buffered character, which is the one at the iterator, or clears the flushing position |
| Tokenizing.Tokenizer.EmitTemporaryBuffer | plugins/glib/thirdparties/gumbo/tokenizer.c:649-655 | rewinds the iterator to the mark and sends the first buffered character |
| Tokenizing.Tokenizer.HandlePlainText | plugins/glib/thirdparties/gumbo/tokenizer.c:954-987 | on iterator and buffers, the step that PlainTextTurn accounts for: text, U+FFFD for NUL, a mark and a `<` in the buffer at a possible tag |
| Tokenizing.Tokenizer.HandleRawtextLt | plugins/glib/thirdparties/gumbo/tokenizer.c:1160-1172 | on iterator and buffers, the RAWTEXT step that LessTurn accounts for; the buffer is `<` as asserted |
| Tokenizing.Tokenizer.HandleEndTagOpen | plugins/glib/thirdparties/gumbo/tokenizer.c:1175-1187 | on iterator and buffers, the step that EndOpenTurn accounts for; the buffer is `</` as asserted |
| Tokenizing.Tokenizer.HandleEndTagName | plugins/glib/thirdparties/gumbo/tokenizer.c:1190-1222 | on iterator and buffers, the step that EndNameTurn accounts for: the name grows, the tag is accepted, or the iterator goes back to the mark |
| Tokenizing.Tokenizer.HandleScriptLt | plugins/glib/thirdparties/gumbo/tokenizer.c:1225-1241 | on iterator and buffers, the script step that LessTurn accounts for; the buffer is `<` as asserted |
| Tokenizing.Tokenizer.HandleDash | plugins/glib/thirdparties/gumbo/tokenizer.c:1291-1314 | the escape start steps: a dash goes on, anything else is read again as script |
| Tokenizing.Tokenizer.HandleEsc | plugins/glib/thirdparties/gumbo/tokenizer.c:1317-1336 | on iterator and buffers, the step of the escaped state that EscTurn accounts for |
| Tokenizing.Tokenizer.HandleEscDash | plugins/glib/thirdparties/gumbo/tokenizer.c:1339-1361 | the same behind one dash |
| Tokenizing.Tokenizer.HandleEscDashDash | plugins/glib/thirdparties/gumbo/tokenizer.c:1364-1388 | the same behind two dashes, where `>` ends the escape |
| Tokenizing.Tokenizer.HandleEscLt | plugins/glib/thirdparties/gumbo/tokenizer.c:1391-1409 | on iterator and buffers, the escaped step that LessTurn accounts for; the buffer is `<` and the script buffer empty, as asserted |
| Tokenizing.Tokenizer.HandleDoubleName | plugins/glib/thirdparties/gumbo/tokenizer.c:1459-1485 | the step that NameTurn accounts for: the name is compared with script at its end |
| Tokenizing.Tokenizer.HandleDbl | plugins/glib/thirdparties/gumbo/tokenizer.c:1488-1506 | the step of the double-escaped state that DblTurn accounts for |
| Tokenizing.Tokenizer.HandleDblDash | plugins/glib/thirdparties/gumbo/tokenizer.c:1509-1556 | the same behind one or two dashes |
| Tokenizing.Tokenizer.HandleDblLt | plugins/glib/thirdparties/gumbo/tokenizer.c:1559-1570 | a slash empties the script buffer for the name of an end tag, anything else is read again |
| Tokenizing.Tokenizer.RunState | plugins/glib/thirdparties/gumbo/tokenizer.c:2844-2866 | one pass of the loop is the pass that the lemmas speak of |
| Tokenizing.Tokenizer.Lex | plugins/glib/thirdparties/gumbo/tokenizer.c:2812-2867 | every call returns although the input moves backwards; a character token is the code point at the position the call started at (NUL as U+FFFD), EOF comes at the end, and an end tag exactly where a closing tag starts |
| Tokenizing.Tokenizer.ReadText | plugins/glib/thirdparties/gumbo/tokenizer.c:954-987 | successive calls, moving the byte iterator, spell the decoded input exactly, code point by code point, up to the first closing end tag or the end: in RAWTEXT the first appropriate end tag, in a script the first that is not doubly escaped; the last token is that end tag, finished, exactly when `>` ends its name |
| Tokenizing.TextOf | plugins/glib/thirdparties/gumbo/tokenizer.c:2812-2867 | the same from the bytes: the text is the input stream of the bytes up to the first closing tag |
| Utf8.StepAgrees | plugins/glib/thirdparties/gumbo/utf8.c:63-96 | one byte of the table automaton is one byte of the standard's decoder |
| Utf8.ScanAgrees | plugins/glib/thirdparties/gumbo/utf8.c:127-180 | the scan of a character ends where the decoder emits, with one U+FFFD for each maximal bad prefix |
| Utf8.ReadRawAgrees | plugins/glib/thirdparties/gumbo/utf8.c:127-180 | reading one character and decoding the rest is decoding the whole |
| InputIterator.DeliveredIsInputStream | plugins/glib/thirdparties/gumbo/utf8.c:127-221 | for every byte string the delivered code points are the standard's decoding, newlines folded, forbidden code points replaced |
| InputIterator.ReadAgain | plugins/glib/thirdparties/gumbo/utf8.c:127-180 | reading where a reading left the cursor finds the same character, also behind a skipped CR |
| InputIterator.NextSound | plugins/glib/thirdparties/gumbo/utf8.c:183-221 | the offset is the byte distance from the start after every step; before the end each step consumes at least one byte and never passes the end |
| InputIterator.SoundRereads | plugins/glib/thirdparties/gumbo/utf8.c:253-263 | reading again at a remembered cursor restores the whole view |
| InputIterator.ShowsIndex | plugins/glib/thirdparties/gumbo/utf8.c:215-223 | standing at index i of the input stream, the iterator shows code point i, and -1 exactly at its end |
| InputIterator.NextIndex | plugins/glib/thirdparties/gumbo/utf8.c:215-221 | a step moves to the next index, and stays at the end |
| InputIterator.AdvanceLocates | plugins/glib/thirdparties/gumbo/utf8.c:183-194 | line and column as the input stream defines them: one more than the line feeds before, and the columns since the last of these, tabs up to the next stop |
| InputIterator.NextLocates | plugins/glib/thirdparties/gumbo/utf8.c:183-221 | so after every step of the iterator |
| InputIterator.Utf8Iterator.constructor | plugins/glib/thirdparties/gumbo/utf8.c:204-213 | the first character is read at line 1, column 1, offset 0 |
| InputIterator.Utf8Iterator.ReadChar | plugins/glib/thirdparties/gumbo/utf8.c:127-180 | the loop over the automaton reads what the specification reads |
| InputIterator.Utf8Iterator.UpdatePosition | plugins/glib/thirdparties/gumbo/utf8.c:183-194 | line, column and offset behind the character, as AdvanceLocates says |
| InputIterator.Utf8Iterator.Next | plugins/glib/thirdparties/gumbo/utf8.c:215-221 | one step of the view, still sound, with line and column where the input stream has them, and of the index in the input stream |
| InputIterator.Utf8Iterator.SetMark | plugins/glib/thirdparties/gumbo/utf8.c:253-257 | the mark stands for the current view and index |
| InputIterator.Utf8Iterator.Reset | plugins/glib/thirdparties/gumbo/utf8.c:259-263 | view and index are the marked ones |
| InputIterator.Utf8Iterator.MarkStepReset | plugins/glib/thirdparties/gumbo/utf8.c:215-263 | mark, any number of steps, reset: cursor, code point, width and position as before |
| InputIterator.Utf8Iterator.Collect | plugins/glib/thirdparties/gumbo/utf8.c:204-221 | next until -1 delivers the input stream from the current index on |
| InputIterator.ReadAll | plugins/glib/thirdparties/gumbo/utf8.c:204-221 | init, then next until -1: the input stream of the bytes |
| StringBuffers.EncodeDecodes | plugins/glib/thirdparties/gumbo/string_buffer.c:61-85 | the encoding of a scalar value decodes to it, whatever follows |
| StringBuffers.RoundTrip | plugins/glib/thirdparties/gumbo/string_buffer.c:61-85 | so does any sequence of scalar values |
| StringBuffers.IterateEncoded | plugins/glib/thirdparties/gumbo/string_buffer.c:33-85 | the input stream of the encoding of any scalar values, none CR or forbidden, is those values |
| StringBuffers.WidthIsLength | plugins/glib/thirdparties/gumbo/utf8.c:88-96 | each is read with a width equal to its encoded length |
| StringBuffers.StringBuffer.MaybeResize | plugins/glib/thirdparties/gumbo/string_buffer.c:33-47 | doubling until the bytes fit keeps the contents |
| StringBuffers.StringBuffer.AppendCodepoint | plugins/glib/thirdparties/gumbo/string_buffer.c:61-85 | the contents grow by exactly the encoding, of the length section 3 of RFC 3629 gives |
| StringBuffers.StringBuffer.AppendString | plugins/glib/thirdparties/gumbo/string_buffer.c:87-92 | the contents grow by the string |
| StringBuffers.WriteAll | plugins/glib/thirdparties/gumbo/string_buffer.c:33-85 | appending code points to an empty buffer leaves their encodings in it |
| StringBuffers.WriteThenRead | plugins/glib/thirdparties/gumbo/string_buffer.c:33-85 | appending any scalar values, none CR or forbidden, and iterating over the bytes returns them, each with a width equal to its encoded length |
| SelectorNames.GapReads | plugins/glib/thirdparties/gumbo-query/Parser.cpp:684-717 | a run of white space and closed comments is skipped whole, up to anything else |
| SelectorNames.GapFound | plugins/glib/thirdparties/gumbo-query/Parser.cpp:684-717 | whatever is skipped is such a run |
| SelectorNames.EscapeReads | plugins/glib/thirdparties/gumbo-query/Parser.cpp:874-958 | an escape, by its character or by pairs of hexadecimal digits with the one white space behind them, reads as its character or bytes and uses exactly its text |
| SelectorNames.EscapeFound | plugins/glib/thirdparties/gumbo-query/Parser.cpp:874-958 | whatever is read as an escape is written so: the line ends, lone digits and left-over digits other than zero are errors |
| SelectorNames.HexDigits | plugins/glib/thirdparties/gumbo-query/Parser.cpp:874-958 | the value of a hexadecimal digit is its place in 0-9a-f, in either case |
| SelectorNames.NameReads | plugins/glib/thirdparties/gumbo-query/Parser.cpp:793-828 | a name, its characters bare or escaped in any way, reads as them where no name goes on |
| SelectorNames.NameFound | plugins/glib/thirdparties/gumbo-query/Parser.cpp:793-828 | whatever is read as a name is written so |
| SelectorNames.IdentReads | plugins/glib/thirdparties/gumbo-query/Parser.cpp:830-857 | so does an identifier, with or without a dash before it |
| SelectorNames.IdentFound | plugins/glib/thirdparties/gumbo-query/Parser.cpp:830-857 | whatever is read as an identifier is one |
| SelectorNames.BodyReads | plugins/glib/thirdparties/gumbo-query/Parser.cpp:719-791 | what is between the quotes of a string reads as its value: plain characters, escapes, and nothing for an escaped line end |
| SelectorNames.BodyFound | plugins/glib/thirdparties/gumbo-query/Parser.cpp:719-791 | whatever is read as a string is written so, up to the first quote of its kind |
| SelectorNames.ValueReads | plugins/glib/thirdparties/gumbo-query/Parser.cpp:568-585 | a value reads as its characters, in single or double quotes or as a bare identifier |
| SelectorNames.IdentSpelled | plugins/glib/thirdparties/gumbo-query/Parser.cpp:793-857 | every string but the empty one can be written as an identifier |
| SelectorNames.BodySpelled | plugins/glib/thirdparties/gumbo-query/Parser.cpp:719-791 | every string can be written in quotes |
| SelectorNth.DecimalNumeral | plugins/glib/thirdparties/gumbo-query/Parser.cpp:359-380 | the decimal digits of a number read as the number |
| SelectorNth.NthReads | plugins/glib/thirdparties/gumbo-query/Parser.cpp:193-357 | the exact law for `an+b`: of the arguments that selectors allow, in any layout, those are read with their step and offset that neither begin with the letter n nor have a minus sign behind it; those two kinds are errors |
| SelectorNth.NthFound | plugins/glib/thirdparties/gumbo-query/Parser.cpp:193-357 | and nothing else is read as an argument |
| SelectorNth.RefusedArguments | plugins/glib/thirdparties/gumbo-query/Parser.cpp:193-357 | `n+1` and `2n-1` are refused |
| SelectorPrinter.TestAttrReads | plugins/glib/thirdparties/gumbo-query/Parser.cpp:525-628 | an attribute test reads as its operator, key and value, whatever gaps are inside the brackets and however key and value are written |
| SelectorPrinter.HasTextReads | plugins/glib/thirdparties/gumbo-query/Parser.cpp:427-466 | a :contains test reads as the lower-case text, in any layout |
| SelectorPrinter.CallReads | plugins/glib/thirdparties/gumbo-query/Parser.cpp:391-426 | a :not, :has or :haschild, its name in any case, reads as the operator on the tree of its argument |
| SelectorPrinter.PartReads | plugins/glib/thirdparties/gumbo-query/Parser.cpp:382-658 | every written simple selector reads as its tree |
| SelectorPrinter.CompoundReads | plugins/glib/thirdparties/gumbo-query/Parser.cpp:125-191 | reading a written compound is reading on behind it with its left-nested intersection |
| SelectorPrinter.BelowReads | plugins/glib/thirdparties/gumbo-query/Parser.cpp:62-98 | white space or comments before a compound, and nothing else, are the descendant combinator |
| SelectorPrinter.SignReads | plugins/glib/thirdparties/gumbo-query/Parser.cpp:62-111 | `>`, `+` and `~` are their combinators, whatever white space or comments are before and behind them |
| SelectorPrinter.ComplexReads | plugins/glib/thirdparties/gumbo-query/Parser.cpp:58-123 | so a written combination reads as its left-nested tree, in any layout |
| SelectorPrinter.ChoiceReads | plugins/glib/thirdparties/gumbo-query/Parser.cpp:36-56 | every written group, whatever its layout, is used exactly and gives its left-nested tree: before the end, a closing parenthesis, or anything a group cannot go on with |
| SelectorPrinter.GroupIgnoresRest | plugins/glib/thirdparties/gumbo-query/Parser.cpp:30-56 | a group before a closing parenthesis nobody opened is read as its tree, whatever follows |
| SelectorPrinter.ParsePrint | plugins/glib/thirdparties/gumbo-query/Parser.cpp:36-191 | parsing the text of a written group uses all of it and rebuilds its tree, for every group and every layout |
| SelectorExact.JointFound | plugins/glib/thirdparties/gumbo-query/Parser.cpp:62-98 | whatever is read as a combinator is written as one, with the gaps around it |
| SelectorExact.GroupFound | plugins/glib/thirdparties/gumbo-query/Parser.cpp:36-56 | whatever is read as a group is a written one that stands for the tree |
| SelectorExact.GroupExactly | plugins/glib/thirdparties/gumbo-query/Parser.cpp:36-858 | the exact language of the parser: it returns a tree and an offset if and only if a group that stands for the tree is written up to there, and throws if and only if none is |
| SelectorShapes.TreesExactly | plugins/glib/thirdparties/gumbo-query/Parser.cpp:36-658 | which trees it can return: those whose unions, combinations and intersections nest on the left over simple selectors, with lower-case text, a name for every tag and no negative offset beside a step; each of them for a text it reads to the end |
| SelectorParser.Parser.SkipWhitespace | plugins/glib/thirdparties/gumbo-query/Parser.cpp:684-717 | the loop skips white space and closed comments, and says whether it moved |
| SelectorParser.Parser.ConsumeParenthesis | plugins/glib/thirdparties/gumbo-query/Parser.cpp:673-682 | the opening production |
| SelectorParser.Parser.ConsumeClosingParenthesis | plugins/glib/thirdparties/gumbo-query/Parser.cpp:660-671 | the closing production; the offset is restored otherwise |
| SelectorParser.Parser.ParseEscape | plugins/glib/thirdparties/gumbo-query/Parser.cpp:874-958 | the escape production, with its pairs of digits and its errors |
| SelectorParser.Parser.ParseName | plugins/glib/thirdparties/gumbo-query/Parser.cpp:793-828 | the name production |
| SelectorParser.Parser.ParseIdentifier | plugins/glib/thirdparties/gumbo-query/Parser.cpp:830-857 | the identifier production |
| SelectorParser.Parser.ParseString | plugins/glib/thirdparties/gumbo-query/Parser.cpp:719-791 | the string production |
| SelectorParser.Parser.ParseTypeSelector | plugins/glib/thirdparties/gumbo-query/Parser.cpp:654-658 | the type production |
| SelectorParser.Parser.ParseIdSelector | plugins/glib/thirdparties/gumbo-query/Parser.cpp:642-652 | the id production |
| SelectorParser.Parser.ParseClassSelector | plugins/glib/thirdparties/gumbo-query/Parser.cpp:630-640 | the class production |
| SelectorParser.Parser.ParseAttributeSelector | plugins/glib/thirdparties/gumbo-query/Parser.cpp:525-628 | the attribute production |
| SelectorParser.Parser.ParsePseudoclassSelector | plugins/glib/thirdparties/gumbo-query/Parser.cpp:382-523 | the pseudo-class production |
| SelectorParser.Parser.ParseSimpleSelectorSequence | plugins/glib/thirdparties/gumbo-query/Parser.cpp:125-191 | the loop builds the left-nested intersection the grammar gives |
| SelectorParser.Parser.ParseSelector | plugins/glib/thirdparties/gumbo-query/Parser.cpp:58-123 | the loop builds the left-nested combination the grammar gives, or throws where it has an error |
| SelectorParser.Parser.ParseSelectorGroup | plugins/glib/thirdparties/gumbo-query/Parser.cpp:36-56 | the loop builds the left-nested union the grammar gives |
| SelectorParser.Parser.ParseInteger | plugins/glib/thirdparties/gumbo-query/Parser.cpp:359-380 | the digit loop computes the decimal value |
| SelectorParser.Parser.ParseNth | plugins/glib/thirdparties/gumbo-query/Parser.cpp:193-357 | the production of `an+b` arguments, its step back at a minus sign included |
| SelectorParser.Create | plugins/glib/thirdparties/gumbo-query/Parser.cpp:30-34 | a tree exactly when the text begins with a written group that stands for it, and otherwise an error |
| SelectorParser.ReadBack | plugins/glib/thirdparties/gumbo-query/Parser.cpp:30-191 | the parser returns the tree of every written group |
| SelectorMatch.Match | plugins/glib/thirdparties/gumbo-query/Selector.cpp:201-273 | every matcher agrees with the declarative tree relation of its selector |
| SelectorMatch.MatchAncestor | plugins/glib/thirdparties/gumbo-query/Selector.cpp:209-225 | the loop over parents: some proper ancestor is selected |
| SelectorMatch.MatchSibling | plugins/glib/thirdparties/gumbo-query/Selector.cpp:257-266 | `~`: some earlier sibling is selected |
| SelectorMatch.MatchBefore | plugins/glib/thirdparties/gumbo-query/Selector.cpp:238-256 | `+`: the nearest earlier sibling that is not text or a comment is selected |
| SelectorMatch.MatchUnary | plugins/glib/thirdparties/gumbo-query/Selector.cpp:392-413 | `:not`, `:has` and `:haschild` |
| SelectorMatch.HasDescendantMatch | plugins/glib/thirdparties/gumbo-query/Selector.cpp:365-377 | some other node met through element nodes is selected |
| SelectorMatch.HasChildMatch | plugins/glib/thirdparties/gumbo-query/Selector.cpp:379-390 | some child is selected |
| Selecting.PreorderMeets | plugins/glib/thirdparties/gumbo-query/Selector.cpp:147-164 | the walk meets exactly the nodes reached through element nodes |
| Selecting.PreorderInOrder | plugins/glib/thirdparties/gumbo-query/Selector.cpp:147-164 | it meets them in document order: ancestors first, then by child index |
| Selecting.PreorderDistinct | plugins/glib/thirdparties/gumbo-query/Selector.cpp:147-164 | it meets no node twice |
| Selecting.HitsInOrder | plugins/glib/thirdparties/gumbo-query/Selector.cpp:140-164 | the matches of one walk come in document order |
| Selecting.NodeVector.MatchAllInto | plugins/glib/thirdparties/gumbo-query/Selector.cpp:147-164 | appends exactly the selected nodes of the walk |
| Selecting.MatchAll | plugins/glib/thirdparties/gumbo-query/Selector.cpp:140-145 | the selected nodes of the walk |
| Selecting.NodeExists | plugins/glib/thirdparties/gumbo-query/QueryUtil.cpp:50-61 | membership |
| Selecting.UnionNodes | plugins/glib/thirdparties/gumbo-query/QueryUtil.cpp:33-48 | the first list, then what is new in the second; no repeats if the first has none |
| Selecting.MergeDedup | plugins/glib/thirdparties/gumbo-query/QueryUtil.cpp:33-48 | merging list after list keeps the first of each node |
| Selecting.Selection.Find | plugins/glib/thirdparties/gumbo-query/Selection.cpp:35-47 | the parser's error, or: no repeats, exactly the selected nodes met through elements from a starting node, in the order in which the walks first see them |
| Bit64.RemovalPermutes | plugins/glib/thirdparties/bit64/bit64.cpp:29-55 | for any symbols and any key the removal loop yields a permutation |
| Bit64.RemovalIsAlphabet | plugins/glib/thirdparties/bit64/bit64.cpp:29-55 | from 0-9a-zA-Z_- and the key 32 the loop takes every second remaining symbol, cyclically: the alphabet is the literal string that begins wyACEG |
| Bit64.EncodedSextets | plugins/glib/thirdparties/bit64/bit64.cpp:87-112 | three bytes are four groups of six bits, most significant first; one or two bytes at the end are two or three, padded with zero bits |
| Bit64.DecodedOctets | plugins/glib/thirdparties/bit64/bit64.cpp:117-141 | four groups of six bits are three bytes; a shorter rest gives its whole bytes, and one more for leftover bits that are not zero |
| Bit64.EncodedValue | plugins/glib/thirdparties/bit64/bit64.cpp:87-112 | the symbols are the byte string's number in base 64, with zero padding bits |
| Bit64.DecodeEncode | plugins/glib/thirdparties/bit64/bit64.cpp:87-141 | decoding an encoding gives the bytes back, the padding dropped |
| Bit64.EncodeDecode | plugins/glib/thirdparties/bit64/bit64.cpp:87-141 | the other way round exactly for canonical symbol strings: a length that leaves less than a symbol of padding, and padding bits zero |
| Bit64.LoneSymbolChanges | plugins/glib/thirdparties/bit64/bit64.cpp:87-141 | a lone symbol does not come back: decoding makes a byte of it, which encodes to two symbols |
| Bit64.FeedKeeps | plugins/glib/thirdparties/bit64/bit64.cpp:92-94 | shifting a digit into the accumulator keeps the number |
| Bit64.DrainKeeps | plugins/glib/thirdparties/bit64/bit64.cpp:95-98 | taking a digit out keeps the number |
| Bit64.Codec.Shuffle | plugins/glib/thirdparties/bit64/bit64.cpp:29-55 | for distinct symbols and any key: the removal order, a permutation, and a reverse map that inverts it |
| Bit64.Codec.MakeIndex | plugins/glib/thirdparties/bit64/bit64.cpp:29-55 | the codec is ready: its symbols are the literal alphabet, and the reverse map inverts it |
| Bit64.Codec.Hex64 | plugins/glib/thirdparties/bit64/bit64.cpp:57-65 | the symbol of an index below 64, otherwise 0 |
| Bit64.Codec.Hex64Rev | plugins/glib/thirdparties/bit64/bit64.cpp:67-72 | the index of a symbol |
| Bit64.Codec.Encode | plugins/glib/thirdparties/bit64/bit64.cpp:87-112 | exactly ceil(4n/3) symbols: for each group of six bits the symbol of the literal alphabet |
| Bit64.Codec.Decode | plugins/glib/thirdparties/bit64/bit64.cpp:117-141 | the bytes of the groups of six bits that the symbols stand for, one more for leftover bits that are not zero |
| Bit64.Codec.RoundTrip | plugins/glib/thirdparties/bit64/bit64.cpp:87-141 | decode after encode returns the buffer |

## Left out

- Foster parenting: the insertion location is always the current node or the given parent, as with the flag off.
- Replacing body by frameset, which deletes a child without renumbering its siblings.
- The handlers for body, tables, select, templates, framesets and foreign content, and the SVG and MathML renaming tables; they are long case lists.
- Character references, and with them the RCDATA state.
- The attribute states after an accepted end tag: the model ends a text at the name's end, with the token `LeftText` when more of the tag follows.
- How simple selectors judge a node (position, attribute operators, text): a parameter of the selector model.
- SelectorParser.Parser.ParseInteger: numbers are unbounded; where the code's `int` overflows is not modelled.
- SelectorParser.Parser.ParseAttributeSelector: error messages are one error value, so `#=` and an unknown operator are not told apart.
- FormattingList.RunKeepsAtMostThree: runs of add, remove, clear and reconstruct only; TreeRuns.RunKeepsThree has the adoption agency among the actions.
- AdoptionLeaves.RoundKeepsLeaves: the case of a block at the end of the last-child path; AdoptionLeaves.RoundKeepsLeavesExactly has all rounds.
- InsertionOrder.RunInInsertionOrder: mild runs, in which no round meets a listed element at pass 4 or later, the head is opened again only as the last child, and no comment goes beside a longer stack; Straying.RunSpineExactly shows that no other run keeps the open elements on the last-child path, and Reordering.TextIsReordered one in which the order fails with it.
- Spelling.RunSpells: mild runs, with text buffered only while an element is open; the handlers drop or reprocess text before that.
- EarlyTree.StepFollows: merging attributes into the root element is no tree action, and inserted elements carry no attributes.
- TreeConstruction.TreeBuilder.RemoveFromParent: does not fail when the parent is the document, where the code asserts an element; Removal.RunRemovesFromElements shows that in runs from an empty document the parent is an element or a template, but not that it is no template.
- TreeConstruction.TreeBuilder.PopCurrentNode: parse flags and end positions are not recorded.
- Bit64.Codec.Hex64Rev: a symbol is a byte used as an index; where `char` is signed, bytes above 127 would be negative indices, which is not modelled.
- Bit64.Codec.Decode: the same.
- `bit64_encode_size`, `bit64_decode_size` (floating point), `bit64_calculate_seed` and `bit64_encrypt_index`.
- TreeRuns.RunSound: merging attributes into an open html or body element, foster parenting, replacing body by frameset, and fragment parsing are not among the actions.
- TreeRuns.RunKeepsThree: the same actions, with the list used as the handlers use it.
- Tokenizing.Tokenizer.Lex: ends with `LeftText` when an accepted end tag goes on with white space or a slash.
- Integer widths: lengths, offsets and identifiers are unbounded; the 32-bit accumulator of bit64 never holds more than 13 bits.
- Source positions of nodes and tokens, parse errors (among them the false that `gumbo_lex` returns beside a U+FFFD for NUL), parse flags, debug output, allocation and release.
- Quirks-mode tables, document type strings and `isindex`.
- The perfect-hash tag tables, Onigmo, the Duktape headers, and the Flutter, JNI, iOS and V8 glue.
