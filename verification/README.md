# A model of a Delphi indexer, with proofs

The repository indexes Delphi code for editors and agents. This project models the algorithms in it that
decide what an answer contains, and proves what they promise on every input, run or interleaving.

- **Control and data flow of a routine.** `ControlFlow`, `FlowPaths`, `StructuredFlow` and `CfgBuilder` turn a
  statement tree into a graph and prove that its paths are the structured executions. `ReachingDefinitions` and
  `DataFlow` run the round-robin fixpoint under its numeric guard and prove its edges exact. `CpgRecords` and
  `CpgSelection` make bounded, closed subgraphs and select by distance.
- **Binary trees.** `Utf8`, `BinaryFormat`, `BinaryLayout`, `BinaryRoundTrip` and `BinarySerializer` hold the stateful
  codec, its bytes and its round trip.
- **Source spans.** `RoutineTokens` and `RoutineBlocks` find the END of a block and prove it the one of a grammar of nested
  blocks; `RoutineSites`, `RoutineSearch`, `RoutineNesting`, `RoutineDirectives`, `RoutineShapes`, `RoutineSpans` and
  `RoutineCounterexamples` relate the explicit frame stack over a shared cache to a recursive definition, say what it
  answers on the tokens, and when recorded spans nest; `RoutineLocals` relates the heap sweep to the quadratic test;
  `SourceChunks` cuts source by a binary search over a measure that is not monotone.
- **Bounded delivery.** `Json`, `JsonChunks`, `Delivery` and `CardSequence` prepare, chunk, page and lazily index items.
- **Text.** `LexicalChunks` and `OutlineCompactor` compact white space; `OutlineStacks`, `OutlineReadings` and
  `OutlineBlanker` blank bodies; `LexerGrammar`, `LexerShapes` and `Lexer` split text into tokens; `TokenLists`,
  `Expressions`, `ParserCursor`, `ParserStatements` and `Parser` parse them; `StatementGrammar`, `StatementReadings` and
  `StatementExamples` say which readings tokens have as statements and prove that parsing gives the tree and the problems
  of any reading.
- **Concurrency.** `Freshness` interleaves requests with invalidations; `StartLock` interleaves threads over a map of
  counted locks.

`Wrappers`, `Sequences`, `SyntaxTree` and `TextPositions` hold what several parts share. `dafny verify dfyconfig.toml`
checks the whole project.

## How the model reads the source

- Code that updates objects or lists in place is a class or a method with loops, proved against functions; the rest is
  functions. Where a method's contract names a function, the lemmas beside it say what that function means.
- Where a claim is about input of a certain form, the method takes a reading of its input as a ghost parameter, a form or a
  list of blocks. The method does not use it, so its contract holds for every reading that the input has.
- Ids made by SHA-256 are numbers: equal for equal identities only, ordered as their fixed-width text is. Character
  classes, case folding and normalization are parameters (`Alphabet`, `Lookup`), and so are the clock and what is read
  from disk.
- Dictionaries are maps; where the source iterates over one, the claims hold for the set of results or for every order.
- The two concurrent parts are state machines whose steps are single accesses to shared state; their claims are about
  every run.

## What the proofs found

- The graph of a statement loses executions as soon as a loop body or a part of an if-else has nothing to execute;
  `StructuredFlow.PathsAreExecutions` gives the exact condition.
- A tree can be written if and only if it has at most 2^24 distinct long strings. It does not come back from the
  serializer if an attribute key repeats or an encoded string has a length in [0xFF000000, 0xFFFFFFFF], which the reader
  takes for a reference; otherwise it always does.
- A routine search that gives up leaves a cache entry that a later search takes for a routine without a body
  (`RoutineCounterexamples.WarmCacheMisleads`); `RoutineSpans.AgreesUnlessMisled` says exactly when a cache misleads.
- Behind a routine without a body the search can go back to before the end of a body it has recorded, and then recorded
  spans can cross (`RoutineCounterexamples.FindOverlap`). They nest whenever the directives behind the headings declare no
  routine and open no structured type (`RoutineSpans.PlainIsStraight`); what one declaration has to meet for this whatever
  surrounds it is exact (`RoutineDirectives.StraightIsExact`).
- The serialized size of a source chunk is not monotone in its end (`SourceChunks.ShrinksAtNewline`).
- An item that does not fit fails the delivery on the page that reaches it, even behind items that fit; delivery succeeds
  if and only if every item fits alone.
- An expression that is a set of one element gives the same tree as the element (`Expressions.SingletonSetIsElement`).
- Parsing notes a problem on a program if and only if it has a stray, a word such as `else` or `until` where none is due.
  The `else` of a case statement is one (`StatementExamples.CaseElseIsStray`). The `end` of a block behind a case label
  ends the case (`StatementExamples.ArmEndsCase`), and the condition of a repeat takes an `else` behind it
  (`StatementExamples.UntilTakesElse`), both without a problem.
- The epoch test and the stamp that follows it are two steps without a lock, and an invalidation that falls between them
  can be lost (`Freshness.TwoStepsLoseOne`); `Freshness.LostOnlyInWindow` and `Freshness.LosesExactly` say which ones.

## Model

| member | source | states |
|---|---|---|
| ReachingDefinitions.Solve | delphi_lsp/agent_cpg_builder.py:550-571 | The round-robin loop under the guard `max(1, 4n)` always stops because nothing changed, after at most n + 2 passes, and its sets are exactly the definitions that control-flow paths carry, whatever the visiting order |
| ReachingDefinitions.SolvePass | delphi_lsp/agent_cpg_builder.py:554-571 | One pass over the dictionaries is one round of visits in order, and `changed` tells whether any set grew |
| ReachingDefinitions.ExactAfter | delphi_lsp/agent_cpg_builder.py:550-571 | From n + 1 passes on the sets are exact: every carried definition has a path no longer than the number of nodes |
| ReachingDefinitions.ShortPath | delphi_lsp/agent_cpg_builder.py:556-567 | A definition that some path carries is carried by a path that repeats no node |
| ReachingDefinitions.RunProgress | delphi_lsp/agent_cpg_builder.py:554-571 | After k passes the sets hold nothing that no path carries and everything that a path of fewer than k edges carries |
| ReachingDefinitions.RunGrows | delphi_lsp/agent_cpg_builder.py:554-571 | From one pass to the next no set loses a definition |
| ReachingDefinitions.ExactSolves | delphi_lsp/agent_cpg_builder.py:556-571 | The sets of carried definitions solve the in/out equations |
| ReachingDefinitions.ExactIsLeast | delphi_lsp/agent_cpg_builder.py:556-571 | They lie below every solution of the equations |
| ReachingDefinitions.SoundSolutionIsExact | delphi_lsp/agent_cpg_builder.py:553-571 | A solution that holds only carried definitions holds all of them, so stopping at the first stable pass is enough |
| ReachingDefinitions.MergeExact | delphi_lsp/agent_cpg_builder.py:557-564 | The merge of the predecessors holds a definition exactly if one of them does |
| ReachingDefinitions.TransferExact | delphi_lsp/agent_cpg_builder.py:565-567 | Behind a node a name has the last definition recorded there, or else what came in |
| ReachingDefinitions.LastDefHolds | delphi_lsp/agent_cpg_builder.py:565-567 | The definition a node passes on for a name is its last record for the name: no record behind it is one for the name |
| DataFlow.BuildDataFlow | delphi_lsp/agent_cpg_builder.py:484-585 | A reaching-definition edge from a definition to a use exists if and only if a non-empty control-flow path runs from the owner whose last record for the name is that definition to the owner of the use, with no record for the name strictly between; DEF and USE edges are exactly the records. For distinct owners the definitions of an assignment are the retained named identifiers under its first left side, its uses those under its first right side; the uses of a call are those under all its children but the first, those of a control node the ones under its children that are not executable, and these two define nothing |
| DataFlow.NamedIdentifiers | delphi_lsp/agent_cpg_builder.py:647-664 | The explicit stack lists the named identifiers in preorder, left to right |
| DataFlow.Collect | delphi_lsp/agent_cpg_builder.py:490-512 | The scan over the syntax nodes gathers the definition and use records of each owner, told from the sides of an assignment, the arguments of a call and the condition of a control node |
| DataFlow.GatherExact | delphi_lsp/agent_cpg_builder.py:490-512 | With distinct owners each owner keeps the records of its own node, and nothing else has any |
| DataFlow.GatherTells | delphi_lsp/agent_cpg_builder.py:484-512 | What is gathered is told by the tree alone: definitions stand under the first left side, uses under the first right side, behind the callee, or under what a control node does not execute |
| DataFlow.BuildGraph | delphi_lsp/agent_cpg_builder.py:538-549 | The flow graph has the owners and the ends of control-flow edges as nodes and the edges as predecessor sets |
| DataFlow.AvailableIsReaching | delphi_lsp/agent_cpg_builder.py:573-584 | What the exact sets offer at a use is exactly what a definition-clear path brings there |
| ControlFlow.BuildStays | delphi_lsp/agent_cpg_builder.py:334-434 | For every tree, case and try included, the fragment is made of the graph nodes of the retained nodes under it and is empty if it has no entry; a retained control node is its one entry, except that a repeat is left by its test alone |
| ControlFlow.ChoiceHolds | delphi_lsp/agent_cpg_builder.py:413-428 | A case or try leads by a branch edge to every entry of every branch in order, and is left by the exits of the branches in order, or by itself if they have none |
| StructuredFlow.PathsAreExecutions | delphi_lsp/agent_cpg_builder.py:334-434 | The paths of the fragment of a structured statement are exactly its executions (concatenation, choice, node (body node)*, (body node)+) if and only if every loop body and both parts of every if-else have something to execute |
| StructuredFlow.TreeAgrees | delphi_lsp/agent_cpg_builder.py:334-434 | For a statement so filled a sequence of steps is a path of its fragment exactly if it is an execution |
| StructuredFlow.UnfilledLoses | delphi_lsp/agent_cpg_builder.py:358-412 | Otherwise some execution is no path of the fragment |
| StructuredFlow.TreeFits | delphi_lsp/agent_cpg_builder.py:339-352 | Fragments stay within the nodes of their statement, and are empty exactly if nothing is to be executed |
| FlowPaths.HeadLoopPaths | delphi_lsp/agent_cpg_builder.py:376-388 | Around a loop head the paths are a body round and again a path, or the head alone |
| FlowPaths.TailLoopPaths | delphi_lsp/agent_cpg_builder.py:390-412 | Of a repeat they are a body round to the test, then the end or again a path |
| FlowPaths.BranchPaths | delphi_lsp/agent_cpg_builder.py:358-374 | Behind a condition they are a path of one of the two parts, or the skip |
| FlowPaths.ThenJoins | delphi_lsp/agent_cpg_builder.py:348-352 | A path of one fragment and a path of the next join to a path of the chain |
| FlowPaths.ThenSplits | delphi_lsp/agent_cpg_builder.py:348-352 | Every path of the chain is so joined |
| CfgBuilder.BuildCfg | delphi_lsp/agent_cpg_builder.py:293-331 | The edges logged by the recursion with the shared list are those of the graph of the routine: of the first statement list in preorder, with no such list before it, or the empty graph exactly if there is none |
| CfgBuilder.EdgeLog.AddFragment | delphi_lsp/agent_cpg_builder.py:334-374 | The recursion appends exactly the edges of the fragment and returns its entries and exits |
| CfgBuilder.EdgeLog.AddAlternatives | delphi_lsp/agent_cpg_builder.py:420-429 | The branch loop appends the edges of all branches and collects their exits in order |
| CfgBuilder.FirstDescendant | delphi_lsp/agent_cpg_builder.py:455-465 | The search stack finds the node in preorder that is a statement list with none before it, and none exactly if no descendant is one |
| CfgBuilder.RunsAreExecutions | delphi_lsp/agent_cpg_builder.py:293-331 | From ENTRY to EXIT the graph runs exactly the executions of the first statement list in preorder, or straight through when there is nothing to execute |
| SyntaxTree.PendingStep | delphi_lsp/agent_cpg_builder.py:647-664 | Popping a node and pushing its reversed children leaves the preorder of what is pending unchanged |
| SyntaxTree.PreorderSplits | delphi_lsp/agent_cpg_builder.py:647-664 | In preorder a child and what is under it stand between what is under the children before and behind it |
| CpgSelection.Select | delphi_lsp/agent_cpg.py:296-341 | Within the record limit the selected nodes are exactly the nodes of the graph at distance at most `depth` over edges of the view in the chosen direction, and the edges exactly those of the view that can be walked from a nearer node, with the labels of each view written out and distance as the existence of a route; the result is closed, within 50,000 records, marked truncated exactly if it had to be cut, and keeps the count of unresolved calls |
| CpgSelection.SelectionSelects | delphi_lsp/agent_cpg.py:13-19 | The selection is the one told by routes: of AST, CFG, DEF, USE and REACHING_DEF, CALL or all edges, along them or against them, no longer than the depth |
| CpgSelection.Explore | delphi_lsp/agent_cpg.py:308-330 | Breadth-first search with a queue reaches exactly the nodes within the depth and picks exactly the edges that leave a node nearer than that |
| CpgSelection.NearIsWithin | delphi_lsp/agent_cpg.py:315-330 | Distance step by step is the existence of a walk of at most so many steps |
| CpgSelection.FindsAll | delphi_lsp/agent_cpg.py:315-330 | When the queue is empty the recorded distance of a node is its least number of steps |
| CpgSelection.SelectionGrows | delphi_lsp/agent_cpg.py:296-341 | A deeper selection keeps every node and edge of a shallower one |
| CpgSelection.Index | delphi_lsp/agent_cpg.py:310-314 | The two dictionaries list the candidate edges by source and by target, in order |
| CpgSelection.Adjacent | delphi_lsp/agent_cpg.py:319-323 | The adjacency list holds exactly the edges that can be walked from the node, each with the end it leads to |
| CpgRecords.Create | delphi_lsp/agent_cpg.py:182-244 | Records become unique and ordered by id; on overflow nodes go before edges and the root stays; the result is closed and never exceeds `max(1, record_limit)`; every distinct problem stays, once and in the order of its key, and ordered problems stay as they are |
| CpgRecords.ProblemsHold | delphi_lsp/agent_cpg.py:199-212 | Sorting keeps every problem once, adds none, and orders them by key |
| CpgRecords.FirstNodes | delphi_lsp/agent_cpg.py:217-224 | Of too many nodes the first ones remain, the last of them replaced by the root if that were missing, still in order |
| CpgRecords.SortedUnique | delphi_lsp/agent_cpg.py:195-198 | Records with unique ids all survive sorting, and none is added |
| CpgRecords.WithinHolds | delphi_lsp/agent_cpg.py:229-234 | The edge filter keeps exactly the edges with both ends retained |
| BinaryRoundTrip.RoundTrip | delphi_lsp/binary.py:32-240 | A tree can be written if and only if it has at most 2^24 distinct strings of more than four characters; it then reads back as itself, consuming exactly the bytes written, if and only if its attribute keys are distinct and no encoded string length lies in [0xFF000000, 0xFFFFFFFF] |
| BinaryRoundTrip.NodeHolds | delphi_lsp/binary.py:166-240 | From any table, writing a node succeeds if and only if its distinct long strings together with those in the table can be numbered, and the table then holds exactly both |
| BinaryRoundTrip.NodeRoundTrip | delphi_lsp/binary.py:72-134 | From any matching pair of string table and string list, with any bytes behind, a node reads back as itself and leaves them matching |
| BinaryRoundTrip.TablesAgree | delphi_lsp/binary.py:149-164 | For every clean tree with at most 2^24 distinct long strings, after the round trip the reader's list and the writer's table hold the same strings at the same places |
| BinaryRoundTrip.StringRoundTrip | delphi_lsp/binary.py:149-164 | A short, long or repeated string reads back as itself, and list and table grow alike |
| BinaryRoundTrip.NumberRoundTrip | delphi_lsp/binary.py:136-147 | A varint reads back as its number and leaves the bytes behind it |
| BinaryRoundTrip.AttributesRoundTrip | delphi_lsp/binary.py:109-123 | Attributes with distinct keys read back in their order |
| BinaryRoundTrip.ChildrenRoundTrip | delphi_lsp/binary.py:125-132 | Children read back one by one in their order |
| BinaryRoundTrip.ReadNodeIsClean | delphi_lsp/binary.py:72-134 | Whatever bytes are read, the tree that comes out has distinct keys and lengths that can be written |
| BinarySerializer.WriteThenRead | delphi_lsp/binary.py:243-250 | `dumps(tree)` gives bytes if and only if the tree has at most 2^24 distinct long strings, and `loads` of them is the tree if and only if the tree is clean |
| BinarySerializer.Dumps | delphi_lsp/binary.py:247-250 | The stateful writer produces exactly the bytes of the format, or fails when the format cannot hold the strings |
| BinarySerializer.Loads | delphi_lsp/binary.py:243-246 | The stateful reader gives the tree, the bad-signature, the bad-version or the unreadable-node error that the format defines for the bytes |
| BinarySerializer.Serializer.WriteNumber | delphi_lsp/binary.py:213-223 | The shifting loop appends the varint of the number |
| BinarySerializer.Serializer.ReadNumber | delphi_lsp/binary.py:136-147 | The loop over `shift` reads the varint, or reports that the bytes ran out |
| BinarySerializer.Serializer.WriteText | delphi_lsp/binary.py:225-240 | A string goes out as a reference or as its bytes with the table grown, or the table is full |
| BinarySerializer.Serializer.ReadText | delphi_lsp/binary.py:149-164 | A string is read as the format defines, with the list grown for a new long string |
| BinarySerializer.Serializer.WriteTree | delphi_lsp/binary.py:166-211 | A tree is appended as the format defines, with the table after it |
| BinarySerializer.Serializer.ReadTree | delphi_lsp/binary.py:72-134 | A tree is read as the format defines, with the list after it |
| BinarySerializer.ByteStream.ReadUpTo | delphi_lsp/binary.py:136-164 | Reading takes what is there, up to the number asked for, and moves behind it |
| Utf8.DecodeEncode | delphi_lsp/binary.py:149-164 | Decoding UTF-8 (RFC 3629) undoes encoding |
| Utf8.EncodeDecode | delphi_lsp/binary.py:149-164 | What decodes encodes back to the same bytes |
| BinaryLayout.NumberBytes | delphi_lsp/binary.py:213-223 | The lowest seven bits of a number come first, and all bytes but the last have their top bit set |
| BinaryLayout.StringBytes | delphi_lsp/binary.py:225-240 | Strings of up to four characters go out whole each time; a longer one is numbered at first and 0xFF000000 plus its number from then on, for 2^24 of them |
| BinaryLayout.FileBytes | delphi_lsp/binary.py:43-48 | A file with one node, byte by byte |
| RoutineSpans.SpanSearch.Find | delphi_lsp/agent_context.py:2519-2625 | The iterative search always ends. From an empty cache, and from any right cache without abandoned entries, it returns what the plain recursive definition returns, and the cache stays so exactly if the definition does not give up; there a routine that a path over local declarations leads to a BEGIN or ASM ends behind the END of that block, with its semicolon, and a heading that a directive or the next declaration ends has no span. From any cache it returns what the definition gives that reads recorded routines off the cache, and adds only that definition's entries; with straight, and so with plain, directives the spans it adds are pairwise nested or disjoint |
| RoutineSpans.SpanSearch.Run | delphi_lsp/agent_context.py:2540-2625 | The frame loop settles the routine, and the spans it records are exactly the bodies of the routines that the definition settles on the way |
| RoutineSpans.SpanSearch.Turn | delphi_lsp/agent_context.py:2552-2620 | One turn of the loop is one step of the frame machine |
| RoutineSpans.SpanSearch.Decide | delphi_lsp/agent_context.py:2559-2599 | The chain of tests on a token is the move that the definition makes there |
| RoutineSpans.SpanSearch.EnterNested | delphi_lsp/agent_context.py:2600-2619 | A nested declaration is skipped by its recorded span, by its heading, or entered as a new frame |
| RoutineSpans.AgreesUnlessMisled | delphi_lsp/agent_context.py:2529-2538 | Over a faithful cache the answer is the definition's exactly unless the cache misleads: it records a body where the definition gives up, or the search passes the entry of an abandoned routine and finds a body behind it |
| RoutineSpans.UntaintedAgrees | delphi_lsp/agent_context.py:2529-2538 | A right cache in which the definition gives up on no recorded routine never misleads |
| RoutineSpans.EmptyAgrees | delphi_lsp/agent_context.py:2540-2625 | From the empty cache the answer is that of the plain recursive definition |
| RoutineSpans.ExpectedAnswers | delphi_lsp/agent_context.py:2540-2625 | The plain definition answers what the tokens say: the span up to the END of the body that the declarations lead to, or none |
| RoutineSpans.PlainIsStraight | delphi_lsp/agent_context.py:2648-2669 | If no routine is declared and no structured type opens between a routine's heading and the end of its directives, the directives are straight |
| RoutineDirectives.StraightNests | delphi_lsp/agent_context.py:2581-2619 | Over straight declarations the spans that a search adds to any cache are pairwise nested or disjoint |
| RoutineDirectives.StraightIsExact | delphi_lsp/agent_context.py:2600-2669 | A declaration is straight if and only if in no list that holds it and is straight elsewhere any search, from any cache, settles two crossing bodies: straightness of its heading and directives is exactly what it takes |
| RoutineSearch.PassingIsRejected | delphi_lsp/agent_context.py:2600-2615 | If the search passes the entry of an abandoned routine the definition gives up; otherwise reading off the cache changes nothing |
| RoutineSearch.GrownIsFaithful | delphi_lsp/agent_context.py:2536-2598 | What a search adds to a faithful cache is again right wherever the definition does not give up |
| RoutineSearch.NextFits | delphi_lsp/agent_context.py:2552-2620 | Each step keeps every frame looking for what the definition finds from its index, and the cache right |
| RoutineSearch.NextProgress | delphi_lsp/agent_context.py:2552-2620 | Each step settles a routine, enters one, or moves an index on |
| RoutineSearch.NextSettlesRoot | delphi_lsp/agent_context.py:2552-2620 | The step that empties the stack records the outcome of the routine at its bottom |
| RoutineNesting.NextRecords | delphi_lsp/agent_context.py:2552-2620 | Each step keeps the account of recorded bodies: what was found inside a routine is recorded or lies ahead, also when the search gives up |
| RoutineNesting.UntaintedStays | delphi_lsp/agent_context.py:2547-2598 | A right cache without abandoned entries stays so exactly if the definition does not give up on the routine searched for |
| RoutineNesting.NestsUnlessGoneBack | delphi_lsp/agent_context.py:2581-2619 | Two spans that a search adds cross only where it has gone back, behind a routine without a body, to before the end of a body recorded inside that routine |
| RoutineNesting.CrossingGoesBack | delphi_lsp/agent_context.py:2600-2619 | Of two settled routines whose bodies cross, the search had gone back over the first before it settled the second |
| RoutineNesting.StopsOrGoneOver | delphi_lsp/agent_context.py:2552-2620 | A body recorded on the way ends before the token at which the search ends, unless the search goes back over it |
| RoutineCounterexamples.WarmCacheMisleads | delphi_lsp/agent_context.py:2547-2550 | After a search for the inner routine was given up, a search for the outer one finds a body where the definition gives up |
| RoutineCounterexamples.SpansMayOverlap | delphi_lsp/agent_context.py:2616-2620 | On a list of 25 tokens a search from an empty cache goes back over a body and records two spans that cross |
| RoutineCounterexamples.FindOverlap | delphi_lsp/agent_context.py:2519-2625 | The search itself, run on those tokens from an empty cache, leaves two spans that cross |
| RoutineCounterexamples.FindMisled | delphi_lsp/agent_context.py:2519-2625 | Two searches, the inner routine first: the second returns a span where the definition gives up |
| RoutineTokens.BisectLeft | delphi_lsp/agent_context.py:205-206 | Bisection over the token starts gives the first token at or behind a position |
| RoutineTokens.TopLevelSemicolon | delphi_lsp/agent_context.py:2672-2695 | The counting loop finds the first semicolon outside of all brackets |
| RoutineBlocks.MatchEndTerminatedBlock | delphi_lsp/agent_context.py:2714-2747 | The END found is the one that closes the block: between it and the opener there are only neutral words and whole blocks, openers being BEGIN, TRY, ASM, a CASE outside of structured types, and the words that open such types, none within ASM; nothing is found exactly if no END is such |
| RoutineBlocks.ClosingIsBlock | delphi_lsp/agent_context.py:2727-2745 | The keyword stack finds an END if and only if it closes the block in the grammar of nested blocks |
| RoutineShapes.BodyIsFound | delphi_lsp/agent_context.py:2559-2599 | A routine whose heading is followed by local declarations, types, and routines with or without bodies of their own, up to a BEGIN or ASM, has the body from there to the END of that block |
| RoutineShapes.NoBodyIsFound | delphi_lsp/agent_context.py:2600-2619 | A routine whose heading leads to the end of its declarations instead has none |
| RoutineShapes.LeadsScan | delphi_lsp/agent_context.py:2552-2599 | Over such declarations the search comes to the same place as the tokens do |
| RoutineLocals.ExcludeRoutineLocals | delphi_lsp/agent_context.py:2159-2210 | The sweep keeps, in their order, exactly the symbols that do not lie strictly inside the body of a top-level routine other than themselves |
| RoutineLocals.Sweep | delphi_lsp/agent_context.py:2185-2204 | The heap sweep over sorted offsets excludes a place if and only if its symbol is so covered |
| RoutineLocals.Decides | delphi_lsp/agent_context.py:2202-2204 | With the heap closed up to an offset the set of active identities answers the quadratic test |
| RoutineLocals.KeptHolds | delphi_lsp/agent_context.py:2206-2210 | The kept list holds a symbol exactly if it was given and is not local |
| RoutineLocals.OpenBefore | delphi_lsp/agent_context.py:2190-2198 | Bodies that start before the offset enter the heap and the active set |
| RoutineLocals.CloseBefore | delphi_lsp/agent_context.py:2199-2201 | Bodies that end at the offset or before leave both, and all others stay |
| SourceChunks.SourceItems | delphi_lsp/agent_context.py:2794-2856 | Chunks tile the clamped span, hold at most 6000 characters and, below a million of them, fit `max_chars` when serialized; each reaches the end, has 6000 characters, or could not take one more; the method fails only behind spans that fit and lead to an offset at which not even one character does |
| SourceChunks.FitSourceEnd | delphi_lsp/agent_context.py:2859-2889 | The binary search returns an end that fits and that one more character would spoil, unless it is the upper end; it returns none only if one character does not fit |
| SourceChunks.ShrinksAtNewline | delphi_lsp/agent_context.py:2892-2919 | The measure shrinks from one end to the next behind a newline that closes a line of a thousand columns |
| SourceChunks.TilesHold | delphi_lsp/agent_context.py:2821-2840 | Tiling spans hold each character of the span once and in order |
| SourceChunks.LineColCounts | delphi_lsp/agent_context.py:200-203 | Bisection over the line starts gives the line and column counted from the text before the offset |
| SourceChunks.ItemFields | delphi_lsp/agent_context.py:2892-2920 | The fields of an item: its place, its text and its counters, with the role and the target in the long form |
| SourceChunks.CountersFit | delphi_lsp/agent_context.py:2843-2856 | An item measured with counters of six digits fits with its real ones |
| SourceChunks.StartsOfPrefix | delphi_lsp/agent_context.py:2922-2925 | The line starts of a prefix are the line starts within it |
| Json.DumpsPrintable | delphi_lsp/agent_context.py:3187-3196 | Compact JSON text has no control characters |
| Json.EscapeSize | delphi_lsp/agent_context.py:1717-1719 | Escaping grows a text at most sixfold, and twofold when it has no control characters |
| Json.UnescapeEscape | delphi_lsp/agent_context.py:3187-3197 | An escaped text reads back as the text (RFC 8259, section 7) |
| Json.DigitsHold | delphi_lsp/agent_context.py:3187-3197 | The digits of a number have its value |
| Json.ChunkSize | delphi_lsp/agent_context.py:3143-3184 | The size of a chunk record is a constant, the digits of its counters, the name of its type and its escaped text |
| JsonChunks.ChunkItem | delphi_lsp/agent_context.py:3143-3184 | An item becomes greedy pieces of its JSON text, numbered and counted; from 256 characters on, fewer than a million chunks come out if and only if fewer than a million greedy pieces can be cut, and then every chunk fits |
| JsonChunks.LongestPiece | delphi_lsp/agent_context.py:3152-3168 | The binary search finds the longest piece that fits |
| JsonChunks.ChunkingRejoins | delphi_lsp/agent_context.py:3176-3184 | The texts of the chunks join to the JSON text of the item |
| JsonChunks.PiecesAreLong | delphi_lsp/agent_context.py:3152-3175 | While six digits number them greedy pieces hold at least `(max_chars - 82) / 2` characters each, 87 at 256 |
| JsonChunks.ShortIsFew | delphi_lsp/agent_context.py:3152-3175 | From 256 characters on, JSON text of up to 999,999 times `(max_chars - 82) / 2` characters takes fewer than a million pieces |
| JsonChunks.CompleteIsLongest | delphi_lsp/agent_context.py:3151-3174 | Greedy pieces are determined by the text: no cutting has more of them than the complete one |
| JsonChunks.PrepareItems | delphi_lsp/agent_context.py:3130-3140 | Every item in turn stays whole if it fits and becomes its chunks otherwise; from 256 characters on, if every item fits or takes fewer than a million pieces, nothing fails and everything prepared fits |
| Delivery.Deliver | delphi_lsp/agent_protocol.py:364-428 | Preparing and then following the cursors delivers every item once and in order, whole or as chunks that rejoin, in pages within both budgets, whenever every item fits or takes fewer than a million pieces |
| Delivery.FetchAll | delphi_lsp/agent_protocol.py:364-428 | Following `next_cursor` from the empty cursor ends and yields all items in order if and only if each item fits alone; only the last page may be empty |
| Delivery.PaginateItems | delphi_lsp/agent_protocol.py:364-428 | A page holds the items from its offset that both budgets allow and no fewer, names where the next one starts, and fails only for bad limits, a bad cursor or an item that does not fit alone |
| Delivery.SelectItems | delphi_lsp/agent_protocol.py:390-416 | The accumulating loop takes items until a budget is spent |
| Delivery.ListCharsCount | delphi_lsp/agent_protocol.py:390-416 | The running count is the size of the JSON list of the selected items |
| CardSequence.ItemAt | delphi_lsp/agent_context.py:555-582 | Indexing the lazy sequence, also from the end or out of range, gives what indexing the eager list gives |
| CardSequence.Build | delphi_lsp/agent_context.py:529-550 | The prefix sums are the ends of the groups of the eager list; building fails exactly if no payload is left |
| CardSequence.LengthHolds | delphi_lsp/agent_context.py:552-553 | The length is the length of the eager list |
| CardSequence.Located | delphi_lsp/agent_context.py:565-568 | Bisection over the prefix sums finds the card an index belongs to and the piece of it |
| CardSequence.UpperBoundHolds | delphi_lsp/agent_context.py:1704-1719 | 512 plus six for each character plus the digits bounds the JSON text of a card |
| CardSequence.WholeIfFits | delphi_lsp/agent_context.py:540-544 | So the cheap bound never changes whether a card is delivered whole |
| CardSequence.PiecesHold | delphi_lsp/agent_context.py:545-582 | The chunks of a card rejoin to its JSON text, none is empty, and below a million of them each fits, as escaping again at most doubles it |
| CardSequence.CountIsQuotient | delphi_lsp/agent_context.py:546-548 | The rounded quotient is the number of slices |
| CardSequence.AlwaysBuilt | delphi_lsp/agent_context.py:585-602 | From 256 characters on there is a payload |
| LexicalChunks.CompactKeepsChunks | delphi_lsp/agent_workspace.py:472-506 | Compaction keeps every literal, block, comment and code run, their order, and the line breaks between them |
| LexicalChunks.CompactIsIdempotent | delphi_lsp/agent_workspace.py:472-506 | Compacting twice changes nothing more |
| LexicalChunks.CompactIsTight | delphi_lsp/agent_workspace.py:472-517 | A compacted text has no white space at its ends, and between two chunks nothing, one space or one line break |
| LexicalChunks.CollapsedToSpace | delphi_lsp/agent_workspace.py:509-517 | A run without a line break becomes one space |
| LexicalChunks.CollapsedToBreak | delphi_lsp/agent_workspace.py:509-517 | Any other run becomes its first line break, CR LF as one |
| LexicalChunks.LiteralShape | delphi_lsp/agent_workspace.py:520-530 | A literal ends at its first quote that is not doubled, or with the text |
| LexicalChunks.LineCommentShape | delphi_lsp/agent_workspace.py:533-541 | A line comment ends behind its first line break, or with the text |
| LexicalChunks.BraceCommentShape | delphi_lsp/agent_workspace.py:487-504 | A comment in braces ends with the first closing brace, or with the text |
| LexicalChunks.StarCommentShape | delphi_lsp/agent_workspace.py:487-504 | A comment in brackets with stars ends with the first closing pair, or with the text |
| LexicalChunks.BlockOpens | delphi_lsp/lsp_server.py:519-533 | A block opens with five or three quotes and a line break; other quotes open a literal |
| LexicalChunks.BlockShape | delphi_lsp/lsp_server.py:519-533 | A block ends with the first quotes like those it opens with, or with the text |
| LexicalChunks.CodeShape | delphi_lsp/agent_workspace.py:487-504 | Code goes on up to white space, a quote or a comment |
| LexicalChunks.ChunkLocal | delphi_lsp/agent_workspace.py:487-504 | The chunk at the head of a text stays what it is when the text behind it is exchanged as compaction may do |
| LexicalChunks.CollapsedShape | delphi_lsp/agent_workspace.py:509-517 | Collapsed white space is white space, has a line break exactly if it had one, and does not collapse further |
| OutlineCompactor.CompactOutlineWhitespace | delphi_lsp/agent_workspace.py:472-506 | The index-driven loop computes the compaction: the chunks of the text, with at most one space or line break between two of them |
| OutlineCompactor.QuotedStringEnd | delphi_lsp/agent_workspace.py:520-530 | The loop finds the end of the literal, doubled quotes inside |
| OutlineCompactor.LineCommentEnd | delphi_lsp/agent_workspace.py:533-541 | The loop finds the end of the comment with its line break, CR LF as one |
| OutlineCompactor.CollapsedWhitespace | delphi_lsp/agent_workspace.py:509-517 | The loop returns the first line break of the run, or a space |
| OutlineCompactor.MultilineStringBlockEnd | delphi_lsp/lsp_server.py:519-533 | The end of a block of five or of three quotes, if one opens there |
| OutlineCompactor.ChunkEnd | delphi_lsp/agent_workspace.py:487-504 | The branches find where the chunk at the index ends |
| OutlineBlanker.BlankCompoundStatementBodies | delphi_lsp/lsp_server.py:590-794 | On every text and every exit the result has the scanned text's length and differs from it only by blanks within disjoint bodies, each from behind a whole word BEGIN or ASM to a whole word END, line breaks kept; scan text of another length leaves the text alone. A text without conditional directives that reads as nested blocks, BEGIN and ASM outside and CASE and TRY within them too, has exactly the bodies of its outermost blocks blanked |
| OutlineBlanker.OutlineKeepsPlaces | delphi_lsp/lsp_server.py:922-925 | In an outline every place keeps its line and its column |
| OutlineBlanker.Scan.Directive | delphi_lsp/lsp_server.py:616-643 | A conditional directive saves the stack, restores it, or joins the branches, and gives up exactly without an open condition |
| OutlineBlanker.Scan.Word | delphi_lsp/lsp_server.py:713-738 | A whole word behind an open block is pushed if and only if it starts a block, outside of angle brackets, and the scan is lost where that cannot be told; END pops; the END of the outermost block records a body |
| OutlineBlanker.Scan.CloseBody | delphi_lsp/lsp_server.py:717-721 | Closing a body blanks the buffer between its start and the END |
| OutlineBlanker.Scan.Blank | delphi_lsp/lsp_server.py:922-925 | Blanking changes only the stretch and no line break |
| OutlineBlanker.Scan.Run | delphi_lsp/lsp_server.py:610-794 | The scan always ends. The text comes back as it was exactly if the scan lost its way, at a stray branch or end of a condition, a word of which it cannot be told whether it opens a block, or an angle bracket out of place, or if it ends within angle brackets or a condition; otherwise the outline does. As long as no directive acts, every body that a BEGIN or ASM opened is recorded, but for one still open. Where the text reads as nested blocks the scan is not lost and records the bodies of the outermost ones |
| OutlineReadings.FollowsStep | delphi_lsp/lsp_server.py:644-794 | Where a text reads as nested blocks, each element, white space, comment, literal, name or sign, leaves the rest of the blocks, and the bodies recorded and to come stay those of the text |
| OutlineReadings.DoneMoves | delphi_lsp/lsp_server.py:713-738 | An END closes the innermost block that is open, and records a body exactly if it is the outermost one |
| OutlineReadings.StarEndIsFirst | delphi_lsp/lsp_server.py:687-693 | A comment in brackets with stars ends with its first closing pair, or before the last character of the text |
| OutlineStacks.MergeHolds | delphi_lsp/lsp_server.py:816-833 | Branches merge exactly if each keeps the base and all have the same shapes; the merged stack keeps the base and has the shapes of every branch |
| OutlineStacks.CommonIsLongest | delphi_lsp/lsp_server.py:840-851 | Otherwise the stack that remains is the longest one whose shapes begin every branch |
| Lexer.SourceLexer.Tokenize | delphi_lsp/delphiast_lexer.py:43-71 | Tokens are not empty, in order and disjoint, with white space alone between them and one end marker at the length of the text; each has the shape the grammar gives and the line and column counted from the text before it |
| Lexer.SourceLexer.NextToken | delphi_lsp/delphiast_lexer.py:73-169 | The token at the index is the one that the grammar has there |
| Lexer.SourceLexer.AdvanceTo | delphi_lsp/delphiast_lexer.py:263-273 | Incremental line and column tracking equals counting afresh from the start of the text |
| Lexer.SourceLexer.EndOfLiteral | delphi_lsp/delphiast_lexer.py:194-214 | A literal ends with its block, at a line break, or behind its closing quote, and is never empty |
| Lexer.SourceLexer.EndOfNumber | delphi_lsp/delphiast_lexer.py:171-192 | What is taken is the longest number from there: digits, a fraction whose dot is not the first of two, an exponent that has digits |
| LexerGrammar.NumberEndIsLongest | delphi_lsp/delphiast_lexer.py:171-192 | The end that the grammar gives is that of a number, and no number from the same start is longer, digits being told from the signs between them |
| Lexer.SourceLexer.EndOfLargeInitializer | delphi_lsp/delphiast_lexer.py:216-247 | The bracket stack finds the end of an initializer of at least 64 KiB, over literals and comments |
| Lexer.SourceLexer.Emit | delphi_lsp/delphiast_lexer.py:249-261 | The token starts at the old index with its place, and the index moves to its end |
| Lexer.TilingCovers | delphi_lsp/delphiast_lexer.py:43-71 | Every character that is not white space lies in exactly one token |
| Lexer.TilingOrder | delphi_lsp/delphiast_lexer.py:43-71 | Each token ends before the next starts |
| LexerGrammar.ShapeAt | delphi_lsp/delphiast_lexer.py:73-169 | Every token takes at least one character and stays within the text |
| LexerShapes.LineCommentToken | delphi_lsp/delphiast_lexer.py:80-83 | A comment of two slashes stops before the first line feed |
| LexerShapes.BraceCommentToken | delphi_lsp/delphiast_lexer.py:84-88 | A comment in braces ends with the first closing brace; a dollar makes it a directive |
| LexerShapes.StarCommentToken | delphi_lsp/delphiast_lexer.py:89-99 | So does one in brackets with stars |
| LexerShapes.LiteralToken | delphi_lsp/delphiast_lexer.py:194-214 | A literal is a block of five or three quotes up to the next ones, or ends at its first quote that is not doubled, or before a line break |
| LexerShapes.SymbolToken | delphi_lsp/delphiast_lexer.py:163-169 | Twelve pairs and the single symbols, written out; any other character is unknown |
| LexerShapes.NameToken | delphi_lsp/delphiast_lexer.py:152-158 | A name is the longest run of name characters, a keyword if its folding is one |
| LexerShapes.RadixToken | delphi_lsp/delphiast_lexer.py:114-137 | Character codes and numbers of other bases go as far as their digits |
| LexerShapes.InitializerEnds | delphi_lsp/delphiast_lexer.py:216-247 | An initializer is taken whole if and only if its bracket closes after 64 Ki characters or more, with brackets nested in between and those in literals and comments not counted |
| Parser.Parse | delphi_lsp/delphiast_parser.py:125-194 | On every token list that ends in its only end marker parsing returns with the cursor at the end and at most 128 problems. If the list reads as a program, a header, a block and a dot, the tree of the block comes back, each stray is noted at its place, up to 128 of them, and nothing else is: a program has no problem if and only if it has no stray |
| Parser.ParseText | delphi_lsp/delphiast_parser.py:114-194 | Every text is lexed and parsed to its end, with the same trees and problems where its tokens read as a program |
| Parser.ParseRoutine | delphi_lsp/delphiast_parser.py:881-955 | A routine consumes its keyword; nested routines recur on fewer tokens |
| Parser.ParseTypeSection | delphi_lsp/delphiast_parser.py:250-298 | A type section consumes its keyword and ends at a section, a routine or the end |
| Parser.ParseTypeBody | delphi_lsp/delphiast_parser.py:416-477 | The members of a type are parsed without the cursor moving back or a noted problem being lost |
| Parser.ParseSpecifier | delphi_lsp/delphiast_parser.py:763-825 | Each specifier of a property consumes a token, known or not |
| Parser.ParseConstants | delphi_lsp/delphiast_parser.py:641-677 | Constants end at a section, a routine or the end |
| Parser.ParseVariables | delphi_lsp/delphiast_parser.py:691-706 | Variables end at a section, a routine or the end |
| Parser.ParseVariantPart | delphi_lsp/delphiast_parser.py:479-514 | A variant part consumes its keyword; nested variants recur on fewer tokens |
| Parser.ParseProperty | delphi_lsp/delphiast_parser.py:750-826 | A property consumes its keyword |
| Parser.ParseNamedDeclaration | delphi_lsp/delphiast_parser.py:708-748 | A declaration that starts with a name consumes it |
| Parser.ParseArrayType | delphi_lsp/delphiast_parser.py:598-618 | An array type consumes a token and ends, though the loop over its bounds has no progress guard: each turn consumes a bound or a comma |
| Parser.ParseMethodDirectives | delphi_lsp/delphiast_parser.py:992-1023 | Directives note no problem and never move the cursor back |
| ParserStatements.ParseStatements | delphi_lsp/delphiast_parser.py:1036-1043 | Statements end at a stop or at the end of the text; a row of statements that reads as one gives their trees in order and its strays as problems |
| ParserStatements.ParseStatement | delphi_lsp/delphiast_parser.py:1045-1142 | On tokens that read as a statement, with blocks, if with and without else, for, while, with, repeat, try, case, asm and simple statements nested in any way, exactly these tokens are consumed, the tree of the reading is made and only its strays are noted; on all others the cursor does not move back and nested statements recur on fewer tokens |
| ParserStatements.ParseTryStatement | delphi_lsp/delphiast_parser.py:1144-1182 | A try statement with handlers, an else among them, or a final part is consumed as it reads, and its keyword always |
| StatementReadings.MidwayTurns | delphi_lsp/delphiast_parser.py:1036-1043 | A turn of the loop reads one statement of the row, or notes one stray, and leaves the rest |
| StatementReadings.ChoiceReads | delphi_lsp/delphiast_parser.py:1072-1077 | An if whose branch is followed by an else takes the else and its statement; the else belongs to the nearest if |
| StatementReadings.TryReads | delphi_lsp/delphiast_parser.py:1144-1182 | The body and the handlers or the final part of a try are read and become its parts |
| StatementReadings.StraysAllWithin | delphi_lsp/delphiast_parser.py:1559-1562 | Every stray stands within its statement |
| StatementGrammar.StretchIsFound | delphi_lsp/delphiast_parser.py:1431-1471 | A run of tokens with balanced brackets is collected up to the first stop outside of them |
| StatementExamples.ProgramReads | delphi_lsp/delphiast_parser.py:125-194 | A program whose block is an if with an else reads as one without a stray |
| StatementExamples.CaseElseIsStray | delphi_lsp/delphiast_parser.py:1096-1111 | The else of a case statement is a stray, whatever plain tokens stand around it, so a problem is noted at it |
| StatementExamples.ArmEndsCase | delphi_lsp/delphiast_parser.py:1096-1111 | The end of a block behind a case label ends the case statement |
| StatementExamples.UntilTakesElse | delphi_lsp/delphiast_parser.py:1085-1091 | The condition of a repeat statement takes an else behind it, and the if around it is left without one |
| ParserCursor.Cursor.CollectUntil | delphi_lsp/delphiast_parser.py:1431-1471 | The stretch ends at the first stop outside of all brackets or at the end, and the kept tokens are the stretch, cut to the limit |
| ParserCursor.Cursor.Synchronize | delphi_lsp/delphiast_parser.py:1489-1491 | The cursor stops at the first of the stops and skips none |
| ParserCursor.Cursor.EnsureProgress | delphi_lsp/delphiast_parser.py:1559-1562 | Behind the guard a token is consumed; a turn that has moved is left alone, and for one that has not a problem is noted |
| ParserCursor.Cursor.Note | delphi_lsp/delphiast_parser.py:1497-1507 | A problem is appended with the place of the cursor, cut to 240 characters, unless 128 are noted |
| ParserCursor.Cursor.ReadRoutineName | delphi_lsp/delphiast_parser.py:1386-1401 | The name is that of all parts that follow each other by a dot, or by type arguments and a dot; a token is consumed exactly if there is a name |
| ParserCursor.LexerMakesInput | delphi_lsp/delphiast_parser.py:114-123 | What the lexer makes of any text is such a token list, in which brackets, separators and dots are no names or constants |
| Expressions.OperandsKept | delphi_lsp/delphiast_parser.py:1184-1261 | The tree of an expression has exactly its names and constants, each once and in order |
| Expressions.MakeExpression | delphi_lsp/delphiast_parser.py:1184-1261 | The loop over the tokens builds that tree |
| Expressions.SingletonSetIsElement | delphi_lsp/delphiast_parser.py:873-879 | A set of one element is told apart from the element by nothing: the node with one child gives way |
| Expressions.CalledName | delphi_lsp/delphiast_parser.py:1215-1250 | A name with round brackets behind it is a call, with square brackets an index |
| Expressions.DottedName | delphi_lsp/delphiast_parser.py:1201-1214 | Two names with a dot between them are a dot with the first on its left |
| Expressions.DereferencedName | delphi_lsp/delphiast_parser.py:1251-1255 | A name with a caret behind it is its dereference |
| TokenLists.SplitRejoins | delphi_lsp/delphiast_parser.py:1334-1368 | The parts of a split with its separators put back are the list |
| TokenLists.SplitTopLevel | delphi_lsp/delphiast_parser.py:1334-1368 | The counting loop splits at the separators outside of all brackets |
| TokenLists.MatchingToken | delphi_lsp/delphiast_parser.py:1288-1304 | The depth counter finds the bracket that brings the balance back to zero |
| Freshness.NoInvalidationIsLost | delphi_lsp/agent_context.py:928-971 | In every interleaving, with the epoch test and the stamp as one step, a request that starts after an invalidation is complete answers from a read of the revision that began after the epoch was raised |
| Freshness.LostOnlyInWindow | delphi_lsp/agent_context.py:928-971 | In every interleaving of the steps as they are, an invalidation is lost only if the epoch was raised and the stamp taken back both between a test that found the epoch unchanged and the stamp that followed it; a response uses only cached values of its own project and revision |
| Freshness.LosesExactly | delphi_lsp/agent_context.py:928-971 | Between requests of any run, a later request can lose an invalidation if and only if it fell between that test and that stamp, the stamp still stands and is younger than the interval, and the revision was not read anew |
| Freshness.ExposedIsLost | delphi_lsp/agent_context.py:928-971 | From every such state, and from every state of a request in progress that has not read anew, a run leads to a request that loses the invalidation |
| Freshness.RunsAreSound | delphi_lsp/agent_context.py:928-971 | Every state that a run reaches is sound, with the test and the stamp in one step or in two: apart from that window a stamp stands for a read newer than every completed invalidation, and the caches belong to one project and revision |
| Freshness.TwoStepsLoseOne | delphi_lsp/agent_context.py:949-950 | A run in which an invalidation falls between the test and the stamp, and the request that loses it |
| StartLock.OneAtATime | delphi_lsp/agent_cache.py:599-620 | In every reachable state at most one thread per root is in the critical section, all who queue for a root or hold it share one lock object, no two roots share one, an entry exists exactly while its root has users and counts them, and no thread misses its entry |
| StartLock.RunsAreSound | delphi_lsp/agent_cache.py:599-620 | So they hold in every state of every run from the empty map |
| StartLock.StepSound | delphi_lsp/agent_cache.py:599-620 | One access to shared state by any thread keeps the count, the shared lock and the ownership of lock objects |
| StartLock.NeverStuck | delphi_lsp/agent_cache.py:599-620 | While a thread is busy some busy thread can go on |

## Left out

- RoutineSpans.SpanSearch.Find: the condition on directives concerns one declaration in all surroundings and the spans that one search adds. In a given list whose directives are not straight the spans can still nest; whether they do is told by the bodies alone. How added spans lie to spans left in the cache by earlier searches is not claimed. What the answer is on the tokens alone is claimed where the cache is right, for headings that declarations, types and routines of the described shapes lead on from; for all others it is that of the recursive definition.
- StructuredFlow: `with`, the precision of case and try, exception handlers, goto targets, bare calls as conditions, and a branch that is itself an expression without anything to execute are outside the statements of the path theorem; raise and goto fall through to the next statement with a `terminal` edge, as in the code. An if whose single part is empty takes and skips it by one edge, and counts as one outcome.
- ControlFlow: case and try are built as the code builds them, but no language is claimed for their paths.
- DataFlow: call edges, AST edges and the choice of the syntax tree of a target are not modelled.
- CpgRecords: properties of records and the byte estimate are not modelled; the sort key of a problem is a number with its order.
- BinarySerializer: numbers are non-negative, since writing a negative one never ends in the source; lone surrogates, which UTF-8 cannot encode, partial writes of a stream and the recursion limit of the host are not modelled. Reading ignores bytes behind the tree, as the source does.
- RoutineSpans.SpanSearch: the `depth` parameter is never used by the iteration and is left out; tokens come from `_lex_delphi`, which is not part of this model.
- RoutineLocals: the priority queue is an ordered list, and the span of a routine is a parameter.
- Json: floating-point numbers are left out; the fields of a record are given in key order.
- Delivery: a cursor is its decoded payload; base64 and the parsing of its JSON are not modelled, and so no round trip of its text is claimed.
- CardSequence: slices are single accesses in turn and are left out.
- OutlineBlanker.BlankCompoundStatementBodies: which bodies are blanked is stated of the text for texts without directives whose blocks hold no structured type and no routine heading, and that have no angle bracket outside of them; for all others it is stated of the scan's final state, and that their blocks balance is not stated beyond the stack discipline of each word and directive, since branches of a condition are joined to a common stack.
- SourceChunks.SourceItems: the size of a chunk is not monotone in its end, so a character that does not fit does not always make the search fail; failure is therefore stated one way.
- OutlineBlanker: that a word is not the rest of a name is claimed for alphabets in which white space, closing brackets and quotes start no name and line breaks are in none. Which words open a block is modelled as in the code, but that the bodies are those of the Delphi grammar is not claimed; the conditional preprocessing that makes the scan text is a parameter.
- Lexer: the guard behind an empty token is left out, as no token is empty.
- Parser: the trees of declarations are not built, and the line and column of tree nodes are left out; what moves the cursor, notes a problem or decides a branch is modelled, together with the trees of statements and expressions. Readings are given to statements and to programs of a header, a block and a dot; of the other declarations only progress, stops and the limit of problems are claimed. Statements that miss their separator, and a try without handlers or a final part, are parsed as the code does but have no reading. The recursion limit of the host is not modelled.
- Freshness: eviction drops everything or all but the registry, and graphs and prepared responses one by one, while a request is served; raising the epoch is one step; several watching threads that raise it at once without a lock could lose a raise. Reading the disk takes any time and finds any revision; what the revision digests is not modelled.
- StartLock: the lock file on disk, which is checked and then removed, gives no exclusion between processes and none is claimed.
- Sockets, process startup, watching of directories, memory measurement and metadata files depend on the operating system.
- The Lark grammar and builder, language-server requests, the command line, the plugin text, wiki pages and XML output are plumbing and formatting.
- Metrics formulas and progress counters would only add easy members.
