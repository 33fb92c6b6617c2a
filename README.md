# Belief Tester, modelled in Dafny

Belief Tester is a small React app with two serverless functions. The user picks a mode
(sandbox or professional) and enters a core belief. Then they add further beliefs, one at
a time. Each added belief is sent to a classifier function. That function asks a
reasoning service to rate the belief against the core belief and gets back free text. It
parses the text into a summary, details and a status: coherent, incoherent,
contradictory, harmful or pending. The app commits the belief as a node with an edge
from the core, coloured by its status. In sandbox mode a second function proposes a new
belief from the labels already on the graph.

This project models, as Dafny functions, classes and lemmas:

- the classifier handler (`netlify/functions/analyze.js`): its prompt, its reply parser, its
  keyword priority, and its missing-key and exception responses;
- the suggestion handler (`netlify/functions/suggest.js`): the numbered prompt, the trimmed reply
  or the fallback, and its error responses;
- the app component (`src/App.jsx`):
  - the mode prompt loop and the core-belief prompt loop (methods with `while` loops,
    proved against recursive reference functions);
  - the graph state as a class (`App.BeliefApp`) whose methods are the handlers;
  - the ancestor walk `getUpstream` as a recursive method over a mutable visited set,
    proved equal to the function `Upstream.Walk`;
  - the edge colour, and the suggestion accept and dismiss handlers;
- the node component (`src/BeliefNode.jsx`): the border colour, and the `expanded` flag with
  its toggle.

The JavaScript built-ins the code relies on are modelled in `Text`:

- `trim`, with the JS whitespace set;
- `split('\n')`, which always has at least one piece;
- `filter(Boolean)`, `join` and `includes`;
- `toLowerCase`, on ASCII letters;
- `String(n)`;
- `parseInt(s, 10)`.

`Wire` holds the JSON values exchanged. A `null` prompt answer is `None`. A template
literal renders it as `"null"`; `Array.prototype.join` renders it as `""`.

The invariant `App.Committed` describes the graph the handlers build:

- the core node comes first;
- the k-th added belief sits at angle `(k-1)*18`;
- node ids are distinct;
- edge k runs from `core` to node k+1, with the node's colour.

Every state-changing method keeps it.

Behaviour of the code that is easy to miss; the model follows the code:

- An empty or all-whitespace classifier reply has no last line. `lines[lines.length - 1].toLowerCase()`
  throws, so the handler answers 500 with V8's message. It does not answer `pending`.
- `getUpstream` writes a parent's label before the recursive call's visited check. An
  ancestor reached along two paths is therefore listed twice; only its second expansion is
  skipped (`Upstream.DiamondRepeatsLabel`).
- `addBelief` never looks at `response.ok`. A 500 body from the classifier is committed
  with an undefined status and drawn gray, not `pending`. A request that throws commits
  nothing.
- Accepting a suggestion does not use the suggested text. `addBelief` takes no argument
  and prompts for its own label.
- The angle of the k-th added belief is `(k-1)*18` degrees, with no wrap after 20 beliefs.
- A failed suggestion call answers 500 with the exception's message, not the fallback
  text. The fallback is used only for a reply whose text is missing or blank.

## Model

| member | source | states |
|---|---|---|
| Text.TrimStart | netlify/functions/analyze.js:56 | the result is the suffix left after a prefix made only of whitespace, and starts with a non-space |
| Text.TrimEnd | netlify/functions/analyze.js:56 | the result is the prefix left before a suffix made only of whitespace, and ends with a non-space |
| Text.Trim | netlify/functions/analyze.js:56 | the result has no whitespace at either end and is no longer than the input |
| Text.TrimEmptyIff | netlify/functions/suggest.js:44 | trimming yields the empty string exactly when the input is all whitespace |
| Text.TrimOfTrimmed | netlify/functions/suggest.js:44 | trimming text without surrounding whitespace changes nothing |
| Text.TrimIdempotent | netlify/functions/suggest.js:44 | trimming twice is trimming once |
| Text.Split | netlify/functions/analyze.js:56 | `split` yields at least one piece and no piece holds the separator |
| Text.Remove | netlify/functions/analyze.js:56 | the result has no occurrence of the deleted character |
| Text.NonEmpty | netlify/functions/analyze.js:56 | `filter(Boolean)` keeps exactly the non-empty pieces: each result piece is a non-empty input piece, every non-empty input piece is kept, and the concatenation is unchanged |
| Text.NonEmptyAppend | netlify/functions/analyze.js:56 | filtering a concatenation of lists is concatenating the filtered lists, so the filter keeps order |
| Text.NonEmptyOne | netlify/functions/analyze.js:56 | a single piece is kept exactly when it is not the empty string |
| Text.NonEmptyBlankMiddle | netlify/functions/analyze.js:56 | an empty piece between two non-empty ones is dropped and the two are kept in order |
| Text.NonEmptyKeepsAll | netlify/functions/analyze.js:56 | filtering pieces that are all non-empty keeps every one |
| Text.JoinSplit | netlify/functions/analyze.js:56 | joining the pieces of a split with the separator gives back the text |
| Text.SplitNoSep | netlify/functions/analyze.js:56 | text without the separator splits into itself alone |
| Text.SplitFirst | netlify/functions/analyze.js:56 | splitting at the first separator gives the text before it, then the split of the rest |
| Text.JoinThree | netlify/functions/analyze.js:58 | `[a, b, c].join(sep)` is a, sep, b, sep, c |
| Text.SplitJoin | netlify/functions/suggest.js:17 | pieces without the separator, joined and split again, come back unchanged |
| Text.ConcatSplit | netlify/functions/analyze.js:56 | the pieces of a split, concatenated, are the text with the separators deleted |
| Text.ToLower | netlify/functions/analyze.js:59 | `toLowerCase` keeps the length, maps every character to its lower case, and leaves no upper-case letter |
| Text.ToLowerOfLower | netlify/functions/analyze.js:59 | lower-casing text that has no upper-case letter changes nothing |
| Text.ContainsAt | netlify/functions/analyze.js:62-65 | an occurrence at some position makes `includes` true |
| Text.ContainsWitness | netlify/functions/analyze.js:62-65 | `includes` true means an occurrence at some position |
| Text.MissingCharNotContained | netlify/functions/analyze.js:62-65 | a keyword with a character the line lacks is not included in it |
| Text.LongerNotContained | netlify/functions/analyze.js:62-65 | a keyword longer than the line is not included in it |
| Text.ContainsTrans | netlify/functions/analyze.js:64-65 | what occurs in a part of a text occurs in the text |
| Text.ContainsInfix | netlify/functions/analyze.js:35 | a string occurs in any text built around it |
| Text.JoinContains | netlify/functions/analyze.js:24 | every element occurs in the joined text |
| Text.ConcatContains | netlify/functions/analyze.js:13-36 | every piece of a template occurs in the whole |
| Text.NatToString | netlify/functions/suggest.js:17 | `String(n)` is a non-empty string of decimal digits with no leading zero: it is one digit exactly when n < 10, and starts with '0' exactly when n is 0 |
| Text.NatToStringValue | netlify/functions/suggest.js:17 | the digits of `String(n)` denote `n` |
| Text.IntToString | netlify/functions/analyze.js:35 | `String(i)` is non-empty and does not start with whitespace |
| Text.LeadingDigits | src/App.jsx:88 | the longest prefix made of digits: the next character, if any, is not a digit |
| Text.ParseInt | src/App.jsx:88 | `parseInt(s, 10)` skips leading whitespace and one sign; it is NaN exactly when no digit follows; a number after `-` is at most 0, any other is at least 0 |
| Text.ParseDigits | src/App.jsx:88 | there is no value exactly when the text does not start with a digit |
| Text.ParseDigitsOf | src/App.jsx:88 | digits followed by a non-digit read as the value of the digits |
| Text.ParseIntMinus | src/App.jsx:88 | text starting with `-` reads as the negation of the digits after it |
| Text.ParseDigitsOfNatToString | src/App.jsx:88 | the digits of `String(n)` read back as `n` |
| Text.ParseIntOfNegative | src/App.jsx:88 | `parseInt(String(i), 10)` is `i` for a negative integer |
| Text.ParseIntOfNonNegative | src/App.jsx:88 | `parseInt(String(i), 10)` is `i` for a non-negative integer |
| Text.ParseIntOfIntToString | src/App.jsx:88 | `parseInt(String(i), 10)` is `i` for every integer |
| Text.ParseIntIgnoresSuffix | src/App.jsx:88 | the decimal rendering of n, followed by text not starting with a digit, reads as n |
| Text.ParseIntOfDigitRun | src/App.jsx:88 | `parseInt` stops at the first non-digit: any digit run, leading zeros included, followed by text not starting with a digit reads as the value of the digits |
| Wire.MissingKeyResponse | netlify/functions/analyze.js:6-11 | the missing-credential response is a 500 with an error body |
| Wire.ExceptionResponse | netlify/functions/analyze.js:75-79 | a thrown exception becomes a 500 whose error is the exception's message |
| Wire.Interpolated | netlify/functions/analyze.js:30-33 | a template literal writes a present value as itself and null as "null", which differs from what `join` writes exactly for null |
| Wire.ConfidenceTextReadsBack | netlify/functions/analyze.js:35 | the confidence written into the prompt reads back through `parseInt` as the same number, and NaN is written "null", which reads as NaN |
| Wire.JoinItems | netlify/functions/analyze.js:24 | `join` writes each element in order, null as the empty string |
| Analyze.Lines | netlify/functions/analyze.js:56 | the lines are exactly the non-empty pieces of the trimmed reply cut at line breaks |
| Analyze.LinesShape | netlify/functions/analyze.js:56 | every line is non-empty, has no line break and is a piece of the trimmed reply cut at breaks; the lines, concatenated, are the trimmed reply with its breaks deleted (their order kept) |
| Analyze.LinesOfJoin | netlify/functions/analyze.js:56 | break-free pieces joined by breaks, with no whitespace at the ends, come back as those pieces with the empty ones dropped |
| Analyze.LinesOfCleanJoin | netlify/functions/analyze.js:56 | non-empty, break-free pieces joined by breaks come back as exactly those pieces |
| Analyze.BlankLineDropped | netlify/functions/analyze.js:56 | "a\n\nb" has exactly the lines a and b: the blank line between them is dropped |
| Analyze.LinesEmptyIff | netlify/functions/analyze.js:56 | there are no lines exactly when the reply is all whitespace |
| Analyze.SingleLine | netlify/functions/analyze.js:56 | a trimmed, non-empty reply with no line break is one line |
| Analyze.Summary | netlify/functions/analyze.js:57 | the summary is the first line, or `''` when there are no lines |
| Analyze.Middle | netlify/functions/analyze.js:58 | `slice(1, -1)` is the lines strictly between the first and the last, and nothing with fewer than three lines |
| Analyze.Details | netlify/functions/analyze.js:58 | the details are trimmed, and empty when there are fewer than three lines |
| Analyze.DeriveStatus | netlify/functions/analyze.js:61-65 | a non-pending status names a keyword the line contains, every keyword ahead of it in priority is absent, and pending holds exactly when no keyword occurs |
| Analyze.IncoherentNeverCoherent | netlify/functions/analyze.js:64-65 | a line containing "incoherent" is never coherent or pending, although it also contains "coherent" |
| Analyze.ParseReply | netlify/functions/analyze.js:55-65 | the parse fails, with the V8 message for `undefined.toLowerCase()`, exactly when the reply is all whitespace; otherwise summary, details and status come from the first, middle and last lines |
| Analyze.ParseLines | netlify/functions/analyze.js:57-65 | no lines is the failure; otherwise the first line is the summary, the middle lines give the details and the last line the status |
| Analyze.OneLineReply | netlify/functions/analyze.js:57-59 | a one-line reply is both the summary and the status line, with empty details |
| Analyze.HarmfulOutranksContradictory | netlify/functions/analyze.js:62-63 | "this is clearly contradictory and harmful overall" is harmful |
| Analyze.IncoherentExample | netlify/functions/analyze.js:62-65 | "incoherent" is incoherent |
| Analyze.CoherentExample | netlify/functions/analyze.js:62-65 | "seems coherent enough" is coherent |
| Analyze.NoKeywordIsPending | netlify/functions/analyze.js:61-65 | "unclear rambling text" is pending |
| Analyze.ThreeLineReply | netlify/functions/analyze.js:56-65 | a reply of three trimmed, non-empty lines parses into the first line as summary, the middle line as details and the status of the lower-cased last line |
| Analyze.ThreeLines | netlify/functions/analyze.js:56 | three trimmed, break-free lines joined by breaks split back into those lines |
| Analyze.ContradictoryLine | netlify/functions/analyze.js:62-63 | "contradictory" is contradictory |
| Analyze.Prompt | netlify/functions/analyze.js:13-23 | the prompt starts with the fixed evaluator instructions, ending in the "Core Belief(s):" heading |
| Analyze.PromptMentionsCandidate | netlify/functions/analyze.js:29-35 | the prompt carries the candidate belief and the notes |
| Analyze.PromptMentionsConfidence | netlify/functions/analyze.js:35 | the prompt carries the line "User Confidence: <confidence>" |
| Analyze.PromptMentionsContext | netlify/functions/analyze.js:23-27 | the prompt carries every core belief and every upstream belief |
| Analyze.PromptMentionsCore | netlify/functions/analyze.js:24 | the prompt carries every core belief, null written as the empty string |
| Analyze.PromptMentionsUpstream | netlify/functions/analyze.js:27 | the prompt carries every upstream belief, null written as the empty string |
| Analyze.ReplyText | netlify/functions/analyze.js:55 | the first content block's text when the reply has one, and `''` when it is missing |
| Analyze.Handle | netlify/functions/analyze.js:6-79 | without a key nothing is sent and the answer is the 500; the answer is 200 exactly when a key is set and the service replied with non-blank text, and its body is then the parse; an exception gives a 500 with its message; a blank reply gives the 500 of the failed status-line access |
| Suggest.SuggestionText | netlify/functions/suggest.js:44 | the suggestion is never empty and has no surrounding whitespace; it is the trimmed reply, or the fallback when the reply is missing or blank |
| Suggest.SuggestionStable | netlify/functions/suggest.js:44 | a suggestion passed through the same post-processing again comes back unchanged |
| Suggest.NumberedFrom | netlify/functions/suggest.js:17 | entry i is "<first+i>. <belief i>", one per belief, in input order |
| Suggest.NumberedListLines | netlify/functions/suggest.js:17 | when no belief spans lines, the list's lines are exactly "<i+1>. <belief i>" for each belief, numbered from 1 |
| Suggest.NumberedList | netlify/functions/suggest.js:17 | the numbered list is empty exactly when there are no beliefs |
| Suggest.NumberedLineNoBreak | netlify/functions/suggest.js:17 | a numbered entry spans one line when its belief does |
| Suggest.Prompt | netlify/functions/suggest.js:13-25 | the prompt starts with the fixed instructions and contains the numbered list |
| Suggest.PromptListsBeliefs | netlify/functions/suggest.js:13-25 | the prompt contains every belief under its number |
| Suggest.Handle | netlify/functions/suggest.js:6-54 | without a key nothing is sent and the answer is the 500; the answer is 200 exactly when a key is set and the service replied, with a non-empty suggestion; an exception gives a 500 with its message |
| Suggest.BlankReplyFallsBack | netlify/functions/suggest.js:44-49 | an empty reply yields a 200 carrying the fallback suggestion |
| Upstream.Sources | src/App.jsx:80 | at most one source per edge |
| Upstream.SourcesMembers | src/App.jsx:80 | the sources are exactly the source ends of the edges into the node |
| Upstream.SourcesOne | src/App.jsx:80 | one edge contributes its source exactly when it points at the node |
| Upstream.SourcesAppend | src/App.jsx:80 | the sources of concatenated edge lists are the sources of each, in edge order |
| Upstream.Find | src/App.jsx:81 | `find` succeeds exactly when some node has the id, and returns a node with that id |
| Upstream.FindFirst | src/App.jsx:81 | `find` returns the first node with the id: a node whose predecessors all have other ids is the one found |
| Upstream.Resolve | src/App.jsx:81 | no more nodes than ids, each a node of the graph |
| Upstream.ResolveMembers | src/App.jsx:81 | every resolved node has one of the ids, and every id that names a node resolves to the first node with that id |
| Upstream.ResolveTwo | src/App.jsx:81 | two ids that both name nodes resolve to those nodes, in order |
| Upstream.ResolveAppend | src/App.jsx:81 | resolving concatenated id lists resolves each, in order |
| Upstream.Parents | src/App.jsx:80-81 | the parents are graph nodes, at most one per incoming edge |
| Upstream.ParentsMembers | src/App.jsx:80-81 | each parent is the source end of an edge into the node, and the source end of every such edge that is a node is a parent |
| Upstream.ParentsAppend | src/App.jsx:80-81 | the parents along concatenated edge lists are those of each, in edge order |
| Upstream.UpstreamOf | src/App.jsx:77-82 | `getUpstream(id)` with a fresh visited set emits only labels of graph nodes |
| Upstream.Walk | src/App.jsx:77-82 | the walk only adds to the visited set and emits only labels of graph nodes |
| Upstream.WalkEach | src/App.jsx:82 | the `flatMap` only adds to the visited set and emits only labels of graph nodes |
| Upstream.WalkVisited | src/App.jsx:78 | an id already visited yields nothing and leaves the set unchanged |
| Upstream.NoIncomingNoUpstream | src/App.jsx:80-82 | a node no edge points to has no upstream |
| Upstream.WalkEachListsParents | src/App.jsx:82 | every parent's label is emitted, even for a parent already visited |
| Upstream.WalkListsParents | src/App.jsx:80-82 | the labels of all parents of an unvisited node appear in its upstream |
| Upstream.WalkBound | src/App.jsx:77-82 | each expansion emits at most one label per edge into the expanded node, and no node is expanded twice |
| Upstream.WalkEachBound | src/App.jsx:82 | the same bound across a list of parents, plus one label per parent |
| Upstream.UpstreamBounded | src/App.jsx:77-82 | a top-level call emits no more labels than there are edges, so it ends even on cycles |
| Upstream.WalkEachStep | src/App.jsx:82 | the first parent's label, then its upstream, then the rest with the updated visited set |
| Upstream.DiamondRepeatsLabel | src/App.jsx:82 | on a diamond x←b←a, x←c←a, the upstream of x is B, A, C, A: the shared ancestor is listed twice |
| BeliefNodeView.BorderColour | src/BeliefNode.jsx:14-18 | each of coherent, contradictory, harmful and incoherent has its own colour, and gray holds exactly for core, pending and undefined |
| BeliefNodeView.DetailsPanel | src/BeliefNode.jsx:28-32 | the panel is shown exactly when the node is expanded and has a response body, with the summary and details of an analysis |
| BeliefNodeView.NodeView.constructor | src/BeliefNode.jsx:5 | a node starts collapsed |
| BeliefNodeView.NodeView.Toggle | src/BeliefNode.jsx:21-23 | a click negates `expanded` |
| BeliefNodeView.ClickTwice | src/BeliefNode.jsx:21-23 | two clicks restore `expanded` and what is shown |
| BeliefNodeView.Mount | src/BeliefNode.jsx:5 | a freshly mounted node shows no details, whatever its data |
| App.ModeFrom | src/App.jsx:29-36 | the loop is still prompting exactly when no answer was a cancel or a mode name |
| App.ModeFromFirstDecisive | src/App.jsx:31-35 | the first answer that is a cancel or a mode name in any letter case decides the outcome, and the answers before it are ignored |
| App.ModeChosenWasAnswered | src/App.jsx:31-36 | a chosen mode is some answer lower-cased |
| App.ModeCancelledWasAnswered | src/App.jsx:33 | a cancelled selection means a prompt was cancelled |
| App.ChooseMode | src/App.jsx:30-36 | the loop's outcome is the reference outcome `ModeFrom` |
| App.CoreLabelFrom | src/App.jsx:42-46 | a given label is a non-empty answer; a cancel needs a cancelled prompt; the loop waits exactly when every answer was empty |
| App.CoreLabelFirstAnswer | src/App.jsx:43-46 | the first answer that is not the empty string decides: a cancel aborts, any other text is the label |
| App.CollectCoreLabel | src/App.jsx:42-46 | the loop's outcome is the reference outcome `CoreLabelFrom` |
| App.CoreNode | src/App.jsx:48-65 | the core node has id 'core', the centre, confidence 100, the core flag, status 'core', the label, the notes and the mode |
| App.ParseConfidence | src/App.jsx:88 | the confidence is a number exactly when `parseInt` of the answer (null rendered as "null") is, and then that number |
| App.ParseConfidenceOfInt | src/App.jsx:88 | an integer typed in is read back exactly |
| App.ParseConfidenceCancelled | src/App.jsx:88 | a cancelled confidence prompt gives NaN |
| App.CoreLabelText | src/App.jsx:92 | the core label, or `''` when there is no core or no label |
| App.StatusOf | src/App.jsx:118 | the stored status is the classifier's status exactly for an analysis body, and otherwise undefined; it is never 'core' |
| App.EdgeStroke | src/App.jsx:131-134 | the edge stroke is the node's border colour for every status |
| App.EdgeIdInjective | src/App.jsx:127 | two edges from the same source with the same id have the same target |
| App.EdgeFor | src/App.jsx:126-137 | the edge runs from 'core' to the node, with id `core->id` and the node's colour |
| App.BeliefNode | src/App.jsx:110-123 | the new node keeps the entered label, notes and confidence, is not core, has the response's status and body, and sits at the given angle |
| App.BeliefList | src/App.jsx:141 | one label per node, in node order |
| App.SuggestionOf | src/App.jsx:147 | the suggestion is set exactly from a suggestion body |
| App.CommitAppend | src/App.jsx:125-137 | appending a fresh node on the next ring step, with its edge, keeps the graph invariant |
| App.CoreHasNoUpstream | src/App.jsx:91 | in a committed graph no edge points at the core, so its upstream is empty |
| App.UpstreamOfBelief | src/App.jsx:77-82 | in a committed graph the upstream of every added belief is exactly the core label |
| App.EdgeIdsDistinct | src/App.jsx:127 | the edges of a committed graph have distinct ids |
| App.NodeBorderMatchesEdge | src/App.jsx:131-134 | in a committed graph the edge into each added belief has the stroke the node view draws as that belief's border |
| App.FailedAnalysisDrawnGray | src/App.jsx:104-134 | a 500 from the classifier handler leaves the committed status undefined and the edge gray; a 200 always yields a status |
| App.SuggestPromptListsNodes | src/App.jsx:141-145 | the suggestion prompt built from the node labels lists every node under its number |
| App.SuggestionShownOnSuccess | src/App.jsx:146-147 | a 200 from the suggestion handler sets a non-empty suggestion; any other answer clears it |
| App.IdSet.constructor | src/App.jsx:77 | `new Set()` is empty |
| App.IdSet.Add | src/App.jsx:79 | `visited.add` adds exactly the id |
| App.BeliefApp.constructor | src/App.jsx:19-23 | every hook starts null or empty, and the graph invariant holds |
| App.BeliefApp.SelectMode | src/App.jsx:28-38 | with no mode, the mode becomes the loop's chosen mode (unset on cancel); with a mode, nothing changes; nothing else changes |
| App.BeliefApp.AddCoreBelief | src/App.jsx:41-75 | once a mode is set and while there is no core, a given label makes the core node the only node; otherwise nothing changes; the invariant is kept |
| App.BeliefApp.GetUpstream | src/App.jsx:77-83 | the labels and the visited set it leaves are those of the reference walk `Upstream.Walk` |
| App.BeliefApp.AddBelief | src/App.jsx:85-138 | the request carries the core label, an empty upstream, the typed belief, the parsed confidence and the notes; on an answer exactly one node and its edge are appended; on a throw nothing is; the invariant is kept |
| App.BeliefApp.Commit | src/App.jsx:125-137 | the node and its edge from the core are appended, nothing else changes, and the invariant is kept |
| App.BeliefApp.HandleSuggest | src/App.jsx:140-148 | the request lists the node labels in order; the panel shows the reply's suggestion, unchanged on a throw; the graph is untouched |
| App.BeliefApp.AcceptSuggestion | src/App.jsx:150-153 | the panel is cleared and a belief is added with the label typed at the prompt, not the suggestion |
| App.BeliefApp.DismissSuggestion | src/App.jsx:184 | the panel is cleared and nothing else changes |

## Left out

- The network: `fetch` to the reasoning service and to the two functions is foreign I/O.
  - A service reply is a parameter: an exception, or a reply whose text may be absent.
  - The body the app receives is a parameter: a body, or `None` when the request or its JSON decoding threw.
- `process.env.CLAUDE_API_KEY` is a boolean parameter.
- `uuidv4` is a fresh-id parameter, required not to be an existing node id.
- `prompt()` answers are parameters, with `null` as `None`.
  - The prompt loops take a sequence of answers.
  - Running out of answers is the "still prompting" outcome.
- `JSON.parse(event.body || '{}')` runs outside the `try`. A malformed request body makes the function fail rather than answer, so the model does not cover it.
  - Request fields that are missing, and so `undefined`, are also not modelled.
- Node coordinates: `Math.cos`/`Math.sin` are floating point. Only the integer angle `(nodes.length - 1) * 18` is kept.
- Rendering: React, ReactFlow (including `onNodesChange`/`onEdgesChange`), the watermark and the buttons are left out.
  - `App.BeliefApp.HandleSuggest`, `App.BeliefApp.AcceptSuggestion`, `App.BeliefApp.DismissSuggestion`: the buttons that call them are shown only in sandbox mode or with a suggestion present. The handlers do not check this, and neither does the model.
  - `App.BeliefApp.AddBelief`: requires a core belief, because the Add Belief button is rendered only after one exists.
- `useEffect` scheduling and how overlapping `addBelief` calls interleave are async behaviour and are not modelled. Each handler runs to completion.
- `setNodes`/`setEdges` batching is not modelled: updates take effect when the handler runs.
- `src/main.jsx` only mounts the app and is not part of this model.
- `Text.ToLower`: covers ASCII letters only. Unicode case mapping is not modelled.
- `Text.ParseInt`: exact on integers. `parseInt`'s loss of precision above 2^53 is not modelled.
- `Suggest.NumberedFrom`: the backticks inside the interpolation at `netlify/functions/suggest.js:17` are escaped, which is a syntax error as written. The model takes the evident numbered-list intent.
- The model name, token limits and temperature sent to the service are request constants with no effect on the logic, and are not modelled.
