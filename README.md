# esquery core, modelled in Dafny

esquery finds the nodes of an ECMAScript syntax tree that a CSS-like selector
picks (`Program > VariableDeclaration`, `Identifier ~ Literal`,
`[id.name="x"]`, `:first-child`, ...). This project models its two halves,
both in `esquery.js`, and proves properties about them.

- The **parser** turns a token sequence into a selector tree. It has two forms.
  - `Parser.Parsed*` are functions over the tokens still queued.
  - The `Parser.Consume*` methods and `Parser.ProcessTokens` are the source's
    step-by-step routines. They move a cursor where the source calls
    `tokens.shift()`, and each method is proved equal to its function.
  - A parse error, which the source throws, is returned as a value.
  - `ParserLaws` proves the main round trip: every canonical selector tree (a
    term followed by combinator terms and qualifiers, folded to the left, with
    no undefined operand and no operator text the parser could not have read)
    is parsed back from its tokens. It also proves that a prefix which parses
    leaves its tree for the tokens after it, left folding, and the error each
    malformed input leads to, whatever tree precedes it.
- The **matcher** runs a selector tree over a syntax tree. Its parts:
  - `Tree.VisitPre` is the source's pre-order walk, with the context that a
    callback hands down to a subtree.
  - `PathResolve.GetPath` is the dotted property lookup, written as a loop.
  - `Matcher.MatchSelector` has one case for each selector type.
  - The sibling and adjacent loops over one array are methods, proved equal to
    the functions the callbacks use.
  - `MatcherLaws` restates every case without callbacks:
    - `*`: the pre-order;
    - `Foo` and `[attr]`: a filter of the pre-order;
    - `and`: an ordered intersection;
    - descendant and child: a relation on each visit's ancestors;
    - sibling, adjacent and nth-child: relations between positions in one
      array field.
- **`Query`** composes the two, and proves small worked examples on a two-statement program.

## How syntax trees are modelled

- A syntax node is `Tree.Node(id, nodeType, fields)`.
- Node identity, which the source gets from object references through
  `indexOf`, is the `id`.
- A field holds one of three things: a node, an array of nodes, or a scalar
  (an integer number, a string or a boolean).
- The order of the fields stands for the host's property order, which fixes
  the order of visits and of matches.
- A node's `type` is optional: a plain object such as a source location has
  none, and its `type` property is then undefined.
- A single-node field is walked only when its `type` is defined and non-empty,
  the truthiness test in `visitPre`.

## Model

| member | source | states |
|---|---|---|
| Selector.Combine | esquery.js:74-79 | the operator map: `" "`, `>`, `~` and `+` give descendant, child, sibling and adjacent with the given operands (each an iff), and any other operator text gives a node with undefined type |
| Tokens.LiteralToken | esquery.js:216-222 | only number and string tokens carry literals |
| Parser.ParsedValue | esquery.js:216-226 | consumeValue succeeds iff the front token is a number or a string, returns its literal and consumes exactly that token; an empty queue is an error |
| Parser.ParsedArgs | esquery.js:197-211 | consumeArgs succeeds iff the tokens are `(`, then a literal, then the operator `)`; it consumes exactly those three tokens and returns the literal |
| Parser.ParsedPseudo | esquery.js:121-152 | consumePseudo yields only nth-child nodes and consumes at least one token; an empty queue is an error |
| Parser.ParsedAttribute | esquery.js:157-192 | a successful consumeAttribute starts with an identifier and an operator; it yields a selector iff the operator is `=` or `]` and yields undefined otherwise; the selector carries the identifier's name |
| Parser.ParsedSelector | esquery.js:84-116 | consumeSelector always consumes a token; any tree it yields extends the tree so far by exactly one term, combinator or qualifier |
| Parser.Processed | esquery.js:66-72 | processTokens on an empty queue returns the tree so far; starting from a well-shaped tree, the result is well-shaped |
| Parser.Shift | esquery.js:85 | `tokens.shift()`: the front token and the next position, or undefined at the end of the queue |
| Parser.ConsumeValue | esquery.js:216-226 | the method with the cursor computes exactly ParsedValue on the remaining tokens |
| Parser.ConsumeArgs | esquery.js:197-211 | the method with the cursor computes exactly ParsedArgs |
| Parser.ConsumePseudo | esquery.js:121-152 | the method with the cursor computes exactly ParsedPseudo |
| Parser.ConsumeAttribute | esquery.js:157-192 | the method with the cursor computes exactly ParsedAttribute |
| Parser.ConsumeSelector | esquery.js:84-116 | the method with the cursor computes exactly ParsedSelector |
| Parser.ProcessTokens | esquery.js:66-72 | the loop over the queue computes exactly Processed from an undefined tree |
| ParserLaws.OperatorText | esquery.js:74-79 | every mapped combinator's text is one of the four mapped operators, and the operator map sends the text of any combinator node it could have built back to that node |
| ParserLaws.Render | esquery.js:84-116 | every canonical tree has a non-empty token rendering |
| ParserLaws.CombinatorTexts | esquery.js:91 | the test `/[\s>~+]/` accepts the four combinator texts and rejects `:` and `[` |
| ParserLaws.TermStep | esquery.js:84-111 | a wildcard or an identifier with no tree so far is the tree; a pseudo-class or an attribute with no tree so far is the tree |
| ParserLaws.QualifierStep | esquery.js:98-111 | `:` or `[` after a tree joins the qualifier to it with `and` |
| ParserLaws.CombinatorStep | esquery.js:90-97 | a combinator after a tree builds the operator map's node with the tree on the left |
| ParserLaws.SelectorExtends | esquery.js:84-116 | a consumeSelector step that succeeds reads the same tree and consumes the same tokens when more tokens follow |
| ParserLaws.ProcessedAppend | esquery.js:66-72 | processTokens folds from the left: once a prefix is read without error, the tokens after it are read from the tree it left |
| ParserLaws.ProcessRendered | esquery.js:66-72 | processing a rendered tree and then more tokens is processing those tokens with that tree so far |
| ParserLaws.ParseRender | esquery.js:66-116 | round trip: processTokens reads every canonical tree back from its rendering |
| ParserLaws.CanonicalIsWellShaped | esquery.js:84-116 | every canonical tree is one the parser can build |
| ParserLaws.ChildChainFoldsLeft | esquery.js:66-97 | `a > b > c` is `child(child(a, b), c)` |
| ParserLaws.PseudoFoldsLeft | esquery.js:98-104 | `a > b:first-child` is `and(child(a, b), nth-child(0))` |
| ParserLaws.FirstAndLastChild | esquery.js:98-144 | `:first-child` is nth-child 0 and `:last-child` is nth-child -1, joined to the tree so far with `and`, or standing alone when there is no tree so far |
| ParserLaws.TermAfterTreeFails | esquery.js:84-115 | a wildcard or an identifier after any tree (one with undefined operands included) is an "Unexpected token" error carrying the token, the remaining queue and the tree |
| ParserLaws.TrailingOperatorFails | esquery.js:84-115 | any operator as the last token, after any tokens that parse (none at all included), is an "Unexpected token" error carrying the tree read before it |
| ParserLaws.PseudoFails | esquery.js:122-151 | after `:`, anything but the three pseudo-class keywords is an "Unexpected keyword" error for a keyword and an "Unexpected token in pseudo" error otherwise, whatever the tree so far |
| ParserLaws.NthChildArgsFail | esquery.js:197-210 | `:nth-child` not followed by `(` is an "Unexpected token in args" error, whatever the tree so far |
| ParserLaws.AttributeValueFails | esquery.js:157-169 | in `[name=v]`, a `v` that is not a number or a string is an "Unexpected token for value" error, whatever the tree so far |
| ParserLaws.AttributeCloseFails | esquery.js:157-176 | in `[name=v]`, a token other than `]` after the literal is an "Unexpected token in attribute" error carrying the attribute built so far, whatever the tree so far |
| ParserLaws.PseudoFailure | esquery.js:98-104 | when the step after `:` fails, the whole parse fails with that step's error, whatever the tree so far |
| ParserLaws.NthChildCloseFails | esquery.js:197-206 | `:nth-child(v` followed by anything but `)` is an "Unexpected token in value" error carrying the token after it and the remaining queue, whatever the tree so far |
| ParserLaws.LeadingCombinator | esquery.js:90-97 | a combinator with no tree before it (`> a`) is dropped and its right term stands alone as the tree |
| ParserLaws.OtherTokenFails | esquery.js:84-115 | a keyword, a string or a number where a selector step must start is an "Unexpected token" error carrying the token, the remaining queue and the tree so far |
| ParserLaws.UnthrownAttributeError | esquery.js:181-184 | an attribute operator other than `=` and `]` raises no error: the attribute is undefined, so any tree so far gets an undefined `and` operand, and with no tree so far the tree stays undefined |
| ParserLaws.StrayOperatorDropsTree | esquery.js:84-116 | an operator that is not a combinator, `:` or `[`, with tokens after it, makes consumeSelector return undefined, which discards whatever tree was built so far |
| Tree.IndexOf | esquery.js:304-396 | the `indexOf` of the callbacks and of the `and` filter: the first position holding the node, or -1 exactly when the node is absent |
| Tree.VisitPre | esquery.js:241-255 | visitPre: what the callback pushes at the node, then what is pushed below it with the context the callback returned (the incoming one when it returned undefined); no contract of its own, Tree.VisitPreByAncestry characterises it |
| Tree.VisitFields | esquery.js:245-254 | the `for (key in ast)` loop over the fields in order; characterised by Tree.VisitPreByAncestry |
| Tree.VisitValue | esquery.js:247-253 | an array is walked element by element and an object only when its `type` is truthy; characterised by Tree.VisitPreByAncestry |
| Tree.VisitList | esquery.js:248-250 | `forEach` over an array's elements in order; characterised by Tree.VisitPreByAncestry |
| Tree.Visits | esquery.js:241-255 | the visits in pre-order: the node with its ancestors comes first, then its fields' visits |
| Tree.VisitPreByAncestry | esquery.js:241-255 | when the context a callback hands down depends only on the ancestors, visitPre pushes, visit by visit in pre-order, what the callback pushes at that visit |
| Tree.FlatMapMembership | esquery.js:241-255 | a value is pushed iff it is pushed at some visit |
| Tree.FlatMapSelects | esquery.js:241-255 | a callback that pushes a visit's node exactly when a visit test holds selects those visits, in order |
| Tree.SelectMembership | esquery.js:241-255 | a node is selected iff some visit of it passes the test |
| Tree.WhereLaws | esquery.js:395-397 | `filter` keeps a subsequence, keeps exactly the elements that pass, and never grows the array |
| Tree.VisitShape | esquery.js:241-255 | every visit after the first is of a strictly smaller node; its ancestors extend the path to it, and it is among its parent's children |
| PathResolve.SplitDots | esquery.js:261 | `key.split(".")`: at least one piece, and no piece contains a dot |
| PathResolve.JoinSplit | esquery.js:261 | splitting loses nothing: joining the pieces with dots gives the key back |
| PathResolve.SplitJoin | esquery.js:261 | splitting dot-free pieces joined by dots gives the pieces back |
| PathResolve.IndexOfDecimal | esquery.js:265-266 | the key of every array index reaches that element |
| PathResolve.IndexKeyIsDecimal | esquery.js:265-266 | only the canonical decimal numerals are array index keys |
| PathResolve.FieldNamed | esquery.js:265-266 | a node's property is defined iff the node has a field with that key, and its value is that field's value |
| PathResolve.ResolveAppend | esquery.js:263-271 | following a longer path follows the first part, then the rest from there; it is undefined as soon as one part is |
| PathResolve.DottedPath | esquery.js:260-272 | `getPath(v, "w.rest")` reads property `w`, then follows `rest` |
| PathResolve.PlainKey | esquery.js:260-272 | `getPath` with a key without dots reads one property |
| PathResolve.Prop | esquery.js:265-266 | `value[keys[i]]` when it is not undefined; PathResolve.FieldNamed, IndexOfDecimal, IndexKeyIsDecimal and TypeThroughPath characterise it |
| PathResolve.Resolve | esquery.js:263-271 | follows the keys one property at a time and is undefined at the first missing one; PathResolve.ResolveAppend characterises it |
| PathResolve.ResolvedPath | esquery.js:260-272 | getPath as a function; PathResolve.DottedPath and PlainKey characterise it, and PathResolve.GetPath computes it |
| PathResolve.TypeThroughPath | esquery.js:260-272 | `w.type` reads the type of the object at `w` when it has one and is undefined for a plain object without a `type` |
| PathResolve.GetPath | esquery.js:260-272 | the loop returns the value at the path, or undefined at the first missing property |
| Matcher.Match | esquery.js:279-283 | an undefined selector matches nothing (MatcherLaws.MissingOperandMatchesNothing); a defined one is matched by Matcher.MatchSelector |
| Matcher.MatchSelector | esquery.js:285-425 | the switch on the selector's type; each case is characterised by its MatcherLaws lemma below (WildcardIsPreOrder, IdentifierFiltersPreOrder, DescendantByAncestry, ChildByParent, ScannedMembership, NthChildMembership, LastChildMembership, AndIsOrderedIntersection, AttributeFiltersPreOrder), and an unmapped type matches nothing |
| Matcher.FirstFrom | esquery.js:339-344 | the inner sibling loop with its break pushes at most one node; MatcherLaws.FirstFromMembership says which |
| Matcher.SiblingHits | esquery.js:336-347 | what the sibling loops push for one array; MatcherLaws.SiblingMembership characterises it |
| Matcher.AdjacentHits | esquery.js:360-367 | what the adjacent loop pushes for one array; MatcherLaws.AdjacentMembership characterises it |
| Matcher.NthHits | esquery.js:378-384 | nth-child picks the element at the index when it is within the array, the element at length plus the index when the index is negative and that is within the array, and nothing otherwise; MatcherLaws.NthChildMembership lifts this to the whole tree |
| Matcher.EachList | esquery.js:334-335 | `Object.keys(node).forEach` over the array-valued properties, in order; MatcherLaws.ScannedMembership characterises it |
| Matcher.PushEach | esquery.js:288 | the corrected wildcard callback: it pushes every node and returns undefined (see Findings) |
| Matcher.PushIf | esquery.js:292-296 | a callback that pushes the node when it passes a test and returns undefined; MatcherLaws.PushIfFilters characterises it |
| Matcher.HasType | esquery.js:293 | the identifier test on a node's type; MatcherLaws.IdentifierFiltersPreOrder states the nodes it selects |
| Matcher.DescendantVisitor | esquery.js:303-311 | pushes a right match under a true context and returns true at a left match; MatcherLaws.LeftAboveSteps and DescendantWalk characterise it |
| Matcher.ChildVisitor | esquery.js:319-325 | pushes a right match under a positive context and returns 1 at a left match, 0 elsewhere; MatcherLaws.ParentMarkSteps and ChildWalk characterise it |
| Matcher.ScanVisitor | esquery.js:333-350 | the sibling, adjacent and nth-child callbacks: run a scan over every array property and return undefined; MatcherLaws.ScannedMembership characterises it |
| Matcher.SiblingScan | esquery.js:336-347 | the sibling scan over one array; MatcherLaws.SiblingMembership states what it pushes |
| Matcher.AdjacentScan | esquery.js:360-367 | the adjacent scan over one array; MatcherLaws.AdjacentMembership states what it pushes |
| Matcher.NthScan | esquery.js:376-385 | the nth-child scan over one array; Matcher.NthHits states what it pushes, MatcherLaws.NthChildMembership states which nodes nth-child(k) matches for every k, and FirstAndLastElement and NthFromBackMirrors give the first, last and from-the-back cases |
| Matcher.InMatches | esquery.js:395-397 | the `filter` test on the right matches; MatcherLaws.AndIsOrderedIntersection states what it keeps |
| Matcher.AttributeTest | esquery.js:400-422 | the test of `[name]` or `[name=v]`; MatcherLaws.AttributePresence and AttributeEquality characterise it |
| Matcher.StrictEquals | esquery.js:406 | `===` between the value at the path and the literal; MatcherLaws.AttributeEquality states the nodes it selects |
| Matcher.ScanSiblings | esquery.js:333-349 | the two loops over one array push exactly SiblingHits |
| Matcher.ScanAdjacent | esquery.js:357-369 | the loop over one array, which stops one short of the end, pushes exactly AdjacentHits |
| MatcherLaws.ContextFreeWalk | esquery.js:241-255 | a callback that returns undefined pushes, visit by visit in pre-order, what it pushes for each node |
| MatcherLaws.WildcardIsPreOrder | esquery.js:287-289 | `*` matches every node of the tree, in pre-order (the intended behaviour; see Findings) |
| MatcherLaws.PushIfFilters | esquery.js:291-297 | a callback that pushes the nodes passing a test filters the pre-order |
| MatcherLaws.IdentifierFiltersPreOrder | esquery.js:291-297 | an identifier matches exactly the nodes whose type is the name, in pre-order |
| MatcherLaws.AttributeFiltersPreOrder | esquery.js:400-422 | `[name]` and `[name=v]` keep, in pre-order, the nodes that pass their attribute test |
| MatcherLaws.AttributePresence | esquery.js:414-420 | `[name]` matches exactly the nodes at which getPath is defined |
| MatcherLaws.AttributeEquality | esquery.js:402-411 | `[name=v]` matches exactly the nodes at which getPath is `===` the literal |
| MatcherLaws.AndIsOrderedIntersection | esquery.js:391-398 | `and` keeps, in their order, exactly the left matches that are also right matches |
| MatcherLaws.LeftAboveSteps | esquery.js:303-311 | the descendant callback hands down true exactly below a left match |
| MatcherLaws.DescendantWalk | esquery.js:299-313 | the descendant walk pushes the visits of right matches that have a left match among their ancestors |
| MatcherLaws.DescendantByAncestry | esquery.js:299-313 | descendant(l, r) selects the visits of r's matches that have a match of l among their ancestors |
| MatcherLaws.ParentMarkSteps | esquery.js:319-325 | the child callback hands 1 to the children of a left match and 0 to all others |
| MatcherLaws.ChildWalk | esquery.js:315-327 | the child walk pushes the visits of right matches whose parent is a left match |
| MatcherLaws.ChildByParent | esquery.js:315-327 | child(l, r) selects the visits of r's matches whose parent is a match of l |
| MatcherLaws.DescendantMembership | esquery.js:299-313 | a node is a descendant match iff some visit of it below the root is a right match with a left match among its ancestors; every match is strictly inside the tree |
| MatcherLaws.ChildMembership | esquery.js:315-327 | a node is a child match iff some visit of it is a right match whose parent is a left match that has it as a child |
| MatcherLaws.RootNeverBelow | esquery.js:299-327 | the root is never a descendant or a child match |
| MatcherLaws.ScannedMembership | esquery.js:329-389 | sibling, adjacent and nth-child push exactly what the scan finds in some array field of some node |
| MatcherLaws.FirstFromMembership | esquery.js:339-344 | the inner sibling loop pushes `x` iff `x` is the first right match after the position |
| MatcherLaws.SiblingMembership | esquery.js:333-349 | in one array, `x` is pushed iff some left match sits before it and `x` is the first right match after that position |
| MatcherLaws.AdjacentMembership | esquery.js:357-369 | in one array, `x` is pushed iff it directly follows a left match and is a right match |
| MatcherLaws.NthFromBackMirrors | esquery.js:381-385 | a negative index `-(k+1)` picks what index `k` picks in the reversed array |
| MatcherLaws.FirstAndLastElement | esquery.js:374-389 | indices 0 and -1 pick the first and the last element of a non-empty array and nothing from an empty one; any index picks at most one element |
| MatcherLaws.NthChildMembership | esquery.js:374-389 | nth-child(k) matches exactly, in every array field of every node, the element at k when 0 <= k < length, and the element at length + k when k is negative and length + k >= 0 |
| MatcherLaws.LastChildMembership | esquery.js:374-389 | nth-child(-1) matches exactly the last element of every non-empty array field of every node |
| MatcherLaws.MissingOperandMatchesNothing | esquery.js:299-398 | a combinator or an `and` whose right operand is undefined matches nothing |
| WildcardPush.WildcardAsWrittenInterleaves | esquery.js:287-289 | as written, `*` yields twice as many elements as there are nodes: the nodes in pre-order at even positions, undefined right after the root, and so never the list of nodes |
| WildcardPush.LoneNodeCounterexample | esquery.js:287-289 | on a lone node, `*` as written yields the node and undefined, where the intended result is the node alone |
| Query.Query | esquery.js:431-440 | query is the parse error, or match of the tree against the parsed selector |
| Query.QueryRendered | esquery.js:438-440 | querying with the rendering of a canonical selector matches that selector |
| Query.EmptyQuery | esquery.js:66-72 | an empty token sequence parses to undefined and matches nothing |
| Query.TrailingOperatorQueryFails | esquery.js:84-115 | a query whose tokens end in any operator after tokens that parse is an "Unexpected token" error carrying the tree read before it, whatever the tree it would run on |
| Query.QueryIdentifier | esquery.js:291-297 | `Decl_A` on the example program gives its first declaration |
| Query.QueryChild | esquery.js:315-327 | `Program > Decl_B` gives the second declaration |
| Query.QueryDescendant | esquery.js:299-313 | `Program Decl_B` gives the second declaration |
| Query.QuerySibling | esquery.js:329-351 | `Decl_A ~ Decl_B` gives the second declaration, which follows the first in the body |
| Query.QueryFirstChild | esquery.js:374-389 | `:first-child` gives the first element of the body |
| Query.QueryAttribute | esquery.js:414-420 | `[body]` gives the program, the only node with a `body` property |

## Left out

- The tokenizer (esquery.js:9-52) is not modelled. It is a regular expression over the selector string, so parse and query start from a token sequence.
- Number tokens are integers. Fractional numbers in selectors are not modelled.
- Numbers in the syntax tree are integers. Fractional values, and the strict comparison of an integer literal with a fractional property, are not modelled.
- The message text of createError (esquery.js:231-235) is not modelled. An error records its kind, the offending token, the remaining queue and the tree so far.
- Thrown exceptions are modelled as an `Err` result. This includes the TypeError raised when a step reads a token from an empty queue, modelled as `EndOfInput`.
- The module wrapper and the exports (esquery.js:1-4 and 442-457) are not modelled.
- Matcher.MatchSelector: nth-child with a string index matches nothing. The source compares the string with the array length through JavaScript coercion, which is not modelled.
- The context of the child walk starts at 0, where the source starts from undefined. `undefined > 0` and `0 > 0` are both false, so the results agree.
- The host's property order is modelled by the order of a node's fields.
- Field keys are assumed distinct: getPath takes the first field with a key. The `type` property is the node's optional type and takes precedence over a field called `type`.
- A `type` that is not a string (a number, an object) is not modelled: a node's type is a string or undefined.
- PathResolve.Prop has no inherited or prototype properties: no array methods, no `constructor` and no `hasOwnProperty`.
- PathResolve.Prop gives numbers and booleans no properties. `null` values, and arrays holding scalars, are not part of the tree model.
- PathResolve.Prop measures a string's `length` and indices in characters, not UTF-16 code units.
- PathResolve.GetPath writes to a local variable. The source assigns an undeclared, implicitly global `value`; that side effect on the global object is not modelled.
- The callbacks of match are modelled as functions returning what they push and the context they hand down. Only the sibling and adjacent array loops are methods. The shared `matches` array is the concatenation of what the callbacks push.
- Nodes are compared by `id`, standing in for object identity in `indexOf`.

## Findings

| source | as written | input that shows it | evidently intended | confidence | as-written member | corrected member |
|---|---|---|---|---|---|---|
| esquery.js:288 | `visitPre(ast, matches.push.bind(matches))`. visitPre calls the callback with the node and the context, and `push` appends both (the walk is `WildcardPush.WildcardAsWritten`). It then returns the new length, which visitPre hands down as the next context. | a lone `Program` node: `*` yields `[node, undefined]` | every node once, in pre-order: `[node]` | not executed | WildcardPush.WildcardAsWrittenInterleaves | MatcherLaws.WildcardIsPreOrder |

