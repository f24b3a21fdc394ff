# doze routing core, modelled in Dafny

doze is a small Go HTTP toolkit. This project models its core:

- **Regular-expression routers** (router.go, route.go). Named routers hold routes. A route template such as `/people/{id:i}/details/{name}` compiles to an expression in which every placeholder becomes a capture group of its class. `Match` finds a route whose expression covers the whole path and records the captured values. `Params` pairs those values with the placeholder names, turning integers into numbers. `Build` does the reverse: it writes values back into the template.
- **Segment matcher** (router_util.go, route_util.go). A template and a path are split on '/'. They are compared segment by segment, and placeholders are checked against their type tag.
- **Byte trie** (router_v2.go). Templates are stored in a trie with 87 child slots per node. The literal '<', '>' and '*' stand for integer, alphabetic and any segment. `search` skips the bytes of a segment that has no literal child, then tries the typed branches. The same file has a small brace-stack parser that lists the placeholders of a template by segment number.
- **The two request handlers**:
  - doze.go: a linked middleware chain (middleware.go) around an action.
  - rest.go: interceptors, then middleware.
- **Response writer wrapper** (http.go). It counts the bytes written and keeps the last status code.

Modules, one per file:

- `Text`: `strconv.Atoi`/`Itoa` and `strings.Split`/`Index`.
- `Template`: how `regParam` reads a template, and the compiled expression with its leftmost backtracking match.
- `Routes`: `DozeRoute`, `Params` and `Build`.
- `Router`: the router registry, `Add`, `Get` and `Match`.
- `UriMatch`: the segment matcher.
- `Trie`, `TrieKey`, `TrieFacts` and `TrieTable`: router_v2.go and its test table.
- `RouteParams`: `parseRouteParams`.
- `Chain`: middleware.go.
- `Doze`, `Rest` and `Http`.

Host-side inputs become parameters:

- what the host writer reports (`n`, a failure flag);
- what a router's `Match` found, for the handlers, which reach their router through an interface;
- the iteration order of Go maps where the source depends on it (`order`).

Where a test and the code disagree, the model follows the code. One such place is the test at router_test.go:93-101. It expects `Build` to fail with "parameter not valid: not" when a map has the right size but a wrong key. The code has no such check: it leaves the unmatched placeholder in the path and returns no error. `Routes.Build` does the same.

In two places the code itself has a defect, listed under "## Findings": the trie's `search` (and so `Match`), and `Build` on a route without parameters. There the model states the code as written (`Trie.FoundAsWritten`, `Routes.BuildAsWritten`), but the main members (`Trie.Found`, `Trie.Lookup`, `Trie.RouterV2.Search`, `Trie.RouterV2.Match`, `Routes.Build`) are the corrected versions.

## Model

| member | source | states |
|---|---|---|
| Text.Atoi | route.go:85 | `strconv.Atoi`: a value it reads fits in a 64-bit int, and a text it accepts is non-empty and ends in a digit (so "" and texts ending in a letter are errors) |
| Text.Itoa | route.go:130 | `strconv.Itoa`: never empty, and only digits for a non-negative number |
| Text.Digits | route.go:130 | the digits of a natural number are all decimal digits and read back as that number |
| Text.AtoiItoa | route.go:85-87 | for every 64-bit int, `Atoi(Itoa(n)) == Some(n)`: the round trip `Params` relies on for integer values `Build` wrote |
| Text.Index | router_util.go:109 | `strings.Index` on one byte: -1 exactly when the byte is absent, otherwise the position of its first occurrence |
| Text.Split | router_util.go:39 | `strings.Split`: one more piece than separators, and no piece contains the separator |
| Text.JoinSplit | router_util.go:39 | joining the pieces of a split with the separator gives the text back |
| Text.SplitJoin | router_util.go:39 | splitting the join of separator-free pieces gives the pieces back |
| Template.WordRun | router.go:15 | the run of `\w` bytes starting at a position: all word bytes, ended by a non-word byte or the end of the text |
| Template.PlaceholderAt | router.go:15 | a match of `{(\w+)(:\w+)?}` at the start of a text: a well-formed placeholder whose text starts the text |
| Template.PlaceholderAtOk | router.go:15 | what is found is a word name with an empty or ':'-word tag, and its text is a prefix of the input |
| Template.PlaceholderOfText | router.go:15 | a written-out placeholder is found again at the start of any text it begins (the `regParam` round trip) |
| Template.Pieces | router.go:102 | the `FindAllStringSubmatch` reading of a template: every placeholder piece is a well-formed `{name}` or `{name:type}`, and no piece is yet a class |
| Template.SpellPieces | router.go:102-104 | reading a template loses nothing: the pieces spell the template again |
| Template.HoleIsOpen | router.go:102 | every placeholder in `toSub` is one of the pieces |
| Template.Names | router.go:107-112 | the parameter names are the placeholder names, in order, one per placeholder |
| Template.KindOf | router.go:110-118 | tags `:i`, `:a`, `:an` give the integer, alphabetic and alphanumeric classes; a missing or unknown tag gives `[^/]` |
| Template.Replace | router.go:119 | `strings.Replace(.., whole, regex, -1)`: every piece equal to that placeholder becomes the class; every other piece is kept |
| Template.ClassesExcludeSlash | router.go:17-19 | no class contains '/', so a captured value never spans two segments |
| Template.ToAtoms | router.go:119-125 | the expression of the pieces has one atom per piece |
| Template.Compile | router.go:101-126 | the expression `initRoute` compiles a template to: every placeholder replaced by its class, then an optional '/'; its properties are stated by `CompileRoute`, `CompiledGroups` and `GroupsMatchNames` |
| Template.CompileRoute | router.go:101-126 | `initRoute`'s loop: the names are `Names` of the placeholders found; replacing every placeholder's text by its class gives the expression `Compile` describes |
| Template.ReplaceKeeps | router.go:119 | one turn of the loop turns exactly the pieces that are that placeholder into its class |
| Template.AllHolesFound | router.go:102-109 | every placeholder piece is among those the loop visits |
| Template.ToAtomsSame | router.go:119 | replacing a text everywhere equals replacing each placeholder by its own class, because a placeholder's text decides its tag |
| Template.GroupsMatchNames | router.go:107-112 | a compiled template has exactly one capture group per parameter name |
| Template.CompiledGroups | router.go:101-125 | the expression of any template has as many groups as it has placeholders |
| Template.ClassRun | router.go:134 | the greedy run of a class from a position: every byte is in the class and the next one is not |
| Template.Run | router.go:134 | the leftmost backtracking search of Go's `regexp` over the compiled atoms; checked against the reference `Spans` by `RunSound` and `RunComplete` |
| Template.Try | router.go:134 | the greedy class step of `Run`: the longest run first, then shorter ones; checked by `TrySound` |
| Template.Accept | router.go:134-135 | `FindStringSubmatch(test)` with `matches[0] == test`: the groups when the first match covers the whole path; characterised by `AcceptSound` and `AcceptExactly` |
| Template.RunSound | router.go:134 | every match the backtracking search returns is a real match of the atoms, with those group texts |
| Template.TrySound | router.go:134 | the same for the search step that tries shorter runs of a class |
| Template.AcceptSound | router.go:134-135 | a path the router accepts (`matches[0] == test`) is matched by the expression as a whole |
| Template.SpansGroups | router.go:136-140 | a match has one group text per class atom |
| Template.RunComplete | router.go:134-135 | on expressions whose classes each end at a '/' or at the end, the search finds every whole-path match, with its groups |
| Template.RunStopsThere | router.go:134 | in such expressions a matching group is its class's whole run |
| Template.AcceptExactly | router.go:132-145 | on such expressions, `Accept` gives `Some(groups)` exactly when the expression matches the whole path with those groups (both directions) |
| Template.AcceptedGroups | router.go:136-142 | a matched template captures one value per parameter name |
| Routes.DozeRoute.constructor | router.go:61-63 | `NewRoute`: empty name and path, no actions, names or values |
| Routes.DozeRoute.SetName | route.go:52-54 | the name becomes the argument; every other field is unchanged |
| Routes.DozeRoute.SetPath | route.go:56-58 | the path becomes the argument; every other field is unchanged |
| Routes.DozeRoute.SetActions | route.go:60-62 | the action map becomes the argument; every other field is unchanged |
| Routes.DozeRoute.SetParamNames | route.go:64-66 | the names become the argument; every other field is unchanged |
| Routes.DozeRoute.SetParamValues | route.go:68-70 | the values become the argument; every other field is unchanged |
| Routes.DozeRoute.Named | router.go:65-69 | sets the name and returns the same route |
| Routes.DozeRoute.For | router.go:71-75 | sets the path and returns the same route |
| Routes.DozeRoute.With | router.go:77-83 | maps the method to the action, keeps the other methods' actions, and returns the same route |
| Routes.DozeRoute.And | router.go:85-87 | the same as `With` |
| Routes.DozeRoute.Params | route.go:79-90 | the map `ParamsOf(names, values)`: each name with its value, as an integer when `Atoi` accepts it; the route is unchanged |
| Routes.Coerce | route.go:84-87 | a value as `Params` stores it: the integer when `strconv.Atoi` reads one, the text otherwise; see `CoerceItoa` and `CoerceText` |
| Routes.ParamsOf | route.go:79-90 | the map `Params` fills, value by value; characterised by `ParamsZip` |
| Routes.ParamsZip | route.go:79-90 | with distinct names, `Params` maps exactly the names that have a value, each to its own (coerced) value |
| Routes.CoerceItoa | route.go:85-87 | the text `Itoa` writes for a 64-bit int is read back as that integer |
| Routes.CoerceText | route.go:84-87 | a value not ending in a digit stays text |
| Routes.KeyMatch | route.go:105 | `{(p)(?::\w+)?}` at the start of a text: the match is `{p}` or `{p:type}` and ends at its '}' |
| Routes.FirstKeyMatch | route.go:110 | the alternation tries the keys in listed order; the match it reports is one key's match |
| Routes.FirstKeyMatchIs | route.go:110 | there is a match exactly when some key matches, and it is the first key in order that does |
| Routes.Replacement | route.go:112-138 | the replacer: the name is the text before the first ':' or inside the braces; a missing key gives ""; int gives its decimal text, string itself, float32 and other types "" |
| Routes.Lookup | route.go:122-138 | the text of a name's value, "" when the map lacks the name |
| Routes.ReplacerRejectsEmpty | route.go:119 | on the empty text the replacer's slice `str[1:len(str)-1]` is out of range: it panics |
| Routes.BuildAsWritten | route.go:94-142 | as written: the count error exactly when names and map sizes differ; with no parameters at all, a panic |
| Routes.Build | route.go:94-142 | an error exactly when the counts differ, with the source's message; a route without parameters builds to its own path |
| Routes.KeyMatchHole | route.go:105 | a word key matches exactly where a placeholder with that name starts, covering the placeholder |
| Routes.ReplaceHole | route.go:112-121 | the replacer reads a placeholder's own name from its text |
| Routes.Substitute | route.go:110-139 | `ReplaceAllStringFunc` with the keys' alternation: each match replaced, other bytes kept; characterised by `SubstituteFills` against the reference `Fill` |
| Routes.SubstitutePlain | route.go:112 | a byte where no match starts is copied |
| Routes.SubstituteText | route.go:112 | text without '{' is copied unchanged |
| Routes.Written | route.go:128-138 | the text written for each key of the map, and only for those keys |
| Routes.FirstMatchHole | route.go:110-112 | the substitution finds a match exactly where a placeholder named by a key starts |
| Routes.HoleKept | route.go:112 | a placeholder not named by a key is copied through |
| Routes.SubstituteHole | route.go:112-138 | a placeholder named by a key is replaced by its value's text |
| Routes.SubstituteFills | route.go:99-141 | with word keys listed exactly once each, `ReplaceAllStringFunc` equals `Fill`: every named placeholder replaced by its text, everything else kept |
| Routes.FillHole | route.go:112-138 | one placeholder step of the substitution agrees with `Fill` |
| Routes.HoleCopied | route.go:112 | a placeholder whose name is no key is copied whole |
| Routes.InsideHole | route.go:112 | no match starts inside a placeholder that is not replaced |
| Routes.FillNothing | route.go:99-141 | with no key, filling the pieces spells the template again |
| Routes.Texts | route.go:128-138 | one written text per placeholder, in order |
| Routes.FillSpans | router.go:125-135 | a filled template is matched by the template's own expression, with the written texts as groups |
| Routes.StaticRouteBuild | route.go:94-141 | for a route without parameters, `Build` as written panics; the corrected `Build` returns the path |
| Routes.BuildThenMatch | route.go:94-142 | reverse routing inverts matching: values of the right classes build a path that the route's expression accepts, capturing exactly the written texts; with a placeholder, `Build` as written gives that same path, and without one it panics |
| Router.Tables.constructor | router.go:44 | a new router's tables are empty |
| Router.Tables.Get | router.go:128-130 | the route stored under the name, and none exactly when no route was stored under it |
| Router.Tables.Match | router.go:132-149 | any route whose expression accepts the whole path may be found (map order is unspecified); it records exactly the captured values; no other route changes; no result means no route accepts |
| Router.RestRouter.SetPrefix | router.go:50-54 | a copy with the new prefix sharing the same tables |
| Router.RouteKey | router.go:94-98 | a route is stored under its name, or under its path when the name is empty |
| Router.Registry.constructor | router.go:33-35 | the registry starts empty |
| Router.Registry.Router | router.go:38-48 | the router registered under the name; the first request makes one with an empty prefix and fresh empty tables, later requests return the same one |
| Router.InitRoute | router.go:101-126 | the route's expression becomes `Compile(path)`; the names are set exactly when the template has placeholders; other routes and the routes table are unchanged |
| Router.Add | router.go:89-99 | the path gets the prefix, the route is compiled, and it is stored under `RouteKey`; other keys are kept |
| Router.MatchFitsNames | router.go:132-145 | after `Add`, a match captures as many values as the route has names |
| Router.TextsCoerce | route.go:79-90 | the texts `Build` writes for integers read back through `Params` as those integers |
| Router.BuildMatchParams | route.go:79-142 | build then match then `Params`: one value per placeholder name, and each number given reads back as that number; with a placeholder, `Build` as written gives the same path, and without one it panics |
| UriMatch.ParsePart | router_util.go:101-117 | a segment wrapped in braces is a placeholder: the name is the text before the first ':' and the type is the text after it; with no ':', the name is the whole inner text and the type is empty |
| UriMatch.ParseNoColon | router_util.go:106 | without ':' the name is the whole text between the braces and the type is empty |
| UriMatch.ParseColon | router_util.go:109-112 | with ':' the name has no ':', and name ':' type between braces is the segment |
| UriMatch.ParseRender | router_util.go:101-117 | a written-out placeholder whose name has no ':' is parsed back to itself |
| UriMatch.MapPatterns | router_util.go:35-46 | `routePatternMapperFunc` with `newRouteUri`'s callback: an entry exactly for the placeholder segments, each parsed by `ParsePart` |
| UriMatch.NewRouteUri | route_util.go:36-59 | the template's '/'-split parts and the placeholder patterns by segment index |
| UriMatch.TestUri.constructor | route_util.go:61-67 | the path's '/'-split parts and no parameters |
| UriMatch.Accepts | route_util.go:86-103 | what a placeholder type accepts, as in `CheckSegment`: `i` an `Atoi` integer, `a` letters, `an` letters or digits, anything else every segment |
| UriMatch.SegmentOk | route_util.go:79-103 | a segment agrees with a placeholder whose type accepts it, or with an equal literal segment |
| UriMatch.Matches | route_util.go:74-112 | the reference meaning of a match: equal segment counts and every segment agreeing; `Match` and `MatchesEverySegment` are stated against it |
| UriMatch.Captured | route_util.go:105 | the placeholders among the first `n` segments, with the path's text: what `Match` adds to `params` |
| UriMatch.FirstFail | route_util.go:79-109 | the first segment that disagrees with the template, or the segment count: every earlier segment agrees |
| UriMatch.Match | route_util.go:74-112 | true exactly when the counts agree and every segment agrees; the placeholders before the first failing segment are added to `params`, and kept even when the match fails |
| UriMatch.CheckSegment | route_util.go:86-103 | `i` needs `Atoi` to succeed, `a` only letters, `an` only letters or digits, and any other type accepts the segment |
| UriMatch.AllOf | route_util.go:92-102 | the rune loops: true exactly when every character is a letter (or a letter or digit) |
| UriMatch.FailsAt | route_util.go:79-109 | when every segment before `i` agrees and segment `i` does not, the match stops at `i` |
| UriMatch.CapturedStep | route_util.go:105 | one more agreeing segment adds its placeholder, if it has one |
| UriMatch.MatchesEverySegment | route_util.go:74-112 | a match is exactly: equal counts and every segment agrees |
| UriMatch.EmptySegment | route_util.go:86-103 | an empty segment fails `i` (`Atoi("")` errors) and passes every other type |
| UriMatch.LiteralTemplate | router_util.go:61-99 | a template without placeholders matches exactly the path equal to it |
| RouteParams.Peek | router_v2.go:344-349 | the top of the stack, or -1 when it is empty |
| RouteParams.RuneStack.constructor | router_v2.go:287 | an empty stack |
| RouteParams.RuneStack.Push | router_v2.go:329-331 | the item is on top of the old stack |
| RouteParams.RuneStack.Pop | router_v2.go:333-342 | returns and removes the top; on an empty stack returns -1 and leaves it empty |
| RouteParams.Step | router_v2.go:291-313 | one turn of the loop for one byte: a '/' counts a segment, a '}' on an open brace records the collected name, a '{' pushes, and bytes inside braces are collected |
| RouteParams.Parse | router_v2.go:291-313 | the loop from a state over the rest of the template; `ParseRouteParams` is proved to compute it |
| RouteParams.ParseRouteParams | router_v2.go:283-313 | the brace-stack loop gives the map `Parse(Start, route).params` |
| RouteParams.ParseShape | router_v2.go:291-313 | the stack only holds '{', and the segment count grows by the slashes read |
| RouteParams.KeysAreSlashCounts | router_v2.go:291-313 | every key is a slash count between the start count and that count plus the slashes in the template |
| RouteParams.NoBraceNoParams | router_v2.go:291-313 | outside braces, text without '{' only counts slashes and records nothing |
| RouteParams.Placeholder | router_v2.go:296-312 | `{name}` with an empty stack records `name` under the current slash count |
| RouteParams.Collect | router_v2.go:303-305 | inside an open brace, plain bytes are collected into the name |
| RouteParams.LiteralThenPlaceholder | router_v2.go:291-313 | a literal then `{name}` (as in /users/{id}) records the name under the literal's slash count, and the scan ends outside braces |
| RouteParams.ParseConcat | router_v2.go:291-313 | scanning `a + b` is scanning `a`, then `b` |
| TrieKey.Consume | router_v2.go:71-76 | drops the byte under the cursor; the cursor stays and the string is one shorter |
| TrieKey.Append | router_v2.go:78-83 | adds the byte at the end and advances the cursor |
| TrieKey.InsertAt | router_v2.go:85-90 | overwrites the byte at the index; length, cursor and other bytes are kept |
| TrieKey.Next | router_v2.go:92-97 | advances the cursor over an unchanged string |
| TrieKey.Current | router_v2.go:99-101 | the byte under the cursor; see `InsertAtCurrent`, `ConsumeShifts` and `NextWalks` |
| TrieKey.HasNext | router_v2.go:103-105 | the cursor is before the end; see `NextWalks` |
| TrieKey.InsertAtCurrent | router_v2.go:85-101 | `Current` reads what `InsertAt` wrote under the cursor; rewriting the current byte changes nothing |
| TrieKey.ConsumeShifts | router_v2.go:71-101 | after `Consume` the successor byte is current and the rest is shifted by one |
| TrieKey.NextWalks | router_v2.go:92-105 | `n` steps from 0 read the string in order; `HasNext` holds exactly while `n` is less than the length |
| TrieKey.AppendAtEnd | router_v2.go:78-105 | appending at the end keeps the cursor at the end, and the new byte is last |
| Trie.Slot | router_v2.go:132 | `ch - END` is a slot index below 87 for bytes from '$' to 'z' |
| Trie.IsEmpty | router_v2.go:120-128 | true exactly when no child slot is set |
| Trie.Walk | router_v2.go:131-142 | following literal children stays within the arena and moves to later nodes |
| Trie.Inserted | router_v2.go:130-147 | `insert` keeps the arena a well-formed tree and never shrinks it |
| Trie.ScanAsWritten | router_v2.go:197-280 | the byte loop of `search` as written: whatever it finds is a leaf |
| Trie.FoundAsWritten | router_v2.go:188-281 | `search` as written: whatever it finds is a leaf |
| Trie.ScanFrom | router_v2.go:197-280 | the corrected byte loop: whatever it finds is a leaf |
| Trie.Found | router_v2.go:188-281 | the corrected `search`: whatever it finds is a leaf |
| Trie.Lookup | router_v2.go:35-43 | the route of the leaf the corrected search finds from the root, if any |
| Trie.RouterV2.constructor | router_v2.go:23-29 | a lone root node |
| Trie.RouterV2.Insert | router_v2.go:130-147 | the arena becomes `Inserted(old arena, root, s, v)` and stays well formed |
| Trie.RouterV2.Search | router_v2.go:188-281 | the recursive byte loop computes `Found`, a leaf when it finds anything |
| Trie.RouterV2.Match | router_v2.go:35-43 | matched exactly when the search finds a leaf, and then the leaf's route |
| TrieFacts.InsertReachesLeaf | router_v2.go:130-147 | after `insert`, the template's bytes lead to a leaf holding the route; no other node changes its leaf flag or route; old links are kept |
| TrieFacts.WalkKept | router_v2.go:130-147 | `insert` only adds links, so every old walk is still a walk |
| TrieFacts.InsertKeepsSlotFree | router_v2.go:130-142 | a slot that no node uses and no template byte addresses stays unused, so typed branches come only from '<', '>' and '*' |
| TrieFacts.LiteralKeyDecides | router_v2.go:257-280 | a key that walks literal children is found exactly when its end node is a leaf, by the corrected search and by `search` as written alike |
| TrieFacts.SkippingFails | router_v2.go:259-273 | in a trie of literal templates, once the corrected search starts skipping it cannot succeed |
| TrieFacts.ScanFollows | router_v2.go:257-258 | outside a skipped segment the search, corrected or as written, follows literal children byte by byte |
| TrieFacts.ScanSkips | router_v2.go:259-273 | bytes with no literal child are skipped to the segment end, recording whether they were all digits and all letters (corrected and as written alike) |
| TrieFacts.LiteralScan | router_v2.go:197-280 | in a trie of literal templates, the corrected search is decided by the literal walk alone |
| TrieFacts.LiteralMatch | router_v2.go:188-281 | with literal templates only, a key matches exactly when it spells a path to a leaf, and it matches that leaf; prefixes and extensions of a route do not match |
| TrieFacts.InsertThenLookup | router_v2.go:53-64 | registering a literal template keeps the trie literal, and the template then looks up the route just registered; registering it again replaces the route; `search` as written finds the same leaf for it |
| TrieFacts.ScanAcceptsMore | router_v2.go:197-280 | from any state of the byte loop, a key the corrected loop accepts is accepted by the loop as written |
| TrieFacts.FoundAcceptsMore | router_v2.go:188-281 | every key the corrected `search` finds a leaf for, `search` as written finds a leaf for too (the converse fails: /xfoo) |
| TrieTable.Kids | router_v2.go:108 | a child array of 87 slots |
| TrieTable.Chain | router_v2.go:131-146 | the nodes `insert` allocates for a new branch: one per byte, plus the leaf |
| TrieTable.InsertFresh | router_v2.go:130-147 | inserting below a fresh last node appends a chain |
| TrieTable.InsertFollows | router_v2.go:131-142 | inserting `p + s` first follows the existing path `p` |
| TrieTable.InsertBranches | router_v2.go:131-147 | inserting at a node with no child for the first byte grows a fresh chain below it |
| TrieTable.InsertGrows | router_v2.go:130-147 | a new branch is linked below the end of the shared prefix |
| TrieTable.Built1 | router_v2_test.go:21 | registering /f/* gives exactly the arena `F1` |
| TrieTable.Built2 | router_v2_test.go:21-22 | then /f/*/b/c gives exactly `F2` |
| TrieTable.Built3 | router_v2_test.go:21-23 | then /f/</b/c/< gives exactly `F3` |
| TrieTable.Shape3 | router_v2_test.go:21-23 | /f/ leads to node 3 with no INT child before the third template; registering it links INT there and appends a chain for /b/c/< |
| TrieTable.WellFormed3 | router_v2_test.go:21-23 | `F3` is a well-formed arena |
| TrieTable.TypedSlotsOnly | router_v2_test.go:21-23 | below /f/ only the WILDCARD and INT slots are used |
| TrieTable.IntTail | router_v2_test.go:98-99 | below the INT child of /f/, /b/c/4321 reaches the leaf of /f/</b/c/<, corrected and as written |
| TrieTable.IntBranchFirst | router_v2_test.go:98-99 | /f/1234/b/c/4321 matches the third template, through both INT branches; `search` as written finds the same leaf |
| TrieTable.WildcardTailTooLong | router_v2_test.go:102-103 | below WILDCARD, the leaf of /f/*/b/c has no child for a further segment: no match, corrected or as written |
| TrieTable.LeafStops | router_v2.go:260-262 | a byte with no child under a leaf that never had children ends the search with no match, corrected or as written |
| TrieTable.BranchOutcome | router_v2.go:200-256 | for keys /f/1234... and /f/asdf..., the whole search, corrected or as written, comes down to the typed branches tried at the end of the third segment |
| TrieTable.LettersSkipInt | router_v2_test.go:102-103 | /f/asdf/b/c/4321 does not match: letters rule out INT and WILDCARD is one segment short; nor does it match as written |
| TrieTable.BacktrackToWildcard | router_v2_test.go:82-83 | /f/1234 matches /f/*: INT is tried first and fails, and the search backtracks to WILDCARD; `search` as written finds the same leaf |
| TrieTable.LiteralFound | router_v2.go:257-280 | a key that walks literal children to a node with no '$' child is found exactly when that node is a leaf; `search` as written agrees |
| TrieTable.AllBranchesFail | router_v2_test.go:86-87 | /f/1234/b does not match: both typed branches stop at interior nodes; nor does it match as written |
| TrieTable.WildcardOneSegment | router_v2_test.go:94-95 | /f/asdf/b/c matches /f/*/b/c through WILDCARD; `search` as written finds the same leaf |
| TrieTable.PrefixDoesNotMatch | router_v2_test.go:42-47 | with /foo registered, /foo matches and /fo does not, corrected and as written |
| TrieTable.StrayByteMatchesAsWritten | router_v2.go:254-273 | as written, /xfoo and /fxoo reach the leaf of /foo |
| TrieTable.StrayByteRejected | router_v2.go:254-273 | corrected, neither /xfoo nor /fxoo matches /foo |
| Chain.ApplyAll | middleware.go:53-58 | effects on the context change neither what was sent nor the action count |
| Chain.Send | middleware.go:66-71 | a response is sent (status, then body); it panics exactly when the writer reports an error |
| Chain.DoAction | middleware.go:63-73 | a nil action panics; otherwise the action runs once, and its result is sent only when it is not nil |
| Chain.RunChain | middleware.go:46-61 | the continuation `buildChain` makes for a middleware: the action when none is left, otherwise the middleware's steps with a `next` that continues at the following one; its properties are `ActionRuns`, `NoPanic` and `ShortCircuit` |
| Chain.Exec | middleware.go:46-61 | a middleware's steps in order: an effect changes the context, a `next` runs the rest of the chain, and a panic there stops the middleware |
| Chain.Runs | middleware.go:46-61 | the product of the middleware's `next`-call counts; zero exactly when some middleware left does not call `next` |
| Chain.ActionRuns | middleware.go:46-61 | a run that returns has run the action the product of the middleware's `next`-call counts: never if one skips `next`, once if each calls it once |
| Chain.ExecRuns | middleware.go:53-58 | the same count from any step of a middleware |
| Chain.NoPanic | middleware.go:46-73 | with an action and a writer that does not fail, a run never panics |
| Chain.ExecNoPanic | middleware.go:53-58 | the same from any step of a middleware |
| Chain.ShortCircuit | middleware.go:46-61 | a middleware that never calls `next` ends the run with its own effects alone: no later middleware or action runs and nothing is sent |
| Chain.ExecAlone | middleware.go:46-61 | from any step of a middleware with no `next` left, the run is the remaining effects alone |
| Chain.EmptyChain | middleware.go:49-50 | with no middleware, `run` is the action |
| Chain.OrderedEffects | middleware_test.go:10-33 | three middleware setting 11, then 11-2, then 9/3 lead the action to answer `{"Value":3}` once, with status 200 |
| Chain.MiddlewareChain.constructor | middleware.go:14-17 | no middleware and a nil action |
| Chain.MiddlewareChain.Add | middleware.go:19-34 | the middleware joins the end of the chain; earlier ones and the action stay |
| Chain.MiddlewareChain.Run | middleware.go:36-44 | the outcome of the chain built from the first middleware |
| Doze.Status | doze.go:46-54 | 404 for an unmatched path, 405 for a missing method |
| Doze.Serve | doze.go:44-67 | the answer to a request: 404 without a route, 405 without the method's action, otherwise the chain run with that action on a fresh context; see `Refusals` and `AcceptedRuns` |
| Doze.Handler.constructor | doze.go:32-34 | an empty chain with no action |
| Doze.Handler.Use | doze.go:40-42 | the middleware joins the end of the chain |
| Doze.Handler.ServeHTTP | doze.go:44-67 | the answer is `Serve`: 404, 405, or a chain run with the method's action on a fresh context; an accepted request leaves that action on the chain; a refused one changes nothing |
| Doze.Refusals | doze.go:45-55 | 404 exactly when no route matched, 405 exactly when the route lacks the method |
| Doze.AcceptedRuns | doze.go:57-66 | an accepted request with a working writer returns, having run the action `Runs` times |
| Http.AfterWrite | http.go:13-21 | the size grows by `n` exactly on success; the status is kept |
| Http.AfterHeader | http.go:25-29 | the status becomes the code; the size is kept |
| Http.ResponseWriter.constructor | doze.go:59 | both counters 0 |
| Http.ResponseWriter.Write | http.go:13-21 | returns the host's `(n, err)` and updates the counters as `AfterWrite` |
| Http.ResponseWriter.WriteHeader | http.go:25-29 | updates the counters as `AfterHeader` |
| Http.ResponseWriter.IsWritten | http.go:32-34 | true exactly when the size is positive |
| Http.SizeGrows | http.go:13-21 | with `n >= 0` the size never shrinks, a successful non-empty write makes the writer written, and a written writer stays written |
| Http.LastHeaderWins | http.go:25-29 | the last status wins, and header and body writes commute on the counters |
| Http.FreshNotWritten | http.go:32-34 | a fresh wrapper is not written and has status 0 |
| Rest.Invoke | rest.go:51-52 | one interceptor called on the context: what it did to the context and its answer |
| Rest.Intercepted | rest.go:49-56 | the interceptors in order until the first false; sends nothing and runs no action |
| Rest.Status | rest.go:59-69 | 404 for an unmatched path, 405 for a missing method |
| Rest.Serve | rest.go:58-88 | the answer to a request: 404, 405, stopped by an interceptor, or handed on with the middleware and the action; see `StoppedSendsNothing` |
| Rest.Handler.constructor | rest.go:37-39 | no interceptors and no middleware |
| Rest.Handler.Intercept | rest.go:41-43 | the interceptor goes last; middleware unchanged |
| Rest.Handler.Use | rest.go:45-47 | the middleware goes last; interceptors unchanged |
| Rest.Handler.InvokeInterceptors | rest.go:49-56 | the loop computes `Intercepted` |
| Rest.Handler.ServeHTTP | rest.go:58-88 | the answer is `Serve`: 404, 405, stopped by an interceptor, or handed to `run` with the middleware and the method's action |
| Rest.InterceptedAppend | rest.go:49-56 | running two lists is running the first, then the second only if the first let the request through |
| Rest.StopsAtFirstFalse | rest.go:51-53 | interceptors after the first false are never invoked |
| Rest.AllAllow | rest.go:49-56 | the verdict is true exactly when every interceptor answers true on the context the earlier ones left |
| Rest.StoppedSendsNothing | rest.go:58-88 | 404 and 405 exactly in their cases; a stopped or accepted request has sent nothing and run no action yet |

## Left out

- Routes.DozeRoute.Params: requires at least as many names as values. With fewer, the source indexes past the end of `paramNames` and panics.
- Trie.RouterV2.Insert, Trie.RouterV2.Search, Trie.RouterV2.Match: require template and key bytes between '$' and 'z'. Other bytes index outside the 87 child slots and panic in Go.
- Trie.ScanFrom, Trie.Found, Trie.Lookup, Trie.RouterV2.Search, Trie.RouterV2.Match, TrieFacts.LiteralScan, TrieFacts.LiteralMatch, TrieFacts.SkippingFails: model `search` corrected (see Findings). The source's behaviour is `Trie.FoundAsWritten`. `TrieFacts.FoundAcceptsMore` shows that it accepts every key the corrected search accepts, and the `TrieTable` lemmas show that both give the same result on each test key. `LiteralMatch` and `SkippingFails` do not hold as written (`TrieTable.StrayByteMatchesAsWritten`).
- TrieKey.Consume, TrieKey.InsertAt, TrieKey.Current: require the cursor or index to lie inside the string. Outside it, Go's slicing or indexing panics (router_v2.go:71-76, 85-90, 99-101); the model has no such panic.
- Routes.BuildThenMatch, Router.BuildMatchParams: the round trip holds of the source's `Build` only for templates with at least one placeholder. A template without one builds with the corrected `Build`; both lemmas also state that `Build` as written panics there.
- Routes.Build: models the corrected behaviour for routes without parameters (see Findings). The source's behaviour is `Routes.BuildAsWritten`.
- `GET` names a route by the MD5 hash of its path (router_v2.go:53-64). Hashing and the `routes` map are not modelled; `TrieFacts.InsertThenLookup` states what `GET` does to the trie.
- `search2`, the `wildcards` map and `routerV2.Get` (router_v2.go:31-33, 149-186) are not modelled. `search2` is unused, `wildcards` is written and never read, and `Get` returns an empty route.
- The printing loop at the end of `parseRouteParams` (router_v2.go:315-324) is console output only and is left out.
- `Build` with float64 values: `strconv.FormatFloat` is not modelled. A float64 value carries the text it formats to.
- Template.Compile, Template.Accept, Router.InitRoute, Router.Tables.Match: literal template text is matched byte for byte. `initRoute` hands it to `regexp.MustCompile` as regexp syntax, so metacharacters in a template ('.', '?', '+', '*', '|', '(', '[', '\\', '^', '$') are not modelled. In Go, /a.b also accepts /axb, and an unbalanced '(' or '[' panics.
- Regular-expression metacharacters in `Build` keys: keys are assumed to be word texts, as template placeholders are.
- Concurrency: the registry lock, and the chain action shared between concurrent `ServeHTTP` calls. `SetParamValues` on a route shared by concurrent matches is not modelled either.
- Go map iteration order: `Router.Tables.Match` may find any accepting route, and `Build` takes the key order as a parameter.
- UriMatch.Accepts, UriMatch.AllOf, UriMatch.CheckSegment, UriMatch.Match: character classes are ASCII. Go's `unicode.IsLetter` and `unicode.IsDigit` (router_util.go:79-89, route_util.go:92-102) also accept non-ASCII letters and digits, so a segment such as "café" or "١٢٣" passes an `a` or `an` placeholder in Go but not in the model. Strings are sequences of characters, not of UTF-8 bytes decoded into runes.
- The trie's `search` applies `unicode.IsDigit` and `unicode.IsLetter` to single bytes between '$' and 'z' (router_v2.go:266-270). On those bytes they agree with the ASCII classes the model uses.
- `Context` (context.go), response senders, JSON, gzip and `http.Error`'s body are not part of this model. A response is a status and a body text, and a refusal is its status code.
- rest's `Context.run` is in context.go, which is not part of this model. `Rest.Handler.ServeHTTP` ends by handing over the context, the middleware and the action.
- `Handler.Pattern` (doze.go:36-38) type-asserts the router to a type the package does not define. It is left out.
- The `Routeable` interfaces (doze.go:14-21, rest.go:12-19): the handlers take what the router's `Match` found as a parameter. router.go's `Match` returns a route and a flag, which this interface does not describe.
- Route parameter values are the matched texts, so `paramValues` is a sequence of strings rather than `[]interface{}`.
- Interceptors and middleware are modelled by their effects on the context (value bag, writer counters) and, for interceptors, a verdict.
- `middlewareChain.add` walks its linked list to the tail. The list is modelled as a sequence, and adding is appending.
- Whole-template statements about `parseRouteParams` are made for one literal-then-placeholder stretch at a time. They compose through `RouteParams.ParseConcat`.
- The `TrieTable` lemmas use the first three /f templates of the router_v2_test.go table, not the whole table.

## Findings

| source | as written | input that shows it | evidently intended | confidence | as-written member | corrected member |
|---|---|---|---|---|---|---|
| router_v2.go:254-273 | at a segment end where no typed branch exists, `valid` stays true, so `search` goes on from the node where skipping began, ignoring the skipped bytes | with only /foo registered, the key /xfoo (or /fxoo) matches /foo | a skipped segment that no typed branch accepts is a mismatch | high (not executed) | TrieTable.StrayByteMatchesAsWritten | TrieTable.StrayByteRejected |
| route.go:101-120 | with no parameters and an empty map, the joined expression is empty. It matches the empty text, and the replacer slices `str[1:len(str)-1]` = `str[1:-1]`, which panics | `Build(map[string]interface{}{})` on a route such as /health | a route without parameters builds to its own path | high (not executed) | Routes.StaticRouteBuild | Routes.Build |
