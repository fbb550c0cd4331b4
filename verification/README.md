# Gofi: routing, codecs, cache, middleware chains and session drain

A Dafny model of the stateful and algorithmic parts of the Gofi web framework, with proofs about every
input, every accepted run of registrations and every interleaving of steps. `dafny verify dfyconfig.toml`
checks all of it.

**The router** (`tree.go`). `RouteTree.dfy` has the radix tree as a value, the node invariant, and `Bound`:
the patterns a tree holds, read as concatenated node paths along `children` and `wildChild`.
`RouteTreeNode.dfy` is the node as the source has it, a class whose methods rewrite `path`, `indices`,
`children`, `wildChild`, `priority` and `data` in place; each method is proved equal to a function on tree
values. `RouteTreeAdd.dfy` proves what registration does to the pattern set and the invariant.
`RouteLookup.dfy` compares `getValue` with `Ref`, a greedy byte-by-byte descent over a bare table of patterns
that is told which catch-alls are *loose* (do not look at the byte before their value). `RouteAccept.dfy` says
which registration is accepted, `RouteLoose.dfy` which catch-alls of a program end up loose, `RouteReach.dfy`
what the reference finds, `RouteSound.dfy` puts captures back into patterns. `RouteTheorems.dfy` and
`RouteOrder.dfy` draw the conclusions about whole programs: what a lookup answers and what the order of
registrations changes. `RouteHint.dfy` says from the routes and the path alone when a lookup gives the
trailing-slash hint, `Redirect.dfy` follows the redirects that come of it, and `RouteDocs.dfy` compares with the
documentation.

**The JSON codec** (`bodyparser_json.go`). `JsonText.dfy` has a printer and a reader written from RFC 8259
(sections 2 to 7, all escapes, white space and number forms). `JsonSchema.dfy` has rules, values and the
relation `Denotes` between a value and the JSON it stands for; `JsonEncoder.dfy` and `JsonDecoder.dfy` are
the two directions, and `JsonRoundTrip.dfy` joins them. `JsonConform.dfy` says for any JSON value at all whether
it is accepted, and what it then means, in terms of JSON kinds, integer ranges and zero values.

**Form binding** (`bodyparser_form.go`). `Form.dfy` binds dotted and indexed keys and proves that the
unbounded index loop ends; `FormRoundTrip.dfy` flattens values and binds them back, and names the keys as
literal text; `FormConform.dfy` says for any form whether it is accepted and what it means.

**The rest.** `Cache.dfy` is the response cache with each locked section as one atomic step of many
interleaved requests; `Registry.dfy` the WebSocket drain protocol; `Middleware.dfy` sub-routers over shared
slice arrays; `Chain.dfy` the re-entrant `Next`; `Luhn.dfy` the checksum; `Decimal.dfy`, `Paths.dfy`, `Sets.dfy`
and `Options.dfy` are shared.

A char is a byte of a Go string, except in the JSON modules, where it is a rune of a string in valid UTF-8.
Where Go panics on a registration, the model returns `None` or `false` and says nothing about the tree that is
left. Map iteration order is an arbitrary choice.

Where the code and its documentation or a natural expectation differ, the code is modelled as it is, with an
input that shows it and the condition under which the expectation holds:

* `docs/routing.md:60` promises that every other value reaches a parameter next to a static route. The walk
  does not backtrack: `MikeIsLost` is a lost request, `PatternReachedIff` says for any pattern exactly which
  values reach it (at each parameter, no other pattern goes on with the value's first byte).
* `docs/routing.md:64` promises a redirect for a missing trailing slash, or vice versa. `HintIff` gives the first
  half its one exception, a parameter that would take the empty string. The other half can be wrong in both
  ways: a literal may be found and yet its path with a slash gets no redirect (`SlashHintIsMissing`), and there
  may be a redirect to a path that finds nothing (`SlashHintMisleads`). `SlashHintIff` says exactly when.
* A catch-all held by a node does not look at the byte before its value, so `/src/*f` can answer `/srcxyz`.
  `SwallowedIff`: it does exactly when no route registered before it starts with `/src`. `LookupIsGreedyIff`
  says for each path whether this changes the answer, from the routes and the path alone.
* The order of registrations can change answers (`CatchAllOrderMatters`). `OrderFreeIff`: every order is
  accepted and answers alike exactly when no other route starts with the stem of a catch-all that is not
  right after a parameter.
* `totalBytes` falls below the bytes held when a store evicts the entry it replaces
  (`CountCanDriftInARun`). `StoreTotal` gives the exact amount, `CanDriftIff` says before the store
  exactly when some eviction order loses count: the loop can reach the old entry and stop before the store
  is empty.
* A session can outlive a drain (`ASessionCanOutliveADrain`), because the draining flag is read outside the
  lock. `OpenAfterOneDrainIff`: exactly the running sessions inserted after the snapshot stay open;
  `OpenIff` and `TrackedIff` say so for any number of drains.
* A handler that does not call `Next` need not stop the chain if an earlier one calls `Next` twice
  (`SecondCallRunsPast`); `ChainRuns` says exactly which handlers start.
* Sub-routers used out of nested-callback order can overwrite each other's middlewares (`UsedOutOfOrder`).
  `Fork` says exactly when the child's list survives.
* Control characters other than newline, carriage return and tab are printed unescaped
  (`BellIsNotEscaped`); `EncodedText` says that they are the only reason for an illegal text.
* A field that `omitempty` drops can be one that the decoder asks for (`DroppedZeroIsMissed`). `RoundTrip`:
  what was encoded comes back exactly when no dropped field is.
* The form binder runs a scalar's validators for the fields of the body, not for those of nested structs, and
  there an empty string counts as nil: `BindUndoesFlatten` and `StructBinds` give the two conditions.

## Model

| member | source | states |
|---|---|---|
| `RouteTreeAdd.AddRouteBinds` | tree.go:54-275 | an accepted registration adds exactly the binding of its path and changes no other; a path that is bound already is never accepted |
| `RouteTreeAdd.AddRouteKeepsInvariant` | tree.go:31-51 | an accepted registration keeps the whole node invariant, through splits, wildcard insertion and reordering, and raises the root's priority by one |
| `RouteTreeAdd.BuildAgrees` | tree.go:54-185 | after any accepted run of registrations the tree is valid, holds exactly the table of the routes, and its priority is their number |
| `RouteTheorems.PriorityCountsRoutes` | tree.go:31-51 | at every static, root or param node the priority is the size of the table of patterns below it |
| `RouteTreeNode.LongestCommonPrefix` | tree.go:405-412 | the loop returns the length of the longest common prefix |
| `RouteTreeNode.FindWildcard` | tree.go:414-432 | the loop finds the first wildcard byte, the segment from it to the next slash, and whether the name has another wildcard byte |
| `RouteTreeNode.Node.IncrementChildPrio` | tree.go:31-51 | children and indices move together: the child ends in front of exactly the siblings it now outranks |
| `RouteTreeNode.Node.InsertChild` | tree.go:187-275 | in place, builds the chain of param, catch-all and static nodes that the specification names, or panics exactly when it does |
| `RouteTreeNode.Node.AppendChild` | tree.go:158-175 | in place, adds a static child with its index, or panics beside a catch-all |
| `RouteTreeNode.Node.SplitEdge` | tree.go:81-101 | in place, moves the old content below a new static child and keeps the footprint a tree |
| `RouteTreeNode.Node.Walk` | tree.go:71-184 | the walk loop, from any node on: new tree or panic as the specification says, no sharing introduced |
| `RouteTreeNode.Node.AddRoute` | tree.go:54-185 | the whole registration in place equals the registration on tree values, and panics exactly when that fails |
| `RouteTreeNode.Node.GetValue` | tree.go:279-396 | the lookup loop returns the data, the captures and the trailing-slash hint of the lookup on tree values, which `LookupIsRef` and `HintIsHinted` read off the routes |
| `RouteTreeNode.Node.GetParam` | tree.go:301-332 | the param case alone: capture up to the next slash, then the one child, the data or the hint |
| `RouteTreeNode.Register` | tree.go:54-185 | a program's registrations in order: accepted exactly when the run is, with the tree that the run specifies |
| `RouteAccept.WalkAccepts` | tree.go:71-184 | from any node the walk accepts a path, catch-all or not, exactly when its wildcards are well formed and it is free: not bound yet, no pattern names a parameter differently at the same place, none parts ways at the slash before a catch-all, and it does not go on behind the stem of a loose catch-all |
| `RouteAccept.AddRouteAccepts` | tree.go:54-185 | the same for a registration at the root |
| `RouteLoose.BuildAcceptsIff` | tree.go:54-185 | a whole program is accepted exactly when each route is well formed and free of the routes before it, a condition on the paths alone |
| `RouteLoose.BuildLoose` | tree.go:240-275 | the loose catch-alls of the built tree are those that were not right after a parameter and came when no route started with their stem |
| `RouteOrder.BuildAccepts` | tree.go:54-185 | without catch-alls a run is accepted exactly when its paths are well named, distinct and free of naming conflicts: a condition that does not mention the order |
| `RouteOrder.AnyOrder` | tree.go:54-396 | if no other route starts with the stem of a catch-all that is not right after a parameter, any permutation of an accepted run is accepted and gives the same data and captures for every path |
| `RouteOrder.OrderFreeIff` | tree.go:54-396 | and only then: otherwise some permutation is refused or answers some path differently |
| `RouteOrder.LooseIff` | tree.go:240-275 | a registered catch-all is loose exactly when it is not right after a parameter and no route registered before it starts with its stem |
| `RouteOrder.SwallowedIff` | tree.go:334-349 | a catch-all whose stem may hold parameters answers a path that goes on from the filled stem with another byte than a slash exactly when no route registered before it starts with the stem |
| `RouteOrder.SwallowedLiteral` | tree.go:334-349 | the same for a literal stem, with no condition on the other routes |
| `RouteOrder.CatchAllOrderMatters` | tree.go:334-349 | any literal route and any catch-all below it: both orders are accepted, and every path that goes on from the literal differs in its answer, every such route in its acceptance |
| `RouteLookup.Greedy` | tree.go:279-396 | at every node and path the lookup equals the reference over the patterns and the loose catch-alls of the tree |
| `RouteSound.Sound` | tree.go:297-349 | what a lookup finds, at any node, is bound, and its captures fill the pattern up to the byte before a catch-all's value |
| `RouteTheorems.LookupSound` | tree.go:279-396 | the found pattern is registered with that data; filling in the captures gives the path back, but for the byte before a catch-all value; no param value holds a slash; the keys are the pattern's names in order |
| `RouteTheorems.LookupIsRef` | tree.go:279-396 | after any accepted program the lookup equals the reference over its routes and their loose catch-alls, on every path |
| `RouteTheorems.LookupIsGreedyIff` | tree.go:279-396 | it equals the reference that checks the byte before every catch-all value exactly when the path does not skim a loose catch-all, a condition on the routes and the path |
| `RouteReach.SkimsIff` | tree.go:334-349 | in a table of accepted patterns, the loose catch-alls change the answer of the reference exactly for the paths that skim one |
| `RouteTheorems.LookupIsGreedy` | tree.go:279-396 | without catch-alls lookup equals the greedy reference on every path |
| `RouteTheorems.RefSound` | tree.go:287-331 | the reference itself only answers with a registered pattern that its captures turn into the path |
| `RouteTheorems.PatternReachedIff` | tree.go:279-396 | a registered pattern without catch-all, with parameters anywhere, answers its own filled path exactly when no other pattern goes on with the first byte of a value at its parameter; the captures are then the names with the values in order |
| `RouteReach.RefReachesIff` | tree.go:279-396 | the same for the reference, over any table of accepted patterns and any loose catch-alls |
| `RouteTheorems.LiteralRouteFound` | tree.go:360-365 | a wildcard-free route is returned for its own path, without captures, whatever else is registered |
| `RouteTheorems.BuildTame` | tree.go:110-184 | in an accepted program no two routes are against each other: parameters at the same place have the same name, nothing stands beside a catch-all, and nothing goes on behind the stem of a loose one |
| `RouteDocs.ParamReachedIff` | docs/routing.md:60 | for a literal prefix: a value reaches the parameter exactly when no registered pattern continues the prefix with the value's first byte |
| `RouteDocs.MikeIsLost` | tree.go:289-295 | the documented promise fails in both registration orders for a concrete path |
| `RouteHint.HintIsHinted` | tree.go:279-396 | in a built tree, every path but "/" that finds nothing is hinted exactly as the table of the routes says: where its descent ends, what parts there and which patterns go on with a slash |
| `RouteHint.HintIff` | tree.go:315-394 | a path without trailing slash that finds nothing is hinted exactly when the path with the slash is answered by a pattern that ends in a slash, unless its last parameter would take the empty string there |
| `RouteHint.SlashHintIff` | tree.go:315-394 | a path q + "/" that finds nothing: exactly when it is hinted, and exactly when q is found, from the patterns that can go on behind q |
| `RouteHint.SlashHintMisleads` | docs/routing.md:64-66 | for any literals w + "/" + x and w + y: w + "/" is redirected to w, which finds nothing |
| `RouteHint.SlashHintIsMissing` | docs/routing.md:64-66 | for any literal w and two literals that part right behind w + "/": w is found, and w + "/" gets no redirect |
| `Redirect.RedirectIff` | mux.go:179-199 | a request for a path without trailing slash is redirected exactly when it finds nothing, the verb is not CONNECT, and the path with the slash is answered by a pattern that ends in a slash and is not left with an empty parameter |
| `Redirect.RedirectKeepsVerb` | mux.go:181-190 | a redirect is a 301 for GET and a 308 for any other verb, so that the verb is kept, and its location differs by exactly one slash at the end |
| `Redirect.HintIsSound` | tree.go:315-394 | a hint for a path without trailing slash is right: with the slash the path is found |
| `Redirect.RedirectIsAnswered` | mux.go:179-199 | so that redirect is answered by a handler, not by another redirect |
| `Redirect.RedirectsEnd` | mux.go:179-199 | following redirects from any path takes at most max(1, number of trailing slashes) hops |
| `JsonText.TextReadsBack` | bodyparser_json.go:702-721 | reading a printed value gives the value back, exactly when no string holds a control character that the printer does not escape; otherwise no value at all |
| `JsonText.ValueReads` | bodyparser_json.go:702-721 | the same in the middle of a text, before any comma, bracket or end |
| `JsonText.IntegerIsNumber` | bodyparser_json.go:952-955 | a printed integer is a number of the grammar: no leading zero, no lone minus |
| `Decimal.NaturalReads` | bodyparser_form.go:305 | decimal printing gives digits only, no leading zero, and reads back as the number |
| `JsonEncoder.EncodeString` | bodyparser_json.go:702-721 | appends the quoted string, rune by rune, to the buffer |
| `JsonEncoder.EncodeArr` | bodyparser_json.go:730-750 | appends exactly the text of an array that denotes the slice, commas between all elements, unless an element is refused |
| `JsonEncoder.EncodeMap` | bodyparser_json.go:752-784 | appends the text of an object with exactly the map's entries, in whatever order the range visits them, unless an entry is refused |
| `JsonEncoder.EncodeStruct` | bodyparser_json.go:786-854 | appends the text of an object with exactly the fields not dropped, in order, the comma flag right for any pattern of skips, unless a field that is not dropped is refused |
| `JsonEncoder.EncodeFieldValue` | bodyparser_json.go:856-986 | succeeds exactly when every written value, defaults applied, passes its required and present validators, and then appends the text of a JSON value that denotes the value under its rule |
| `JsonSchema.EmptyIsZero` | bodyparser_json.go:685-700 | a value of a type counts as empty exactly when it is the Go zero of the type and the type is no struct |
| `JsonSchema.PassesIff` | validators/rules/is_required.go:13-48 | required refuses exactly nil and the zero of every type but structs; present, or allow_zero, nil alone |
| `JsonSchema.AppliedIff` | bodyparser_json.go:859-867 | the encoder puts a default in for exactly the zero of a rule with a default tag |
| `JsonSchema.StructShows` | bodyparser_json.go:792-808 | the members of an encoded struct are exactly its fields that are neither hidden nor an omitempty zero, in order |
| `JsonSchema.HalfIsPower` | cont/json.go:188-215 | the range of an integer type is that of its width in two's complement |
| `JsonDecoder.WalkStruct` | bodyparser_json.go:156-499 | the decoder's result, value or error, for every node, rule, destination and depth, with the required and present validators where the source runs them |
| `JsonConform.WalkMeans` | bodyparser_json.go:156-499 | for every node, rule, destination and depth: decoding succeeds exactly when the node conforms to the rule (kind, 64 bit range, required, present, depth), and the result then has the rule's type and is what the node means: zero fill, defaults, integers cut to their width, nulls, the last of repeated map names; to a struct, a value that is no object has no members |
| `JsonConform.FindIsFirst` | bodyparser_json.go:271-277 | a struct field is read from the first member of its name, and is absent exactly when there is none |
| `JsonDecoder.BindFields` | bodyparser_json.go:267-281 | each field is decoded from its own node, and the first error ends the struct |
| `JsonDecoder.BindMembers` | bodyparser_json.go:326-365 | every member is visited even after an error; a repeated name keeps the last value |
| `JsonDecoder.BindScalars` | cont/json.go:340-356 | scalars of a slice in order, nulls skipped |
| `JsonDecoder.BindItems` | bodyparser_json.go:400-464 | structured elements in order, each from a zero value |
| `JsonRoundTrip.EncodedText` | bodyparser_json.go:684-986 | the encoder's text is a JSON text for what it denotes exactly when the strings it prints are clean |
| `JsonRoundTrip.WalkBack` | bodyparser_json.go:156-499 | decoding any JSON that denotes a value succeeds exactly when the depth limit, the validators and the dropped fields allow it, and then gives the rebuilt value |
| `JsonRoundTrip.FieldFound` | bodyparser_json.go:271-277 | a field is found under its name exactly when the encoder wrote it |
| `JsonRoundTrip.AbsentBack` | bodyparser_json.go:166-177 | what a field without a node decodes to, and exactly when that is an error: a flagged field without a default that passes, unless it is a struct whose own fields can be absent |
| `JsonRoundTrip.DecodeUndoesEncode` | bodyparser_json.go:156-986 | the same through the text: read the encoder's output, decode it, and get the rebuilt value or an error, exactly when stated |
| `JsonRoundTrip.RebuildsIff` | bodyparser_json.go:156-499 | within the depth limit an encoded value can be rebuilt exactly when no field that the encoder drops is one that the decoder asks for |
| `JsonRoundTrip.RebuiltIsFilled` | bodyparser_json.go:856-867 | if no field is hidden and defaults come from tags, what comes back is the value with its empty defaulted fields filled in |
| `JsonRoundTrip.RoundTrip` | bodyparser_json.go:156-986 | within the depth limit, what was encoded comes back with its empty defaulted fields filled in and nothing else changed, exactly when no dropped field is asked for; otherwise decoding fails |
| `JsonRoundTrip.OptionalRoundTrip` | bodyparser_json.go:156-986 | without required and present in the tags every value is encoded and comes back so |
| `JsonRoundTrip.DroppedZeroIsMissed` | bodyparser_json.go:801-803 | a concrete rule whose zero is encoded, dropped by omitempty, and then refused by the decoder |
| `JsonRoundTrip.EncodeResponse` | bodyparser_json.go:128-154 | a response is produced exactly when the validators pass; its text is legal exactly for clean strings and decodes to the rebuilt value exactly when stated |
| `JsonRoundTrip.BellIsNotEscaped` | bodyparser_json.go:702-721 | a concrete string whose text no JSON reader accepts |
| `Form.IndexUnique` | bodyparser_form.go:305 | no key carries two indices, because decimal printing is injective and dot-free |
| `Form.KeysFall` | bodyparser_form.go:304-331 | each round of the index loop that finds its prefix uses up keys that no later round sees |
| `Form.SubForm` | bodyparser_form.go:317-323 | the loop collects exactly the entries under a prefix, with the prefix cut off |
| `Form.HasPrefix` | bodyparser_form.go:306-312 | the scan answers whether any key has the prefix |
| `Form.BindIndexed` | bodyparser_form.go:294-331 | the unbounded index loop ends on every form, with the slice that its specification names |
| `Form.BindStruct` | bodyparser_form.go:258-394 | nested binding has the same result in every iteration order of the properties and of the form |
| `Form.BindOne` | bodyparser_form.go:262-391 | one field from its own keys: scalar, slice of scalars, indexed slice or nested struct |
| `Form.DecodeField` | bodyparser_form.go:63-229 | one field of the body: skipped without keys unless flagged, a scalar checked by its validators, and a required slice of structs not empty |
| `Form.DecodeBody` | bodyparser_form.go:55-229 | binding of the body itself, with its own treatment of absent and empty fields, independent of iteration order |
| `FormRoundTrip.ItemsRead` | bodyparser_form.go:304-331 | the loop gives a slice exactly when each item i is what the entries under the literal prefix key.i. bind to, and there is no entry for the index behind the last |
| `FormRoundTrip.IndicesFromZero` | bodyparser_form.go:118-144 | the indices are decimal and count from zero: key.0., key.1., key.10. |
| `FormRoundTrip.ItemKeys` | bodyparser_form.go:304-331 | the keys of a flattened slice are exactly key.i.t for the items i and the keys t of their own flattened forms |
| `FormRoundTrip.ItemEntry` | bodyparser_form.go:304-331 | and each of them holds the entry of its item |
| `FormConform.TextBinds` | utils/primitives.go:14-60 | which texts a scalar takes (the twelve booleans, signed decimals in the range of the type, any string) and the value of each; an empty string leaves what is there |
| `FormConform.BindOk` | bodyparser_form.go:258-394 | for every form, rule and destination: nested binding succeeds exactly when every field can be bound from its own keys, and then gives what those keys mean, elements in the order of their indices |
| `FormConform.BodyOk` | bodyparser_form.go:55-229 | the same for the body, with validators and required slices; a field without keys keeps what is there |
| `FormRoundTrip.StructBinds` | bodyparser_form.go:258-394 | nested binding undoes flattening exactly when no required scalar is left out and every struct in a slice shows at least one key |
| `FormRoundTrip.ItemsBind` | bodyparser_form.go:294-331 | from any index on, the loop rebuilds the rest of the slice exactly when each remaining element shows a key and binds |
| `FormRoundTrip.BindUndoesFlatten` | bodyparser_form.go:55-394 | binding a flattened body gives the body back exactly when every field that left no key is optional and zero, and every other field binds and passes its validators |
| `Cache.StoreKeeps` | middleware/cache.go:230-254 | a store keeps the count between zero and the bytes held and within both caps, and exact unless it evicts the entry it replaces |
| `Cache.StoreTotal` | middleware/cache.go:230-254 | the count after a store from an exact count, and exactly when it stays exact |
| `Cache.ExactInEveryOrder` | middleware/cache.go:230-254 | before the store: if the key is absent, or there is room once its bytes are discounted, the count stays exact whatever is evicted |
| `Cache.CanDriftIff` | middleware/cache.go:120-254 | before the store: some eviction order makes an exact count wrong exactly when the old entry is at risk, whatever the caps and whatever has expired: there is no room even beside all that can still be there with it, and one other entry that may go last leaves room when the old one is subtracted twice |
| `Cache.CountCanDriftInARun` | middleware/cache.go:230-254 | a reachable run of two keys whose count ends below the bytes held |
| `Cache.SweepKeeps` | middleware/cache.go:147-163 | a sweep keeps the bounds and an exact count |
| `Cache.RunsAreSafe` | middleware/cache.go:120-254 | in every interleaving of requests and sweeps the accounting bounds hold, and every hit answers with what the latest store under the same key held, with status below 400 |
| `Cache.HitsAreFresh` | middleware/cache.go:177-196 | with a positive clock every hit starts strictly before the start of the request that stored last under its key plus the expiration |
| `Cache.LookIsHitIff` | middleware/cache.go:180-196 | in every run a look is a hit exactly when its key has an entry and the expiration has not passed since the start of the request that stored it last; the answer is what that request stored, and otherwise the handler is still to run |
| `Cache.FinishStoresIff` | middleware/cache.go:215-254 | a response is stored exactly when its status is below 400, and the entry then holds that response with its expiry and size |
| `Cache.SweepIff` | middleware/cache.go:147-163 | in every run a sweep leaves exactly the entries whose expiry, start of the storing request plus expiration, is not between zero and now |
| `Cache.DropStaleIff` | middleware/cache.go:198-208 | the section after a stale look removes exactly an entry of its key that has expired by then |
| `Cache.ExpiredGoFirst` | middleware/cache.go:120-144 | a store evicts an entry that has not expired only if none of those it leaves has |
| `Cache.LastEvictionNeeded` | middleware/cache.go:240-244 | before its last eviction a store had no room for its entry: nothing is evicted without need |
| `Cache.Cache.Lookup` | middleware/cache.go:180-198 | the read section: hit, stale or miss, and the stored answer |
| `Cache.Cache.DeleteStale` | middleware/cache.go:198-208 | the section that removes an entry only if it is still stale |
| `Cache.Cache.EvictOne` | middleware/cache.go:120-144 | removes an expired entry if there is one, else any, and adjusts the count |
| `Cache.Cache.MakeRoom` | middleware/cache.go:240-244 | the eviction loop ends with room for the entry or with nothing left to evict |
| `Cache.Cache.Store` | middleware/cache.go:230-254 | the store section does what the atomic store step allows |
| `Cache.Cache.SweepExpired` | middleware/cache.go:147-163 | removes exactly the expired entries and their bytes |
| `Registry.SessionRegistry.DrainContext` | websocket/websocket.go:191-219 | run alone: sets the flag, closes every tracked session, empties the registry |
| `Registry.SessionRegistry.Track` | websocket/websocket.go:221-232 | run alone: adds the session unless draining |
| `Registry.StepKeeps` | websocket/websocket.go:191-241 | every atomic step of every thread keeps the protocol invariant and never resets the flag |
| `Registry.DrainingIsNeverReset` | websocket/websocket.go:196 | once set, the flag stays set in every run |
| `Registry.LateCheckAddsNothing` | websocket/websocket.go:221-227 | a session whose check follows the flag is closed and never enters the registry |
| `Registry.DrainLeavesOnlyLateOnes` | websocket/websocket.go:191-241 | after a drain its snapshot is closed, and any session still tracked, or running and never closed, passed its check before the flag was set and was inserted after a snapshot |
| `Registry.TrackedIff` | websocket/websocket.go:191-241 | in every run a running session is tracked exactly when no drain has emptied the registry since its insertion |
| `Registry.OpenIff` | websocket/websocket.go:191-241 | once all drains are done, a running session is open exactly when no drain took its snapshot after the insertion with the registry not emptied in between |
| `Registry.OpenAfterOneDrainIff` | websocket/websocket.go:191-241 | after a single drain a running session is open exactly when it was inserted after the snapshot |
| `Registry.ClosedIff` | websocket/websocket.go:191-241 | in every run a connection is closed exactly when its session has ended or was rejected, or a drain has closed it |
| `Registry.ASessionCanOutliveADrain` | websocket/websocket.go:221-232 | a concrete run that ends with such a session |
| `Middleware.Append` | mux.go:131-142 | append writes in place exactly when there is room and reallocates otherwise, with any capacity; the result is the old elements and the new ones, and every slot of the old array is accounted for |
| `Middleware.JoinPathMeets` | mux.go:26-43 | two non-empty parts meet at exactly one slash besides their own inner ones |
| `Middleware.JoinPathUnit` | mux.go:26-43 | the empty path is the unit of joining |
| `Middleware.JoinPathNests` | mux.go:26-43 | nested prefixes join alike whichever way they are grouped |
| `Middleware.Mux.With` | mux.go:135-142 | the child sees the parent's middlewares and has inline middlewares of its own in a fresh array |
| `Middleware.Mux.Child` | mux.go:106-129 | Route and Group: the same, with the prefix joined |
| `Middleware.Mux.Use` | mux.go:131-133 | the router's list grows, and what was listed stays in the shared array |
| `Middleware.Mux.Register` | mux.go:747-751 | the flat chain is the Use list, the inline middlewares, then the handler |
| `Middleware.Execute` | mux.go:106-142 | any program in nested-callback order registers exactly the chains its nesting reads as, whatever append overwrites or reallocates |
| `Middleware.EveryChain` | mux.go:747-751 | each chain of a program begins with what was in use around its route and ends in a handler that the program registers |
| `Middleware.Fork` | mux.go:131-142 | a child uses xs, then its parent uses ys: the child's list survives exactly when one of the two had no room or both agree where they overlap |
| `Middleware.UsedOutOfOrder` | mux.go:131-142 | a concrete parent that uses a middleware after its child and overwrites the child's |
| `Chain.Context.Next` | context.go:239-245 | the re-entrant method on the shared index does what the recursive account of the chain says, and ends |
| `Chain.Context.NextOnCopy` | context.go:174-190 | Next on a copy starts handlers of the remaining suffix only, in order, each exactly when enough calls of Next in the suffix precede it, and leaves the original where it was |
| `Chain.ChainRuns` | context.go:239-245 | starts are a prefix of the chain in index order, each at most once, and a handler starts exactly when enough calls of Next precede it |
| `Chain.SuffixRuns` | context.go:174-190 | from any index the same holds for the suffix, as if it were a chain of its own |
| `Chain.OneNests` | context.go:239-245 | what Next starts ends in turn, the last started first, and all of it is over when Next returns |
| `Chain.SingleCallsWrap` | context.go:239-245 | if no handler calls Next twice, each runs around the next, down to the first that does not call it |
| `Chain.SingleCallsStop` | context.go:239-245 | if no handler before it calls Next twice, nothing after a handler that never calls Next runs |
| `Chain.SecondCallRunsPast` | context.go:239-245 | with a second call something does |
| `Luhn.LuhnCheck` | validators/rules/payment_rules.go:79-104 | the right-to-left loop accepts exactly the digit strings whose Luhn sum is a multiple of ten |
| `Luhn.OneChangeIsDetected` | validators/rules/payment_rules.go:79-104 | changing exactly one character of an accepted string is always rejected |
| `Luhn.SwapIsDetectedIff` | validators/rules/payment_rules.go:79-104 | swapping two different neighbours is rejected exactly when they are not 0 and 9 |
| `Luhn.OneCheckDigit` | validators/rules/payment_rules.go:79-104 | every digit string has exactly one accepted check digit |
| `Luhn.WorthIsDigitSum` | validators/rules/payment_rules.go:79-104 | a doubled digit counts with the sum of the digits of its double |
| `Luhn.KnownNumber` | validators/rules/payment_rules_test.go:18-19 | the numbers of the repository's own test: one accepted, one refused |

## Left out

- RouteTreeNode.Node.AddRoute: promises nothing about the tree after a panic, and does not model `maxParams`, which only sets a slice capacity.
- RouteTheorems.PatternReachedIff: patterns without a catch-all; what a catch-all answers is in `LookupIsRef` and, before a byte that is no slash, `SwallowedIff`.
- RouteOrder.SwallowedIff: the values of the stem's parameters reach the stem (`Clear`), which is what `PatternReachedIff` asks of any pattern.
- Redirect.HintIsSound: paths without trailing slash; what the hint of a path that ends in a slash means is in `SlashHintIff`.
- RouteHint.HintIsHinted: the path "/" alone, whose hint the dispatch never reads (mux.go:179).
- Redirect.RedirectsEnd: the query string that a redirect carries along, and the 405 and 404 answers.
- JsonEncoder.EncodeString: a Go string that is not valid UTF-8; its stray bytes are written as U+FFFD and do not come back.
- JsonEncoder.EncodeFieldValue: field names that need an escape (they are written as they are), unsigned and floating numbers, times, base64, raw JSON, interfaces, pointers, custom formats, and validators other than required, present and allow_zero; the default that is also stored back into an addressable value.
- JsonDecoder.WalkStruct: the destination is a value passed in and returned, not a reflect handle, so a half-filled destination after an error is not visible; the `max` rule, the slower paths without `orderedProps`, and a rule with no `additionalProperties` are not modelled; a missing required slice or map, where the library call dereferences nil, is an error. The error that the caller makes of a body that is null is not modelled either.
- JsonDecoder.Get: fastjson also lets a number select an element of an array; here only objects have fields.
- JsonText.Read: the grammar of RFC 8259 stands in for fastjson, which is not part of this model and also accepts some texts that the grammar refuses.
- JsonSchema.WellFormed: defaults of slices and structs, and names shared by two fields.
- A request body whose rule is itself a scalar, which is not parsed as JSON.
- Form.DecodeField: custom formats, times, floats, unsigned integers and pointers; validators other than required, present and allow_zero; Multipart binding, which repeats the algorithm; parsing of the URL-encoded text.
- FormRoundTrip.BindUndoesFlatten: maps and slices of slices, which the binder turns down.
- Form.BindStruct: which of several failing fields is reported.
- Cache.RunsAreSafe: integers do not overflow; response headers, key generation and method filters are left out, and the clock is an input of each request.
- Registry.SessionRegistry.DrainContext: the method run alone, without the deadline of its context; its three locked sections, interleaved with other threads, are the steps `SetFlag`, `Snapshot`, `CloseOne` and `Clear` of `StepKeeps` and the results after it.
- Registry.SessionRegistry.Track: the method run alone; the check outside the lock and the insertion are the steps `Check` and `Insert`.
- Cache.CanDriftIff: stores with an entry of size zero, which needs an empty key, body and content type.
- Chain.Context.Next: handler return values, which are passed on unchanged, and the request data that a copy clones.
- Middleware.Mux.Register: documentation, metadata and schema bookkeeping of a registration.
- fasthttp, listeners, TLS, streaming, validators other than Luhn, OpenAPI output, the remaining middlewares and the data store: thin code or input and output.
