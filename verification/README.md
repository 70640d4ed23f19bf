# Verified model of the MCP auth gateway

The gateway sits in front of an MCP server: it verifies bearer tokens against a JWKS,
checks scopes per JSON-RPC method and tools per claim, and forwards what it authorized.
This project models the parts of it that carry an argument and proves them:

- **The JWKS key cache** (`KeyCache`, `Verifier`, `KeyCacheRuns`, `KeyCacheProofs`,
  `KeyCacheTheorems`, `VerifierRuns`). `KeyCache` has the critical sections of
  `_resolve_key` and `ready` as functions of the cache; `Verifier.JwksVerifier` is the object
  whose methods run those sections on its fields; `KeyCacheRuns` interleaves any number of
  calls, with clock readings and fetch outcomes chosen by the environment, and keeps the
  history of committed documents and fetch spans. The theorems are about every run.
- **JSON and the canonical body** (`JsonTrees`, `JsonTokens`, `JsonHooks`, `JsonTexts`,
  `JsonRpc`). One token parser with three object hooks (keep, last-wins dict, refuse
  duplicates), the printer of `json.dumps`, the proof that they are inverse, and
  `_parse_jsonrpc` on top.
- **The decisions** (`ScopePolicies`, `ToolPolicies`, `Scopes`, `MethodPaths`, `ToolsList`):
  each loop of the source as a method, proved equal to a specification that does not loop
  the same way, and the facts about that specification.
- **The request** (`Streaming`, `Proxy`, `Guarantees`): the gates of `proxy_mcp`, what is
  sent, the buffered tools/list branch, the capped stream, and the audit trace.

Beside its specification function each operation has a theorem that states its answers by
the shapes of its inputs, without that function's own helpers (`FetchCommits`,
`ProbeSettles`, `ResolvesExactly`, `DecidesExactly`, `ScopesByShape`, `FiltersExactly`,
`GatesExactly`, `StoppedExactly`, `RelayedExactly`, `LineTells`).

Time is a real number that never goes backwards; the initial minus infinity of the stamps is
the value `Never`. Texts are sequences of code points, lone surrogates included. Token
verification, lexing, the upstream and the client are parameters of the request, so the
theorems hold for all of them.

## Where the code and its documentation differ

The model follows the code. Each of these is a proved statement:

- "At most one JWKS fetch per cooldown window" holds in every run exactly if the cooldown is
  no longer than the TTL; configuration does not require that
  (`KeyCacheTheorems.CooldownHoldsIff`). What always holds is a spacing of
  min(TTL, cooldown).
- "A flood of bogus kids cannot amplify into one fetch per token" holds exactly if both the
  TTL and the cooldown are positive; configuration accepts zero for either, and then every
  call for any kid can fetch (`KeyCacheTheorems.FetchRateBoundedIff`,
  `KeyCacheTheorems.Flood`).
- The canonical body is not always standard JSON: a number such as `1e999` loads as an
  infinity that `json.dumps` prints as a bare constant
  (`JsonRpc.CanonicalIsFixedPoint`, `JsonRpc.InfinityEscapes`).
- Not every request leaves a decision line. The model has six ways to end without one, and
  among the exceptions it covers they are all (`Proxy.UnhandledExactly`): a lone surrogate
  in an otherwise acceptable body, whose encoding raises outside any handler
  (`JsonRpc.SurrogateEscapes` and `Proxy.SurrogateDies` give such a body); a value that is
  not ASCII in a client header to be forwarded, which the client library cannot encode
  (`Proxy.AccentDies`); a declared length, of the request or of the response, that consists
  of digits `int` refuses; a client that leaves during the upload; and a cancellation while a
  page is buffered. So a request that every policy lets through is sent exactly if its
  forwarded headers are ASCII (`Proxy.ProxyMcp`).
- With the response cap disabled, the stream event always reports 0 bytes
  (`Streaming.BodyIter`).
- An upstream connection handed to a stream that the client never starts to read, or held
  when the declared length of the response turns out unreadable, is not closed by the
  handler or the iterator (`Proxy.Serve`).

## Model

| member | source | states |
|---|---|---|
| KeyCache.KeyMapMeaning | src/mcp_gateway/verifier.py:232-238 | a kid is in the parsed key map exactly if it is the non-empty id of some key, and it maps to the last such key |
| KeyCache.CachedNeverWaits | src/mcp_gateway/verifier.py:258-291 | a call whose kid is cached neither waits nor fails at entry, and with a monotone clock a stale hit with no fetch in flight claims one |
| KeyCache.StaleHitNeedsClockStep | src/mcp_gateway/verifier.py:278-289 | the return of a stale key inside the cooldown is reached exactly if the clock steps back over the end of the TTL, to inside the cooldown |
| Verifier.JwksVerifier.constructor | src/mcp_gateway/verifier.py:158-173 | a new object is cold: no keys, no fetch in flight, both stamps at minus infinity |
| Verifier.JwksVerifier.EnterResolve | src/mcp_gateway/verifier.py:258-291 | entry section of `_resolve_key`: its verdict, and that it changes nothing but the in-flight flag, raised exactly on a claim |
| Verifier.JwksVerifier.WakeResolve | src/mcp_gateway/verifier.py:267-291 | section after a notified wait: the kid is looked up again before anything else |
| Verifier.JwksVerifier.CommitResolve | src/mcp_gateway/verifier.py:310-321 | commit section: a failure keeps the keys, an empty document evicts them, a non-empty one replaces them; the flag is cleared and the attempt stamped on every outcome |
| Verifier.JwksVerifier.LookUp | src/mcp_gateway/verifier.py:322-326 | final lookup in the current keys |
| Verifier.JwksVerifier.EnterReady | src/mcp_gateway/verifier.py:181-189 | entry section of `ready`: freshness by last success, claims by cooldown only; where that leads in every run is `KeyCacheTheorems.ProbeSettles` |
| Verifier.JwksVerifier.CommitReady | src/mcp_gateway/verifier.py:203-213 | commit section of `ready` has the same effect on the cache as that of `_resolve_key` and answers whether keys came |
| KeyCacheProofs.StepKeepsInv | src/mcp_gateway/verifier.py:175-326 | every critical section, timeout and commit keeps the invariant over cache, flag, spans and calls |
| KeyCacheProofs.RunKeepsInv | src/mcp_gateway/verifier.py:175-326 | the invariant holds after every run of any number of calls |
| VerifierRuns.Execute | src/mcp_gateway/verifier.py:175-326 | the object's methods realize each step of a run, field for field |
| VerifierRuns.Replay | src/mcp_gateway/verifier.py:175-326 | driving the object through any run leaves it with the keys of the last well-formed document that arrived |
| KeyCacheTheorems.SingleFlight | src/mcp_gateway/verifier.py:160-162 | the flag is up exactly while one call is between claim and commit, both entry points counted; no call owns two fetches |
| KeyCacheTheorems.NoLostWakeup | src/mcp_gateway/verifier.py:267-276 | a waiting call is notified already, or a fetch is in flight whose commit, whatever it brings, will clear the flag and notify it |
| KeyCacheTheorems.FetchCommits | src/mcp_gateway/verifier.py:232-238 | by what arrived: an empty key list evicts every key, a list of keys is cached exactly as the last key of each non-empty id, anything else changes no key; attempt, success and flag on every outcome |
| KeyCacheTheorems.FetchConcludes | src/mcp_gateway/verifier.py:293-321 | by what arrived: how the fetching call goes on or fails, or what its probe is told, and that every waiting call is notified and no other call touched |
| KeyCacheTheorems.CacheIsLastDocument | src/mcp_gateway/verifier.py:310-318 | in every run the cached keys are those of the last committed well-formed document, failures changing nothing |
| KeyCacheTheorems.ReturnsCurrentKey | src/mcp_gateway/verifier.py:240-326 | a returned key is the lookup in the document in force at the step that returns it |
| KeyCacheTheorems.LogIsHistory | src/mcp_gateway/verifier.py:310-318 | the recorded documents are those of the run's prefixes, in order, and stay on record |
| KeyCacheTheorems.NeverEvictedKey | src/mcp_gateway/verifier.py:240-326 | a key that no document in force during the call has under its kid, evicted or replaced before it began, is not what the call returns |
| KeyCacheTheorems.MissingKidGetsNoKey | src/mcp_gateway/verifier.py:322-326 | a call whose kid is missing from every document in force since it began ends, if it ends, with an error |
| KeyCacheTheorems.CachedCallSettles | src/mcp_gateway/verifier.py:246-252 | in every run a call for a published kid gets its key at once, if a fetch is out or the last one ended within the TTL, and otherwise claims the refresh |
| KeyCacheTheorems.MissingKidSettles | src/mcp_gateway/verifier.py:251-256 | a call for an unpublished kid waits on the fetch in flight, fetches if the last fetch ended long enough ago, and else fails without network |
| KeyCacheTheorems.ArrivedKeyIsFound | src/mcp_gateway/verifier.py:274-276 | a woken waiter or a returning fetcher finds its key if the document in force has it |
| KeyCacheTheorems.ProbeSettles | src/mcp_gateway/verifier.py:181-189 | in every run a `ready` call is told yes while the document in force has keys and is in date, no while a fetch is out or the cooldown lasts, and in every other case, a cold cache included, fetches |
| KeyCacheTheorems.WaitTimesOut | src/mcp_gateway/verifier.py:270-273 | a wait that runs out of patience fails its own call and changes nothing else |
| KeyCacheTheorems.FetchesAreApart | src/mcp_gateway/verifier.py:278-291 | fetch spans never overlap and start at least min(ttl, interval) after the one before ended |
| KeyCacheTheorems.FetchRateBound | src/mcp_gateway/verifier.py:14-20 | with a positive TTL and cooldown, any window of length W holds at most 1 + W / min(ttl, interval) fetch starts, whatever kids arrive |
| KeyCacheTheorems.FetchRateBoundedIff | src/mcp_gateway/verifier.py:14-20 | some number bounds the fetch starts of a window in all runs exactly if TTL and cooldown are both positive |
| KeyCacheTheorems.Flood | src/mcp_gateway/verifier.py:278-291 | with a TTL or cooldown of zero, for any list of kids a run in which each costs a fetch, all at one moment |
| KeyCacheTheorems.CooldownHoldsIff | src/mcp_gateway/verifier.py:166-169 | one fetch per cooldown window, in every run, exactly if the cooldown is no longer than the TTL (or zero) |
| KeyCacheTheorems.EarlyRefresh | src/mcp_gateway/verifier.py:283-287 | for every shorter TTL, a concrete run with two fetches inside one cooldown |
| KeyCacheTheorems.OutageNeedsOwnFailure | src/mcp_gateway/verifier.py:296-321 | a call turned away for a steadily published kid ran a fetch itself that failed at that moment |
| KeyCacheTheorems.OutageBound | src/mcp_gateway/verifier.py:296-321 | such rejections are at most the failed fetches of the same window, and obey the same rate bound |
| KeyCacheTheorems.StampsAreHonest | src/mcp_gateway/verifier.py:313-317 | last success never exceeds last attempt, and a non-empty cache is stamped with the commit of its document |
| KeyCacheTheorems.ReadyIsSound | src/mcp_gateway/verifier.py:175-213 | `ready` without a fetch is true exactly if the document in force has keys committed within the TTL; with one, exactly if that fetch brought keys |
| KeyCacheTheorems.NotReadyWhileRevoked | src/mcp_gateway/verifier.py:199-213 | while empty key sets are in force from its start on, `ready` answers false |
| JsonTrees.NoDuplicateKeys | src/mcp_gateway/app.py:581-593 | the growing-set loop raises at the first member whose name was used before, and otherwise returns the members unchanged |
| JsonTrees.ReadersAgree | src/mcp_gateway/app.py:581-587 | on a tree without repeats, first-wins and last-wins readers agree along every path |
| JsonTrees.DictOfDistinct | src/mcp_gateway/app.py:593-593 | a dict built from members without repeats is that member list, in order |
| JsonTrees.DictIsLastWins | src/mcp_gateway/tools_list.py:50-50 | either lookup in a plain dict finds what a last-wins reader of the members finds |
| JsonTokens.LoadsOfPrint | src/mcp_gateway/app.py:679-679 | printing then loading is the identity for every reader, except that a strict one refuses exactly the trees with a non-finite number |
| JsonTokens.PrintEncodable | src/mcp_gateway/app.py:679-679 | the printed text encodes as UTF-8 exactly if no string or member name holds a lone surrogate |
| JsonHooks.RejectsExactlyRepeats | src/mcp_gateway/app.py:612-622 | the bottom-up hook accepts a text exactly if its raw tree repeats no name at any depth, and then returns that tree |
| JsonHooks.LoadsIntoDicts | src/mcp_gateway/tools_list.py:49-52 | loading into plain dicts is loading the raw tree and collapsing its repeats |
| JsonHooks.DictsReadLastWins | src/mcp_gateway/tools_list.py:49-52 | along every path the dicts read what a last-wins reader reads in the raw tree |
| JsonTexts.LoadsIsUnprint | src/mcp_gateway/app.py:608-611 | a text loads as a tree exactly if it is the print of that tree, up to the two spellings of a non-finite number: nothing is left over and nothing else loads |
| JsonTexts.RequestLoads | src/mcp_gateway/app.py:607-612 | a request loads exactly if it is the print of a tree without repeated names and holds no bare constant |
| JsonTexts.RequestFails | src/mcp_gateway/app.py:612-629 | what a request that does not load is blamed for: repeats or constants only if there are some, "not JSON" only if it is the print of no tree |
| JsonTexts.PageLoads | src/mcp_gateway/tools_list.py:49-52 | an upstream page loads exactly if it is the print of a tree without bare constants, as the dicts that tree collapses to |
| JsonRpc.CanonicalLoads | src/mcp_gateway/app.py:608-611 | every reader that loads the canonical body loads the checked tree; tolerant readers always can, strict ones exactly if it is finite |
| JsonRpc.CanonicalReads | src/mcp_gateway/app.py:676-697 | whatever the reader, method and tool read from the canonical body are those the gateway resolved |
| JsonRpc.CanonicalIsFixedPoint | src/mcp_gateway/app.py:596-699 | parsing the canonical body again gives the same result exactly if no number is non-finite; otherwise it is refused |
| JsonRpc.InfinityEscapes | src/mcp_gateway/app.py:568-579 | a concrete accepted body whose canonical form the gateway refuses |
| JsonRpc.ResolvesExactly | src/mcp_gateway/app.py:631-699 | the exact condition of every outcome of a body that loads, by what any reader finds as its method and tool name: batch, invalid, too long (256), uncaught, accepted and with which tool |
| JsonRpc.BodyRefused | src/mcp_gateway/app.py:607-629 | which code refuses a body that does not load |
| JsonRpc.UncaughtExactly | src/mcp_gateway/app.py:676-679 | the parse dies exactly on a well-formed request, with a usable method, that holds a lone surrogate somewhere |
| JsonRpc.SurrogateEscapes | src/mcp_gateway/app.py:679-679 | a concrete body that parses and whose encoding raises |
| JsonRpc.AcceptedMethod | src/mcp_gateway/app.py:639-675 | an accepted method is short, non-empty, encodable and its own path-normal form |
| MethodPaths.GuardIsFixedPoint | src/mcp_gateway/app.py:651-675 | the main result on paths: the segment guard accepts exactly the methods that a path normalizer leaves unchanged |
| MethodPaths.GuardExactly | src/mcp_gateway/app.py:671-675 | the guard refuses exactly the methods with nothing, "." or ".." between slashes or at an end |
| Texts.SplitIsPieces | src/mcp_gateway/app.py:671-671 | the parts of a split are exactly the stretches without a separator that are bounded by separators or the ends |
| Guarantees.GuardKeepsDecisions | src/mcp_gateway/app.py:651-675 | the guard is exactly what normalization calls for: the decisions on a method and on its normalized form agree under every policy and scope set if and only if the guard lets the method through |
| Guarantees.DecisionSurvivesNormalization | src/mcp_gateway/app.py:651-675 | corollary for accepted requests: the scope decision is the same on the method and on its normalized form |
| ScopePolicies.Match | src/mcp_gateway/policy.py:111-123 | the loop over the rules, in any order, finds the rule read off the method's own prefixes |
| ScopePolicies.RequiredIsLongest | src/mcp_gateway/policy.py:111-123 | exact rule first, else the longest prefix rule, unique of its length, else none |
| ScopePolicies.RuleByText | src/mcp_gateway/policy.py:111-123 | the same by the texts of the keys: a rule covers a method if it ends in a slash and the method starts with it; the longest that does decides, and there is none exactly if none covers it |
| ScopePolicies.AddingPrefixRule | src/mcp_gateway/policy.py:111-123 | a new prefix rule decides exactly the methods under it without an exact or longer rule and leaves all others alone |
| ScopePolicies.CheckMeaning | src/mcp_gateway/policy.py:125-137 | allowed exactly if a rule or usable default speaks for the method and its scopes are held; monotone in held scopes; the required scopes, the reason and the missing scopes in each case |
| ToolPolicies.Check | src/mcp_gateway/tool_policy.py:182-240 | the early-exit loop with its flag returns the specified decision, reason and rule; what those are by the shape of the claim is `ToolPolicies.DecidesExactly` |
| ToolPolicies.DecidesExactly | src/mcp_gateway/tool_policy.py:87-104 | by the shapes of policy and claim: a string claim gives itself as a whole, a list of non-empty strings its items, anything else nothing; allowed exactly if the name is listed or a rule lists it and has a value the claim gives; each denial reason in exactly its case |
| ToolPolicies.AllowedIffPermitted | src/mcp_gateway/tool_policy.py:182-240 | allowed exactly if the name is non-empty and in the unconditional list united with the lists of all rules the claim meets; a rule is named exactly on a grant |
| ToolPolicies.MatchedRuleIsFirst | src/mcp_gateway/tool_policy.py:221-227 | the rule named is the first one, in policy order, that lists the tool and has a value the claim gives |
| ToolPolicies.RuleOrderIsIrrelevant | src/mcp_gateway/tool_policy.py:182-240 | permission depends on the set of rules, not on their order or repetition |
| ToolPolicies.PermissionIsMonotone | src/mcp_gateway/tool_policy.py:182-240 | more claim values never take a tool away |
| ToolPolicies.CheckManyIsConjunction | src/mcp_gateway/tool_policy.py:242-246 | all named tools pass exactly if each is non-empty and permitted |
| Scopes.ParseScopes | src/mcp_gateway/verifier.py:81-120 | the scope reader returns the set of tokens of the claim that applies, or fails if any is malformed |
| Scopes.ScopesByShape | src/mcp_gateway/verifier.py:81-120 | by the shapes of the claims: a string "scope" decides over "scp" and grants its words, a list "scp" its items; refused exactly if a word or item is no scope token of RFC 6749; nothing is granted by other shapes |
| Scopes.SortedIsSorted | src/mcp_gateway/app.py:378-378 | the forwarded order has each scope once, ascending by code point |
| Scopes.BeforeByCodePoints | src/mcp_gateway/app.py:378-378 | the order of the forwarded scopes: at the first difference the smaller code point, or the end of the text, comes first |
| Scopes.HeaderSplits | src/mcp_gateway/app.py:371-378 | splitting the header at spaces gives the sorted scopes piece for piece |
| Scopes.HeaderRoundTrip | src/mcp_gateway/verifier.py:56-65 | the header of an accepted scope set, read as a scope claim, grants exactly that set |
| Scopes.HeaderIsInjective | src/mcp_gateway/app.py:371-378 | two accepted scope sets share a header only if they are equal |
| Scopes.HeaderIsSafe | src/mcp_gateway/app.py:371-378 | the header of a non-empty accepted scope set passes the same check as the subject: printable ASCII, no surrounding blanks |
| Guarantees.ForwardedScopesAreHeld | src/mcp_gateway/verifier.py:391-400 | the header sent for a verified token splits back into the scopes that were checked, and both identity headers are header-safe |
| Proxy.VerifyExactly | src/mcp_gateway/verifier.py:369-400 | verification hands on the subject and claims of the token and the scopes those claims grant, and fails exactly if the subject is not header-safe or the scopes are malformed |
| Scopes.SubjectIsHeaderSafe | src/mcp_gateway/verifier.py:381-389 | the check on the subject accepts exactly printable ASCII without surrounding blanks |
| ToolsList.FilterToolsList | src/mcp_gateway/tools_list.py:39-95 | the filter loop, its fail-closed exits and its counts meet the page specification; when that filters is `ToolsList.FiltersExactly` |
| ToolsList.FiltersExactly | src/mcp_gateway/tools_list.py:54-95 | by the members of the loaded page: filtered exactly if it is a 2.0 result listing only tools named with 1 to 256 code points and every number the client would see is finite; an upstream error exactly on a 2.0 object with an error; failed otherwise |
| ToolsList.FilterKeepsTheRest | src/mcp_gateway/tools_list.py:82-95 | in a filtered page, what readers find under every other name of the envelope and of the result is what the upstream sent |
| ToolsList.WithToolsReads | src/mcp_gateway/tools_list.py:82-82 | overwriting the tools changes no other field of the result or the envelope |
| ToolsList.VisibleIffCallable | src/mcp_gateway/tools_list.py:44-95 | every client reads the filtered page alike, sees only names that pass the tool gate, in the original order; exactly the failing entries are gone and the counts add up |
| ToolsList.FilterIsIdempotent | src/mcp_gateway/tools_list.py:39-95 | filtering a filtered page removes nothing and leaves its body as it is |
| Guarantees.CallableIffListed | src/mcp_gateway/app.py:337-361 | a tools/call naming an entry of the upstream page passes the tool gate exactly if the filtered page lists that entry |
| Streaming.Buffer | src/mcp_gateway/app.py:261-272 | the early-stopping buffer refuses exactly the bodies that are too large as a whole, and else holds all of it |
| Streaming.ConcatInOrder | src/mcp_gateway/app.py:260-272 | the buffer holds the chunks end to end, in their order |
| Streaming.BodyIter | src/mcp_gateway/app.py:506-544 | what is yielded is the longest whole-chunk prefix within the cap, and without a cap everything the client takes; each stream result holds exactly in its case; the byte count is exact, over the cap on truncation, 0 without a cap |
| Proxy.Admit | src/mcp_gateway/app.py:239-302 | origin, size and authentication: stopped by the first failing gate in the documented order, with that gate's whole audit line and no upstream traffic |
| Proxy.Authorize | src/mcp_gateway/app.py:304-361 | parse, scope and tool gates: stopped by the first failing one; its audit line carries decision and code, and for a refusal by policy the method and tool that were asked for |
| Proxy.GatesExactly | src/mcp_gateway/app.py:239-393 | the gates pass exactly for a request that is admissible, speaks for someone whose scopes and claims allow its method and tool, and forwards only ASCII header values |
| Proxy.StoppedExactly | src/mcp_gateway/app.py:239-361 | every reply short of the upstream in exactly its case, by the request, the token and the policies |
| Proxy.AuthorizedIsExecuted | src/mcp_gateway/app.py:304-361 | once the gates pass, any reader of the forwarded body finds only a method and tool that passed the policies |
| Proxy.Forward | src/mcp_gateway/app.py:363-504 | per branch: what is sent, that the connection is closed before every reply but a stream (or an exception over an unreadable declared length), and the whole audit line that ends it, page counts included; with a forwarded client header that is not ASCII, nothing is sent and nothing audited |
| Proxy.RelayList | src/mcp_gateway/app.py:415-479 | only a complete JSON page within the limit is filtered, and audited with its counts; every other way out fails closed with its own code |
| Proxy.RelayedExactly | src/mcp_gateway/app.py:393-504 | every reply to a request that may go, in exactly its case: a 200 answer to a tools/list under a tool policy is filtered or refused and never streamed, and no other answer is |
| Proxy.EventsInOrder | src/mcp_gateway/app.py:223-551 | the events up to the response, in order: send, connection, close (unless the answer stays open), and one line at the end |
| Proxy.LineTells | src/mcp_gateway/app.py:239-500 | decision, code, method, tool and counts of whatever line is written, by the reply |
| Proxy.ProxyMcp | src/mcp_gateway/app.py:223-551 | the request reaches the upstream exactly if every gate passes, the last being that its forwarded headers encode as ASCII, and then the trace is the send, the connection and its close, and the audit line, in that order; else the first failing gate decides reply and trace |
| Proxy.SendsAuthorized | src/mcp_gateway/app.py:376-391 | whatever is sent prints the tree the body loads as, can execute only what the scopes and claims of the token allow, and names in its headers exactly the subject and scopes the token carries; nobody without authentication |
| Proxy.UnhandledExactly | src/mcp_gateway/app.py:223-551 | among the exceptions modelled (unreadable declared lengths, client disconnect, encoding of body and of forwarded headers, cancellation while buffering), those that end a request without a decision line are exactly the six conditions of `Dies`, each on the request, its body, or the answer |
| Proxy.SurrogateDies | src/mcp_gateway/app.py:304-305 | a concrete request, with authentication and limits off, that gets no answer and leaves no audit line |
| Proxy.AccentDies | src/mcp_gateway/app.py:366-393 | a concrete request that passes every policy and dies over a forwarded header value of U+00E9: no answer, no line, nothing sent |
| Proxy.IdentityEncodes | src/mcp_gateway/app.py:371-378 | the subject and scopes headers of a verified token never keep a request from being encoded: all headers encode exactly if the client's forwarded ones do |
| Proxy.Serve | src/mcp_gateway/app.py:223-551 | every run, in order: the events of the handler, then those of the stream (chunks, close, honest stream event with each result in exactly its case). One decision unless the request dies in one of the six ways; one send exactly if all gates pass; one connection if the upstream answers; one close for it, except when its declared length is unreadable, or the response was to be streamed and the client never starts to read it; one stream event exactly if it does; authorized bodies only |

## Left out

- Proxy.UnhandledExactly: exact among the exceptions the model covers, not among all that Python can raise. JSON nested beyond the recursion limit raises `RecursionError` out of `_parse_jsonrpc` (src/mcp_gateway/app.py:608-628) or, in an upstream page, out of `filter_tools_list` (src/mcp_gateway/tools_list.py:49-52), and such a request also ends without a decision line; where the limit lies depends on the interpreter and its stack at that moment. Exceptions other than `TokenError` out of token verification do the same.
- Proxy.Serve: its counts of decision lines, sends and closes are under the same restriction. A streamed response whose headers cannot be built (an upstream value beyond Latin-1 raises after the decision line) counts as one the client never starts to read.
- PyJWT's header, signature, expiry, issuer and audience checks: a decoded token is a parameter, absent when they fail.
- The network fetch and `PyJWKSet`: only whether they raise, give an empty list or a list of keys.
- Exceptions outside `Exception` (interpreter shutdown, interrupts) during a fetch: the cache treats them like a failed fetch, the call itself would propagate them.
- Fairness: a waiter may time out after any wait of at least the limit, and a notified one may be scheduled late.
- Characters of JSON strings and numbers, encoding detection, recursion depth and integer digit limits of Python's `json`: a token carries the decoded value, and an unreadable rest is one bad token.
- `Scopes.Header` and `Scopes.Sorted` stand for built-in `sorted` and `join`.
- Which client headers may cross (a fixed list) and their names: a request carries the values that may. A value the HTTP layer refuses for another reason than its encoding counts as an unreachable upstream.
- Origin normalization, the bearer prefix, metadata, health endpoints and error texts: origins and tokens arrive normalized.
- Content-Length parsing: a declared length is a number, absent, or unreadable.
- Cancellation of the handler other than while a page is buffered or a body is streamed, and httpx errors outside the two classes the handler catches.
- Percent-encoded method segments: the source documents that it does not cover them.
- The policy file loaders, the built-in policies, configuration validation and startup: flat checks. That the tools/list limit is positive, and that the TTL is not negative where a theorem needs it, are preconditions.
- Audit fields other than decision, code, method, tool and the two counts; latency, log levels and formatting.
- PKCE helpers, deployment and verification scripts.
