# A verified model of the gateway's core

This project models, in Dafny, the stateful core of an LLM gateway and proves what that core guarantees, for every
input, run or interleaving. Run `dafny verify dfyconfig.toml` to check all of it.

* **Privacy** (`Tokens`, `Redactor`, `Rehydrator`, `SteadyTexts`, `PrivacyEngine`, `CheckDigits`). Redaction replaces
  matched values by tokens `<<pii:CATEGORY:hash>>`, rehydration puts them back. A text is seen as a sequence of
  characters and tokens;
  replacing tokens one after the other, in any order, is shown to be filling them in. This gives the round trip, its
  version for a whole request, and the exact condition under which the streaming writer, which cuts at 64 bytes before
  the end, agrees with it. Texts are assumed free of `<<pii:`, and that assumption is shown to be needed.
* **Routing** (`Rotation`, `Ordering`, `Sampling`, `ModelRouter`). The ordering strategies as in-place algorithms over
  arrays and a shared counter, and the alias table with its per-organisation index. The rotation of ties is fair iff the
  number of tie groups and the size of the group are coprime; the comment at router.go:336 claims it unconditionally.
* **Failure handling** (`CircuitBreaker`, `BreakerAtomics`, `Fallback`, `Speculative`). The breaker as a state machine,
  once with whole calls as steps and once with every atomic operation as a step; the fallback loop and the race of two
  aliases over oracles for outcomes, cancellation and time. A single probe holds exactly under a stated discipline on
  whole calls, which uninterrupted atomic operations refine; interleaved, a half-open period admits one goroutine
  exactly if no other finds the probe flag, or the time of opening, cleared, and for both there is a run from the start.
* **Streams** (`Text`, `SseFraming`, `AnthropicStream`, `ToolAssembly`, `StreamTranslation`,
  `StreamComposition`, `StreamRelay`).
  Server-sent events as read and written, the provider's mapping from Anthropic events to chunks, the ingress
  translator back, and their composition from bytes to bytes. `content_filter` and `stop_sequence` do not survive, and
  the token usage, which travels in a chunk of its own, comes out as zero.
* **Ledger and prices** (`HashChain`, `Receipts`, `SavingsLedger`, `Discounts`). Signed receipts in one hash chain per
  organisation, the savings rows chained by signatures, the life of discount rows and the prices built on them.
  The comment at savings/canonical.go:132-133 speaks of the hash of the previous row; the code links its signature
  (db/savings.go:541). The comment at savings/writer.go:125-127 says an undeclared baseline makes the savings zero; they
  are minus the discount times the cost.
* **Semantic cache** (`SemanticCache`). The ring of every bucket is the last N records stored in it.
* **Policy** (`Policy`). The fold over rules, and the exact condition, a shared element, under which allowlists are a
  conjunction and do not depend on the order and repetition of the rules. (For the order alone it is sufficient: two
  disjoint lists narrow to the empty one either way.)
* **Shadow limiter** (`ShadowRunner`). The optimistic counter, interleaved at single atomic adds.

Where a comment in the code and the code disagree, the model follows the code. One more case: privacy/engine.go:111-114
says messages made of parts are never overwritten, while `RedactRequest` replaces one in which something is found by a
single string.

Conventions: code that works step by step is a class or method, proved against a specification function or relation
whose properties are lemmas; `requires` clauses on data state what the callers in the repository provide. Time,
randomness, map iteration order, regular expressions, JSON, hashes and signatures are parameters, with their assumed
properties named in a predicate (`ShortHash`, `NoCollision`, `Sound`, `Binding`); collisions are excluded only among the
entries at hand.

## Model

| member | source | states |
|---|---|---|
| `Tokens.PrefixFree` | backend/internal/privacy/redactor.go:184 | No token is a proper prefix of what a different token begins: two tokens at one position are equal |
| `Tokens.NothingInside` | backend/internal/privacy/redactor.go:184 | No token begins strictly inside another one, whatever follows it |
| `Tokens.ReplacePieces` | backend/internal/privacy/rehydrator.go:40-44 | On a text of characters and tokens whose characters spell no token, strings.ReplaceAll replaces exactly the pieces with that token |
| `Tokens.RewriteFills` | backend/internal/privacy/rehydrator.go:34-46 | One pass over any iteration order of the mapping fills every token piece, leaving a token cut short at the end as it is |
| `Redaction.Redactor.constructor` | backend/internal/privacy/redactor.go:92-96 | The memo starts empty; with separate categories every later token is minted from its category and value |
| `Redaction.Redactor.AddCustomPattern` | backend/internal/privacy/redactor.go:101-110 | A pattern that compiles is appended to the custom rules, one that does not changes nothing; the guarantees stay if the categories stay separate |
| `Redaction.Redactor.TokenFor` | backend/internal/privacy/redactor.go:172-189 | The memo never forgets or changes a token, and for separate categories the token is a function of category and value |
| `Redaction.Redactor.FindSpans` | backend/internal/privacy/redactor.go:146-169 | For every category and pair of offsets there is a span if and only if a built-in or custom rule of that category finds the offsets and its filter, if it has one, accepts the text between them; each span has the memoised token of its text |
| `Redaction.Redactor.Redact` | backend/internal/privacy/redactor.go:116-138 | Over the spans, which are exactly what the rules select, sorted by start in any way: overlapping spans are dropped, the rest replaced and recorded, and whatever a rule selects begins in a replaced span; for a text without `<<pii:` and no hash collision among its spans, every iteration order of the returned mapping restores the text |
| `Redaction.Walk` | backend/internal/privacy/redactor.go:121-137 | The walk over sorted spans produces the text in which the non-overlapping ones are replaced, and records exactly these |
| `Redaction.ClearIsOutside` | backend/internal/privacy/redactor.go:121-137 | What is left in the clear are exactly the characters outside the kept spans, and each of these leaves its token, in order |
| `Redaction.RoundTrip` | backend/internal/privacy/rehydrator.go:34-46 | For any spans, overlapping or in any order, a redacted text is restored by every mapping that resolves its kept spans, whatever else that mapping holds and in whatever order it is iterated |
| `Redaction.RedactedRestores` | backend/internal/privacy/redactor.go:116-138 | The mapping recorded along with a redaction is one that restores it, for every iteration order |
| `Redaction.EveryMatchTouched` | backend/internal/privacy/redactor.go:124-129 | A match that is dropped begins inside a kept one |
| `Redaction.MintedIsToken` | backend/internal/privacy/redactor.go:184 | What is minted for a plain category is a well-formed token |
| `Redaction.MintedHash` | backend/internal/privacy/redactor.go:180-184 | A token shows its category behind the marker and determines category and hash |
| `Redaction.KeySplits` | backend/internal/privacy/redactor.go:173 | Between such categories a memo key names one category and value only |
| `Redaction.KeysDifferIff` | backend/internal/privacy/redactor.go:173 | No memo key stands for two pairs of these categories if and only if neither category, with the bar after it, begins the other |
| `Redaction.BarFreeSeparate` | backend/internal/privacy/redactor.go:195-204 | Categories without bars and angle brackets, as the built-in ones, are such categories |
| `Redaction.SharedTokenLoses` | backend/internal/privacy/redactor.go:101-138 | For any two other categories: both patterns are accepted, one token stands for two values, and every iteration order restores a wrong text |
| `Redaction.NoCollisionNoClash` | backend/internal/privacy/redactor.go:180-184 | Spans minted without a hash collision never give one token to two values |
| `Redaction.MarkerFreeNeeded` | backend/internal/privacy/rehydrator.go:34-46 | One text that holds a token minted for another part of it and is not restored; `SteadyTexts.ComesBackIff` is the general case |
| `Redaction.RedactedTextRenders` | backend/internal/privacy/redactor.go:121-137 | The emitted text is the rendering of the pieces the proofs work on |
| `Rehydration.Whole` | backend/internal/privacy/rehydrator.go:34-46 | The result is that of replacing in some order of the mapping, or the input itself if it holds no marker or the mapping is empty |
| `Rehydration.WholeRestores` | backend/internal/privacy/rehydrator.go:34-46 | Whole gives back the original of everything its mapping restores |
| `Rehydration.StreamWriter.Write` | backend/internal/privacy/rehydrator.go:65-84 | Past 64 bytes everything but the last 64 is rewritten and emitted as one chunk; a failed emit keeps the bytes but reports 0; the invariant says that the buffer holds min(total, 64) bytes and that the output is the rewrites of a partition of the input |
| `Rehydration.StreamWriter.Flush` | backend/internal/privacy/rehydrator.go:86-96 | The rest is emitted as the last chunk; the chunks then are a partition of the whole input unless an emit has failed |
| `Rehydration.RewriteStream` | backend/internal/privacy/rehydrator.go:53-107 | For all writes of a text whose markers all belong to mapped tokens and whose filled form has none, the output is the filled text if and only if no mapped token lies across a cut at total minus 64; with an empty mapping the output is the input |
| `Rehydration.StreamOutput` | backend/internal/privacy/rehydrator.go:72-81 | Chunk by chunk: the filled text if no mapped token lies across a cut, and otherwise a marker is left in the output |
| `Rehydration.CutsOfWrites` | backend/internal/privacy/rehydrator.go:72-81 | The chunk boundaries the buffer produces are the cuts at total minus 64 |
| `Rehydration.TokenIsCut` | backend/internal/privacy/rehydrator.go:72-81 | A failing run: a mapped token followed by 63 bytes in one write is cut |
| `SteadyTexts.Parse` | backend/internal/privacy/rehydrator.go:34-46 | Every text is the rendering of characters and well-formed tokens |
| `SteadyTexts.WholeSteady` | backend/internal/privacy/rehydrator.go:34-46 | On any text in which replacing mapped tokens never makes a new one, unmapped and mangled tokens included, Whole replaces exactly the mapped ones, for every iteration order |
| `SteadyTexts.ComesBackIff` | backend/internal/privacy/rehydrator.go:34-46 | A redacted text, whether or not it held tokens before, comes back if and only if no mapped token stands outside its kept spans, as long as replacing makes no new token |
| `SteadyTexts.RedactsSteady` | backend/internal/privacy/rehydrator.go:34-46 | Texts whose filled form has no marker are such texts |
| `SteadyTexts.NestedTokens` | backend/internal/privacy/rehydrator.go:34-46 | A text that is not so: a value completes a token around it, and two iteration orders give two results |
| `SteadyTexts.CutIsClear` | backend/internal/privacy/rehydrator.go:72-81 | A cut at a piece boundary or inside an unmapped token has no mapped token across it |
| `SteadyTexts.StreamSteady` | backend/internal/privacy/rehydrator.go:65-107 | Chunk by chunk such a text is filled like the whole if no mapped token lies across a cut |
| `SteadyTexts.StreamDiffers` | backend/internal/privacy/rehydrator.go:65-107 | It comes out otherwise if one does, for values that are not empty and do not begin with an angle bracket |
| `SteadyTexts.StreamIsWhole` | backend/internal/privacy/rehydrator.go:65-107 | For all writes of such a text the stream emits what Whole makes of everything written if, and for such values only if, no mapped token lies across a cut at total minus 64 |
| `PrivacyEngine.MergedRestores` | backend/internal/privacy/engine.go:43-50 | Under the merged mapping each message is restored, whatever the others added to it |
| `PrivacyEngine.RequestRestored` | backend/internal/privacy/engine.go:34-60 | All messages of a request are restored under its merged mapping |
| `PrivacyEngine.ContentChangesIff` | backend/internal/privacy/engine.go:34-60 | A message made of parts is overwritten, by one string, exactly when a rule matches in its texts joined together |
| `PrivacyEngine.Engine.RedactRequest` | backend/internal/privacy/engine.go:34-60 | Every message with a text, parts joined, is searched by all rules and becomes its redaction; the count is that of the tokens message by message; the merged mapping is stored unless nothing was found, and restores every message |
| `PrivacyEngine.Engine.RehydrateResponse` | backend/internal/privacy/engine.go:65-85 | Each choice becomes what Whole makes of it and the entry is dropped; without an entry nothing changes |
| `PrivacyEngine.Echo` | backend/internal/privacy/engine.go:34-85 | End to end: a model that echoes the redacted messages hands back the original texts and leaves no entry behind |
| `PrivacyEngine.Converse` | backend/internal/privacy/engine.go:34-85 | End to end for any reply in which replacing tokens makes no new one: every token the model was given, wherever it puts it, comes back as the value it stands for |
| `CheckDigits.LuhnValid` | backend/internal/privacy/redactor.go:208-232 | Accepts exactly 13 to 19 digits, others ignored, whose Luhn sum (Annex B of ISO/IEC 7812-1) is a multiple of ten |
| `CheckDigits.LuhnCompletes` | backend/internal/privacy/redactor.go:208-232 | A digit completes a payload of 12 to 18 digits if and only if it brings the payload sum of Annex B of ISO/IEC 7812-1, from the right every other digit doubled and the digits added up, to a multiple of ten |
| `CheckDigits.SeparatorsIgnored` | backend/internal/privacy/redactor.go:209-214 | What is no digit makes no difference, wherever it stands |
| `CheckDigits.LuhnDetectsOneDigit` | backend/internal/privacy/redactor.go:208-232 | Changing one digit of a valid number makes it invalid |
| `CheckDigits.LuhnAdjacentSwap` | backend/internal/privacy/redactor.go:208-232 | Swapping two different adjacent digits of a valid number goes unnoticed if and only if they are 0 and 9 |
| `CheckDigits.ChunkValue` | backend/internal/privacy/redactor.go:261-266 | The value of a chunk of at most nine digits, no intermediate value reaching 10^9 |
| `CheckDigits.Mod97` | backend/internal/privacy/redactor.go:253-268 | The chunked loop computes the whole number modulo 97 (MOD 97-10 of ISO/IEC 7064) |
| `CheckDigits.Expand` | backend/internal/privacy/redactor.go:241-253 | The expansion of letters to numbers succeeds iff there are only digits and capitals |
| `CheckDigits.IbanValid` | backend/internal/privacy/redactor.go:235-269 | Accepts exactly the texts of 15 to 34 digits and capitals, spaces and case aside, whose rearranged expansion is 1 modulo 97 |
| `CheckDigits.IbanCompletes` | backend/internal/privacy/redactor.go:235-269 | Check digits complete a country code and an account number if and only if they bring the number with 00 in their place to 1 modulo 97 (section 6 of ISO 13616-1) |
| `CheckDigits.CaseAndSpacesIgnored` | backend/internal/privacy/redactor.go:236 | Spaces and the case of ASCII letters make no difference |
| `CheckDigits.IbanOneChar` | backend/internal/privacy/redactor.go:243-268 | Changing a character to one of its kind shifts the number by the difference times a power of ten |
| `CheckDigits.IbanDetectsOneChar` | backend/internal/privacy/redactor.go:235-269 | Changing one digit to another digit, or one letter to another letter, makes a valid IBAN invalid |
| `Rotation.RotateHalves` | backend/internal/router/router.go:478-488 | A rotation is the two halves exchanged, hence a permutation |
| `Rotation.RoundRobinFair` | backend/internal/router/router.go:478-488 | Over any k consecutive counter values two deployments lead equally often up to one, and each leads exactly once in any n |
| `Rotation.SomeCallLeads` | backend/internal/router/router.go:336-354 | With g and m coprime every member is led by some of m consecutive calls |
| `Rotation.CommonDivisorStarves` | backend/internal/router/router.go:336-354 | A common divisor of g and m confines the lead to one residue class |
| `Rotation.TiesFairIffCoprime` | backend/internal/router/router.go:336-354 | In any m consecutive calls each of m members leads exactly once if and only if the number of tie groups g and m are coprime |
| `Ordering.SortInPlace` | backend/internal/router/router.go:324-330 | The in-place insertion sort computes the stable sort of the list |
| `Ordering.SortedAscending` | backend/internal/router/router.go:324-330 | The sort is a permutation with ranks ascending |
| `Ordering.SortedStable` | backend/internal/router/router.go:324-330 | The sort keeps elements of equal rank in their order |
| `Ordering.RotateInPlace` | backend/internal/router/router.go:337-355 | The grouping loop rotates every run of two or more equal known ranks by the counter and bumps it once per run |
| `Ordering.FromGroup` | backend/internal/router/router.go:337-355 | The k-th tie group meets the counter k bumps later |
| `Ordering.RotateTiesPermutes` | backend/internal/router/router.go:337-355 | The rotation of ties is a permutation |
| `Ordering.TieOrderSpec` | backend/internal/router/router.go:321-357 | The ordering is a permutation with ranks ascending in which unknown ranks keep their input order |
| `Ordering.CounterMoves` | backend/internal/router/router.go:336-354 | Before call t the counter is c + t*g, where every call bumps it once per tie group |
| `Ordering.NoTiesNoBumps` | backend/internal/router/router.go:349-351 | Where no two ranks are the same the counter stands still |
| `Ordering.TieOrderLead` | backend/internal/router/router.go:336-354 | In the result of call t of a run from counter c, the k-th of g groups is led by its member (c + t*g + k) mod m |
| `Ordering.GroupMember` | backend/internal/router/router.go:337-355 | A tie group as a whole is rotated: behind its leader the others follow it round |
| `Ordering.TieOrderFair` | backend/internal/router/router.go:336-354 | For distinct deployments: each member of a tie group of m heads the group in exactly one of m consecutive results if and only if g and m are coprime, against the unconditional fairness the comment claims |
| `Ordering.TwoPairsStuck` | backend/internal/router/router.go:336-354 | Priorities 1, 1, 2, 2: whatever the counter, the first of either pair is the same in every call |
| `Ordering.PriorityOrdered` | backend/internal/router/router.go:321-357 | Computes that ordering by priority, counting its bumps: a permutation with priorities ascending |
| `Ordering.PrioritySpec` | backend/internal/router/router.go:321-357 | A permutation with priorities ascending |
| `Ordering.Cheapest` | backend/internal/router/router.go:363-432 | Computes that ordering by known cost, counting its bumps: nothing stands behind a dearer deployment, input and output price together, and those without a price come last in input order |
| `Ordering.CheapestSpec` | backend/internal/router/router.go:363-432 | A permutation with the sums of both prices ascending and the deployments without a price last in input order |
| `Sampling.RoundRobin` | backend/internal/router/router.go:478-488 | Returns the list rotated to the counter value taken, and moves the counter by one |
| `Sampling.CallsLedEqually` | backend/internal/router/router.go:478-488 | Over any k results in a row two of distinct deployments come first equally often up to one, and each of n exactly once in n results |
| `Sampling.Weighted` | backend/internal/router/router.go:441-476 | Round robin iff all effective weights are 1; otherwise a draw below the total picks a primary, which is always found, and the others follow in their order |
| `Sampling.DefaultTotal` | backend/internal/router/router.go:441-456 | The total is the number of deployments exactly when every effective weight is 1 |
| `Sampling.PrimaryLands` | backend/internal/router/router.go:457-466 | The search lands on a deployment iff the draw is below the total |
| `Sampling.PrimaryRange` | backend/internal/router/router.go:457-466 | Deployment i is the primary for exactly the draws between the sums of the weights before and up to it |
| `Sampling.WeightedShare` | backend/internal/router/router.go:457-466 | Among all draws below the total a deployment is the primary of as many as its weight says, and of one if that is not positive |
| `Sampling.LeastLatency` | backend/internal/router/router.go:490-523 | For all jitters: a permutation in which the latency at i exceeds that at a later k by at most 9 * (k - i) |
| `Sampling.JitterBound` | backend/internal/router/router.go:502-520 | Jittered insertion leaves every neighbouring pair at most 9 ms out of order |
| `Sampling.NoJitterSorts` | backend/internal/router/router.go:508-520 | Without jitter the latencies come out ascending |
| `Sampling.JitterBoundTight` | backend/internal/router/router.go:502-520 | The bound 9 * (n - 1) for the primary is reached |
| `ModelRouting.BuildOrgIndex` | backend/internal/router/router.go:149-159 | The index holds, for every organisation, its deployments in list order, and the global ones under the nil id |
| `ModelRouting.ScanIs` | backend/internal/router/router.go:243-289 | What a request may be served by: everything without an organisation, else its own deployments if there are any, else the global ones |
| `ModelRouting.FlatLast` | backend/internal/router/router.go:122-143 | An alias listed twice has the later list |
| `ModelRouting.PrefixSplits` | backend/internal/router/router.go:204-215 | What stands before the first slash, if it is a known prefix, names the provider, the rest is the model |
| `ModelRouting.ModelRouter.constructor` | backend/internal/router/router.go:111-143 | Index and counters agree with the alias table from the start |
| `ModelRouting.ModelRouter.Reload` | backend/internal/router/router.go:568-589 | The table is replaced and the index rebuilt; surviving aliases keep their counters, new ones start at 0 |
| `ModelRouting.ModelRouter.Order` | backend/internal/router/router.go:291-316 | By the strategy name of the first deployment, or the router's own where that is blank, in each of the five ways; a list of one or none is left alone; only the alias's own counter moves, as the strategy says |
| `ModelRouting.ModelRouter.ResolveByProviderModel` | backend/internal/router/router.go:217-228 | One deployment that serves the pair under some alias, or nothing iff there is none |
| `ModelRouting.ModelRouter.Resolve` | backend/internal/router/router.go:161-180 | The alias's deployments in the order of its strategy; without any, a deployment that serves the provider/model reading of the alias, or the error iff none does |
| `ModelRouting.ModelRouter.ResolveForOrg` | backend/internal/router/router.go:243-289 | The plain scan (all, else the organisation's, else the global) in the order of the strategy, never empty, or the error exactly when the scan is empty; without deployments under the alias, success only with a serving deployment that is global or the organisation's own, and surely if there is one and all are; never another organisation's deployments, on any path |
| `CircuitBreaking.CircuitBreaker.Allow` | backend/internal/router/circuit_breaker.go:65-91 | The admission step of the state machine |
| `CircuitBreaking.CircuitBreaker.ReportSuccess` | backend/internal/router/circuit_breaker.go:94-102 | The success step of the state machine |
| `CircuitBreaking.CircuitBreaker.ReportFailure` | backend/internal/router/circuit_breaker.go:106-122 | The failure step of the state machine |
| `CircuitBreaking.InvAlways` | backend/internal/router/circuit_breaker.go:65-122 | In every reachable state of whole calls: closed iff failures < threshold iff openedAt is 0; a probe is in flight iff half-open, and its request has not reported yet |
| `CircuitBreaking.HalfOpenEntry` | backend/internal/router/circuit_breaker.go:72-85 | A half-open period begins by admitting one request, after the cooldown |
| `CircuitBreaking.HalfOpenAdmitsNoOther` | backend/internal/router/circuit_breaker.go:84-88 | A half-open period admits no other request until a report comes |
| `CircuitBreaking.NeverWedged` | backend/internal/router/circuit_breaker.go:65-122 | Once all requests have reported, the breaker admits the next one after the cooldown |
| `CircuitBreaking.CooldownHolds` | backend/internal/router/circuit_breaker.go:72-79 | Nothing is admitted during the cooldown, whatever failures are reported, unless a success is |
| `CircuitBreaking.FailureCoolsDown` | backend/internal/router/circuit_breaker.go:106-122 | Every failure that leaves the breaker open starts a cooldown of its own, in which nothing is admitted without a success |
| `CircuitBreaking.DisciplinedOneProbe` | backend/internal/router/circuit_breaker.go:65-122 | At every moment of a run at most the current probe is out if and only if, while half-open, nothing but the probe reports |
| `CircuitBreaking.ReportLeavesProbe` | backend/internal/router/circuit_breaker.go:94-122 | Step by step: the probe stays alone unless another request reports while half-open |
| `CircuitBreaking.Trips` | backend/internal/router/circuit_breaker.go:117-121 | As many failures as the threshold, one after the other, open a closed breaker |
| `CircuitBreaking.UndisciplinedSecondProbe` | backend/internal/router/circuit_breaker.go:65-122 | After any report that breaks that discipline, from any reachable half-open state, the run can go on to a second probe beside the first |
| `CircuitBreaking.LateReportTwoProbes` | backend/internal/router/circuit_breaker.go:106-122 | A late failure of an older request leads to two probes at once |
| `BreakerAtomics.OwnedAlways` | backend/internal/router/circuit_breaker.go:65-122 | Interleaved at single atomic operations: while half-open, the goroutine that made it so has yet to leave that state |
| `BreakerAtomics.AllowAlone` | backend/internal/router/circuit_breaker.go:65-91 | The atomic operations of Allow, uninterrupted, change the breaker and answer exactly as the whole call |
| `BreakerAtomics.SuccessAlone` | backend/internal/router/circuit_breaker.go:94-102 | So do those of ReportSuccess |
| `BreakerAtomics.FailureAlone` | backend/internal/router/circuit_breaker.go:106-122 | So do those of ReportFailure |
| `BreakerAtomics.SerialRefines` | backend/internal/router/circuit_breaker.go:65-122 | Every run of whole calls is an interleaving of atomic operations with the same breaker, verdicts and outstanding requests |
| `BreakerAtomics.SerialOneProbe` | backend/internal/router/circuit_breaker.go:65-122 | Where calls are uninterrupted, each half-open period admits only the goroutine that began it, and after every call the running goroutines are the requests outstanding |
| `BreakerAtomics.NeverWedgedInterleaved` | backend/internal/router/circuit_breaker.go:65-122 | Under every interleaving, once all goroutines are through, the next Allow after the cooldown admits |
| `BreakerAtomics.SecondFindsFlagClear` | backend/internal/router/circuit_breaker.go:81-88 | From any open breaker past its cooldown: between the swap to half-open and the store of the flag a second goroutine is admitted |
| `BreakerAtomics.TwoProbesInterleaved` | backend/internal/router/circuit_breaker.go:65-122 | From the start and for any settings, an interleaving that ends half-open with two requests admitted and running |
| `BreakerAtomics.OneProbePerPeriod` | backend/internal/router/circuit_breaker.go:65-122 | For every interleaving of atomic operations from the start: each half-open period admits only the goroutine that began it if and only if, while half-open, none reaches its swap of the probe flag with the flag clear or its test of the time of opening with that time cleared |
| `BreakerAtomics.OneProbeFrom` | backend/internal/router/circuit_breaker.go:65-122 | The same from any moment of an interleaving |
| `BreakerAtomics.WhyFlagIsClear` | backend/internal/router/circuit_breaker.go:81-122 | The flag is clear there for one of two reasons: the winner of the period has yet to store it, or a late report has cleared it |
| `BreakerAtomics.WhyNeverOpened` | backend/internal/router/circuit_breaker.go:72-76 | The time of opening is cleared there for one reason: a success has cleared it after the winner of the period had read it |
| `BreakerAtomics.SecondFindsNeverOpened` | backend/internal/router/circuit_breaker.go:72-101 | From any open breaker past its cooldown, with a success about to clear the time of opening: two goroutines end up running half-open although none found the flag clear |
| `BreakerAtomics.TwoProbesFlagSet` | backend/internal/router/circuit_breaker.go:65-122 | From the start and for any settings, an interleaving that comes to that |
| `Fallback.ExecuteWithRetry` | backend/internal/router/fallback.go:80-115 | Makes exactly the calls of the specified attempts, opening one body iff one responds |
| `Fallback.RetryStops` | backend/internal/router/fallback.go:87-114 | The first attempt that responds ends it, whatever its status; errors are retried, at most Retries times (once when Retries <= 0), until the context is done |
| `Fallback.RetryLimit` | backend/internal/router/fallback.go:80-115 | With Retries = n there are at most n + 1 attempts, two for n <= 0, and exactly so many where all fail and the context lasts |
| `Fallback.TryDeployment` | backend/internal/router/fallback.go:30-76 | One deployment: not called when refused, otherwise reported to its breaker exactly once |
| `Fallback.ExecuteWithFallbackForOrg` | backend/internal/router/fallback.go:22-78 | The loop over the deployments has the outcome, the events and the breaker states of the specified run |
| `Fallback.RunCounts` | backend/internal/router/fallback.go:29-76 | Every admitted deployment is reported exactly once, no other is called, and none is called more than Retries + 1 times |
| `Fallback.RunSuccess` | backend/internal/router/fallback.go:43-75 | Success is reported for the deployment that serves and for no other |
| `Fallback.RunBalance` | backend/internal/router/fallback.go:29-115 | Responses opened minus closed is 1 on success and 0 on error, and what is returned has a status below 500 |
| `Fallback.RunResult` | backend/internal/router/fallback.go:29-78 | The first admitted deployment that answers below 500 serves; without fallback only the first is tried |
| `Fallback.VisitSettles` | backend/internal/router/fallback.go:30-76 | A visit leaves no request outstanding at the breaker, so its guarantees apply |
| `Speculative.Collect` | backend/internal/router/speculative.go:91-138 | Errs iff both branches err; otherwise the first to arrive without error wins and a later good one is closed |
| `Speculative.BranchRan` | backend/internal/router/speculative.go:75-89 | The events of a branch, whether it ran or not, fit its result |
| `Speculative.SpeculativeBalance` | backend/internal/router/speculative.go:91-138 | Whatever the arrival order, one body is left open if there is a winner and none otherwise |
| `Speculative.ExecuteSpeculative` | backend/internal/router/speculative.go:42-154 | For any courses of the two branches, arriving in any order, and for the plain path taken without two different aliases: the first to serve wins, elapsed times are each branch's own, one body is left open if there is a winner and none otherwise, and the error comes iff nothing serves |
| `SemanticCache.Ring.Add` | backend/internal/semcache/semcache.go:159-165 | After a store the ring holds exactly the last maxEntries records, oldest first from `next` |
| `SemanticCache.Best` | backend/internal/semcache/semcache.go:116-131 | The scan finds a live record of maximal positive similarity, if there is one |
| `SemanticCache.Cache.constructor` | backend/internal/semcache/semcache.go:77-89 | Non-positive settings are replaced by the defaults |
| `SemanticCache.Cache.Lookup` | backend/internal/semcache/semcache.go:98-138 | A hit iff a live record among the last maxEntries stored for this bucket reaches the threshold, and then one of maximal similarity; the counters agree |
| `SemanticCache.Cache.Store` | backend/internal/semcache/semcache.go:143-166 | Appends to the history of its bucket and touches no other; stores nothing without an entry or embedding |
| `SemanticCache.StoreThenLookup` | backend/internal/semcache/semcache.go:98-166 | What is stored is found again up to the end of its time to live and, alone in its bucket, not after |
| `SemanticCache.LastStep` | backend/internal/semcache/semcache.go:159-165 | The last n of a longer history drop the oldest once there are n |
| `SemanticCache.Overwritten` | backend/internal/semcache/semcache.go:163-165 | Overwriting the slot at `next` drops the oldest record and adds the new one last |
| `Discounts.DiscountTable.Declare` | backend/internal/db/savings.go:208-242 | A rate in [0, 1) expires the active rows of that organisation and provider and adds its own, pending; any other changes nothing |
| `Discounts.DiscountTable.Countersign` | backend/internal/db/savings.go:247-262 | Attests exactly the active row of that id that awaits it, or fails and changes nothing |
| `Discounts.DiscountTable.Revoke` | backend/internal/db/savings.go:266-270 | Expires exactly the active row of that id |
| `Discounts.DiscountTable.ListActive` | backend/internal/db/savings.go:158-171 | Exactly the rows that have not expired |
| `Discounts.RunKeeps` | backend/internal/db/savings.go:208-270 | After any run of declarations, countersignatures and revocations there is at most one active row per organisation and provider, and no terms, attestation or expiry have been undone |
| `Discounts.CostEngine.LoadEffectiveDiscounts` | backend/internal/cost/catalog.go:229-260 | After a reload the map has a rate for an organisation and provider if and only if a row that is neither expired nor still to be countersigned gives it |
| `Discounts.DiscountIsTheRows` | backend/internal/cost/catalog.go:278-298 | The discount is that of the unique active countersigned row, else of the global one, else 0, and lies in [0, 1) |
| `Discounts.CostEngine.Calculate` | backend/internal/cost/engine.go:186-241 | Every endpoint charges for its own unit, a chat for prompt and completion less what cached tokens save; zero without a price, and an unknown endpoint is an error only with one |
| `Discounts.ChatUnits` | backend/internal/cost/engine.go:201-209 | Cached tokens are charged at the cache price, where there is one, and the other prompt tokens at the prompt's |
| `Discounts.PriceComesFrom` | backend/internal/cost/engine.go:139-160 | The signed catalog wins over custom rows, these over the embedded prices |
| `Discounts.CostEngine.BaselineCost` | backend/internal/cost/catalog.go:301-321 | The chat cost at the discounted rate, cut off at zero |
| `Discounts.BaselineScales` | backend/internal/cost/catalog.go:301-321 | The discount scales the baseline by exactly 1 - d |
| `Discounts.BaselineIsCalculate` | backend/internal/cost/catalog.go:301-321 | Without a discount it equals the chat total iff that is not negative, as when no more tokens are cached than prompted |
| `HashChain.SameEndSuffix` | backend/internal/receipt/receipt.go:127-151 | Two linked chains with the same final link agree as far back as the shorter goes if and only if no two different entries equally far from the ends have the same link |
| `HashChain.SameEndSameChain` | backend/internal/receipt/receipt.go:127-151 | From a blank start they are identical under exactly that condition |
| `HashChain.BlankStartNeeded` | backend/internal/receipt/receipt.go:127-133 | Without the blank start a chain and its own tail cannot be told apart |
| `Receipts.Signer.constructor` | backend/internal/receipt/receipt.go:79-83 | A new signer has no tails |
| `Receipts.Signer.Sign` | backend/internal/receipt/receipt.go:102-153 | Fills id, time, key, links and signature; under any interleaving of organisations each one's receipts stay one chain by id and hash, from a blank start if receipts come in without links, and every receipt signed verifies |
| `Receipts.Extend` | backend/internal/receipt/receipt.go:127-151 | A receipt linked to its organisation's tail extends that chain and leaves the others alone |
| `Receipts.Issue` | backend/internal/server/handlers/receipts.go:52-73 | The handler's receipts come in without links and go out with id, time, key and the links of the chain's last receipt, so every organisation's chain has a blank start |
| `Receipts.Audited` | backend/internal/receipt/receipt.go:112-134 | A chain from a blank start that ends in the tail of an organisation is exactly what was signed for it, if and only if no two different receipts equally far from the ends are hashed alike |
| `Receipts.AuditedSignature` | backend/internal/receipt/receipt.go:139-156 | Under a signature given out exactly what has the same canonical bytes as the receipt signed verifies |
| `SavingsLedger.SavingsTable.PrevSavingsHashForOrg` | backend/internal/db/savings.go:538-554 | The signature of a latest row of the organisation, blank without one |
| `SavingsLedger.Writer.Write` | backend/internal/savings/writer.go:77-177 | One row more, or none when the insert fails; copied, signed and linked to the signature of the latest row, or blank when the lookup fails; priced as the declared baseline, or the served path where a part of that is blank, on the declared usage or else the served one; other organisations are unaffected, the chain is kept while lookups succeed and the organisation's rows are older, and signed rows stay verifiable |
| `SavingsLedger.Writer.Assemble` | backend/internal/savings/writer.go:77-139 | Alias default, baseline fallback to the served path, and savings as baseline minus actual cost |
| `SavingsLedger.RowLinks` | backend/internal/db/savings.go:538-554 | Linking to a latest row continues the chain |
| `SavingsLedger.AuditedRows` | backend/internal/savings/canonical.go:111-130 | Two chains of verifying rows that end in the same signature hold the same signed rows if and only if no two different ones equally far from the ends share a signature; otherwise some signature verifies for two bodies |
| `SavingsLedger.FailedLookupBreaks` | backend/internal/savings/writer.go:144-147 | A blank link after earlier rows keeps the chain only if the last row was unsigned |
| `SavingsLedger.UndeclaredBaseline` | backend/internal/savings/writer.go:122-139 | The row written for a decision without a baseline, at a known price: its savings are minus the discount times the actual cost, zero, as the comment says, iff one of the two is |
| `SavingsLedger.NegativeSavings` | backend/internal/savings/writer.go:122-139 | One decision with a declared and countersigned discount of a fifth whose row saves minus 2 |
| `SavingsLedger.PositiveSavings` | backend/internal/savings/writer.go:122-139 | One decision with a declared baseline ten times as dear whose row saves 90 |
| `Policy.Intersect` | backend/internal/policy/policy.go:239-253 | The common elements, an empty list counting as no restriction |
| `Policy.MergeAllow` | backend/internal/policy/policy.go:109-127 | One step of the fold |
| `Policy.Engine.Evaluate` | backend/internal/policy/policy.go:84-107 | Over the global rules and then the organisation's: the first deny that agrees with the input refuses with its reason; otherwise the least positive cap, the narrowed allowlists, the tags and classes of all agreeing rules in order and of no other, and the refusals of provider and region |
| `Policy.MatchesIffAgrees` | backend/internal/policy/policy.go:178-224 | A rule matches unless a filled-in field of one of its conditions disagrees with the input |
| `Policy.SkippedRule` | backend/internal/policy/policy.go:157-175 | A rule with a field that disagrees changes nothing: the decision is that of the rules without it |
| `Policy.NarrowAllShared` | backend/internal/policy/policy.go:239-253 | Lists that share an element narrow to their intersection |
| `Policy.ConjunctionIffShared` | backend/internal/policy/policy.go:98-103 | Every provider that passes lies in all the lists if and only if the lists share an element or there are none |
| `Policy.AllowedLiesInAll` | backend/internal/policy/policy.go:98-103 | An allowed provider lies in every matching list that restricts it, regions likewise, under that condition |
| `Policy.OrderIndependent` | backend/internal/policy/policy.go:84-107 | Rules that are the same as a set, in any order and repetition, give the same verdict, caps and allowlists as sets, under that condition |
| `Policy.SameDecision` | backend/internal/policy/policy.go:84-107 | Hence decisions over them agree in verdict, cap, allowlists, tags and classes |
| `Policy.OrderIndependentIff` | backend/internal/policy/policy.go:239-253 | The allowlists are the same as sets for every order and repetition of the rules if and only if the matching lists share an element or there are none |
| `Policy.AnotherOrder` | backend/internal/policy/policy.go:239-253 | Rules whose lists share nothing can be repeated so that a restriction is lifted, or one imposed |
| `Policy.OrderMatters` | backend/internal/policy/policy.go:239-253 | Disjoint allowlists: the same rules in another order admit another provider |
| `Policy.MetTwice` | backend/internal/policy/policy.go:88-94 | A request without an organisation meets the global rules twice, which can lift a restriction |
| `Policy.TwiceIsOnce` | backend/internal/policy/policy.go:88-94 | Meeting the same rules twice makes no difference when the lists share an element |
| `ShadowRunner.LimitAlways` | backend/internal/smartroute/shadow.go:49-59 | Under every interleaving of single atomic adds: inflight is the holders and those about to back out, and holders never exceed the limit |
| `ShadowRunner.AdmittedIff` | backend/internal/smartroute/shadow.go:53-58 | A slot is given iff holders and those backing out leave one |
| `ShadowRunner.Drains` | backend/internal/smartroute/shadow.go:49-59 | When all are done the counter is zero and launched counts exactly those not refused |
| `ShadowRunner.RefusedWhileFree` | backend/internal/smartroute/shadow.go:53-56 | A caller can be refused while nobody holds a slot |
| `SseFraming.PayloadsAreTheBlocks` | backend/internal/providers/anthropic/stream.go:108-172 | The read loop dispatches, per block of lines, the data values joined by line feeds (section 9.2.6 of the WHATWG HTML Standard), trimmed, except empty ones and `[DONE]`; and the unfinished last block too |
| `SseFraming.ScansLines` | backend/internal/providers/anthropic/stream.go:98-131 | The lines read are those that were written, with either line ending and with or without one at the end |
| `SseFraming.ReadsWhatIsWritten` | backend/internal/ingress/anthropic/anthropic.go:484-492 | Reading what writeEvent printed gives back every payload, whole and in order |
| `Text.TrimSpaceStrips` | backend/internal/providers/anthropic/stream.go:113 | Trimming removes the white space around a trimmed text and nothing else |
| `AnthropicStream.SseState.MapEvent` | backend/internal/providers/anthropic/stream.go:191-389 | The step of the provider's state machine |
| `AnthropicStream.ChunksNameTheirMessage` | backend/internal/providers/anthropic/stream.go:196-219 | Every chunk carries the id and model of the message last started, and the time it started |
| `AnthropicStream.FragmentsFindTheirTool` | backend/internal/providers/anthropic/stream.go:230-321 | Argument fragments carry the id and name of the tool call last opened at their index |
| `ToolAssembly.CallAssembled` | backend/internal/providers/anthropic/stream.go:224-321 | Put together by id, the tool calls of any run are whole: for every tool block its own id and name, then under these exactly the fragments sent for its index until another one opens there |
| `ToolAssembly.RolesAndReasons` | backend/internal/providers/anthropic/stream.go:191-389 | Over any run there is one role, "assistant", for every message started and one finish reason for every stop reason: "length", "tool_calls" or, for all others, "stop" |
| `AnthropicStream.ToolsNumbered` | backend/internal/providers/anthropic/stream.go:230-237 | Tool calls are numbered from 0 in the order they open, and no two indices share a number |
| `AnthropicStream.UsagePassedOn` | backend/internal/providers/anthropic/stream.go:337-357 | The usage the handler bills is the one the stream reported last, its total the sum of both counts |
| `AnthropicStream.ParseSSE` | backend/internal/providers/anthropic/stream.go:81-186 | The read loop sends what its payloads map to, an error for each that does not decode, then the end mark |
| `StreamTranslation.StreamTranslator.Feed` | backend/internal/ingress/anthropic/anthropic.go:404-473 | The step of the translator on one line, in bytes |
| `StreamTranslation.StreamTranslator.FinishStream` | backend/internal/ingress/anthropic/anthropic.go:475-482 | The end mark emits message_stop iff a chunk has finished |
| `StreamTranslation.TranslateStream` | backend/internal/ingress/anthropic/anthropic.go:376-384 | The whole translation is the run over the split lines |
| `StreamComposition.OpensFirst` | backend/internal/ingress/anthropic/anthropic.go:419-441 | message_start and content_block_start come once, before anything else, iff a chunk comes at all |
| `StreamComposition.NeverReopens` | backend/internal/ingress/anthropic/anthropic.go:419-441 | A started stream never emits them again |
| `StreamComposition.TextConserved` | backend/internal/ingress/anthropic/anthropic.go:442-452 | For any input the deltas, the chunks' texts and outputText are the same text |
| `StreamComposition.StopsAreHeard` | backend/internal/ingress/anthropic/anthropic.go:454-472 | For every chunk with a finish reason, and only these, the block stops and the mapped reason is reported with the completion tokens the chunk carries, or none |
| `StreamComposition.MessageIff` | backend/internal/ingress/anthropic/anthropic.go:404-482 | The output is one complete message if and only if one chunk finishes, one end mark follows it, and nothing after it finishes or has text |
| `StreamComposition.SaysTexts` | backend/internal/providers/anthropic/stream.go:191-389 | Events without a stop reason, tool calls included, pass on nothing but their non-empty texts |
| `StreamComposition.ReasonSurvives` | backend/internal/providers/anthropic/chat.go:568-582 | A stop reason survives both mappings iff it is end_turn, max_tokens or tool_use; stop_sequence becomes end_turn |
| `StreamComposition.FinishReasonReturns` | backend/internal/ingress/anthropic/anthropic.go:352-365 | A finish reason survives the way back iff it is stop, length or tool_calls; only content_filter becomes stop_sequence |
| `StreamComposition.Composition` | backend/internal/ingress/anthropic/anthropic.go:404-482 | For every run with one stop reason and no text after it: one start, one block, the same non-empty texts in order, one stop and the mapped reason; its usage is reported as zero |
| `StreamRelay.Relay` | backend/internal/server/handlers/chat.go:442-460 | The same from bytes to bytes, for every body whose payloads decode to such a run, however they are spelled and framed: framing, decoding, the handler's lines and the translator |
| `StreamRelay.ReadBack` | backend/internal/providers/anthropic/stream.go:108-146 | The provider, fed with what the translator wrote, maps exactly the events that were written |
| `StreamRelay.WrittenAs` | backend/internal/ingress/anthropic/anthropic.go:484-492 | Every event is written under the name of its kind, on two lines and a blank one |
| `StreamRelay.PrintedReads` | backend/internal/server/handlers/chat.go:447-460 | The translator reads from the printed lines exactly the chunks and the end mark |
| `StreamRelay.TextRoundTrip` | backend/internal/ingress/anthropic/anthropic.go:404-492 | The text of any chunks survives the translation and the provider reading it back |

## Left out

- Rehydration.RewriteStream: covers texts whose markers all lie in mapped tokens and whose filled form has none; `SteadyTexts.StreamIsWhole` extends it to every text in which replacing tokens never makes a new one. Outside these the result of `Whole` itself can depend on the iteration order, and only the partition into rewritten chunks is stated.
- PrivacyEngine.Echo: the model answers with the redacted messages themselves; `PrivacyEngine.Converse` covers other replies.
- CheckDigits.IbanValid: upper-casing covers ASCII letters; other characters that Unicode maps to ASCII capitals are not modelled, and lengths count characters.
- Redaction.SortSpans: stands for `sort.Slice`, of which only order and contents are used; it is not the library's algorithm.
- ModelRouting.ModelRouter.ResolveForOrg: for an alias without deployments it does not say which of several matches map iteration picks; where only some are the organisation's own or global, both outcomes are possible.
- Ordering.TieOrderFair: consecutive calls are those of one strategy on one unchanged list; calls of other requests that share the counter are not interleaved.
- Fallback.ExecuteWithFallbackForOrg: deployments have breakers of their own; lazy breaker creation, the latency average, the failure counter and the identity of the last error are not modelled.
- Speculative.ExecuteSpeculative: what cancelling the sibling does to its run is part of the course given for it.
- Receipts.Signer.Sign: the marshalling error is not modelled, since JSON of these fields cannot fail for real numbers.
- SavingsLedger.Writer.Write: complexity score, recording and key ids, the quality scorer and signature metadata are only copied by the code and are left out; the rounding of NUMERIC columns is not modelled.
- SemanticCache.Cache.Store: an entry is a value; that the code also stamps the caller's own entry is not modelled.
- Policy.Engine.Evaluate: refusals carry the provider or region as data instead of a quoted message; the rule field `allow` is ignored by the code and left out.
- ShadowRunner.LimitAlways: assumes that a release function is called at most once; the outcome counters of `Observe` are left out.
- AnthropicStream.ParseSSE: no line limit of 1 MB, read error, HTTP status or cancelled context.
- StreamTranslation.StreamTranslator.Feed: texts are valid Unicode, so that JSON strings decode to what was encoded; the translator emits nothing for tool calls, and so does the model.
- Machine integers: counters do not wrap, and `int(uint64)` conversions do not overflow.
- Floating point: costs, discounts and similarities are real numbers; cosine similarity is an unknown function.
- Bytes: strings are sequences of characters; the 64-byte window and the scanner count characters.
- Regular expressions: the matches of a rule are any in-bounds pairs; that built-in patterns never match `<` or `>` is not needed.
- Concurrency outside the breaker and the shadow limiter: calls are atomic; unlocked reads in `order` and `Lookup` are not interleaved with writes.
- The logistic-regression classifier, its trainer and the daily rollup: rounding and aggregation only.
- HTTP clients and servers, SQL, Redis, S3, WASM, plugins, logging, metrics, configuration, UI and SDKs: I/O.
